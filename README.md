# miceband-server: a verified model of its request-handling logic

miceband-server is an Express server. It takes an uploaded video clip and
trims it with ffmpeg. It grabs the clip's last frame and has the MiniMax API
generate a new clip from that frame. It optionally doubles the generated clip
with its own reverse, adds background music, and appends the result to the
trimmed upload. Separately, firebase/firestore.js offers helpers that upload
a clip to Firebase Storage and delete one given its download URL; the video
route of index.js does not call them, and this model treats them on their
own.

This project models in Dafny the parts of that server that are logic and not
I/O:

- **Request validation** (`utils/validation.js`): JavaScript values are a
  datatype. `Number(...)` on strings and `String(...)` on numbers are abstract
  functions. `String.prototype.trim` is modelled exactly.
- **Retry with exponential backoff** (`utils/axiosConfig.js`): a loop over the
  outcomes of successive calls. The sleeps are recorded as a list of delays.
- **The video route of `index.js`**: temp-path naming, the trailing-`.mp4`
  rewrites, the reverse filter graph, the last-frame seek time, the
  concat-demuxer list, the status poll loop and `cleanupFiles`. What ffmpeg
  reads back from a concat list is stated against `Ffmpeg.ReadConcatList`,
  which follows the concat demuxer's reading of a list: lines that end at
  "\n", "\r" or "\r\n", a `file` keyword, and an argument taken as
  `av_get_token` takes it, with quotes switching quoting on and off.
  `Ffmpeg.LastFrameTime`, `Ffmpeg.HasAudioStream` and `Generation.PollForFileId`
  stand alone: in the route they sit inside stages whose outcome is an input.
  The `World.hasAudio` flag stands for `HasAudioStream` of the probed streams. The route
  handler itself is a sequence of awaited stages over a modelled file system.
  Each ffmpeg run or HTTP exchange is a stage whose success the environment
  decides.
- **Firebase Storage URLs** (`firebase/firestore.js`):
  - the object name an upload is stored under;
  - the object path `deleteVideoFromFirebase` extracts from a download URL: a
    host check, then `decodeURIComponent`, then the leftmost match of
    `o\/(.+?)\?`;
  - a round trip showing that a download URL of an uploaded clip leads back to
    that clip's object name, for bucket names without "/" or "%" that do not
    end in "o".
- **The startup environment check** (`utils/envValidation.js`): over an
  environment map.

Modules:

- `Wrappers`: `Option` and `Result`.
- `Strings`: decimal rendering of naturals, substring tests, `indexOf`, `join`.
- `JsValues`: JS values, truthiness, `Number`, `String`, `trim`.
- `Validation`, `Retry`, `EnvValidation`: one source file each.
- `VideoPaths`, `Ffmpeg`, `Generation`, `Pipeline`: `index.js`.
- `Firestore`: `firebase/firestore.js`.

## Model

Lemmas without a row here (`Pipeline.WholePrefix`, `Pipeline.AppendThree`,
`Pipeline.Flatten`, `Pipeline.UnionOfSingletons`, `Strings.ConcatAssociates`,
`Validation.CompleteRequestBodyFields` and the like) are steps of the proofs
below. They state nothing about the server.

| member | source | states |
|---|---|---|
| Validation.Message | utils/validation.js:7-35 | Every error message begins with the name of the offending field and has text after it. |
| Validation.ValidateRequired | utils/validation.js:5-9 | Throws exactly when the value is undefined, null or the empty string; the error is "`<field>` is required". |
| Validation.ValidateNumber | utils/validation.js:11-24 | Succeeds iff the value is present, `Number(value)` is not NaN and lies within the non-null bounds; returns that number. Each error is raised exactly in its own case, in the order required, NaN, below min, above max: a number below min gets the "at least" error, and one within min but above max the "at most" error. |
| Validation.ValidateString | utils/validation.js:26-38 | Succeeds iff the value is present, is a string and its untrimmed length lies within the non-null bounds; returns the trimmed string. Each error is raised exactly in its own case, in the order required, type, too short, too long: a string shorter than minLength gets the "at least" error, and one long enough but longer than maxLength the "at most" error. |
| Validation.WhitespaceOnlyPassesLengthCheck | utils/validation.js:31-37 | A non-empty string of whitespace passes a minimum length of 1 and is returned as "". |
| Validation.ValidateVideoRequest | utils/validation.js:40-50 | Accepts iff neither check fails; an error is the one from the earliest failing check. On success clipLength is `Number(clipLength)` in [0.1, 60], the raw prompt is a string of 1 to 500 characters, and the returned prompt is its trim. |
| Validation.ClipLengthCheckedFirst | utils/validation.js:43-44 | A bad clipLength is reported whatever the prompt is. |
| Validation.WhitespacePromptAccepted | utils/validation.js:43-48 | A body with a valid clipLength and a prompt of whitespace only is accepted with the empty prompt. |
| Validation.VideoRequestRevalidation | utils/validation.js:40-50 | Validating an accepted request's own output again yields the same request, unless the trimmed prompt is empty, which is then refused as missing. |
| Validation.GenerationTypeOrDefault | utils/validation.js:66 | The result is always truthy; it is the input when that is truthy, otherwise "unknown". |
| Validation.NormalizedEmail | utils/validation.js:67 | null exactly when the email is falsy; a truthy string email comes back trimmed. |
| Validation.ValidateCompleteVideoRequest | utils/validation.js:52-69 | Accepts iff none of the four checks fails; an error is the one from the earliest failing check. On success: the three strings are trimmed; clipLength is in [0.1, 120]; doubleGeneration is the truthiness of the field; generationType defaults to "unknown"; email is null or trimmed. |
| Validation.FalseStringMeansDouble | utils/validation.js:65 | The string "false" turns double generation on. |
| Validation.TrimmedStringRevalidates | utils/validation.js:37 | A trimmed string passes `validateString` unchanged unless it is empty. |
| Validation.CompleteRequestRevalidation | utils/validation.js:52-69 | Re-validating an accepted complete request's output gives the same request iff no required string and not the email trimmed down to "". |
| JsValues.Truthy | utils/validation.js:65-67 | Exactly six values are falsy: undefined, null, false, 0, NaN and "". |
| JsValues.ToNumber | utils/validation.js:13 | Only undefined, NaN, strings and objects can convert to NaN; a Number converts to itself, null and booleans to 0 or 1. |
| JsValues.Trim | utils/validation.js:37 | `trim` never lengthens, and its result neither starts nor ends with whitespace. |
| JsValues.TrimStartDropsLeadingWhitespace | utils/validation.js:37 | `trimStart` removes the leading whitespace run and nothing else. |
| JsValues.TrimEndDropsTrailingWhitespace | utils/validation.js:37 | `trimEnd` removes the trailing whitespace run and nothing else. |
| JsValues.TrimIsTrimmedSlice | utils/validation.js:37 | `trim` returns a contiguous slice with only whitespace outside it, neither starting nor ending with whitespace. |
| JsValues.TrimFixedPoint | utils/validation.js:37 | `trim` leaves a string unchanged iff it neither starts nor ends with whitespace. |
| JsValues.TrimIdempotent | utils/validation.js:37 | Trimming twice equals trimming once. |
| JsValues.TrimShortens | utils/validation.js:37 | `trim` never lengthens, and yields "" iff the string is all whitespace. |
| Retry.BackoffTotal | utils/axiosConfig.js:41-44 | The delays baseDelay·2^k for k < n add up to baseDelay·(2^n − 1). |
| Retry.DefaultSchedule | utils/axiosConfig.js:22-44 | At the default base delay, a schedule of at most two sleeps is 1 s then 2 s, 3 s in all. |
| Retry.RetryWithBackoff | utils/axiosConfig.js:22-49 | `fn` is called at most maxRetries times, and never when maxRetries ≤ 0 (then undefined is thrown). Every call but the last failed transiently, and the last call's outcome is returned or thrown unchanged. A failed last call is a 4xx or the final attempt. One sleep follows each retried failure, with delays baseDelay·2^k. If every attempt fails transiently, all maxRetries calls are made and the last error surfaces. With the default arguments a caller sleeps at most twice, 1 s then 2 s. |
| VideoPaths.ArtifactPath | index.js:42-46 | Each temp file lies directly in /tmp: after "/tmp/" its name holds no "/", and the path holds no single quote and no line break. |
| VideoPaths.KindShowsAfterDir | index.js:42-46 | The first character after "/tmp/" is the first character of the artifact's name prefix. |
| VideoPaths.ArtifactPathsDistinct | index.js:42-46 | Two temp paths are equal iff they are the same artifact kind for the same timestamp. |
| VideoPaths.ReplaceMp4Suffix | index.js:70 | A path ending in ".mp4" keeps everything before the suffix and ends with the replacement; any other path is returned unchanged. |
| VideoPaths.ReplaceChangesPath | index.js:287 | Rewriting the suffix changes a ".mp4" path unless the replacement is ".mp4". |
| VideoPaths.DerivedPaths | index.js:70 | The double and reversed paths derived from the AI clip's path are that request's `_double.mp4` and `_reversed.mp4` artifacts. |
| Ffmpeg.LastFrameTime | index.js:152-153 | The seek time is max(0, duration − 0.1): never negative, never past the end, and strictly before the end of a non-empty clip. |
| Ffmpeg.HasAudioStream | index.js:297 | True iff some stream's codec type is "audio". |
| Ffmpeg.BuildReverseFilter | index.js:301-308 | The graph is "[0:v]reverse[v]", extended by ";[0:a]areverse[a]" with audio; the options are `-map [v]`, plus `-map [a]` with audio. The graph reads the audio input iff there is audio, and every mapped label occurs in the graph. |
| Ffmpeg.NoAudioLabelInVideoGraph | index.js:302 | The video-only graph does not mention the audio input. |
| Ffmpeg.ForwardSlashes | index.js:209 | Every backslash becomes "/", every other character stays, and the length is unchanged. |
| Ffmpeg.ConcatList | index.js:207-210 | No backslash reaches ffmpeg, and the list is as long as both paths plus the 16 characters of the two `file '...'` lines. |
| Ffmpeg.ParseEntry | index.js:207-210 | A `file '<path>'` line, for a non-empty path with no single quote and no line break, reads back as that path, whatever follows. |
| Ffmpeg.ForwardSlashesKeeps | index.js:209 | Rewriting slashes neither adds nor removes any character other than `\` and `/`. |
| Ffmpeg.ConcatListRoundTrip | index.js:207-210 | The list names the two clips in argument order, and the concat demuxer reads back exactly those two paths when neither is empty or holds a quote or a line break. |
| Ffmpeg.LineBreakCutsEntry | index.js:209 | A line break in a path ends its line: the list is refused, or its first clip is shorter than the path. |
| Ffmpeg.LineBreakInPathMisread | index.js:207-210 | A clip whose path holds a line break is never read back as written. |
| Ffmpeg.QuoteInPathDropsQuote | index.js:209 | For a path `x'y`, the quote ends the quoted part and ffmpeg reads the clip `xy`, a file that was never written. |
| Ffmpeg.QuoteInPathAddsClip | index.js:207-210 | A path holding `'`, a line break and `file '` splits in two: the list for two clips reads back as three, none of them the path written. |
| Generation.PollForFileId | index.js:174-179 | Polling stops at the first response with status "Success" and a truthy file id, and returns that id. Every earlier response leads to another poll. There is no result iff no response qualifies. 10 s is slept before each poll. |
| Pipeline.Executed | index.js:55-82 | The stages a run starts are a non-empty prefix of a non-empty plan; all succeed but perhaps the last, which ends the plan or fails. |
| Pipeline.Plan | index.js:55-82 | The plan has five stages, or eight with double generation; it trims the upload first and ends by merging the trimmed clip (first) with the clip with music into `combined_T.mp4`. |
| Pipeline.ProducedAppend | index.js:55-82 | Running one more stage adds its output iff it succeeds. |
| Pipeline.ExecutedIsPrefixToFirstFailure | index.js:55-82 | The stages a run starts are a prefix of the plan that stops right after the first failure; it is the whole plan iff every stage succeeds. |
| Pipeline.ExecutedWhenAllSucceed | index.js:55-82 | When no stage fails, every stage is started. |
| Pipeline.ExecutedAfterSuccesses | index.js:55-82 | Succeeding stages can be taken off the front of a run. |
| Pipeline.CleanupFiles | index.js:338-344 | Exactly the listed paths are gone and all other files are untouched; each deletion is of a listed, existing file, made once. |
| Pipeline.CleanupIdempotent | index.js:338-344 | Cleaning up twice removes nothing more than once. |
| Pipeline.RunStage | index.js:55-82 | One await: the stage joins the run and adds its output iff it succeeds; a failure ends the run. |
| Pipeline.HandleDoubleGeneration | index.js:285-333 | Probe, reverse, then merge (forward, reversed) into the output, which is returned on success; the run stops at the first failure. |
| Pipeline.RunFrontStages | index.js:55-64 | Trim, extract the last frame of the trimmed clip, generate from that frame, stopping at the first failure. |
| Pipeline.RunStages | index.js:55-82 | The stages run are the plan up to the first failure; on success the whole plan. The files are the original ones plus the outputs of the stages that succeeded. |
| Pipeline.ProcessVideo | index.js:27-104 | No upload gives 400, and a missing input gives 500 with nothing run, and only then. Otherwise the plan runs up to its first failure, and a failure crashes the handler. If every stage succeeds the video is sent, or, when sending fails, the answer is 500 "Failed to send video." and nothing is deleted. A sent video is `combined_T.mp4` named "generated_video.mp4". Only after sending are the five listed files deleted. |
| Pipeline.PlanUnfolded | index.js:55-82 | The plan written out: five stages, or eight with double generation, with the exact paths and arguments. |
| Pipeline.SingleGenerationDataflow | index.js:55-82 | Each stage of the single-generation run reads the upload or an earlier stage's output. |
| Pipeline.DoubleGenerationDataflow | index.js:55-82 | Each stage of the double-generation run reads the upload or an earlier stage's output. |
| Pipeline.PlanDataflow | index.js:55-82 | Every stage of the plan reads only the upload or files written by earlier stages. |
| Pipeline.SingleGenerationWrites | index.js:55-82 | A fully successful single run creates exactly its five output files. |
| Pipeline.DoubleGenerationWrites | index.js:55-82 | A fully successful double run creates exactly its seven output files. |
| Pipeline.ProducedByPlan | index.js:42-82 | A fully successful run creates exactly the request's temp files. |
| Pipeline.LeftBehindNotCleaned | index.js:97 | The clip with music, and the doubled and reversed clips, are not in the cleanup list. |
| Pipeline.CleanupAfterAdding | index.js:338-344 | Deleting the listed paths after adding files removes the listed ones and keeps the unlisted ones. |
| Pipeline.SuccessLeavesTempFiles | index.js:91-98 | After a successful request the clip with music (and in double mode the doubled and reversed clips) remain on disk. |
| Pipeline.DoubleBranchIffTruthy | index.js:68 | The reverse-and-merge stages are in the plan iff the `doubleGeneration` field is truthy, so "false" turns them on. |
| Pipeline.MergeListsReadBack | index.js:207-210 | Every merge of the plan writes a concat list that reads back as its two clips, in order. |
| Pipeline.PlainMergesReadBack | index.js:207-210 | Merges of non-empty paths without a quote or line break have lists that read back. |
| Firestore.PercentDecode | firebase/firestore.js:112 | A decoded string is never longer than its input, and is shorter exactly when the input holds an escape. |
| Firestore.HexValue | firebase/firestore.js:112 | A hex digit's value is below 16. |
| Firestore.HexDigit | firebase/firestore.js:112 | The upper-case digit written for a value reads back as that value. |
| Firestore.DecodeWithoutEscapes | firebase/firestore.js:112 | A string without "%" decodes to itself. |
| Firestore.DecodeAppend | firebase/firestore.js:112 | Decoding a concatenation of decodable strings decodes each part separately. |
| Firestore.EncodeChar | firebase/firestore.js:112 | The encoding of one ASCII character holds no "?" or "/" and decodes back to that character. |
| Firestore.EncodeComponent | firebase/firestore.js:112 | An encoded component contains no "?" and no "/". |
| Firestore.DecodeEncodeRoundTrip | firebase/firestore.js:112 | Decoding undoes encoding for ASCII strings. |
| Firestore.LazyEnd | firebase/firestore.js:113 | The lazy group ends at the first "?" reached without crossing a line terminator; no end means every later "?" lies past a line terminator. |
| Firestore.MatchEnd | firebase/firestore.js:113 | A match starting at a position ends at the nearest admissible "?", and no shorter match exists; no end means no match starts there. |
| Firestore.FirstMatch | firebase/firestore.js:113 | The match found is leftmost and then shortest; none means the pattern matches nowhere from that point. |
| Firestore.StoragePathCapture | firebase/firestore.js:113-119 | The capture is the text between "o/" and "?" of the leftmost, then shortest, match. It is non-empty, has no line terminator and no "?" after its first character; there is none iff the pattern matches nowhere. |
| Firestore.LeftmostShortestUnique | firebase/firestore.js:113 | At most one match is leftmost and then shortest, so the capture is determined. |
| Firestore.CaptureMayStartWithQuestionMark | firebase/firestore.js:113 | In "o/??" the capture is "?": the path can begin with a "?". |
| Firestore.StoragePathToDelete | firebase/firestore.js:105-119 | A URL without the storage host is refused before decoding. An undecodable URL is refused. Otherwise a path results iff the pattern matches the decoded URL, and it is that capture. |
| Firestore.UploadObjectPath | firebase/firestore.js:77-79 | The object name is non-empty, ASCII, and free of "?" and line terminators. |
| Firestore.UploadObjectPathInjective | firebase/firestore.js:77-79 | Uploads at different timestamps get different object names. |
| Firestore.PrefixFacts | firebase/firestore.js:107 | The download-URL prefix names the storage host and holds no "o/" and no "%". |
| Firestore.HeadHasNoSlashAfterO | firebase/firestore.js:113 | Up to the bucket's "/", a URL holds no "o/" when the bucket has no "/" and does not end in "o". |
| Firestore.DecodeUrlParts | firebase/firestore.js:112 | The decoded download URL holds the object path verbatim between "o/" and the query. |
| Firestore.CaptureAfterHead | firebase/firestore.js:113 | After a head without "o/", the capture is exactly the path up to the next "?". |
| Firestore.DeleteFromUrlParts | firebase/firestore.js:105-119 | A URL of this shape yields the object path it was built from. |
| Firestore.DeleteFindsUploadedObject | firebase/firestore.js:105-119 | For a plain bucket name, deleting by an object's download URL targets that object. |
| Firestore.UploadedVideoCanBeDeleted | firebase/firestore.js:77-119 | For a bucket name without "/" or "%" that does not end in "o", passing an uploaded clip's download URL back deletes exactly the object it was uploaded as. |
| EnvValidation.ValidateEnvironment | utils/envValidation.js:15-23 | Returns exactly when every required variable is set and non-empty; otherwise throws a message starting "Missing required environment variables: ". |
| EnvValidation.MissingAmong | utils/envValidation.js:15 | The missing names are exactly the listed names that are unset or empty, in list order, each once. |
| EnvValidation.RequiredVarsDistinct | utils/envValidation.js:5-13 | The seven required names are distinct. |
| EnvValidation.ValidateEnvironmentOutcome | utils/envValidation.js:15-23 | Returns iff every required name is set and non-empty. Otherwise the message is the prefix followed by the missing names joined with ", ", in list order and without duplicates. |
| EnvValidation.MeasurementIdIgnored | utils/envValidation.js:5-13 | Setting, clearing or removing MEASUREMENT_ID_FIREBASE never changes the outcome. |
| EnvValidation.SameOutcomeOnRequired | utils/envValidation.js:15 | Environments agreeing on which listed names are missing give the same missing list. |
| EnvValidation.JoinedNamesReadBack | utils/envValidation.js:20 | A list joined with ", " splits back into the same list when no name contains a comma. |
| EnvValidation.RequiredVarsHaveNoComma | utils/envValidation.js:5-13 | No required name contains a comma. |
| EnvValidation.MessageListsMissingNames | utils/envValidation.js:20 | The error message starts with its fixed prefix, and its remainder reads back as exactly the missing names. |
| EnvValidation.ListAfterPrefixReadsBack | utils/envValidation.js:20 | A prefix followed by a joined list splits back into that list. |
| Strings.NatToStringRoundTrip | firebase/firestore.js:77 | A rendered timestamp's decimal digits read back as its value. |
| Strings.NatToStringInjective | index.js:42-46 | Different timestamps render differently. |
| Strings.Includes | firebase/firestore.js:107 | `s.includes(t)` holds iff `t` occurs in `s` at some position. |

## Left out

- String lengths count Dafny characters, not UTF-16 code units as JavaScript's `length` does.
- `Number(string)` and `String(number)` are abstract functions. Numbers are mathematical reals, so floating-point rounding of 0.1 and the bounds is not modelled, and there are no infinities.
- Firestore.PercentDecode: escapes of bytes 0x80 and above, which `decodeURIComponent` combines into multi-byte UTF-8 characters, are treated as malformed. Only escapes of ASCII characters are decoded.
- Firestore.EncodeComponent: encodes ASCII strings only; non-ASCII characters are not modelled.
- Firestore.StoragePathToDelete: stops at the extracted path. The `getStorage`, `ref` and `deleteObject` calls, the console logging and the rethrow are Firebase I/O.
- Firestore.DeleteFindsUploadedObject: proved only for bucket names without "/" or "%" and not ending in "o". A bucket ending in "o", or holding "o/", would make the pattern match before the object path; a "%" in it would be decoded.
- UploadedVideoCanBeDeleted: holds under the same bucket-name conditions as DeleteFindsUploadedObject, and for no other bucket names.
- The `!match[1]` guard at firebase/firestore.js:115 can never fire, because `(.+?)` captures at least one character.
- The extracted path contains no "?" only after its first character: in "o/??" it is "?".
- `uploadVideoToFirebase` beyond the object name: reading the file, `uploadBytes` and `getDownloadURL` are Firebase I/O. `DownloadUrl` stands for the URL shape those calls return.
- firebase/upload.js and the Firestore document writes are not part of this model.
- Generation.PollForFileId: the source loop has no bound. The model consumes a finite sequence of status responses, and running out stands for polling on. The initial submission and the file retrieval are HTTP I/O.
- Pipeline.ProcessVideo: every stage is taken to settle, by succeeding or failing. In the source a request can also hang with no response and no cleanup: the status poll at index.js:174-179 never ends for a task that never reports "Success", and the ffmpeg and ffprobe promises have no time-out. Those runs are not modelled.
- Sleeps are not performed. Retry records its delays, and the poll counts the time slept.
- ffmpeg, ffprobe and HTTP calls are stages whose success is an input. A failing stage is modelled as creating no file.
- The audio download to `audio_T.mp3` inside `addBackgroundMusic` is not tracked as a file.
- Ffmpeg.ReadConcatList: ffmpeg's concat demuxer is modelled only as far as the lists of `mergeVideos` need. It reads lines, `file` directives and `av_get_token` arguments. Every other directive (`ffconcat`, `duration`, `inpoint` and so on) is refused, and a NUL character is not treated as the end of the text.
- Retry.DefaultSchedule: speaks only of schedules of at most two sleeps. Those are the only ones `RetryWithBackoff` can produce with the defaults, and its own ensures says so.
- Ffmpeg.ParseEntry: promises the read back only for a non-empty path with no quote and no line break. `QuoteInPathDropsQuote`, `QuoteInPathAddsClip` and `LineBreakCutsEntry` state what happens otherwise, and an empty argument is refused.
- Ffmpeg.ConcatListRoundTrip: holds only for non-empty paths with no quote and no line break. `LineBreakInPathMisread` proves that a line break always breaks the round trip, and `QuoteInPathDropsQuote` proves the same for a path `x'y`. The other quoted paths are not characterised.
- Ffmpeg.QuoteInPathAddsClip: covers the parts `a`, `b`, `c` that are plain and free of backslashes. Other splits are not characterised.
- Pipeline.PlainMergesReadBack: holds only when every merged path is plain. The plan's merges only ever take the server's own temp files, which are plain (`VideoPaths.ArtifactPath`), so `MergeListsReadBack` holds for every plan without that condition.
- Retry.RetryWithBackoff: maxRetries and baseDelay are integers. For a fractional maxRetries such as 2.5 the source makes three calls, never sees `attempt === maxRetries - 1`, sleeps after the last call too, and then throws the last error. That case is not modelled.
- The concat list file `video_list.txt` is shared across requests, which is a concurrency concern. The model keeps only its text.
- `path.resolve` and `path.join` are not modelled. Paths are taken already resolved, the upload path is an input, and the `/tmp` mkdir is left out.
- The catch block at index.js:99-103 refers to block-scoped constants of the `try` block. It throws a ReferenceError, deletes nothing and sends no response; the model's `HandlerCrashed` records exactly that.
- Express, multer and CORS wiring, the GET route, console logging and `saveToTestFolder` (whose call is commented out) are not part of this model.
- The axios instance configuration in utils/axiosConfig.js is library setup.
- The console output of the environment check is not modelled.
