/**
 * The video route of index.js (`POST /api/process-video`) as a sequence of
 * awaited stages over a modelled file system.
 *
 * Every ffmpeg run, ffprobe call and HTTP exchange is a `Stage`: the model
 * records which stages the handler starts, with which arguments, and the
 * `World` decides whether each one succeeds. A stage that succeeds creates
 * its output file; one that fails creates nothing and makes the handler's
 * `await` throw.
 */
module Pipeline {
  import opened Wrappers
  import opened JsValues
  import opened VideoPaths
  import Ffmpeg

  /** One awaited step of the handler, with the files it reads and writes. */
  datatype Stage =
    | TrimClip(input: string, output: string, duration: JsValue)              // trimVideo
    | ExtractLastFrame(input: string, output: string)                         // extractLastFrame
    // generateAIVideo; it succeeds only once Generation.PollForFileId has yielded a file id
    | GenerateVideo(image: string, prompt: JsValue, output: string)
    | ProbeAudio(input: string)                                               // the ffprobe of handleDoubleGeneration
    | ReverseClip(input: string, output: string, filterGraph: string, outputOptions: seq<string>)
    | MergeClips(first: string, second: string, output: string)               // mergeVideos
    | AddBackgroundMusic(video: string, output: string, audioUrl: JsValue)    // addBackgroundMusic

  /** The files a stage reads. */
  function Reads(s: Stage): set<string> {
    match s
    case TrimClip(input, _, _) => {input}
    case ExtractLastFrame(input, _) => {input}
    case GenerateVideo(image, _, _) => {image}
    case ProbeAudio(input) => {input}
    case ReverseClip(input, _, _, _) => {input}
    case MergeClips(first, second, _) => {first, second}
    case AddBackgroundMusic(video, _, _) => {video}
  }

  /** The file a stage creates when it succeeds; probing creates none. */
  function Writes(s: Stage): set<string> {
    if s.ProbeAudio? then {} else {s.output}
  }

  /**
   * Everything outside the handler: the files that exist when the request
   * arrives, which stages succeed, whether the generated clip has an audio
   * stream (`Ffmpeg.HasAudioStream` of the streams the probe reports), and
   * whether sending the final video to the client succeeds.
   */
  datatype World = World(files: set<string>, succeeds: Stage -> bool, hasAudio: bool, sendSucceeds: bool)

  /** How a request ends. */
  datatype Response =
    | NoVideoUploaded                              // 400 "No video uploaded"
    | InputFileMissing                             // 500 "Input file is missing."
    | SentVideo(path: string, downloadName: string)  // the final clip is sent, then temp files are removed
    | SendFailed                                   // 500 "Failed to send video."; nothing is removed
    | HandlerCrashed                               // a stage threw and the catch block itself threw; no response

  /** The name the client receives the final clip under. */
  const DownloadName: string := "generated_video.mp4"

  predicate AllSucceed(stages: seq<Stage>, succeeds: Stage -> bool) {
    forall i :: 0 <= i < |stages| ==> succeeds(stages[i])
  }

  /**
   * The stages a run of `plan` starts: each in turn, up to and including
   * the first one that fails.
   */
  function Executed(plan: seq<Stage>, succeeds: Stage -> bool): (run: seq<Stage>)
    // a prefix of the plan, non-empty if the plan is, whose stages all succeed but perhaps the last,
    // which is the last of the plan or fails
    ensures |run| <= |plan| && run == plan[..|run|]
    ensures plan != [] ==> run != []
    ensures forall i :: 0 <= i < |run| - 1 ==> succeeds(run[i])
    ensures run == plan || !succeeds(run[|run| - 1])
  {
    if plan == [] then []
    else if !succeeds(plan[0]) then [plan[0]]
    else [plan[0]] + Executed(plan[1..], succeeds)
  }

  /** The files the successful stages among `stages` create. */
  function Produced(stages: seq<Stage>, succeeds: Stage -> bool): set<string> {
    if stages == [] then {}
    else (if succeeds(stages[0]) then Writes(stages[0]) else {}) + Produced(stages[1..], succeeds)
  }

  /** Running one more stage adds its output, if it succeeds. */
  lemma {:induction false} ProducedAppend(stages: seq<Stage>, stage: Stage, succeeds: Stage -> bool)
    ensures Produced(stages + [stage], succeeds)
            == Produced(stages, succeeds) + (if succeeds(stage) then Writes(stage) else {})
  {
    if stages == [] {
      assert [] + [stage] == [stage];
      assert [stage][1..] == [];
    } else {
      assert (stages + [stage])[1..] == stages[1..] + [stage];
      ProducedAppend(stages[1..], stage, succeeds);
    }
  }

  /** `fs` after deleting every path of `paths`. */
  function Without(fs: set<string>, paths: seq<string>): set<string> {
    set f | f in fs && f !in paths
  }

  /**
   * A run starts the stages of the plan in order, stops right after the
   * first failure, and otherwise starts them all.
   */
  lemma {:induction false} ExecutedIsPrefixToFirstFailure(plan: seq<Stage>, succeeds: Stage -> bool)
    ensures var run := Executed(plan, succeeds);
            |run| <= |plan| && run == plan[..|run|]
            && (plan != [] ==> run != [])
            && (forall i :: 0 <= i < |run| - 1 ==> succeeds(run[i]))
            && (run == plan || !succeeds(run[|run| - 1]))
            && (AllSucceed(run, succeeds) <==> AllSucceed(plan, succeeds))
            && (AllSucceed(plan, succeeds) ==> run == plan)
  {
    if plan != [] && succeeds(plan[0]) {
      ExecutedIsPrefixToFirstFailure(plan[1..], succeeds);
      var rest := Executed(plan[1..], succeeds);
      assert Executed(plan, succeeds) == [plan[0]] + rest;
      if AllSucceed(plan[1..], succeeds) {
        assert AllSucceed(plan, succeeds) by {
          forall i | 0 <= i < |plan| ensures succeeds(plan[i]) {
            if i > 0 { assert plan[i] == plan[1..][i - 1]; }
          }
        }
      }
      if AllSucceed(plan, succeeds) {
        assert AllSucceed(plan[1..], succeeds) by {
          forall i | 0 <= i < |plan| - 1 ensures succeeds(plan[1..][i]) {
            assert plan[1..][i] == plan[i + 1];
          }
        }
      }
    }
  }

  /** A prefix as long as the sequence is the sequence. */
  lemma WholePrefix(xs: seq<Stage>, ys: seq<Stage>)
    requires |xs| == |ys| && xs == ys[..|xs|]
    ensures xs == ys
  {
  }

  /** A run in which no stage fails starts every stage. */
  lemma ExecutedWhenAllSucceed(plan: seq<Stage>, succeeds: Stage -> bool)
    requires AllSucceed(plan, succeeds)
    ensures Executed(plan, succeeds) == plan
  {
    assert plan == plan + [];
    ExecutedAfterSuccesses(plan, [], succeeds);
  }

  /** Stages that all succeeded can be taken off the front of a run. */
  lemma {:induction false} ExecutedAfterSuccesses(done: seq<Stage>, rest: seq<Stage>, succeeds: Stage -> bool)
    requires AllSucceed(done, succeeds)
    ensures Executed(done + rest, succeeds) == done + Executed(rest, succeeds)
  {
    if done == [] {
      assert done + rest == rest;
    } else {
      assert (done + rest)[0] == done[0] && succeeds(done[0]);
      assert (done + rest)[1..] == done[1..] + rest;
      assert AllSucceed(done[1..], succeeds) by {
        forall i | 0 <= i < |done| - 1 ensures succeeds(done[1..][i]) {
          assert done[1..][i] == done[i + 1];
        }
      }
      ExecutedAfterSuccesses(done[1..], rest, succeeds);
      assert Executed(done + rest, succeeds) == [done[0]] + Executed(done[1..] + rest, succeeds);
      assert [done[0]] + (done[1..] + Executed(rest, succeeds)) == done + Executed(rest, succeeds);
    }
  }

  /**
   * `cleanupFiles(paths)`: each listed path that exists is deleted, in list
   * order. `unlinked` records the deletions made.
   */
  method CleanupFiles(files: set<string>, paths: seq<string>) returns (remaining: set<string>, unlinked: seq<string>)
    // exactly the listed paths are gone; every other file is untouched
    ensures remaining == Without(files, paths)
    ensures forall f :: f in remaining <==> f in files && f !in paths
    // a path is deleted once, and only if it is listed and exists
    ensures forall f :: f in unlinked <==> f in files && f in paths
    ensures forall i, j :: 0 <= i < j < |unlinked| ==> unlinked[i] != unlinked[j]
  {
    remaining, unlinked := files, [];
    var i := 0;
    while i < |paths|
      invariant i <= |paths|
      invariant forall f :: f in remaining <==> f in files && f !in paths[..i]
      invariant forall f :: f in unlinked <==> f in files && f in paths[..i]
      invariant forall a, b :: 0 <= a < b < |unlinked| ==> unlinked[a] != unlinked[b]
    {
      assert paths[..i + 1] == paths[..i] + [paths[i]];
      if paths[i] in remaining {
        remaining := remaining - {paths[i]};
        unlinked := unlinked + [paths[i]];
      }
      i := i + 1;
    }
    assert paths[..i] == paths;
  }

  lemma AllSucceedAppend(stages: seq<Stage>, stage: Stage, succeeds: Stage -> bool)
    ensures AllSucceed(stages + [stage], succeeds) <==> AllSucceed(stages, succeeds) && succeeds(stage)
  {
    if AllSucceed(stages + [stage], succeeds) {
      assert (stages + [stage])[|stages|] == stage;
      forall i | 0 <= i < |stages| ensures succeeds(stages[i]) {
        assert (stages + [stage])[i] == stages[i];
      }
    }
  }

  /** Cleaning up twice deletes nothing the first pass did not. */
  lemma CleanupIdempotent(files: set<string>, paths: seq<string>)
    ensures Without(Without(files, paths), paths) == Without(files, paths)
  {
  }

  /**
   * One `await` of a stage. The ghost `plan` is the handler's stage list;
   * `stages`, the stages already started, are its first ones, all of which
   * succeeded, and `stage` is the next.
   */
  method RunStage(stage: Stage, world: World, stages: seq<Stage>, files: set<string>, ghost plan: seq<Stage>)
    returns (ok: bool, stages': seq<Stage>, files': set<string>)
    requires AllSucceed(stages, world.succeeds)
    requires |stages| < |plan| && stages == plan[..|stages|] && plan[|stages|] == stage
    requires files == world.files + Produced(stages, world.succeeds)
    ensures ok == world.succeeds(stage)
    ensures stages' == stages + [stage] && stages' == plan[..|stages'|]
    ensures files' == world.files + Produced(stages', world.succeeds)
    ensures files' == if ok then files + Writes(stage) else files
    ensures ok <==> AllSucceed(stages', world.succeeds)
    // a failing stage ends the run
    ensures !ok ==> stages' == Executed(plan, world.succeeds)
  {
    ok := world.succeeds(stage);
    stages' := stages + [stage];
    assert stages'[..|stages|] == stages;
    assert plan[..|stages'|] == plan[..|stages|] + [plan[|stages|]];
    files' := if ok then files + Writes(stage) else files;
    ProducedAppend(stages, stage, world.succeeds);
    AllSucceedAppend(stages, stage, world.succeeds);
    if !ok {
      assert plan == stages + plan[|stages|..];
      ExecutedAfterSuccesses(stages, plan[|stages|..], world.succeeds);
    }
  }

  /** The three stages of `handleDoubleGeneration(input, output)`: probe, reverse, merge forward then reversed. */
  function DoubleStages(input: string, output: string, hasAudio: bool): seq<Stage> {
    var reversed := ReversedPath(input);
    [ProbeAudio(input),
     ReverseClip(input, reversed, Ffmpeg.ReverseFilterGraph(hasAudio), Ffmpeg.ReverseOutputOptions(hasAudio)),
     MergeClips(input, reversed, output)]
  }

  /**
   * `handleDoubleGeneration(input, output)`: probe the clip for audio, build
   * the reverse filter, reverse the clip, then merge the clip with its
   * reverse into `output`, which it returns.
   */
  method HandleDoubleGeneration(input: string, output: string, world: World, stages: seq<Stage>, files: set<string>,
                                ghost plan: seq<Stage>)
    returns (result: string, ok: bool, stages': seq<Stage>, files': set<string>)
    requires AllSucceed(stages, world.succeeds)
    requires |stages| + 3 <= |plan| && stages == plan[..|stages|]
    requires var steps := DoubleStages(input, output, world.hasAudio);
             plan[|stages|] == steps[0] && plan[|stages| + 1] == steps[1] && plan[|stages| + 2] == steps[2]
    requires files == world.files + Produced(stages, world.succeeds)
    ensures |stages'| <= |plan| && stages' == plan[..|stages'|]
    ensures files' == world.files + Produced(stages', world.succeeds)
    ensures ok <==> AllSucceed(stages', world.succeeds)
    ensures ok ==> result == output && stages' == stages + DoubleStages(input, output, world.hasAudio)
    ensures !ok ==> stages' == Executed(plan, world.succeeds)
  {
    result := "";
    ghost var steps := DoubleStages(input, output, world.hasAudio);
    var reversed := ReversedPath(input);
    ok, stages', files' := RunStage(ProbeAudio(input), world, stages, files, plan);
    if !ok { return; }
    var filterGraph, outputOptions := Ffmpeg.BuildReverseFilter(world.hasAudio);
    ok, stages', files' := RunStage(ReverseClip(input, reversed, filterGraph, outputOptions), world, stages', files', plan);
    if !ok { return; }
    ok, stages', files' := RunStage(MergeClips(input, reversed, output), world, stages', files', plan);
    if !ok { return; }
    AppendThree(stages, steps[0], steps[1], steps[2]);
    result := output;
  }

  lemma AppendThree<T>(xs: seq<T>, a: T, b: T, c: T)
    ensures xs + [a] + [b] + [c] == xs + [a, b, c]
  {
  }

  /** The first three stages: trim the upload, grab its last frame, generate a clip from that frame. */
  function FrontStages(input: string, timestamp: nat, body: Body): seq<Stage> {
    var trimmed := ArtifactPath(Trimmed, timestamp);
    var lastFrame := ArtifactPath(LastFrame, timestamp);
    [TrimClip(input, trimmed, Field(body, "clipLength")),
     ExtractLastFrame(trimmed, lastFrame),
     GenerateVideo(lastFrame, Field(body, "prompt"), ArtifactPath(AiGenerated, timestamp))]
  }

  /** The last two stages: add music to the generated clip, then append it to the trimmed upload. */
  function BackStages(timestamp: nat, body: Body, generated: string): seq<Stage> {
    var withAudio := ArtifactPath(GeneratedWithAudio, timestamp);
    [AddBackgroundMusic(generated, withAudio, Field(body, "audioUrl")),
     MergeClips(ArtifactPath(Trimmed, timestamp), withAudio, ArtifactPath(Combined, timestamp))]
  }

  /** Whether the request asks for double generation: the form field is truthy. */
  predicate WantsDouble(body: Body) {
    Truthy(Field(body, "doubleGeneration"))
  }

  /** The clip the music is added to: the AI clip, or its double when double generation is asked for. */
  function GeneratedPath(timestamp: nat, body: Body): string {
    var ai := ArtifactPath(AiGenerated, timestamp);
    if WantsDouble(body) then DoublePath(ai) else ai
  }

  /** The double-generation stages, present only when asked for. */
  function MiddleStages(timestamp: nat, body: Body, hasAudio: bool): seq<Stage> {
    var ai := ArtifactPath(AiGenerated, timestamp);
    if WantsDouble(body) then DoubleStages(ai, DoublePath(ai), hasAudio) else []
  }

  /** The stages the handler starts, in order, when each one succeeds. */
  function Plan(input: string, timestamp: nat, body: Body, hasAudio: bool): (plan: seq<Stage>)
    // five stages, or eight with double generation; the upload is trimmed first and the
    // trimmed clip is the first input of the final merge into combined_<T>.mp4
    ensures |plan| == if WantsDouble(body) then 8 else 5
    ensures plan[0] == TrimClip(input, ArtifactPath(Trimmed, timestamp), Field(body, "clipLength"))
    ensures plan[|plan| - 1].MergeClips? && plan[|plan| - 1].first == ArtifactPath(Trimmed, timestamp)
            && plan[|plan| - 1].output == ArtifactPath(Combined, timestamp)
  {
    FrontStages(input, timestamp, body) + MiddleStages(timestamp, body, hasAudio)
    + BackStages(timestamp, body, GeneratedPath(timestamp, body))
  }

  /** The paths the success path hands to `cleanupFiles`. */
  function CleanupList(input: string, timestamp: nat): seq<string> {
    [input, ArtifactPath(Trimmed, timestamp), ArtifactPath(LastFrame, timestamp),
     ArtifactPath(AiGenerated, timestamp), ArtifactPath(Combined, timestamp)]
  }

  /** Where each stage sits in the plan. */
  lemma PlanPositions(input: string, timestamp: nat, body: Body, hasAudio: bool)
    ensures var plan := Plan(input, timestamp, body, hasAudio);
            var front := FrontStages(input, timestamp, body);
            var middle := MiddleStages(timestamp, body, hasAudio);
            var back := BackStages(timestamp, body, GeneratedPath(timestamp, body));
            |plan| == 5 + |middle|
            && plan[0] == front[0] && plan[1] == front[1] && plan[2] == front[2]
            && (forall k :: 0 <= k < |middle| ==> plan[3 + k] == middle[k])
            && plan[3 + |middle|] == back[0] && plan[4 + |middle|] == back[1]
  {
  }

  /**
   * The first three awaits of the handler: trim the upload, extract the last
   * frame of the trimmed clip, generate the AI clip from that frame.
   */
  method RunFrontStages(input: string, timestamp: nat, body: Body, world: World, ghost plan: seq<Stage>)
    returns (ok: bool, stages: seq<Stage>, files: set<string>)
    requires var front := FrontStages(input, timestamp, body);
             |plan| >= 3 && plan[0] == front[0] && plan[1] == front[1] && plan[2] == front[2]
    ensures |stages| <= |plan| && stages == plan[..|stages|]
    ensures files == world.files + Produced(stages, world.succeeds)
    ensures ok <==> AllSucceed(stages, world.succeeds)
    ensures ok ==> |stages| == 3
    ensures !ok ==> stages == Executed(plan, world.succeeds)
  {
    var trimmed := ArtifactPath(Trimmed, timestamp);
    var lastFrame := ArtifactPath(LastFrame, timestamp);
    stages, files := [], world.files;
    ok, stages, files := RunStage(TrimClip(input, trimmed, Field(body, "clipLength")), world, stages, files, plan);
    if !ok { return; }
    ok, stages, files := RunStage(ExtractLastFrame(trimmed, lastFrame), world, stages, files, plan);
    if !ok { return; }
    ok, stages, files := RunStage(GenerateVideo(lastFrame, Field(body, "prompt"), ArtifactPath(AiGenerated, timestamp)),
                                  world, stages, files, plan);
  }

  /**
   * The awaited stages of the handler's `try` block, from trimming to the
   * final merge. `ok` is false when a stage threw.
   */
  method RunStages(input: string, timestamp: nat, body: Body, world: World)
    returns (ok: bool, stages: seq<Stage>, files: set<string>)
    ensures stages == Executed(Plan(input, timestamp, body, world.hasAudio), world.succeeds)
    ensures ok <==> AllSucceed(stages, world.succeeds)
    ensures ok ==> stages == Plan(input, timestamp, body, world.hasAudio)
    ensures files == world.files + Produced(stages, world.succeeds)
  {
    var ai := ArtifactPath(AiGenerated, timestamp);
    var withAudio := ArtifactPath(GeneratedWithAudio, timestamp);
    ghost var plan := Plan(input, timestamp, body, world.hasAudio);
    PlanPositions(input, timestamp, body, world.hasAudio);
    ok, stages, files := RunFrontStages(input, timestamp, body, world, plan);
    if !ok { return; }
    var generated := ai;
    if Truthy(Field(body, "doubleGeneration")) {
      generated, ok, stages, files := HandleDoubleGeneration(generated, DoublePath(ai), world, stages, files, plan);
      if !ok { return; }
    }
    ok, stages, files := RunStage(AddBackgroundMusic(generated, withAudio, Field(body, "audioUrl")), world, stages, files, plan);
    if !ok { return; }
    ok, stages, files := RunStage(MergeClips(ArtifactPath(Trimmed, timestamp), withAudio, ArtifactPath(Combined, timestamp)),
                                  world, stages, files, plan);
    if !ok { return; }
    assert |stages| == |plan|;
    WholePrefix(stages, plan);
    ExecutedWhenAllSucceed(plan, world.succeeds);
  }

  /**
   * The route handler. `upload` is the resolved path multer stored the
   * uploaded file under, if a file was uploaded; `timestamp` is `Date.now()`.
   * `stages` are the stages started, in order, and `files` the file system
   * afterwards.
   */
  method ProcessVideo(upload: Option<string>, body: Body, timestamp: nat, world: World)
    returns (response: Response, stages: seq<Stage>, files: set<string>)
    ensures upload.None? <==> response == NoVideoUploaded
    ensures upload.None? ==> stages == [] && files == world.files
    ensures upload.Some? && upload.value !in world.files <==> response == InputFileMissing
    ensures upload.Some? && upload.value !in world.files ==> stages == [] && files == world.files
    // otherwise the planned stages run in order up to the first failure
    ensures upload.Some? && upload.value in world.files ==>
              stages == Executed(Plan(upload.value, timestamp, body, world.hasAudio), world.succeeds)
    ensures response == HandlerCrashed <==>
              upload.Some? && upload.value in world.files && !AllSucceed(stages, world.succeeds)
    ensures response.SentVideo? <==>
              upload.Some? && upload.value in world.files && AllSucceed(stages, world.succeeds) && world.sendSucceeds
    ensures response.SentVideo? ==> response == SentVideo(ArtifactPath(Combined, timestamp), DownloadName)
    ensures response == SendFailed <==>
              upload.Some? && upload.value in world.files && AllSucceed(stages, world.succeeds) && !world.sendSucceeds
    // files are created by the stages that succeed, and deleted only after the video is sent
    ensures response.SentVideo? ==>
              files == Without(world.files + Produced(stages, world.succeeds), CleanupList(upload.value, timestamp))
    ensures !response.SentVideo? ==> files == world.files + Produced(stages, world.succeeds)
  {
    if upload.None? {
      response, stages, files := NoVideoUploaded, [], world.files;
      return;
    }
    var input := upload.value;
    if input !in world.files {
      response, stages, files := InputFileMissing, [], world.files;
      return;
    }
    var ok;
    ok, stages, files := RunStages(input, timestamp, body, world);
    if !ok {
      response := HandlerCrashed;
    } else if world.sendSucceeds {
      var combined := ArtifactPath(Combined, timestamp);
      response := SentVideo(combined, DownloadName);
      var unlinked;
      files, unlinked := CleanupFiles(files, [input, ArtifactPath(Trimmed, timestamp), ArtifactPath(LastFrame, timestamp),
                                              ArtifactPath(AiGenerated, timestamp), combined]);
    } else {
      response := SendFailed;
    }
  }

  /** The plan written out stage by stage, for each setting of the double-generation field. */
  lemma PlanUnfolded(input: string, timestamp: nat, body: Body, hasAudio: bool)
    ensures var trimmed, lastFrame := ArtifactPath(Trimmed, timestamp), ArtifactPath(LastFrame, timestamp);
            var ai, withAudio := ArtifactPath(AiGenerated, timestamp), ArtifactPath(GeneratedWithAudio, timestamp);
            var combined := ArtifactPath(Combined, timestamp);
            var doubled, reversed := ArtifactPath(Doubled, timestamp), ArtifactPath(VideoPaths.Reversed, timestamp);
            Plan(input, timestamp, body, hasAudio)
            == if WantsDouble(body) then
                 [TrimClip(input, trimmed, Field(body, "clipLength")),
                  ExtractLastFrame(trimmed, lastFrame),
                  GenerateVideo(lastFrame, Field(body, "prompt"), ai),
                  ProbeAudio(ai),
                  ReverseClip(ai, reversed, Ffmpeg.ReverseFilterGraph(hasAudio), Ffmpeg.ReverseOutputOptions(hasAudio)),
                  MergeClips(ai, reversed, doubled),
                  AddBackgroundMusic(doubled, withAudio, Field(body, "audioUrl")),
                  MergeClips(trimmed, withAudio, combined)]
               else
                 [TrimClip(input, trimmed, Field(body, "clipLength")),
                  ExtractLastFrame(trimmed, lastFrame),
                  GenerateVideo(lastFrame, Field(body, "prompt"), ai),
                  AddBackgroundMusic(ai, withAudio, Field(body, "audioUrl")),
                  MergeClips(trimmed, withAudio, combined)]
  {
    DerivedPaths(timestamp);
    var front := FrontStages(input, timestamp, body);
    var back := BackStages(timestamp, body, GeneratedPath(timestamp, body));
    if WantsDouble(body) {
      var middle := MiddleStages(timestamp, body, hasAudio);
      assert Plan(input, timestamp, body, hasAudio) == front + middle + back;
      Flatten(front, middle, back);
    } else {
      assert Plan(input, timestamp, body, hasAudio) == front + [] + back;
      Flatten(front, [], back);
    }
  }

  /** Three short sequences concatenated, element by element. */
  lemma Flatten<T>(a: seq<T>, b: seq<T>, c: seq<T>)
    requires |a| == 3 && (|b| == 0 || |b| == 3) && |c| == 2
    ensures |b| == 3 ==> a + b + c == [a[0], a[1], a[2], b[0], b[1], b[2], c[0], c[1]]
    ensures |b| == 0 ==> a + b + c == [a[0], a[1], a[2], c[0], c[1]]
  {
  }

  /** Every file a stage of `stages` reads is `input` or the output of an earlier stage. */
  predicate InDataflowOrder(stages: seq<Stage>, input: string) {
    forall k, f :: 0 <= k < |stages| && f in Reads(stages[k]) ==>
      f == input || exists j :: 0 <= j < k && f in Writes(stages[j])
  }

  lemma SingleGenerationDataflow(input: string, trimmed: string, lastFrame: string, ai: string, withAudio: string,
                                 combined: string, duration: JsValue, prompt: JsValue, audioUrl: JsValue)
    ensures InDataflowOrder([TrimClip(input, trimmed, duration),
                             ExtractLastFrame(trimmed, lastFrame),
                             GenerateVideo(lastFrame, prompt, ai),
                             AddBackgroundMusic(ai, withAudio, audioUrl),
                             MergeClips(trimmed, withAudio, combined)], input)
  {
    var plan := [TrimClip(input, trimmed, duration),
                 ExtractLastFrame(trimmed, lastFrame),
                 GenerateVideo(lastFrame, prompt, ai),
                 AddBackgroundMusic(ai, withAudio, audioUrl),
                 MergeClips(trimmed, withAudio, combined)];
    forall k, f | 0 <= k < |plan| && f in Reads(plan[k])
      ensures f == input || exists j :: 0 <= j < k && f in Writes(plan[j])
    {
      if k == 1 { assert f in Writes(plan[0]); }
      else if k == 2 { assert f in Writes(plan[1]); }
      else if k == 3 { assert f in Writes(plan[2]); }
      else if k == 4 && f == trimmed { assert f in Writes(plan[0]); }
      else if k == 4 { assert f in Writes(plan[3]); }
    }
  }

  lemma DoubleGenerationDataflow(input: string, trimmed: string, lastFrame: string, ai: string, reversed: string,
                                 doubled: string, withAudio: string, combined: string, duration: JsValue,
                                 prompt: JsValue, audioUrl: JsValue, filterGraph: string, outputOptions: seq<string>)
    ensures InDataflowOrder([TrimClip(input, trimmed, duration),
                             ExtractLastFrame(trimmed, lastFrame),
                             GenerateVideo(lastFrame, prompt, ai),
                             ProbeAudio(ai),
                             ReverseClip(ai, reversed, filterGraph, outputOptions),
                             MergeClips(ai, reversed, doubled),
                             AddBackgroundMusic(doubled, withAudio, audioUrl),
                             MergeClips(trimmed, withAudio, combined)], input)
  {
    var plan := [TrimClip(input, trimmed, duration),
                 ExtractLastFrame(trimmed, lastFrame),
                 GenerateVideo(lastFrame, prompt, ai),
                 ProbeAudio(ai),
                 ReverseClip(ai, reversed, filterGraph, outputOptions),
                 MergeClips(ai, reversed, doubled),
                 AddBackgroundMusic(doubled, withAudio, audioUrl),
                 MergeClips(trimmed, withAudio, combined)];
    forall k, f | 0 <= k < |plan| && f in Reads(plan[k])
      ensures f == input || exists j :: 0 <= j < k && f in Writes(plan[j])
    {
      if k == 1 { assert f in Writes(plan[0]); }
      else if k == 2 { assert f in Writes(plan[1]); }
      else if k == 3 || k == 4 { assert f in Writes(plan[2]); }
      else if k == 5 && f == ai { assert f in Writes(plan[2]); }
      else if k == 5 { assert f in Writes(plan[4]); }
      else if k == 6 { assert f in Writes(plan[5]); }
      else if k == 7 && f == trimmed { assert f in Writes(plan[0]); }
      else if k == 7 { assert f in Writes(plan[6]); }
    }
  }

  /**
   * Every file a stage reads is the upload or the output of an earlier
   * stage: the stages run in dataflow order.
   */
  lemma PlanDataflow(input: string, timestamp: nat, body: Body, hasAudio: bool)
    ensures InDataflowOrder(Plan(input, timestamp, body, hasAudio), input)
  {
    PlanUnfolded(input, timestamp, body, hasAudio);
    if WantsDouble(body) {
      DoubleGenerationDataflow(input, ArtifactPath(Trimmed, timestamp), ArtifactPath(LastFrame, timestamp),
        ArtifactPath(AiGenerated, timestamp), ArtifactPath(VideoPaths.Reversed, timestamp),
        ArtifactPath(Doubled, timestamp), ArtifactPath(GeneratedWithAudio, timestamp),
        ArtifactPath(Combined, timestamp), Field(body, "clipLength"), Field(body, "prompt"), Field(body, "audioUrl"),
        Ffmpeg.ReverseFilterGraph(hasAudio), Ffmpeg.ReverseOutputOptions(hasAudio));
    } else {
      SingleGenerationDataflow(input, ArtifactPath(Trimmed, timestamp), ArtifactPath(LastFrame, timestamp),
        ArtifactPath(AiGenerated, timestamp), ArtifactPath(GeneratedWithAudio, timestamp),
        ArtifactPath(Combined, timestamp), Field(body, "clipLength"), Field(body, "prompt"), Field(body, "audioUrl"));
    }
  }

  /** The temp files that the success path's cleanup list does not name. */
  function LeftBehind(timestamp: nat, double: bool): set<string> {
    {ArtifactPath(GeneratedWithAudio, timestamp)}
    + (if double then {ArtifactPath(Doubled, timestamp), ArtifactPath(VideoPaths.Reversed, timestamp)} else {})
  }

  /** Every temp file the plan writes. */
  function WrittenPaths(timestamp: nat, double: bool): set<string> {
    {ArtifactPath(Trimmed, timestamp), ArtifactPath(LastFrame, timestamp), ArtifactPath(AiGenerated, timestamp),
     ArtifactPath(Combined, timestamp)}
    + LeftBehind(timestamp, double)
  }

  /** The files the single-generation stage list creates when every stage succeeds. */
  lemma SingleGenerationWrites(input: string, trimmed: string, lastFrame: string, ai: string, withAudio: string,
                               combined: string, duration: JsValue, prompt: JsValue, audioUrl: JsValue,
                               succeeds: Stage -> bool)
    requires AllSucceed([TrimClip(input, trimmed, duration),
                         ExtractLastFrame(trimmed, lastFrame),
                         GenerateVideo(lastFrame, prompt, ai),
                         AddBackgroundMusic(ai, withAudio, audioUrl),
                         MergeClips(trimmed, withAudio, combined)], succeeds)
    ensures Produced([TrimClip(input, trimmed, duration),
                      ExtractLastFrame(trimmed, lastFrame),
                      GenerateVideo(lastFrame, prompt, ai),
                      AddBackgroundMusic(ai, withAudio, audioUrl),
                      MergeClips(trimmed, withAudio, combined)], succeeds)
            == {trimmed, lastFrame, ai, withAudio, combined}
  {
    var plan := [TrimClip(input, trimmed, duration),
                 ExtractLastFrame(trimmed, lastFrame),
                 GenerateVideo(lastFrame, prompt, ai),
                 AddBackgroundMusic(ai, withAudio, audioUrl),
                 MergeClips(trimmed, withAudio, combined)];
    assert succeeds(plan[0]) && succeeds(plan[1]) && succeeds(plan[2]) && succeeds(plan[3]) && succeeds(plan[4]);
    var p4 := [plan[4]] + [];
    var p3 := [plan[3]] + p4;
    var p2 := [plan[2]] + p3;
    var p1 := [plan[1]] + p2;
    assert plan == [plan[0]] + p1;
    ProducedCons(plan[4], [], succeeds);
    ProducedCons(plan[3], p4, succeeds);
    ProducedCons(plan[2], p3, succeeds);
    ProducedCons(plan[1], p2, succeeds);
    ProducedCons(plan[0], p1, succeeds);
  }

  /** Running a stage before others adds its output, if it succeeds. */
  lemma ProducedCons(stage: Stage, rest: seq<Stage>, succeeds: Stage -> bool)
    ensures Produced([stage] + rest, succeeds) == (if succeeds(stage) then Writes(stage) else {}) + Produced(rest, succeeds)
  {
    assert ([stage] + rest)[1..] == rest;
  }

  /** The files the double-generation stage list creates when every stage succeeds. */
  lemma DoubleGenerationWrites(input: string, trimmed: string, lastFrame: string, ai: string, reversed: string,
                               doubled: string, withAudio: string, combined: string, duration: JsValue,
                               prompt: JsValue, audioUrl: JsValue, filterGraph: string, outputOptions: seq<string>,
                               succeeds: Stage -> bool)
    requires AllSucceed([TrimClip(input, trimmed, duration),
                         ExtractLastFrame(trimmed, lastFrame),
                         GenerateVideo(lastFrame, prompt, ai),
                         ProbeAudio(ai),
                         ReverseClip(ai, reversed, filterGraph, outputOptions),
                         MergeClips(ai, reversed, doubled),
                         AddBackgroundMusic(doubled, withAudio, audioUrl),
                         MergeClips(trimmed, withAudio, combined)], succeeds)
    ensures Produced([TrimClip(input, trimmed, duration),
                      ExtractLastFrame(trimmed, lastFrame),
                      GenerateVideo(lastFrame, prompt, ai),
                      ProbeAudio(ai),
                      ReverseClip(ai, reversed, filterGraph, outputOptions),
                      MergeClips(ai, reversed, doubled),
                      AddBackgroundMusic(doubled, withAudio, audioUrl),
                      MergeClips(trimmed, withAudio, combined)], succeeds)
            == {trimmed, lastFrame, ai, reversed, doubled, withAudio, combined}
  {
    var plan := [TrimClip(input, trimmed, duration),
                 ExtractLastFrame(trimmed, lastFrame),
                 GenerateVideo(lastFrame, prompt, ai),
                 ProbeAudio(ai),
                 ReverseClip(ai, reversed, filterGraph, outputOptions),
                 MergeClips(ai, reversed, doubled),
                 AddBackgroundMusic(doubled, withAudio, audioUrl),
                 MergeClips(trimmed, withAudio, combined)];
    assert succeeds(plan[0]) && succeeds(plan[1]) && succeeds(plan[2]) && succeeds(plan[3]);
    assert succeeds(plan[4]) && succeeds(plan[5]) && succeeds(plan[6]) && succeeds(plan[7]);
    var p7 := [plan[7]] + [];
    var p6 := [plan[6]] + p7;
    var p5 := [plan[5]] + p6;
    var p4 := [plan[4]] + p5;
    var p3 := [plan[3]] + p4;
    var p2 := [plan[2]] + p3;
    var p1 := [plan[1]] + p2;
    assert plan == [plan[0]] + p1;
    ProducedCons(plan[7], [], succeeds);
    ProducedCons(plan[6], p7, succeeds);
    ProducedCons(plan[5], p6, succeeds);
    ProducedCons(plan[4], p5, succeeds);
    ProducedCons(plan[3], p4, succeeds);
    ProducedCons(plan[2], p3, succeeds);
    ProducedCons(plan[1], p2, succeeds);
    ProducedCons(plan[0], p1, succeeds);
    UnionOfSingletons(trimmed, lastFrame, ai, reversed, doubled, withAudio, combined);
  }

  lemma UnionOfSingletons(a: string, b: string, c: string, d: string, e: string, f: string, g: string)
    ensures {a} + ({b} + ({c} + ({} + ({d} + ({e} + ({f} + ({g} + {})))))))
            == {a, b, c, d, e, f, g}
  {
  }

  /** When every stage succeeds, the files created are exactly the request's temp files. */
  lemma ProducedByPlan(input: string, timestamp: nat, body: Body, hasAudio: bool, succeeds: Stage -> bool)
    requires AllSucceed(Plan(input, timestamp, body, hasAudio), succeeds)
    ensures Produced(Plan(input, timestamp, body, hasAudio), succeeds) == WrittenPaths(timestamp, WantsDouble(body))
  {
    PlanUnfolded(input, timestamp, body, hasAudio);
    var trimmed, lastFrame := ArtifactPath(Trimmed, timestamp), ArtifactPath(LastFrame, timestamp);
    var ai, withAudio := ArtifactPath(AiGenerated, timestamp), ArtifactPath(GeneratedWithAudio, timestamp);
    var combined := ArtifactPath(Combined, timestamp);
    var doubled, reversed := ArtifactPath(Doubled, timestamp), ArtifactPath(VideoPaths.Reversed, timestamp);
    if WantsDouble(body) {
      DoubleGenerationWrites(input, trimmed, lastFrame, ai, reversed, doubled, withAudio, combined,
        Field(body, "clipLength"), Field(body, "prompt"), Field(body, "audioUrl"),
        Ffmpeg.ReverseFilterGraph(hasAudio), Ffmpeg.ReverseOutputOptions(hasAudio), succeeds);
    } else {
      SingleGenerationWrites(input, trimmed, lastFrame, ai, withAudio, combined,
        Field(body, "clipLength"), Field(body, "prompt"), Field(body, "audioUrl"), succeeds);
    }
  }

  /** A temp file other than the four the cleanup list names is not in it. */
  lemma LeftBehindNotCleaned(input: string, timestamp: nat, a: Artifact)
    requires input != ArtifactPath(a, timestamp)
    requires a !in {Trimmed, LastFrame, AiGenerated, Combined}
    ensures ArtifactPath(a, timestamp) !in CleanupList(input, timestamp)
  {
    ArtifactPathsDistinct(a, timestamp, Trimmed, timestamp);
    ArtifactPathsDistinct(a, timestamp, LastFrame, timestamp);
    ArtifactPathsDistinct(a, timestamp, AiGenerated, timestamp);
    ArtifactPathsDistinct(a, timestamp, Combined, timestamp);
  }

  /** Adding files `cleaned + kept` and then deleting `paths`, which name all of `cleaned` and none of `kept`. */
  lemma CleanupAfterAdding(before: set<string>, cleaned: set<string>, kept: set<string>, paths: seq<string>)
    requires forall f :: f in cleaned ==> f in paths
    requires forall f :: f in kept ==> f !in paths
    ensures Without(before + (cleaned + kept), paths) == Without(before, paths) + kept
  {
  }

  /**
   * After a successful run and the cleanup that follows sending the video,
   * the clip with music, and in double mode the doubled and reversed clips,
   * are still on disk: the cleanup list does not name them.
   */
  lemma SuccessLeavesTempFiles(input: string, timestamp: nat, body: Body, hasAudio: bool,
                               succeeds: Stage -> bool, before: set<string>)
    requires AllSucceed(Plan(input, timestamp, body, hasAudio), succeeds)
    requires forall a :: input != ArtifactPath(a, timestamp)
    ensures Without(before + Produced(Plan(input, timestamp, body, hasAudio), succeeds), CleanupList(input, timestamp))
            == Without(before, CleanupList(input, timestamp)) + LeftBehind(timestamp, WantsDouble(body))
  {
    var cleanup := CleanupList(input, timestamp);
    ProducedByPlan(input, timestamp, body, hasAudio, succeeds);
    var cleaned := {ArtifactPath(Trimmed, timestamp), ArtifactPath(LastFrame, timestamp),
                    ArtifactPath(AiGenerated, timestamp), ArtifactPath(Combined, timestamp)};
    LeftBehindNotCleaned(input, timestamp, GeneratedWithAudio);
    LeftBehindNotCleaned(input, timestamp, Doubled);
    LeftBehindNotCleaned(input, timestamp, VideoPaths.Reversed);
    CleanupAfterAdding(before, cleaned, LeftBehind(timestamp, WantsDouble(body)), cleanup);
  }

  /**
   * The reverse-and-merge branch is in the plan exactly when the form field
   * `doubleGeneration` is truthy, so the string "false" turns it on.
   */
  lemma DoubleBranchIffTruthy(input: string, timestamp: nat, body: Body, hasAudio: bool)
    ensures var plan := Plan(input, timestamp, body, hasAudio);
            (exists k :: 0 <= k < |plan| && plan[k].ReverseClip?) <==> Truthy(Field(body, "doubleGeneration"))
    ensures Field(body, "doubleGeneration") == Str("false") ==> |Plan(input, timestamp, body, hasAudio)| == 8
  {
    var plan := Plan(input, timestamp, body, hasAudio);
    PlanUnfolded(input, timestamp, body, hasAudio);
    if WantsDouble(body) {
      assert plan[4].ReverseClip?;
    } else {
      assert plan[0].TrimClip? && plan[1].ExtractLastFrame? && plan[2].GenerateVideo?
             && plan[3].AddBackgroundMusic? && plan[4].MergeClips?;
      forall k | 0 <= k < |plan| ensures !plan[k].ReverseClip? {
        assert k in {0, 1, 2, 3, 4};
      }
    }
    assert Field(body, "doubleGeneration") == Str("false") ==> WantsDouble(body);
  }

  /** The concat list of every merge in `stages` reads back as its two clips, in order. */
  predicate MergeListsReadBackIn(stages: seq<Stage>) {
    forall k :: 0 <= k < |stages| && stages[k].MergeClips? ==>
      Ffmpeg.ReadConcatList(Ffmpeg.ConcatList(stages[k].first, stages[k].second))
      == Some([Ffmpeg.ForwardSlashes(stages[k].first), Ffmpeg.ForwardSlashes(stages[k].second)])
  }

  /**
   * Every merge the plan runs names two temp files, so the concat list
   * written for it reads back as exactly those two clips, in order.
   */
  lemma MergeListsReadBack(input: string, timestamp: nat, body: Body, hasAudio: bool)
    ensures MergeListsReadBackIn(Plan(input, timestamp, body, hasAudio))
  {
    var plan := Plan(input, timestamp, body, hasAudio);
    PlanUnfolded(input, timestamp, body, hasAudio);
    forall k | 0 <= k < |plan| && plan[k].MergeClips?
      ensures Ffmpeg.Plain(plan[k].first) && Ffmpeg.Plain(plan[k].second)
    {
      if WantsDouble(body) {
        assert k == 5 || k == 7;
      } else {
        assert k == 4;
      }
    }
    PlainMergesReadBack(plan);
  }

  /** Merges of non-empty paths without a single quote or line break have lists that read back. */
  lemma PlainMergesReadBack(stages: seq<Stage>)
    requires forall k :: 0 <= k < |stages| && stages[k].MergeClips? ==>
               Ffmpeg.Plain(stages[k].first) && Ffmpeg.Plain(stages[k].second)
    ensures MergeListsReadBackIn(stages)
  {
    forall k | 0 <= k < |stages| && stages[k].MergeClips?
      ensures Ffmpeg.ReadConcatList(Ffmpeg.ConcatList(stages[k].first, stages[k].second))
              == Some([Ffmpeg.ForwardSlashes(stages[k].first), Ffmpeg.ForwardSlashes(stages[k].second)])
    {
      Ffmpeg.ConcatListRoundTrip(stages[k].first, stages[k].second);
    }
  }

}
