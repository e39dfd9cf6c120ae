/**
 * Request validation (utils/validation.js): decision procedures over a
 * request body that either return the cleaned-up values or raise the first
 * validation error, with a message naming the offending field.
 */
module Validation {
  import opened Wrappers
  import opened Strings
  import opened JsValues

  /** The errors the validators throw, one per `throw new Error(...)`. */
  datatype ValidationError =
    | Required(field: string)
    | NotANumber(field: string)
    | BelowMin(field: string, min: real)
    | AboveMax(field: string, max: real)
    | NotAString(field: string)
    | TooShort(field: string, minLength: int)
    | TooLong(field: string, maxLength: int)

  /** The error's message text; every message starts with the name of the field at fault. */
  function Message(e: ValidationError, builtins: Builtins): (m: string)
    ensures StartsWith(m, e.field)
    ensures |m| > |e.field|
  {
    match e
    case Required(f) => f + " is required"
    case NotANumber(f) => f + " must be a valid number"
    case BelowMin(f, min) => f + " must be at least " + builtins.formatNumber(min)
    case AboveMax(f, max) => f + " must be at most " + builtins.formatNumber(max)
    case NotAString(f) => f + " must be a string"
    case TooShort(f, n) => f + " must be at least " + builtins.formatNumber(n as real) + " characters"
    case TooLong(f, n) => f + " must be at most " + builtins.formatNumber(n as real) + " characters"
  }

  /** The values `validateRequired` rejects: undefined, null and the empty string. */
  predicate IsMissing(v: JsValue) {
    v == Undefined || v == Null || v == Str("")
  }

  /** The error a validator raised, if any. */
  function ErrorOf<T>(r: Result<T, ValidationError>): Option<ValidationError> {
    match r
    case Ok(_) => None
    case Err(e) => Some(e)
  }

  /** `validateRequired(value, fieldName)`: `Some(error)` when it throws. */
  function ValidateRequired(v: JsValue, field: string): (r: Option<ValidationError>)
    ensures r.Some? <==> IsMissing(v)
    ensures r.Some? ==> r.value == Required(field)
  {
    if v == Undefined || v == Null || v == Str("") then Some(Required(field)) else None
  }

  /** `num` lies within the bounds that are given (`null` bounds are absent). */
  predicate WithinBounds(num: real, min: Option<real>, max: Option<real>) {
    (min.Some? ==> min.value <= num) && (max.Some? ==> num <= max.value)
  }

  /**
   * `validateNumber(value, fieldName, min, max)`: presence, then NaN, then
   * the lower bound, then the upper bound; returns `Number(value)`.
   */
  function ValidateNumber(v: JsValue, field: string, min: Option<real>, max: Option<real>, builtins: Builtins)
    : (r: Result<real, ValidationError>)
    ensures r.Ok? <==> !IsMissing(v) && ToNumber(v, builtins).Some?
                       && WithinBounds(ToNumber(v, builtins).value, min, max)
    ensures r.Ok? ==> ToNumber(v, builtins) == Some(r.value) && WithinBounds(r.value, min, max)
    ensures r == Err(Required(field)) <==> IsMissing(v)
    ensures r == Err(NotANumber(field)) <==> !IsMissing(v) && ToNumber(v, builtins) == None
    ensures r.Err? && r.error.BelowMin? ==>
              !IsMissing(v) && min == Some(r.error.min) && ToNumber(v, builtins).Some?
              && ToNumber(v, builtins).value < r.error.min
    ensures r.Err? && r.error.AboveMax? ==>
              !IsMissing(v) && max == Some(r.error.max) && ToNumber(v, builtins).Some?
              && r.error.max < ToNumber(v, builtins).value
              && (min.Some? ==> min.value <= ToNumber(v, builtins).value)
    // and conversely: a number below the minimum, or else above the maximum, gets that error
    ensures !IsMissing(v) && ToNumber(v, builtins).Some? && min.Some? && ToNumber(v, builtins).value < min.value
            ==> r == Err(BelowMin(field, min.value))
    ensures !IsMissing(v) && ToNumber(v, builtins).Some? && WithinBounds(ToNumber(v, builtins).value, min, None)
            && max.Some? && max.value < ToNumber(v, builtins).value
            ==> r == Err(AboveMax(field, max.value))
    ensures r.Err? ==> r.error.field == field
  {
    if ValidateRequired(v, field).Some? then Err(Required(field))
    else
      var num := ToNumber(v, builtins);
      if num.None? then Err(NotANumber(field))
      else if min.Some? && num.value < min.value then Err(BelowMin(field, min.value))
      else if max.Some? && num.value > max.value then Err(AboveMax(field, max.value))
      else Ok(num.value)
  }

  /** The string's length lies within the length bounds that are given. */
  predicate LengthWithin(s: string, minLength: Option<int>, maxLength: Option<int>) {
    (minLength.Some? ==> minLength.value <= |s|) && (maxLength.Some? ==> |s| <= maxLength.value)
  }

  /**
   * `validateString(value, fieldName, minLength, maxLength)`: presence, then
   * type, then the UNTRIMMED length against each bound; returns the trimmed string.
   */
  function ValidateString(v: JsValue, field: string, minLength: Option<int>, maxLength: Option<int>)
    : (r: Result<string, ValidationError>)
    ensures r.Ok? <==> !IsMissing(v) && v.Str? && LengthWithin(v.s, minLength, maxLength)
    ensures r.Ok? ==> r.value == Trim(v.s)
    ensures r == Err(Required(field)) <==> IsMissing(v)
    ensures r == Err(NotAString(field)) <==> !IsMissing(v) && !v.Str?
    ensures r.Err? && r.error.TooShort? ==>
              v.Str? && v.s != "" && minLength == Some(r.error.minLength) && |v.s| < r.error.minLength
    ensures r.Err? && r.error.TooLong? ==>
              v.Str? && v.s != "" && maxLength == Some(r.error.maxLength) && r.error.maxLength < |v.s|
              && (minLength.Some? ==> minLength.value <= |v.s|)
    // and conversely: a string shorter than the minimum, or else longer than the maximum, gets that error
    ensures !IsMissing(v) && v.Str? && minLength.Some? && |v.s| < minLength.value
            ==> r == Err(TooShort(field, minLength.value))
    ensures !IsMissing(v) && v.Str? && LengthWithin(v.s, minLength, None)
            && maxLength.Some? && maxLength.value < |v.s|
            ==> r == Err(TooLong(field, maxLength.value))
    ensures r.Err? ==> r.error.field == field
  {
    if ValidateRequired(v, field).Some? then Err(Required(field))
    else if !v.Str? then Err(NotAString(field))
    else if minLength.Some? && |v.s| < minLength.value then Err(TooShort(field, minLength.value))
    else if maxLength.Some? && |v.s| > maxLength.value then Err(TooLong(field, maxLength.value))
    else Ok(Trim(v.s))
  }

  /**
   * The length check sees the untrimmed string: a non-empty, whitespace-only
   * value passes a minimum length of 1 and comes back empty.
   */
  lemma WhitespaceOnlyPassesLengthCheck(s: string, field: string, maxLength: Option<int>)
    requires s != [] && AllWhitespace(s)
    requires maxLength.Some? ==> |s| <= maxLength.value
    ensures ValidateString(Str(s), field, Some(1), maxLength) == Ok("")
  {
    TrimShortens(s);
  }

  /** No check of a list of checks made in order failed. */
  predicate NoErrors(checks: seq<Option<ValidationError>>) {
    forall i :: 0 <= i < |checks| ==> checks[i].None?
  }

  /** `e` is what the earliest failing check of a list of checks made in order raised. */
  predicate IsFirstError(checks: seq<Option<ValidationError>>, e: ValidationError) {
    exists i :: 0 <= i < |checks| && checks[i] == Some(e) && forall j :: 0 <= j < i ==> checks[j].None?
  }

  /** The cleaned-up body of a video request: `{clipLength, prompt}`. */
  datatype VideoRequest = VideoRequest(clipLength: real, prompt: string)

  const MinClipLength: real := 0.1
  const MaxClipLength: real := 60.0
  const MaxCompleteClipLength: real := 120.0
  const MinPromptLength: int := 1
  const MaxPromptLength: int := 500

  /** The checks `validateVideoRequest` makes, in the order it makes them. */
  function VideoRequestChecks(body: Body, builtins: Builtins): seq<Option<ValidationError>> {
    [ ErrorOf(ValidateNumber(Field(body, "clipLength"), "clipLength", Some(MinClipLength), Some(MaxClipLength), builtins)),
      ErrorOf(ValidateString(Field(body, "prompt"), "prompt", Some(MinPromptLength), Some(MaxPromptLength))) ]
  }

  /**
   * `validateVideoRequest(body)`: clipLength in [0.1, 60], then prompt of
   * 1 to 500 characters; returns the number and the trimmed prompt.
   */
  function ValidateVideoRequest(body: Body, builtins: Builtins): (r: Result<VideoRequest, ValidationError>)
    ensures r.Ok? <==> NoErrors(VideoRequestChecks(body, builtins))
    ensures r.Err? ==> IsFirstError(VideoRequestChecks(body, builtins), r.error)
    ensures r.Ok? ==> MinClipLength <= r.value.clipLength <= MaxClipLength
                      && ToNumber(Field(body, "clipLength"), builtins) == Some(r.value.clipLength)
    ensures r.Ok? ==> Field(body, "prompt").Str?
                      && MinPromptLength <= |Field(body, "prompt").s| <= MaxPromptLength
                      && r.value.prompt == Trim(Field(body, "prompt").s)
  {
    var checks := VideoRequestChecks(body, builtins);
    if checks[0].Some? then Err(checks[0].value)
    else if checks[1].Some? then Err(checks[1].value)
    else Ok(VideoRequest(ToNumber(Field(body, "clipLength"), builtins).value, Trim(Field(body, "prompt").s)))
  }

  /** clipLength is checked before prompt: a bad clipLength is reported whatever the prompt. */
  lemma ClipLengthCheckedFirst(body: Body, builtins: Builtins)
    requires ValidateNumber(Field(body, "clipLength"), "clipLength", Some(MinClipLength), Some(MaxClipLength), builtins).Err?
    ensures ValidateVideoRequest(body, builtins).Err?
    ensures ValidateVideoRequest(body, builtins).error.field == "clipLength"
  {
  }

  /** A prompt of spaces only is accepted and comes back as the empty string. */
  lemma WhitespacePromptAccepted(clipLength: real, prompt: string, builtins: Builtins)
    requires MinClipLength <= clipLength <= MaxClipLength
    requires prompt != [] && |prompt| <= MaxPromptLength && AllWhitespace(prompt)
    ensures ValidateVideoRequest(map["clipLength" := Num(clipLength), "prompt" := Str(prompt)], builtins)
            == Ok(VideoRequest(clipLength, ""))
  {
    var body := map["clipLength" := Num(clipLength), "prompt" := Str(prompt)];
    assert Field(body, "prompt") == Str(prompt);
    WhitespaceOnlyPassesLengthCheck(prompt, "prompt", Some(MaxPromptLength));
  }

  /** The body a cleaned-up video request would be sent as. */
  function VideoRequestBody(req: VideoRequest): Body {
    map["clipLength" := Num(req.clipLength), "prompt" := Str(req.prompt)]
  }

  /**
   * Validating an accepted request's own output again gives the same request,
   * except when the trimmed prompt came out empty: that one is then refused
   * as missing.
   */
  lemma VideoRequestRevalidation(body: Body, builtins: Builtins)
    requires ValidateVideoRequest(body, builtins).Ok?
    ensures var req := ValidateVideoRequest(body, builtins).value;
            ValidateVideoRequest(VideoRequestBody(req), builtins)
            == if req.prompt != "" then Ok(req) else Err(Required("prompt"))
  {
    var req := ValidateVideoRequest(body, builtins).value;
    var p := Field(body, "prompt").s;
    var again := VideoRequestBody(req);
    assert Field(again, "clipLength") == Num(req.clipLength);
    assert Field(again, "prompt") == Str(req.prompt);
    TrimShortens(p);
    TrimIdempotent(p);
  }

  /** The cleaned-up body of a complete-video request. */
  datatype CompleteVideoRequest = CompleteVideoRequest(
    aiVideoFileId: string,
    audioUrl: string,
    trimmedVideo: string,
    clipLength: real,
    doubleGeneration: bool,
    generationType: JsValue,
    email: Option<string>)

  /** The checks `validateCompleteVideoRequest` makes, in the order it makes them. */
  function CompleteRequestChecks(body: Body, builtins: Builtins): seq<Option<ValidationError>> {
    [ ErrorOf(ValidateString(Field(body, "aiVideoFileId"), "aiVideoFileId", None, None)),
      ErrorOf(ValidateString(Field(body, "audioUrl"), "audioUrl", None, None)),
      ErrorOf(ValidateString(Field(body, "trimmedVideo"), "trimmedVideo", None, None)),
      ErrorOf(ValidateNumber(Field(body, "clipLength"), "clipLength", Some(MinClipLength), Some(MaxCompleteClipLength), builtins)) ]
  }

  /** `body.generationType || "unknown"`. */
  function GenerationTypeOrDefault(v: JsValue): (r: JsValue)
    ensures Truthy(r)
    ensures Truthy(v) ==> r == v
    ensures !Truthy(v) ==> r == Str("unknown")
  {
    if Truthy(v) then v else Str("unknown")
  }

  /** `body.email ? String(body.email).trim() : null`. */
  function NormalizedEmail(v: JsValue, builtins: Builtins): (r: Option<string>)
    ensures r.None? <==> !Truthy(v)
    ensures v.Str? && Truthy(v) ==> r == Some(Trim(v.s))
  {
    if Truthy(v) then Some(Trim(ToJsString(v, builtins))) else None
  }

  /**
   * `validateCompleteVideoRequest(body)`: aiVideoFileId, audioUrl and
   * trimmedVideo present strings, then clipLength in [0.1, 120]; returns the
   * trimmed strings, the number, `Boolean(doubleGeneration)`, the generation
   * type (default "unknown") and the trimmed email or null.
   */
  function ValidateCompleteVideoRequest(body: Body, builtins: Builtins)
    : (r: Result<CompleteVideoRequest, ValidationError>)
    ensures r.Ok? <==> NoErrors(CompleteRequestChecks(body, builtins))
    ensures r.Err? ==> IsFirstError(CompleteRequestChecks(body, builtins), r.error)
    ensures r.Ok? ==>
              && Field(body, "aiVideoFileId").Str? && r.value.aiVideoFileId == Trim(Field(body, "aiVideoFileId").s)
              && Field(body, "audioUrl").Str? && r.value.audioUrl == Trim(Field(body, "audioUrl").s)
              && Field(body, "trimmedVideo").Str? && r.value.trimmedVideo == Trim(Field(body, "trimmedVideo").s)
              && MinClipLength <= r.value.clipLength <= MaxCompleteClipLength
              && ToNumber(Field(body, "clipLength"), builtins) == Some(r.value.clipLength)
              && r.value.doubleGeneration == Truthy(Field(body, "doubleGeneration"))
              && r.value.generationType == GenerationTypeOrDefault(Field(body, "generationType"))
              && r.value.email == NormalizedEmail(Field(body, "email"), builtins)
  {
    var checks := CompleteRequestChecks(body, builtins);
    if checks[0].Some? then Err(checks[0].value)
    else if checks[1].Some? then Err(checks[1].value)
    else if checks[2].Some? then Err(checks[2].value)
    else if checks[3].Some? then Err(checks[3].value)
    else
      Ok(CompleteVideoRequest(
        Trim(Field(body, "aiVideoFileId").s),
        Trim(Field(body, "audioUrl").s),
        Trim(Field(body, "trimmedVideo").s),
        ToNumber(Field(body, "clipLength"), builtins).value,
        Truthy(Field(body, "doubleGeneration")),
        GenerationTypeOrDefault(Field(body, "generationType")),
        NormalizedEmail(Field(body, "email"), builtins)))
  }

  /** The string "false" is truthy, so it asks for double generation. */
  lemma FalseStringMeansDouble(body: Body, builtins: Builtins)
    requires ValidateCompleteVideoRequest(body, builtins).Ok?
    requires Field(body, "doubleGeneration") == Str("false")
    ensures ValidateCompleteVideoRequest(body, builtins).value.doubleGeneration
  {
  }

  /** The body a cleaned-up complete-video request would be sent as. */
  function CompleteRequestBody(req: CompleteVideoRequest): Body {
    map[
      "aiVideoFileId" := Str(req.aiVideoFileId),
      "audioUrl" := Str(req.audioUrl),
      "trimmedVideo" := Str(req.trimmedVideo),
      "clipLength" := Num(req.clipLength),
      "doubleGeneration" := Bool(req.doubleGeneration),
      "generationType" := req.generationType,
      "email" := match req.email case Some(e) => Str(e) case None => Null]
  }

  /** Each field of the re-sent body holds the request's value. */
  lemma CompleteRequestBodyFields(req: CompleteVideoRequest)
    ensures var body := CompleteRequestBody(req);
      && Field(body, "aiVideoFileId") == Str(req.aiVideoFileId)
      && Field(body, "audioUrl") == Str(req.audioUrl)
      && Field(body, "trimmedVideo") == Str(req.trimmedVideo)
      && Field(body, "clipLength") == Num(req.clipLength)
      && Field(body, "doubleGeneration") == Bool(req.doubleGeneration)
      && Field(body, "generationType") == req.generationType
      && Field(body, "email") == (match req.email case Some(e) => Str(e) case None => Null)
  {
  }

  /** A string `trim` produced passes `validateString` unchanged unless it is empty. */
  lemma TrimmedStringRevalidates(s: string, field: string)
    ensures ValidateString(Str(Trim(s)), field, None, None)
            == if Trim(s) == "" then Err(Required(field)) else Ok(Trim(s))
  {
    TrimIdempotent(s);
  }

  /**
   * Validating an accepted request's own output again gives the same request
   * exactly when none of its three required strings and not its email
   * trimmed down to the empty string.
   */
  lemma CompleteRequestRevalidation(body: Body, builtins: Builtins)
    requires ValidateCompleteVideoRequest(body, builtins).Ok?
    ensures var req := ValidateCompleteVideoRequest(body, builtins).value;
            ValidateCompleteVideoRequest(CompleteRequestBody(req), builtins) == Ok(req)
            <==> req.aiVideoFileId != "" && req.audioUrl != "" && req.trimmedVideo != "" && req.email != Some("")
  {
    var req := ValidateCompleteVideoRequest(body, builtins).value;
    var again := CompleteRequestBody(req);
    var checks := CompleteRequestChecks(again, builtins);
    TrimmedStringRevalidates(Field(body, "aiVideoFileId").s, "aiVideoFileId");
    TrimmedStringRevalidates(Field(body, "audioUrl").s, "audioUrl");
    TrimmedStringRevalidates(Field(body, "trimmedVideo").s, "trimmedVideo");
    CompleteRequestBodyFields(req);
    if req.aiVideoFileId != "" && req.audioUrl != "" && req.trimmedVideo != "" {
      assert NoErrors(checks);
      var req2 := ValidateCompleteVideoRequest(again, builtins).value;
      assert req2.aiVideoFileId == req.aiVideoFileId;
      assert req2.audioUrl == req.audioUrl;
      assert req2.trimmedVideo == req.trimmedVideo;
      assert req2.clipLength == req.clipLength;
      if req.email.Some? {
        TrimIdempotent(ToJsString(Field(body, "email"), builtins));
      }
    } else if req.aiVideoFileId == "" {
      assert checks[0].Some?;
    } else if req.audioUrl == "" {
      assert checks[1].Some?;
    } else {
      assert checks[2].Some?;
    }
  }
}
