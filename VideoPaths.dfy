/**
 * Per-request temp file naming in the video route of index.js: every
 * intermediate file of a request is named `<kind>_<timestamp>.<ext>` under
 * /tmp, and the double-generation and reversed clips are derived from the
 * AI clip's name by rewriting its trailing ".mp4".
 */
module VideoPaths {
  import opened Strings

  const TmpDir: string := "/tmp"

  /** The intermediate files one request writes under /tmp. */
  datatype Artifact =
    | Trimmed             // trimmed_<T>.mp4
    | LastFrame           // last_frame_<T>.jpg
    | AiGenerated         // ai_generated_<T>.mp4
    | GeneratedWithAudio  // generated_with_audio_<T>.mp4
    | Combined            // combined_<T>.mp4
    | Doubled             // ai_generated_<T>_double.mp4
    | Reversed            // ai_generated_<T>_reversed.mp4

  function NamePrefix(a: Artifact): string {
    match a
    case Trimmed => "trimmed_"
    case LastFrame => "last_frame_"
    case AiGenerated => "ai_generated_"
    case GeneratedWithAudio => "generated_with_audio_"
    case Combined => "combined_"
    case Doubled => "ai_generated_"
    case Reversed => "ai_generated_"
  }

  function NameTail(a: Artifact): string {
    match a
    case LastFrame => ".jpg"
    case Doubled => "_double.mp4"
    case Reversed => "_reversed.mp4"
    case _ => ".mp4"
  }

  /** `path.join("/tmp", `${prefix}${timestamp}${tail}`)` */
  function ArtifactPath(a: Artifact, timestamp: nat): (p: string)
    // a file directly inside /tmp, whose name holds no further "/", no single quote and no line break
    ensures |p| > 5 && p[..5] == "/tmp/" && '/' !in p[5..] && '\'' !in p
    ensures '\n' !in p && '\r' !in p
  {
    NameIsPlain(a, NatToString(timestamp));
    TmpDir + "/" + NamePrefix(a) + NatToString(timestamp) + NameTail(a)
  }

  /** The fixed parts of a temp file name and its digits hold no "/", no quote and no line break. */
  lemma NameIsPlain(a: Artifact, digits: string)
    requires AllDigits(digits)
    ensures var p := TmpDir + "/" + NamePrefix(a) + digits + NameTail(a);
            |p| > 5 && p[..5] == "/tmp/" && '/' !in p[5..] && '\'' !in p
    ensures var p := TmpDir + "/" + NamePrefix(a) + digits + NameTail(a);
            '\n' !in p && '\r' !in p
  {
    var head, tail := NamePrefix(a), NameTail(a);
    var name := head + digits + tail;
    var p := TmpDir + "/" + head + digits + tail;
    FixedPartsPlain(a);
    assert '/' !in digits && '\'' !in digits && '\n' !in digits && '\r' !in digits;
    assert p == "/tmp/" + name;
    assert p[5..] == name;
  }

  /** The characters the fixed parts of the names are made of: lower-case letters, digits, "_" and ".". */
  predicate IsNameChar(c: char) {
    'a' <= c <= 'z' || '0' <= c <= '9' || c == '_' || c == '.'
  }

  /** The fixed parts of each kind's name are made of name characters only. */
  lemma FixedPartsPlain(a: Artifact)
    ensures |NamePrefix(a)| > 0
    ensures forall c :: c in NamePrefix(a) ==> IsNameChar(c)
    ensures forall c :: c in NameTail(a) ==> IsNameChar(c)
  {
    match a
    case Trimmed =>
    case LastFrame =>
    case AiGenerated =>
    case GeneratedWithAudio =>
    case Combined =>
    case Doubled =>
    case Reversed =>
  }

  /** The first character after "/tmp/" tells the kinds with different name prefixes apart. */
  lemma KindShowsAfterDir(a: Artifact, t: nat)
    ensures ArtifactPath(a, t)[5] == NamePrefix(a)[0]
  {
  }

  /**
   * Temp paths never collide: two artifacts share a path only if they are
   * the same kind of artifact of the same request timestamp.
   */
  lemma ArtifactPathsDistinct(a1: Artifact, t1: nat, a2: Artifact, t2: nat)
    ensures ArtifactPath(a1, t1) == ArtifactPath(a2, t2) <==> a1 == a2 && t1 == t2
  {
    var p1, p2 := ArtifactPath(a1, t1), ArtifactPath(a2, t2);
    KindShowsAfterDir(a1, t1);
    KindShowsAfterDir(a2, t2);
    if p1 == p2 {
      if NamePrefix(a1) == NamePrefix(a2) {
        assert p1 == (TmpDir + "/" + NamePrefix(a1)) + NatToString(t1) + NameTail(a1);
        assert p2 == (TmpDir + "/" + NamePrefix(a1)) + NatToString(t2) + NameTail(a2);
        NumberedNamesEqual(TmpDir + "/" + NamePrefix(a1), NatToString(t1), NameTail(a1), NatToString(t2), NameTail(a2));
        NatToStringInjective(t1, t2);
      }
    }
  }

  /** `p.replace(/\.mp4$/, replacement)`: only a trailing ".mp4" is replaced. */
  function ReplaceMp4Suffix(p: string, replacement: string): (r: string)
    ensures EndsWith(p, ".mp4") ==>
              |r| == |p| - 4 + |replacement| && StartsWith(r, p[..|p| - 4]) && EndsWith(r, replacement)
    ensures !EndsWith(p, ".mp4") ==> r == p
  {
    if EndsWith(p, ".mp4") then p[..|p| - 4] + replacement else p
  }

  /** The output path of double generation, from the AI clip's path. */
  function DoublePath(p: string): string {
    ReplaceMp4Suffix(p, "_double.mp4")
  }

  /** The reversed clip's path, from the clip's path. */
  function ReversedPath(p: string): string {
    ReplaceMp4Suffix(p, "_reversed.mp4")
  }

  /** Rewriting the suffix of a path that ends in ".mp4" changes it, unless the replacement is ".mp4" itself. */
  lemma ReplaceChangesPath(p: string, replacement: string)
    requires EndsWith(p, ".mp4")
    ensures ReplaceMp4Suffix(p, replacement) == p <==> replacement == ".mp4"
  {
    var r := ReplaceMp4Suffix(p, replacement);
    if r == p {
      assert replacement == p[|p| - 4..];
    }
  }

  /**
   * The double and reversed paths the code derives from the AI clip's path
   * are the request's Doubled and Reversed artifacts.
   */
  lemma DerivedPaths(timestamp: nat)
    ensures DoublePath(ArtifactPath(AiGenerated, timestamp)) == ArtifactPath(Doubled, timestamp)
    ensures ReversedPath(ArtifactPath(AiGenerated, timestamp)) == ArtifactPath(Reversed, timestamp)
  {
    var stem := TmpDir + "/" + NamePrefix(AiGenerated) + NatToString(timestamp);
    var p := ArtifactPath(AiGenerated, timestamp);
    assert p == stem + ".mp4";
    assert EndsWith(p, ".mp4");
    assert p[..|p| - 4] == stem;
  }
}
