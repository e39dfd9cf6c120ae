/**
 * The arguments index.js hands to ffmpeg: the seek time of the last-frame
 * screenshot, the filter graph of the reverse step, and the file list of the
 * concat demuxer used to merge two clips. The ffmpeg runs themselves are
 * not part of this module.
 */
module Ffmpeg {
  import opened Strings
  import opened JsValues
  import VideoPaths

  /** How far before the end of the clip the last frame is taken, in seconds. */
  const LastFrameOffset: real := 0.1

  /** `Math.max(0, duration - 0.1)`: the seek time of the last-frame screenshot. */
  function LastFrameTime(duration: real): (t: real)
    // t is the larger of 0 and duration - 0.1
    ensures t >= 0.0 && t >= duration - LastFrameOffset
    ensures t == 0.0 || t == duration - LastFrameOffset
    // it never seeks past the end, and stays strictly before the end of a non-empty clip
    ensures duration >= 0.0 ==> t <= duration
    ensures duration > 0.0 ==> t < duration
  {
    if duration - LastFrameOffset > 0.0 then duration - LastFrameOffset else 0.0
  }

  /** `metadata.streams.some(stream => stream.codec_type === "audio")`, over the streams' codec types. */
  function HasAudioStream(codecTypes: seq<JsValue>): (r: bool)
    ensures r <==> exists i :: 0 <= i < |codecTypes| && codecTypes[i] == Str("audio")
  {
    if codecTypes == [] then false
    else codecTypes[0] == Str("audio") || HasAudioStream(codecTypes[1..])
  }

  const VideoReverseGraph: string := "[0:v]reverse[v]"
  const AudioReverseGraph: string := ";[0:a]areverse[a]"
  const AudioInputLabel: string := "[0:a]"

  /**
   * The filter graph of the reverse step: the video stream is always
   * reversed; the audio stream only when the clip has one.
   */
  function ReverseFilterGraph(hasAudio: bool): string {
    if hasAudio then VideoReverseGraph + AudioReverseGraph else VideoReverseGraph
  }

  /** The output options of the reverse step: map the reversed video, and the reversed audio if any. */
  function ReverseOutputOptions(hasAudio: bool): seq<string> {
    if hasAudio then ["-map", "[v]", "-map", "[a]"] else ["-map", "[v]"]
  }

  /** Builds the reverse step's arguments by extending the video-only graph and options. */
  method BuildReverseFilter(hasAudio: bool) returns (filterGraph: string, outputOptions: seq<string>)
    ensures filterGraph == ReverseFilterGraph(hasAudio)
    ensures outputOptions == ReverseOutputOptions(hasAudio)
    // the graph reads the audio input exactly when there is one
    ensures Includes(filterGraph, AudioInputLabel) <==> hasAudio
    // options come in "-map <label>" pairs, and every mapped label is an output of the graph
    ensures |outputOptions| % 2 == 0
    ensures forall i :: 0 <= i < |outputOptions| / 2 ==>
              outputOptions[2 * i] == "-map" && Includes(filterGraph, outputOptions[2 * i + 1])
  {
    filterGraph := VideoReverseGraph;
    outputOptions := ["-map", "[v]"];
    assert OccursAt(filterGraph, "[v]", 12);
    if hasAudio {
      filterGraph := filterGraph + AudioReverseGraph;
      outputOptions := outputOptions + ["-map", "[a]"];
      assert filterGraph[..15] == VideoReverseGraph && filterGraph[15..] == AudioReverseGraph;
      assert filterGraph[12..15] == filterGraph[..15][12..15];
      assert OccursAt(filterGraph, "[v]", 12);
      assert filterGraph[16..21] == filterGraph[15..][1..6];
      assert AudioReverseGraph[1..6] == AudioInputLabel by {
        assert |AudioReverseGraph[1..6]| == 5;
        forall i | 0 <= i < 5 ensures AudioReverseGraph[1..6][i] == AudioInputLabel[i] {
          assert AudioReverseGraph[1..6][i] == AudioReverseGraph[i + 1];
        }
      }
      assert OccursAt(filterGraph, AudioInputLabel, 16);
      assert filterGraph[29..32] == filterGraph[15..][14..17];
      assert OccursAt(filterGraph, "[a]", 29);
    } else {
      NoAudioLabelInVideoGraph();
    }
  }

  /** The video-only graph does not mention the audio input. */
  lemma NoAudioLabelInVideoGraph()
    ensures !Includes(VideoReverseGraph, AudioInputLabel)
  {
    forall i ensures !OccursAt(VideoReverseGraph, AudioInputLabel, i) {
      if 0 <= i && i + |AudioInputLabel| <= |VideoReverseGraph| {
        assert 'a' !in VideoReverseGraph;
        assert VideoReverseGraph[i..i + 5][3] != AudioInputLabel[3];
      }
    }
  }

  /** `s.replace(/\\/g, "/")`: every backslash becomes a forward slash. */
  function ForwardSlashes(s: string): (r: string)
    ensures |r| == |s|
    ensures forall i :: 0 <= i < |s| ==> r[i] == (if s[i] == '\\' then '/' else s[i])
    ensures '\\' !in r
  {
    if s == [] then []
    else [if s[0] == '\\' then '/' else s[0]] + ForwardSlashes(s[1..])
  }

  /** One line of an ffmpeg concat-demuxer list: `file '<path>'`. */
  function ConcatEntry(path: string): string {
    "file '" + path + "'\n"
  }

  /** The list `mergeVideos` writes: the first clip, then the second, slashes made forward. */
  function ConcatList(video1: string, video2: string): (r: string)
    // no backslash reaches ffmpeg, and each path is written once, with 8 characters around it
    ensures '\\' !in r
    ensures |r| == |video1| + |video2| + 16
  {
    var e1, e2 := ConcatEntry(ForwardSlashes(video1)), ConcatEntry(ForwardSlashes(video2));
    assert '\\' !in e1 && '\\' !in e2;
    e1 + e2
  }

  /*
   * How ffmpeg's concat demuxer reads such a list. It takes the text line by
   * line, a line ending at "\n", "\r" or "\r\n". On each line it skips
   * blanks and takes the keyword up to the next blank; empty lines and lines
   * whose keyword starts with "#" are skipped. The argument of `file` is read
   * by `av_get_token`: a single quote switches quoting on until the next
   * single quote, outside quotes a backslash escapes the next character and
   * a blank ends the argument, and blanks after the last quoted or escaped
   * character are dropped. An empty argument is refused.
   */

  /** The blanks of the concat demuxer and of `av_get_token`: space, tab, CR and LF. */
  predicate IsBlank(c: char) {
    c == ' ' || c == '\t' || c == '\r' || c == '\n'
  }

  predicate IsLineBreak(c: char) {
    c == '\n' || c == '\r'
  }

  /** The length of the first line of `s`: the position of its first line break. */
  function LineLength(s: string): (n: nat)
    ensures n <= |s|
    ensures forall i :: 0 <= i < n ==> !IsLineBreak(s[i])
    ensures n < |s| ==> IsLineBreak(s[n])
  {
    if s == [] || IsLineBreak(s[0]) then 0 else 1 + LineLength(s[1..])
  }

  /** The lines of `text`, without their line breaks; "\r\n" is one line break. */
  function Lines(text: string): seq<string>
    decreases |text|
  {
    if text == [] then []
    else
      var n := LineLength(text);
      if n == |text| then [text]
      else
        var next := if text[n] == '\r' && n + 1 < |text| && text[n + 1] == '\n' then n + 2 else n + 1;
        [text[..n]] + Lines(text[next..])
  }

  function SkipBlanks(s: string): string {
    if s != [] && IsBlank(s[0]) then SkipBlanks(s[1..]) else s
  }

  /** The keyword at the start of `s`: everything up to the first blank. */
  function Keyword(s: string): (r: string)
    ensures |r| <= |s| && r == s[..|r|]
    ensures forall i :: 0 <= i < |r| ==> !IsBlank(r[i])
    ensures |r| < |s| ==> IsBlank(s[|r|])
  {
    if s == [] || IsBlank(s[0]) then [] else [s[0]] + Keyword(s[1..])
  }

  /**
   * The loop of `av_get_token` over `s`: `out` is the argument read so far,
   * and its first `end` characters are kept by the final trimming of blanks.
   */
  function Scan(s: string, out: string, end: nat): (string, nat)
    decreases |s|
  {
    if s == [] || IsBlank(s[0]) then (out, end)
    else if s[0] == '\\' && |s| > 1 then Scan(s[2..], out + [s[1]], |out| + 1)
    else if s[0] == '\'' then
      match IndexOf(s[1..], '\'')
      case None => (out + s[1..], end)
      case Some(j) => Scan(s[j + 2..], out + s[1..j + 1], |out| + j)
    else Scan(s[1..], out + [s[0]], end)
  }

  /** Drops the blanks that end `out` after its first `end` characters. */
  function DropTrailingBlanks(out: string, end: nat): (r: string)
    ensures |r| <= |out| && r == out[..|r|]
    ensures end <= |out| ==> end <= |r|
    decreases |out|
  {
    if end < |out| && IsBlank(out[|out| - 1]) then DropTrailingBlanks(out[..|out| - 1], end) else out
  }

  /** `av_get_token(&cursor, SPACE_CHARS)`: the argument at the start of `s`. */
  function GetToken(s: string): string {
    var (out, end) := Scan(SkipBlanks(s), [], 0);
    DropTrailingBlanks(out, end)
  }

  /** What one line of a list contributes. */
  datatype LineRead = Skipped | Refused | FileEntry(path: string)

  /** One line: a `file` directive gives a clip; any other directive is not modelled and refused. */
  function ReadLine(line: string): LineRead {
    var s := SkipBlanks(line);
    var keyword := Keyword(s);
    if keyword == [] || keyword[0] == '#' then Skipped
    else if keyword != "file" then Refused
    else
      var path := GetToken(s[|keyword|..]);
      if path == [] then Refused else FileEntry(path)
  }

  function ReadLines(lines: seq<string>): Wrappers.Option<seq<string>> {
    if lines == [] then Wrappers.Some([])
    else
      match ReadLine(lines[0])
      case Skipped => ReadLines(lines[1..])
      case Refused => Wrappers.None
      case FileEntry(path) =>
        match ReadLines(lines[1..])
        case None => Wrappers.None
        case Some(paths) => Wrappers.Some([path] + paths)
  }

  /** The clips the concat demuxer reads from a list, or `None` when it refuses the list. */
  function ReadConcatList(text: string): Wrappers.Option<seq<string>> {
    ReadLines(Lines(text))
  }

  /** The first line break of `s` is at `n`. */
  lemma LineLengthIs(s: string, n: nat)
    requires n <= |s| && forall i :: 0 <= i < n ==> !IsLineBreak(s[i])
    requires n < |s| ==> IsLineBreak(s[n])
    ensures LineLength(s) == n
  {
  }

  /** A line without line breaks, ended by "\n", is the first line of the text. */
  lemma LinesAfterLine(line: string, more: string)
    requires '\n' !in line && '\r' !in line
    ensures Lines(line + "\n" + more) == [line] + Lines(more)
  {
    var text := line + "\n" + more;
    forall i | 0 <= i < |line| ensures !IsLineBreak(text[i]) {
      assert text[i] == line[i];
    }
    LineLengthIs(text, |line|);
    assert text[..|line|] == line;
    assert text[|line| + 1..] == more;
  }

  /** A word without blanks followed by a blank, or by nothing, is the keyword. */
  lemma {:induction false} KeywordBeforeBlank(w: string, rest: string)
    requires forall i :: 0 <= i < |w| ==> !IsBlank(w[i])
    requires rest == [] || IsBlank(rest[0])
    ensures Keyword(w + rest) == w
  {
    if w != [] {
      KeywordBeforeBlank(w[1..], rest);
      assert (w + rest)[1..] == w[1..] + rest;
      assert [w[0]] + w[1..] == w;
    }
  }

  /** Characters that are neither blanks, backslashes nor quotes are copied as they are. */
  lemma {:induction false} ScanPlain(y: string, rest: string, out: string, end: nat)
    requires forall i :: 0 <= i < |y| ==> !IsBlank(y[i]) && y[i] != '\\' && y[i] != '\''
    ensures Scan(y + rest, out, end) == Scan(rest, out + y, end)
  {
    if y != [] {
      assert (y + rest)[0] == y[0];
      assert !IsBlank(y[0]) && y[0] != '\\' && y[0] != '\'';
      assert (y + rest)[1..] == y[1..] + rest;
      assert Scan(y + rest, out, end) == Scan(y[1..] + rest, out + [y[0]], end);
      ScanPlain(y[1..], rest, out + [y[0]], end);
      assert out + [y[0]] + y[1..] == out + y;
    } else {
      assert y + rest == rest && out + y == out;
    }
  }

  /** A quoted run is copied as it is, whatever it holds but a quote, and protected from trimming. */
  lemma ScanQuoted(x: string, rest: string, out: string, end: nat)
    requires '\'' !in x
    ensures Scan("'" + x + "'" + rest, out, end) == Scan(rest, out + x, |out| + |x|)
  {
    var s := "'" + x + "'" + rest;
    assert s[1..] == x + ("'" + rest);
    assert s[1..][|x|] == '\'';
    assert s[1..][..|x|] == x;
    assert IndexOf(s[1..], '\'') == Wrappers.Some(|x|);
    assert s[1..|x| + 1] == x;
    assert s[|x| + 2..] == rest;
  }

  /** The argument never gets longer than the text it is read from, and an opening quote is dropped. */
  lemma {:induction false} ScanLength(s: string, out: string, end: nat)
    ensures |Scan(s, out, end).0| <= |out| + |s|
    ensures s != [] && s[0] == '\'' ==> |Scan(s, out, end).0| < |out| + |s|
    decreases |s|
  {
    if s == [] || IsBlank(s[0]) {
    } else if s[0] == '\\' && |s| > 1 {
      ScanLength(s[2..], out + [s[1]], |out| + 1);
    } else if s[0] == '\'' {
      match IndexOf(s[1..], '\'')
      case None =>
      case Some(j) =>
        ScanLength(s[j + 2..], out + s[1..j + 1], |out| + j);
    } else {
      ScanLength(s[1..], out + [s[0]], end);
    }
  }

  /** Blanks before the argument are skipped. */
  lemma TokenAfterBlank(c: char, s: string)
    requires IsBlank(c)
    ensures GetToken([c] + s) == GetToken(s)
  {
    assert ([c] + s)[1..] == s;
  }

  /** A line `file <arg>` reads as the argument `av_get_token` takes from `arg`, and is refused when that is empty. */
  lemma ReadFileLine(arg: string)
    requires arg != [] && !IsBlank(arg[0])
    ensures ReadLine("file " + arg) == if GetToken(arg) == [] then Refused else FileEntry(GetToken(arg))
  {
    var line := "file " + arg;
    assert SkipBlanks(line) == line;
    assert line == "file" + (" " + arg);
    KeywordBeforeBlank("file", " " + arg);
    assert line[4..] == [' '] + arg;
    TokenAfterBlank(' ', arg);
  }

  /** The argument `'<path>'` reads as `path` when `path` holds no single quote. */
  lemma QuotedToken(path: string)
    requires '\'' !in path
    ensures GetToken("'" + path + "'") == path
  {
    assert "'" + path + "'" == "'" + path + "'" + [];
    ScanQuoted(path, [], [], 0);
    assert [] + path == path;
  }

  /** An entry for a non-empty path without a single quote or line break reads back as that path. */
  lemma ParseEntry(path: string, more: string)
    requires '\'' !in path && '\n' !in path && '\r' !in path && path != []
    ensures ReadConcatList(ConcatEntry(path) + more)
            == match ReadConcatList(more)
               case None => Wrappers.None
               case Some(paths) => Wrappers.Some([path] + paths)
  {
    var arg := "'" + path + "'";
    var line := "file " + arg;
    assert ConcatEntry(path) + more == line + "\n" + more;
    LinesAfterLine(line, more);
    QuotedToken(path);
    ReadFileLine(arg);
    assert ([line] + Lines(more))[1..] == Lines(more);
  }

  /** Turning backslashes into slashes leaves every other character where it was. */
  lemma ForwardSlashesKeeps(s: string, c: char)
    requires c != '\\' && c != '/'
    ensures c in ForwardSlashes(s) <==> c in s
  {
    var r := ForwardSlashes(s);
    if c in r {
      var i :| 0 <= i < |r| && r[i] == c;
      assert s[i] == c;
    }
    if c in s {
      var i :| 0 <= i < |s| && s[i] == c;
      assert r[i] == c;
    }
  }

  /** A non-empty path without a single quote or line break, slashes made forward. */
  predicate Plain(p: string) {
    p != [] && '\'' !in p && '\n' !in p && '\r' !in p
  }

  lemma ForwardSlashesPlain(s: string)
    requires Plain(s)
    ensures Plain(ForwardSlashes(s))
  {
    ForwardSlashesKeeps(s, '\'');
    ForwardSlashesKeeps(s, '\n');
    ForwardSlashesKeeps(s, '\r');
  }

  /**
   * The list names the two clips in argument order, and ffmpeg reads back
   * exactly those paths as long as neither is empty or holds a single quote
   * or a line break.
   */
  lemma ConcatListRoundTrip(video1: string, video2: string)
    requires Plain(video1) && Plain(video2)
    ensures ReadConcatList(ConcatList(video1, video2)) == Wrappers.Some([ForwardSlashes(video1), ForwardSlashes(video2)])
  {
    var p1, p2 := ForwardSlashes(video1), ForwardSlashes(video2);
    ForwardSlashesPlain(video1);
    ForwardSlashesPlain(video2);
    ParseEntry(p2, []);
    assert ConcatEntry(p2) + [] == ConcatEntry(p2);
    assert ReadConcatList([]) == Wrappers.Some([]);
    assert [p2] + [] == [p2];
    ParseEntry(p1, ConcatEntry(p2));
    assert [p1] + [p2] == [p1, p2];
  }

  /** The first line of an entry for a path holding a line break stops at that line break. */
  lemma FirstLineCut(path: string, more: string)
    requires '\n' in path || '\r' in path
    ensures var k := LineLength(path);
            k < |path| && Lines(ConcatEntry(path) + more) != []
            && Lines(ConcatEntry(path) + more)[0] == "file '" + path[..k]
  {
    var k := LineLength(path);
    var i :| 0 <= i < |path| && IsLineBreak(path[i]);
    assert k < |path|;
    var text := ConcatEntry(path) + more;
    var line := "file '" + path[..k];
    assert text == line + path[k..] + "'\n" + more;
    forall j | 0 <= j < |line| ensures !IsLineBreak(text[j]) {
      assert text[j] == line[j];
      if j >= 6 {
        assert line[j] == path[j - 6];
      }
    }
    assert text[|line|] == path[k];
    LineLengthIs(text, |line|);
    assert text[..|line|] == line;
  }

  /** A `file` line whose argument opens with a quote reads, if at all, as something shorter than the argument. */
  lemma QuotedArgumentShrinks(arg: string)
    requires arg != [] && arg[0] == '\''
    ensures ReadLine("file " + arg) == Refused
            || (ReadLine("file " + arg).FileEntry? && |ReadLine("file " + arg).path| < |arg|)
  {
    ScanLength(arg, [], 0);
    assert SkipBlanks(arg) == arg;
    ReadFileLine(arg);
  }

  /**
   * A line break in a path ends its line early: ffmpeg refuses the list or
   * reads a first clip shorter than the path.
   */
  lemma LineBreakCutsEntry(path: string, more: string)
    requires '\n' in path || '\r' in path
    ensures var r := ReadConcatList(ConcatEntry(path) + more);
            r.None? || (r.value != [] && |r.value[0]| < |path|)
  {
    var k := LineLength(path);
    FirstLineCut(path, more);
    var arg := "'" + path[..k];
    assert "file '" + path[..k] == "file " + arg;
    QuotedArgumentShrinks(arg);
  }

  /**
   * A clip whose path holds a line break is never read back as written:
   * either path of a list, the second one when the first reads back.
   */
  lemma LineBreakInPathMisread(video1: string, video2: string)
    requires '\n' in video1 || '\r' in video1 || (Plain(video1) && ('\n' in video2 || '\r' in video2))
    ensures ReadConcatList(ConcatList(video1, video2)) != Wrappers.Some([ForwardSlashes(video1), ForwardSlashes(video2)])
  {
    var p1, p2 := ForwardSlashes(video1), ForwardSlashes(video2);
    assert ConcatList(video1, video2) == ConcatEntry(p1) + ConcatEntry(p2);
    if '\n' in video1 || '\r' in video1 {
      ForwardSlashesKeeps(video1, '\n');
      ForwardSlashesKeeps(video1, '\r');
      LineBreakCutsEntry(p1, ConcatEntry(p2));
    } else {
      ForwardSlashesPlain(video1);
      ForwardSlashesKeeps(video2, '\n');
      ForwardSlashesKeeps(video2, '\r');
      SecondEntryMisread(p1, p2);
    }
  }

  /** After an entry that reads back, an entry cut by a line break is not read back either. */
  lemma SecondEntryMisread(p1: string, p2: string)
    requires Plain(p1) && ('\n' in p2 || '\r' in p2)
    ensures ReadConcatList(ConcatEntry(p1) + ConcatEntry(p2)) != Wrappers.Some([p1, p2])
  {
    ParseEntry(p1, ConcatEntry(p2));
    LineBreakCutsEntry(p2, []);
    assert ConcatEntry(p2) + [] == ConcatEntry(p2);
    var r := ReadConcatList(ConcatEntry(p2));
    if r.Some? {
      assert ([p1] + r.value)[1..] == r.value;
    }
  }

  /** In `'x'y'` the middle quote closes the quoted part, `y` is read unquoted and the last quote opens nothing. */
  lemma QuoteInArgumentDropped(x: string, y: string)
    requires '\'' !in x && '\'' !in y && '\\' !in y && ' ' !in y && '\t' !in y && '\n' !in y && '\r' !in y
    ensures GetToken("'" + x + "'" + y + "'") == x + y
  {
    var arg := "'" + x + "'" + y + "'";
    ScanQuoted(x, y + "'", [], 0);
    assert "'" + x + "'" + (y + "'") == arg;
    ScanPlain(y, "'", [] + x, |x|);
    assert "'"[1..] == [] && IndexOf("'"[1..], '\'') == Wrappers.None;
    assert x + y + "'"[1..] == x + y;
    assert Scan("'", x + y, |x|) == (x + y, |x|);
    assert SkipBlanks(arg) == arg;
    if y != [] {
      assert (x + y)[|x + y| - 1] == y[|y| - 1];
    }
  }

  /**
   * A single quote inside a path ends the quoted part; the rest of the path
   * is read unquoted and the final quote opens an empty quoted part. ffmpeg
   * reads the path without its quote, a file that was never written.
   */
  lemma QuoteInPathDropsQuote(x: string, y: string, c: string)
    requires Plain(x + y) && Plain(c)
    requires '\\' !in x && '\\' !in y && '\\' !in c
    requires ' ' !in y && '\t' !in y
    ensures ReadConcatList(ConcatList(x + "'" + y, c)) == Wrappers.Some([x + y, c])
    ensures x + y != x + "'" + y
  {
    var p1 := x + "'" + y;
    assert '\\' !in p1;
    NoBackslashUnchanged(p1);
    NoBackslashUnchanged(c);
    var arg := "'" + x + "'" + y + "'";
    QuotedEntry(x, y, ConcatEntry(c));
    QuoteInArgumentDropped(x, y);
    EntryThenPlain(arg, c);
    assert |x + y| < |p1|;
  }

  /** The entry of `x'y` is a `file` line whose argument is `'x'y'`. */
  lemma QuotedEntry(x: string, y: string, more: string)
    ensures ConcatEntry(x + "'" + y) + more == "file " + ("'" + x + "'" + y + "'") + "\n" + more
  {
    var arg := "'" + x + "'" + y + "'";
    calc {
      ConcatEntry(x + "'" + y) + more;
      "file '" + (x + "'" + y) + "'\n" + more;
      "file " + ("'" + (x + "'" + y) + "'") + "\n" + more;
      { assert "'" + (x + "'" + y) + "'" == arg; }
      "file " + arg + "\n" + more;
    }
  }

  /** A line `file <arg>`, then the entry of a plain path `c`, read back as the argument and `c`. */
  lemma EntryThenPlain(arg: string, c: string)
    requires '\n' !in arg && '\r' !in arg && Plain(c)
    requires arg != [] && !IsBlank(arg[0]) && GetToken(arg) != []
    ensures ReadConcatList("file " + arg + "\n" + ConcatEntry(c)) == Wrappers.Some([GetToken(arg), c])
  {
    var line := "file " + arg;
    LinesAfterLine(line, ConcatEntry(c));
    ReadFileLine(arg);
    ParseEntry(c, []);
    assert ConcatEntry(c) + [] == ConcatEntry(c);
    assert ReadConcatList([]) == Wrappers.Some([]);
    assert [c] + [] == [c];
    assert ([line] + Lines(ConcatEntry(c)))[1..] == Lines(ConcatEntry(c));
    assert [GetToken(arg)] + [c] == [GetToken(arg), c];
  }

  /**
   * A single quote followed by a line break and `file '` inside a path makes
   * the list name a clip that neither argument is: three clips are read
   * from a list written for two.
   */
  lemma QuoteInPathAddsClip(a: string, b: string, c: string)
    requires Plain(a) && Plain(b) && Plain(c)
    requires '\\' !in a && '\\' !in b && '\\' !in c
    ensures ReadConcatList(ConcatList(a + "'\nfile '" + b, c)) == Wrappers.Some([a, b, c])
  {
    var p1 := a + "'\nfile '" + b;
    assert '\\' !in p1;
    NoBackslashUnchanged(p1);
    NoBackslashUnchanged(c);
    QuoteSplitsEntry(a, b);
    ConcatAssociates(ConcatEntry(a), ConcatEntry(b), ConcatEntry(c));
    ParseThreeEntries(a, b, c);
  }

  /** Three entries of plain paths read back as those three paths. */
  lemma ParseThreeEntries(a: string, b: string, c: string)
    requires Plain(a) && Plain(b) && Plain(c)
    ensures ReadConcatList(ConcatEntry(a) + (ConcatEntry(b) + ConcatEntry(c))) == Wrappers.Some([a, b, c])
  {
    ParseEntry(c, []);
    assert ConcatEntry(c) + [] == ConcatEntry(c);
    assert ReadConcatList([]) == Wrappers.Some([]);
    assert [c] + [] == [c];
    assert ReadConcatList(ConcatEntry(c)) == Wrappers.Some([c]);
    ParseEntry(b, ConcatEntry(c));
    assert [b] + [c] == [b, c];
    assert ReadConcatList(ConcatEntry(b) + ConcatEntry(c)) == Wrappers.Some([b, c]);
    ParseEntry(a, ConcatEntry(b) + ConcatEntry(c));
    assert [a] + [b, c] == [a, b, c];
  }

  /** A path without backslashes is written as it is. */
  lemma {:induction false} NoBackslashUnchanged(s: string)
    requires '\\' !in s
    ensures ForwardSlashes(s) == s
  {
    if s != [] {
      NoBackslashUnchanged(s[1..]);
      assert [s[0]] + s[1..] == s;
    }
  }

  /** A path holding `'\nfile '` is written as two entries. */
  lemma QuoteSplitsEntry(a: string, b: string)
    ensures ConcatEntry(a + "'\nfile '" + b) == ConcatEntry(a) + ConcatEntry(b)
  {
  }
}
