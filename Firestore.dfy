/**
 * The Firebase Storage pieces of firebase/firestore.js that compute
 * something: the object name `uploadVideoToFirebase` uploads under, and the
 * way `deleteVideoFromFirebase` recovers the object path from a download URL
 * (a host check, `decodeURIComponent`, then the regular expression
 * `/o\/(.+?)\?/`). The Storage SDK calls around them are not modelled.
 */
module Firestore {
  import opened Wrappers
  import opened Strings

  /** The host every Firebase Storage download URL contains. */
  const StorageHost: string := "firebasestorage.googleapis.com"

  /** Why `deleteVideoFromFirebase` throws before issuing the delete. */
  datatype DeleteError =
    | InvalidUrl       // "Invalid Firebase Storage URL"
    | MalformedUrl     // the URIError of decodeURIComponent
    | NoStoragePath    // "Unable to extract storage path from URL"

  // ---------------------------------------------------------------------
  // Percent-decoding (decodeURIComponent, for escapes of ASCII characters)
  // ---------------------------------------------------------------------

  predicate IsHexDigit(c: char) {
    '0' <= c <= '9' || 'a' <= c <= 'f' || 'A' <= c <= 'F'
  }

  function HexValue(c: char): (v: nat)
    requires IsHexDigit(c)
    ensures v < 16
  {
    if '0' <= c <= '9' then c as int - '0' as int
    else if 'a' <= c <= 'f' then c as int - 'a' as int + 10
    else c as int - 'A' as int + 10
  }

  /** The upper-case hex digit encodeURIComponent writes for `v`. */
  function HexDigit(v: nat): (c: char)
    requires v < 16
    ensures IsHexDigit(c) && HexValue(c) == v
  {
    if v < 10 then (v + '0' as int) as char else (v - 10 + 'A' as int) as char
  }

  predicate IsAscii(c: char) {
    c as int < 0x80
  }

  /**
   * `decodeURIComponent(s)`: every `%XY` becomes the character with code
   * XY; a `%` not followed by two hex digits makes it fail. Escapes of
   * bytes from 0x80 up, which start multi-byte UTF-8 sequences, are refused
   * here (see README).
   */
  function PercentDecode(s: string): (r: Option<string>)
    // each escape shrinks the text by two: the result is shorter exactly when there was one
    ensures r.Some? ==> |r.value| <= |s| && (|r.value| == |s| <==> '%' !in s)
    decreases |s|
  {
    if s == [] then Some([])
    else if s[0] != '%' then
      match PercentDecode(s[1..])
      case None => None
      case Some(rest) => Some([s[0]] + rest)
    else if |s| < 3 || !IsHexDigit(s[1]) || !IsHexDigit(s[2]) then None
    else
      var code := 16 * HexValue(s[1]) + HexValue(s[2]);
      if code >= 0x80 then None
      else
        match PercentDecode(s[3..])
        case None => None
        case Some(rest) => Some([code as char] + rest)
  }

  /** A string without `%` decodes to itself. */
  lemma {:induction false} DecodeWithoutEscapes(s: string)
    requires '%' !in s
    ensures PercentDecode(s) == Some(s)
    decreases |s|
  {
    if s != [] {
      DecodeWithoutEscapes(s[1..]);
      assert [s[0]] + s[1..] == s;
    }
  }

  /** Decoding a concatenation of two decodable strings decodes the parts separately. */
  lemma {:induction false} DecodeAppend(a: string, b: string)
    requires PercentDecode(a).Some? && PercentDecode(b).Some?
    ensures PercentDecode(a + b) == Some(PercentDecode(a).value + PercentDecode(b).value)
    decreases |a|
  {
    var y := PercentDecode(b).value;
    if a == [] {
      assert a + b == b;
      assert [] + y == y;
    } else if a[0] != '%' {
      assert (a + b)[0] == a[0];
      assert (a + b)[1..] == a[1..] + b;
      DecodeAppend(a[1..], b);
      ConcatAssociates([a[0]], PercentDecode(a[1..]).value, y);
    } else {
      assert (a + b)[0] == a[0] && (a + b)[1] == a[1] && (a + b)[2] == a[2];
      assert (a + b)[3..] == a[3..] + b;
      DecodeAppend(a[3..], b);
      var code := 16 * HexValue(a[1]) + HexValue(a[2]);
      ConcatAssociates([code as char], PercentDecode(a[3..]).value, y);
    }
  }

  /** The characters `encodeURIComponent` leaves as they are. */
  predicate IsUnescaped(c: char) {
    'A' <= c <= 'Z' || 'a' <= c <= 'z' || '0' <= c <= '9'
    || c in {'-', '_', '.', '!', '~', '*', '\'', '(', ')'}
  }

  /** `encodeURIComponent(s)` for a string of ASCII characters. */
  function EncodeComponent(s: string): (r: string)
    requires forall i :: 0 <= i < |s| ==> IsAscii(s[i])
    ensures '?' !in r && '/' !in r
  {
    if s == [] then []
    else
      assert IsAscii(s[0]);
      EncodeChar(s[0]) + EncodeComponent(s[1..])
  }

  /** How `encodeURIComponent` writes one ASCII character. */
  function EncodeChar(c: char): (r: string)
    requires IsAscii(c)
    ensures '?' !in r && '/' !in r
    ensures PercentDecode(r) == Some([c])
  {
    if IsUnescaped(c) then
      assert c != '%' && c != '?' && c != '/';
      assert [c][1..] == [] && [c] + [] == [c];
      [c]
    else
      var hi, lo := HexDigit(c as int / 16), HexDigit(c as int % 16);
      var r := ['%', hi, lo];
      assert 16 * HexValue(hi) + HexValue(lo) == c as int;
      assert r[1] == hi && r[2] == lo && r[3..] == [];
      assert (16 * HexValue(hi) + HexValue(lo)) as char == c;
      assert PercentDecode(r[3..]) == Some([]);
      assert [c] + [] == [c];
      r
  }

  /** Decoding undoes encoding: `decodeURIComponent(encodeURIComponent(s)) == s`. */
  lemma {:induction false} DecodeEncodeRoundTrip(s: string)
    requires forall i :: 0 <= i < |s| ==> IsAscii(s[i])
    ensures PercentDecode(EncodeComponent(s)) == Some(s)
    decreases |s|
  {
    if s != [] {
      assert IsAscii(s[0]);
      DecodeEncodeRoundTrip(s[1..]);
      DecodeAppend(EncodeChar(s[0]), EncodeComponent(s[1..]));
      assert [s[0]] + s[1..] == s;
    }
  }

  // ---------------------------------------------------------------------
  // The regular expression /o\/(.+?)\?/
  // ---------------------------------------------------------------------

  /** The characters `.` does not match in a JavaScript regular expression. */
  predicate IsLineTerminator(c: char) {
    c == '\n' || c == '\r' || c as int == 0x2028 || c as int == 0x2029
  }

  /** "o/" starts at position `i` of `s`. */
  predicate SlashAfterO(s: string, i: int) {
    0 <= i && i + 2 <= |s| && s[i] == 'o' && s[i + 1] == '/'
  }

  /**
   * The pattern matches `s` from position `i` with its final `?` at
   * position `j`: "o/", then at least one character other than a line
   * terminator up to `j`, then "?".
   */
  predicate IsMatch(s: string, i: int, j: int) {
    SlashAfterO(s, i) && i + 3 <= j < |s| && s[j] == '?'
    && forall k :: i + 2 <= k < j ==> !IsLineTerminator(s[k])
  }

  /**
   * The lazy `(.+?)\?` from `start`, having already consumed up to `j - 1`:
   * the first `j` on that is a `?`, provided no line terminator comes first.
   */
  function LazyEnd(s: string, start: nat, j: nat): (r: Option<nat>)
    requires start < j <= |s|
    requires forall k :: start <= k < j - 1 ==> !IsLineTerminator(s[k])
    requires forall k :: start < k < j ==> s[k] != '?'
    ensures r.Some? ==> j <= r.value < |s| && s[r.value] == '?'
                        && (forall k :: start <= k < r.value ==> !IsLineTerminator(s[k]))
                        && (forall k :: start < k < r.value ==> s[k] != '?')
    ensures r.None? ==> forall e :: j <= e < |s| && s[e] == '?' ==>
                          exists k :: start <= k < e && IsLineTerminator(s[k])
    decreases |s| - j
  {
    if j >= |s| then None
    else if IsLineTerminator(s[j - 1]) then None
    else if s[j] == '?' then Some(j)
    else LazyEnd(s, start, j + 1)
  }

  /** Where a match starting at `i` ends, if one does; the lazy quantifier takes the nearest `?`. */
  function MatchEnd(s: string, i: nat): (r: Option<nat>)
    ensures r.Some? ==> IsMatch(s, i, r.value) && (forall e :: i + 3 <= e < r.value ==> !IsMatch(s, i, e))
                        && (forall k :: i + 3 <= k < r.value ==> s[k] != '?')
    ensures r.None? ==> forall e :: !IsMatch(s, i, e)
  {
    if !SlashAfterO(s, i) then None
    else if |s| < i + 3 then None
    else LazyEnd(s, i + 2, i + 3)
  }

  /** The leftmost match at or after position `from`, as (start, end). */
  function FirstMatch(s: string, from: nat): (r: Option<(nat, nat)>)
    ensures r.Some? ==> var (i, j) := r.value;
              from <= i && IsMatch(s, i, j)
              && (forall i', e :: from <= i' < i ==> !IsMatch(s, i', e))
              && (forall e :: e < j ==> !IsMatch(s, i, e))
              && (forall k :: i + 3 <= k < j ==> s[k] != '?')
    ensures r.None? ==> forall i', e :: from <= i' ==> !IsMatch(s, i', e)
    decreases |s| - from
  {
    if from >= |s| then None
    else
      match MatchEnd(s, from)
      case Some(j) => Some((from, j))
      case None => FirstMatch(s, from + 1)
  }

  /**
   * The match a JavaScript regular expression reports: the leftmost start
   * position at which the pattern matches, and from there the shortest
   * match, since `+?` is lazy.
   */
  ghost predicate IsLeftmostShortest(s: string, i: int, j: int) {
    IsMatch(s, i, j)
    && (forall i', e :: i' < i ==> !IsMatch(s, i', e))
    && (forall e :: e < j ==> !IsMatch(s, i, e))
  }

  /** At most one match is the leftmost, shortest one. */
  lemma LeftmostShortestUnique(s: string, i1: int, j1: int, i2: int, j2: int)
    requires IsLeftmostShortest(s, i1, j1) && IsLeftmostShortest(s, i2, j2)
    ensures i1 == i2 && j1 == j2
  {
  }

  /** `s.match(/o\/(.+?)\?/)[1]`: the capture of the leftmost match, if any. */
  function StoragePathCapture(s: string): (r: Option<string>)
    // the capture is the group of the leftmost, then shortest, match: what lies between "o/" and its "?"
    ensures r.Some? ==> exists i, j :: IsLeftmostShortest(s, i, j) && r.value == s[i + 2..j]
    // it is non-empty, has no line terminator, and has no '?' after its first character
    ensures r.Some? ==> |r.value| >= 1
                        && (forall k :: 0 <= k < |r.value| ==> !IsLineTerminator(r.value[k]))
                        && (forall k :: 1 <= k < |r.value| ==> r.value[k] != '?')
    // it is absent exactly when the pattern matches nowhere
    ensures r.None? <==> forall i, e :: !IsMatch(s, i, e)
  {
    match FirstMatch(s, 0)
    case None => None
    case Some((i, j)) =>
      assert IsLeftmostShortest(s, i, j);
      Some(s[i + 2..j])
  }

  /** The capture can begin with a '?': in "o/??" the lazy group must take one character, the first '?'. */
  lemma CaptureMayStartWithQuestionMark()
    ensures StoragePathCapture("o/??") == Some("?")
  {
    var s := "o/??";
    assert SlashAfterO(s, 0);
    assert LazyEnd(s, 2, 3) == Some(3);
    assert MatchEnd(s, 0) == Some(3);
    assert FirstMatch(s, 0) == Some((0, 3));
    assert s[2..3] == "?";
  }

  /**
   * `deleteVideoFromFirebase(videoUrl)` up to the delete call: the object
   * path it would delete, or the error it throws first.
   */
  function StoragePathToDelete(videoUrl: string): (r: Result<string, DeleteError>)
    // the host test is made on the raw URL, before any decoding
    ensures !Includes(videoUrl, StorageHost) <==> r == Err(InvalidUrl)
    ensures r == Err(MalformedUrl) <==> Includes(videoUrl, StorageHost) && PercentDecode(videoUrl).None?
    ensures r.Ok? <==> Includes(videoUrl, StorageHost) && PercentDecode(videoUrl).Some?
                       && StoragePathCapture(PercentDecode(videoUrl).value).Some?
    ensures r.Ok? ==> Some(r.value) == StoragePathCapture(PercentDecode(videoUrl).value)
  {
    if !Includes(videoUrl, StorageHost) then Err(InvalidUrl)
    else
      match PercentDecode(videoUrl)
      case None => Err(MalformedUrl)
      case Some(decoded) =>
        match StoragePathCapture(decoded)
        case None => Err(NoStoragePath)
        case Some(path) => Ok(path)
  }

  // ---------------------------------------------------------------------
  // Upload object names and download URLs
  // ---------------------------------------------------------------------

  /** `videos/video-${Date.now()}.mp4`: where `uploadVideoToFirebase` stores a clip. */
  function UploadObjectPath(timestamp: nat): (name: string)
    // a plain ASCII name, which survives encodeURIComponent and the path regular expression
    ensures name != []
    ensures forall i :: 0 <= i < |name| ==> IsAscii(name[i]) && name[i] != '?' && !IsLineTerminator(name[i])
  {
    var digits := NatToString(timestamp);
    NumberedNameIsPlain(digits);
    "videos/video-" + digits + ".mp4"
  }

  lemma NumberedNameIsPlain(digits: string)
    requires AllDigits(digits)
    ensures forall i :: 0 <= i < |"videos/video-" + digits + ".mp4"| ==>
              var c := ("videos/video-" + digits + ".mp4")[i];
              IsAscii(c) && c != '?' && !IsLineTerminator(c)
  {
    var name := "videos/video-" + digits + ".mp4";
    forall i | 0 <= i < |name|
      ensures IsAscii(name[i]) && name[i] != '?' && !IsLineTerminator(name[i])
    {
      if i < 13 {
        assert name[i] == "videos/video-"[i];
      } else if i < 13 + |digits| {
        assert name[i] == digits[i - 13];
      } else {
        assert name[i] == ".mp4"[i - 13 - |digits|];
      }
    }
  }

  /** Uploads at different timestamps never share an object name. */
  lemma UploadObjectPathInjective(t1: nat, t2: nat)
    ensures UploadObjectPath(t1) == UploadObjectPath(t2) <==> t1 == t2
  {
    AroundNumberInjective("videos/video-", ".mp4", t1, t2);
  }

  const DownloadUrlPrefix: string := "https://" + StorageHost + "/v0/b/"

  /** The shape of a Storage download URL: bucket, then the encoded object path, then the query. */
  function DownloadUrl(bucket: string, objectPath: string, query: string): string
    requires forall i :: 0 <= i < |objectPath| ==> IsAscii(objectPath[i])
  {
    DownloadUrlPrefix + bucket + "/o/" + EncodeComponent(objectPath) + "?" + query
  }

  /** "o/" occurs nowhere in `s`, not even with its "/" being the character after `s`. */
  predicate NoSlashAfterO(s: string) {
    forall i :: 0 <= i < |s| ==> s[i] == 'o' ==> i + 1 < |s| && s[i + 1] != '/'
  }

  /** What comes before the bucket name in a download URL names the host and holds no "o/" and no escape. */
  lemma PrefixFacts()
    ensures NoSlashAfterO(DownloadUrlPrefix)
    ensures '%' !in DownloadUrlPrefix
    ensures OccursAt(DownloadUrlPrefix, StorageHost, 8)
  {
    PrefixNamesHost("https://", StorageHost, "/v0/b/");
    forall i | 0 <= i < |DownloadUrlPrefix| && DownloadUrlPrefix[i] == 'o'
      ensures i + 1 < |DownloadUrlPrefix| && DownloadUrlPrefix[i + 1] != '/'
    {
      assert i == 18 || i == 25 || i == 26 || i == 36;
    }
  }

  lemma PrefixNamesHost(scheme: string, host: string, path: string)
    ensures OccursAt(scheme + host + path, host, |scheme|)
  {
    assert (scheme + host + path)[|scheme|..|scheme| + |host|] == host;
  }

  /** Nor does anything up to the "o/" of a download URL, when the bucket name has no '/' and does not end in 'o'. */
  lemma HeadHasNoSlashAfterO(bucket: string)
    requires '/' !in bucket
    requires bucket == [] || bucket[|bucket| - 1] != 'o'
    ensures NoSlashAfterO(DownloadUrlPrefix + bucket + "/")
  {
    PrefixFacts();
    NoSlashAfterOAppend(DownloadUrlPrefix, bucket);
  }

  lemma NoSlashAfterOAppend(prefix: string, bucket: string)
    requires NoSlashAfterO(prefix)
    requires '/' !in bucket
    requires bucket == [] || bucket[|bucket| - 1] != 'o'
    requires prefix != [] && prefix[|prefix| - 1] != 'o'
    ensures NoSlashAfterO(prefix + bucket + "/")
  {
    var head := prefix + bucket + "/";
    var n := |prefix|;
    forall i | 0 <= i < |head| && head[i] == 'o'
      ensures i + 1 < |head| && head[i + 1] != '/'
    {
      if i < n {
        assert head[i] == prefix[i];
        assert i + 1 < n;
        assert head[i + 1] == prefix[i + 1];
      } else {
        assert i < n + |bucket|;
        assert head[i] == bucket[i - n];
        if i + 1 < n + |bucket| {
          assert head[i + 1] == bucket[i + 1 - n];
        }
      }
    }
  }

  /** The decoded form of a URL built this way: the object path appears verbatim between "o/" and the query. */
  lemma DecodeUrlParts(head: string, objectPath: string, query: string)
    requires forall i :: 0 <= i < |objectPath| ==> IsAscii(objectPath[i])
    requires '%' !in head && PercentDecode(query).Some?
    ensures PercentDecode(head + "o/" + EncodeComponent(objectPath) + "?" + query)
            == Some(head + "o/" + objectPath + "?" + PercentDecode(query).value)
  {
    var a := head + "o/";
    assert '%' !in a;
    DecodeWithoutEscapes(a);
    DecodeEncodeRoundTrip(objectPath);
    DecodeLeadingChar('?', query);
    var e := EncodeComponent(objectPath);
    DecodeThree(a, e, "?" + query);
    ConcatAssociates(a + e, "?", query);
    ConcatAssociates(a + objectPath, "?", PercentDecode(query).value);
  }

  lemma DecodeLeadingChar(c: char, s: string)
    requires c != '%' && PercentDecode(s).Some?
    ensures PercentDecode([c] + s) == Some([c] + PercentDecode(s).value)
  {
    assert ([c] + s)[0] == c && ([c] + s)[1..] == s;
  }

  lemma DecodeThree(a: string, e: string, b: string)
    requires PercentDecode(a).Some? && PercentDecode(e).Some? && PercentDecode(b).Some?
    ensures PercentDecode(a + e + b)
            == Some(PercentDecode(a).value + PercentDecode(e).value + PercentDecode(b).value)
  {
    var x, y, z := PercentDecode(a).value, PercentDecode(e).value, PercentDecode(b).value;
    DecodeAppend(e, b);
    DecodeAppend(a, e + b);
    ConcatAssociates(a, e, b);
    ConcatAssociates(x, y, z);
  }


  /**
   * After a head without "o/", the pattern captures exactly the path up to
   * the first '?' that follows "o/".
   */
  lemma CaptureAfterHead(head: string, path: string, rest: string)
    requires NoSlashAfterO(head)
    requires path != [] && '?' !in path
    requires forall k :: 0 <= k < |path| ==> !IsLineTerminator(path[k])
    requires rest != [] && rest[0] == '?'
    ensures StoragePathCapture(head + "o/" + path + rest) == Some(path)
  {
    var s := head + "o/" + path + rest;
    var i0, j0 := |head|, |head| + 2 + |path|;
    assert s[j0] == '?';
    assert forall k :: i0 + 2 <= k < j0 ==> s[k] == path[k - i0 - 2];
    assert IsMatch(s, i0, j0);
    var r := FirstMatch(s, 0);
    assert r.Some?;
    var (i, j) := r.value;
    assert i == i0 && j == j0;
    assert s[i0 + 2..j0] == path;
  }

  /** Deleting by a URL of this shape deletes the object it names, whatever precedes "o/" as long as it has no "o/". */
  lemma DeleteFromUrlParts(head: string, objectPath: string, query: string)
    requires forall i :: 0 <= i < |objectPath| ==> IsAscii(objectPath[i])
    requires objectPath != [] && '?' !in objectPath
    requires forall k :: 0 <= k < |objectPath| ==> !IsLineTerminator(objectPath[k])
    requires Includes(head, StorageHost) && '%' !in head && NoSlashAfterO(head)
    requires PercentDecode(query).Some?
    ensures StoragePathToDelete(head + "o/" + EncodeComponent(objectPath) + "?" + query) == Ok(objectPath)
  {
    var url := head + "o/" + EncodeComponent(objectPath) + "?" + query;
    HostStaysIncluded(head, EncodeComponent(objectPath), query);
    DecodeUrlParts(head, objectPath, query);
    var q := PercentDecode(query).value;
    var decoded := head + "o/" + objectPath + "?" + q;
    CaptureAfterHead(head, objectPath, "?" + q);
    ConcatAssociates(head + "o/" + objectPath, "?", q);
    DeleteOfDecodedCapture(url, decoded, objectPath);
  }

  /** The host found in the head of a URL is still found once the rest of the URL is appended. */
  lemma HostStaysIncluded(head: string, encoded: string, query: string)
    requires Includes(head, StorageHost)
    ensures Includes(head + "o/" + encoded + "?" + query, StorageHost)
  {
    var k :| OccursAt(head, StorageHost, k);
    OccursBeforeAppend(head, "o/", StorageHost, k);
    OccursBeforeAppend(head + "o/", encoded, StorageHost, k);
    OccursBeforeAppend(head + "o/" + encoded, "?", StorageHost, k);
    OccursBeforeAppend(head + "o/" + encoded + "?", query, StorageHost, k);
  }

  /** A URL naming the host, decoding, and matching gives the capture as the path to delete. */
  lemma DeleteOfDecodedCapture(url: string, decoded: string, path: string)
    requires Includes(url, StorageHost)
    requires PercentDecode(url) == Some(decoded)
    requires StoragePathCapture(decoded) == Some(path)
    ensures StoragePathToDelete(url) == Ok(path)
  {
  }

  /**
   * Deleting by a download URL deletes the object the URL was made for, as
   * long as the bucket name has no '/' and does not end in 'o', and the
   * object path is non-empty, has no '?' and no line terminator.
   */
  lemma DeleteFindsUploadedObject(bucket: string, objectPath: string, query: string)
    requires forall i :: 0 <= i < |objectPath| ==> IsAscii(objectPath[i])
    requires objectPath != [] && '?' !in objectPath
    requires forall k :: 0 <= k < |objectPath| ==> !IsLineTerminator(objectPath[k])
    requires '/' !in bucket && '%' !in bucket && (bucket == [] || bucket[|bucket| - 1] != 'o')
    requires PercentDecode(query).Some?
    ensures StoragePathToDelete(DownloadUrl(bucket, objectPath, query)) == Ok(objectPath)
  {
    var head := DownloadUrlPrefix + bucket + "/";
    PrefixFacts();
    HeadHasNoSlashAfterO(bucket);
    OccursBeforeAppend(DownloadUrlPrefix, bucket + "/", StorageHost, 8);
    ConcatAssociates(DownloadUrlPrefix, bucket, "/");
    assert '%' !in head;
    DeleteFromUrlParts(head, objectPath, query);
    ConcatAssociates(DownloadUrlPrefix + bucket, "/", "o/");
    assert "/" + "o/" == "/o/";
  }

  /** An occurrence in a string is still one after something is appended. */
  lemma OccursBeforeAppend(s: string, u: string, t: string, k: int)
    requires OccursAt(s, t, k)
    ensures OccursAt(s + u, t, k)
  {
    assert (s + u)[k..k + |t|] == s[k..k + |t|];
  }

  /** A video uploaded at `timestamp` is the object deleted when its download URL is passed back. */
  lemma UploadedVideoCanBeDeleted(bucket: string, timestamp: nat, query: string)
    requires '/' !in bucket && '%' !in bucket && (bucket == [] || bucket[|bucket| - 1] != 'o')
    requires PercentDecode(query).Some?
    ensures StoragePathToDelete(DownloadUrl(bucket, UploadObjectPath(timestamp), query)) == Ok(UploadObjectPath(timestamp))
  {
    DeleteFindsUploadedObject(bucket, UploadObjectPath(timestamp), query);
  }
}
