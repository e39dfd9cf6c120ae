/**
 * The JavaScript values that reach the server's logic: request-body fields,
 * API response fields and the conversions the code applies to them
 * (truthiness, `Number(v)`, `String(v)`, `String.prototype.trim`).
 */
module JsValues {
  import opened Wrappers

  /**
   * A JavaScript value. `Num` is a finite Number, `NaN` is Not-a-Number;
   * `Obj(text)` is an object or array whose string conversion (through its
   * default `toString`) yields `text`.
   */
  datatype JsValue =
    | Undefined
    | Null
    | Bool(b: bool)
    | Num(x: real)
    | NaN
    | Str(s: string)
    | Obj(text: string)

  /** A request body: the object's own fields; an absent field reads as `undefined`. */
  type Body = map<string, JsValue>

  /** `body.name`. */
  function Field(body: Body, name: string): JsValue {
    if name in body then body[name] else Undefined
  }

  /**
   * The two conversions whose JavaScript definitions are not part of this
   * model: reading a Number from a string (`Number("12.5")`; `None` is NaN)
   * and rendering a Number as a string (`String(12.5)`).
   */
  datatype Builtins = Builtins(parseNumber: string -> Option<real>, formatNumber: real -> string)

  /** `Boolean(v)`: the falsy values are undefined, null, false, 0, NaN and "". */
  predicate Truthy(v: JsValue)
    // exactly six values are falsy
    ensures !Truthy(v) <==> v in {Undefined, Null, Bool(false), Num(0.0), NaN, Str("")}
  {
    match v
    case Undefined => false
    case Null => false
    case Bool(b) => b
    case Num(x) => x != 0.0
    case NaN => false
    case Str(s) => s != ""
    case Obj(_) => true
  }

  /** `Number(v)`; `None` stands for NaN. */
  function ToNumber(v: JsValue, builtins: Builtins): (r: Option<real>)
    // only undefined, NaN and values converted through their text can be NaN
    ensures r.None? ==> v == Undefined || v == NaN || v.Str? || v.Obj?
    // a Number converts to itself, null and booleans to 0 or 1
    ensures v.Num? ==> r == Some(v.x)
    ensures v == Null || v.Bool? ==> r.Some? && (r.value == 0.0 || r.value == 1.0)
  {
    match v
    case Undefined => None
    case Null => Some(0.0)
    case Bool(b) => Some(if b then 1.0 else 0.0)
    case Num(x) => Some(x)
    case NaN => None
    case Str(s) => builtins.parseNumber(s)
    case Obj(text) => builtins.parseNumber(text)
  }

  /** `String(v)`. */
  function ToJsString(v: JsValue, builtins: Builtins): string {
    match v
    case Undefined => "undefined"
    case Null => "null"
    case Bool(b) => if b then "true" else "false"
    case Num(x) => builtins.formatNumber(x)
    case NaN => "NaN"
    case Str(s) => s
    case Obj(text) => text
  }

  /**
   * The characters `String.prototype.trim` removes: WhiteSpace (tab, vertical
   * tab, form feed, zero-width no-break space and every space separator of
   * Unicode category Zs) and LineTerminator (LF, CR, U+2028, U+2029).
   */
  predicate IsJsWhitespace(c: char) {
    var u := c as int;
    || u == 0x09 || u == 0x0B || u == 0x0C || u == 0xFEFF
    || u == 0x20 || u == 0xA0 || u == 0x1680 || (0x2000 <= u <= 0x200A)
    || u == 0x202F || u == 0x205F || u == 0x3000
    || u == 0x0A || u == 0x0D || u == 0x2028 || u == 0x2029
  }

  predicate AllWhitespace(s: string) {
    forall i :: 0 <= i < |s| ==> IsJsWhitespace(s[i])
  }

  /** `s.trimStart()`. */
  function TrimStart(s: string): string {
    if s != [] && IsJsWhitespace(s[0]) then TrimStart(s[1..]) else s
  }

  /** `s.trimEnd()`. */
  function TrimEnd(s: string): string {
    if s != [] && IsJsWhitespace(s[|s| - 1]) then TrimEnd(s[..|s| - 1]) else s
  }

  /** `trimStart` drops the leading run of whitespace and nothing else. */
  lemma {:induction false} TrimStartDropsLeadingWhitespace(s: string)
    ensures exists k :: 0 <= k <= |s| && TrimStart(s) == s[k..] && AllWhitespace(s[..k])
    ensures TrimStart(s) == [] || !IsJsWhitespace(TrimStart(s)[0])
  {
    if s != [] && IsJsWhitespace(s[0]) {
      var t := s[1..];
      TrimStartDropsLeadingWhitespace(t);
      var k :| 0 <= k <= |t| && TrimStart(t) == t[k..] && AllWhitespace(t[..k]);
      assert TrimStart(s) == TrimStart(t);
      assert t[k..] == s[k + 1..];
      var w := s[..k + 1];
      forall i | 0 <= i < |w| ensures IsJsWhitespace(w[i]) {
        if i > 0 {
          assert w[i] == t[..k][i - 1];
        }
      }
    } else {
      assert TrimStart(s) == s[0..];
    }
  }

  /** `trimEnd` drops the trailing run of whitespace and nothing else. */
  lemma {:induction false} TrimEndDropsTrailingWhitespace(s: string)
    ensures exists k :: 0 <= k <= |s| && TrimEnd(s) == s[..k] && AllWhitespace(s[k..])
    ensures TrimEnd(s) == [] || !IsJsWhitespace(TrimEnd(s)[|TrimEnd(s)| - 1])
  {
    if s != [] && IsJsWhitespace(s[|s| - 1]) {
      TrimEndDropsTrailingWhitespace(s[..|s| - 1]);
      var k :| 0 <= k <= |s| - 1 && TrimEnd(s[..|s| - 1]) == s[..|s| - 1][..k] && AllWhitespace(s[..|s| - 1][k..]);
      assert TrimEnd(s) == s[..k];
      assert s[k..] == s[..|s| - 1][k..] + [s[|s| - 1]];
    } else {
      assert TrimEnd(s) == s[..|s|];
    }
  }

  /** `s.trim()`. */
  function Trim(s: string): (r: string)
    // never longer, and neither starts nor ends with whitespace
    ensures |r| <= |s|
    ensures r == [] || (!IsJsWhitespace(r[0]) && !IsJsWhitespace(r[|r| - 1]))
  {
    TrimStartDropsLeadingWhitespace(s);
    var t := TrimStart(s);
    TrimEndDropsTrailingWhitespace(t);
    var k :| 0 <= k <= |t| && TrimEnd(t) == t[..k] && AllWhitespace(t[k..]);
    assert TrimEnd(t) == [] || TrimEnd(t)[0] == t[0];
    TrimEnd(t)
  }

  /** `r` is `s[i..j]` and only whitespace lies outside that slice. */
  predicate IsTrimmedSlice(s: string, r: string, i: int, j: int) {
    0 <= i <= j <= |s| && r == s[i..j] && AllWhitespace(s[..i]) && AllWhitespace(s[j..])
  }

  /**
   * What `trim` returns: a contiguous slice of the input, with only
   * whitespace cut off either side, that neither starts nor ends with
   * whitespace.
   */
  lemma TrimIsTrimmedSlice(s: string)
    ensures exists i, j :: IsTrimmedSlice(s, Trim(s), i, j)
    ensures Trim(s) == [] || (!IsJsWhitespace(Trim(s)[0]) && !IsJsWhitespace(Trim(s)[|Trim(s)| - 1]))
  {
    var t := TrimStart(s);
    TrimStartDropsLeadingWhitespace(s);
    var i :| 0 <= i <= |s| && t == s[i..] && AllWhitespace(s[..i]);
    var r := TrimEnd(t);
    TrimEndDropsTrailingWhitespace(t);
    var k :| 0 <= k <= |t| && r == t[..k] && AllWhitespace(t[k..]);
    assert Trim(s) == r;
    SliceOfSuffix(s, i, k);
    assert AllWhitespace(s[i + k..]);
    assert IsTrimmedSlice(s, r, i, i + k);
    if r != [] {
      assert r[0] == t[0];
    }
  }

  lemma SliceOfSuffix(s: string, i: nat, k: nat)
    requires i + k <= |s|
    ensures s[i..][..k] == s[i..i + k]
    ensures s[i..][k..] == s[i + k..]
  {
  }

  /** A string is unchanged by `trim` exactly when it neither starts nor ends with whitespace. */
  lemma TrimFixedPoint(s: string)
    ensures Trim(s) == s <==> (s == [] || (!IsJsWhitespace(s[0]) && !IsJsWhitespace(s[|s| - 1])))
  {
    TrimIsTrimmedSlice(s);
  }

  /** Trimming twice is trimming once. */
  lemma TrimIdempotent(s: string)
    ensures Trim(Trim(s)) == Trim(s)
  {
    TrimIsTrimmedSlice(s);
    TrimFixedPoint(Trim(s));
  }

  /** `trim` never lengthens a string, and empties it exactly when it is all whitespace. */
  lemma TrimShortens(s: string)
    ensures |Trim(s)| <= |s|
    ensures Trim(s) == [] <==> AllWhitespace(s)
  {
    TrimIsTrimmedSlice(s);
    var i, j :| IsTrimmedSlice(s, Trim(s), i, j);
    if Trim(s) == [] {
      forall m | 0 <= m < |s| ensures IsJsWhitespace(s[m]) {
        if m < i { assert s[m] == s[..i][m]; } else { assert s[m] == s[j..][m - j]; }
      }
    } else {
      assert Trim(s)[0] == s[i];
    }
  }
}
