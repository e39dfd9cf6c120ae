/**
 * The startup check of utils/envValidation.js: a fixed list of required
 * variable names is filtered against the process environment, and the
 * names found absent or empty make up the thrown error's message. The
 * environment is a parameter; the console messages are left out.
 */
module EnvValidation {
  import opened Wrappers
  import opened Strings

  /** `process.env`: every value Node stores there is a string. */
  type Env = map<string, string>

  /** The variables the server cannot start without, in the order they are reported. */
  const RequiredVars: seq<string> := [
    "API_KEY_MINIMAX",
    "API_KEY_FIREBASE",
    "AUTH_DOMAIN_FIREBASE",
    "PROJECT_ID_FIREBASE",
    "STORAGE_BUCKET_FIREBASE",
    "MESSAGING_SENDER_ID_FIREBASE",
    "APP_ID_FIREBASE"
  ]

  /** Read by the Firebase configuration, but not checked at startup. */
  const MeasurementIdVar: string := "MEASUREMENT_ID_FIREBASE"

  const MissingMessagePrefix: string := "Missing required environment variables: "

  /** `!process.env[name]`: unset, or set to the empty string. */
  predicate IsMissing(env: Env, name: string) {
    name !in env || env[name] == ""
  }

  /** `xs` is `ys` with some elements left out, the rest kept in order. */
  predicate IsSubsequence(xs: seq<string>, ys: seq<string>)
    decreases |ys|
  {
    if xs == [] then true
    else if ys == [] then false
    else (xs[0] == ys[0] && IsSubsequence(xs[1..], ys[1..])) || IsSubsequence(xs, ys[1..])
  }

  predicate NoDuplicates(xs: seq<string>) {
    forall i, j :: 0 <= i < j < |xs| ==> xs[i] != xs[j]
  }

  /** `names.filter(name => !env[name])`. */
  function MissingAmong(env: Env, names: seq<string>): (missing: seq<string>)
    // the missing names are exactly the listed names that are unset or empty
    ensures forall x :: x in missing <==> x in names && IsMissing(env, x)
    // in the order of the list, none added
    ensures IsSubsequence(missing, names)
    // and each once, when the list names each once
    ensures NoDuplicates(names) ==> NoDuplicates(missing)
    decreases |names|
  {
    if names == [] then []
    else
      var rest := MissingAmong(env, names[1..]);
      assert names[0] !in names[1..] ==> names[0] !in rest;
      if IsMissing(env, names[0]) then [names[0]] + rest
      else rest
  }

  /** The required names missing from `env`, in the order of `RequiredVars`. */
  function MissingVars(env: Env): seq<string> {
    MissingAmong(env, RequiredVars)
  }

  /** `validateEnvironmentVariables()`: returns when nothing is missing, else throws the message. */
  function ValidateEnvironment(env: Env): (r: Result<(), string>)
    // it returns exactly when every required variable is set and non-empty
    ensures r.Ok? <==> forall x :: x in RequiredVars ==> !IsMissing(env, x)
    ensures r.Err? ==> StartsWith(r.error, MissingMessagePrefix)
  {
    var missing := MissingVars(env);
    if |missing| > 0 then
      assert missing[0] in RequiredVars && IsMissing(env, missing[0]);
      StartsWithFirstPart(MissingMessagePrefix, JoinWith(missing, ", "));
      Err(MissingMessagePrefix + JoinWith(missing, ", "))
    else Ok(())
  }

  lemma RequiredVarsDistinct()
    ensures NoDuplicates(RequiredVars)
  {
  }

  /**
   * The check fails exactly when some required variable is unset or empty;
   * the message names the missing ones in list order, each once.
   */
  lemma ValidateEnvironmentOutcome(env: Env)
    ensures ValidateEnvironment(env).Ok? <==> forall x :: x in RequiredVars ==> !IsMissing(env, x)
    ensures ValidateEnvironment(env).Err? ==>
              var missing := MissingVars(env);
              missing != [] && IsSubsequence(missing, RequiredVars) && NoDuplicates(missing)
              && (forall x :: x in missing <==> x in RequiredVars && IsMissing(env, x))
              && ValidateEnvironment(env).error == MissingMessagePrefix + JoinWith(missing, ", ")
  {
    RequiredVarsDistinct();
    var missing := MissingVars(env);
    if missing == [] {
      assert forall x :: x in RequiredVars ==> !IsMissing(env, x);
    } else {
      assert missing[0] in RequiredVars && IsMissing(env, missing[0]);
    }
  }

  /** MEASUREMENT_ID_FIREBASE plays no part: setting, clearing or removing it never changes the outcome. */
  lemma MeasurementIdIgnored(env: Env, value: string)
    ensures ValidateEnvironment(env[MeasurementIdVar := value]) == ValidateEnvironment(env)
    ensures ValidateEnvironment(env - {MeasurementIdVar}) == ValidateEnvironment(env)
  {
    assert MeasurementIdVar !in RequiredVars;
    SameOutcomeOnRequired(env, env[MeasurementIdVar := value], RequiredVars);
    SameOutcomeOnRequired(env, env - {MeasurementIdVar}, RequiredVars);
  }

  /** Environments that agree on whether each listed name is missing have the same missing list. */
  lemma {:induction false} SameOutcomeOnRequired(env1: Env, env2: Env, names: seq<string>)
    requires forall x :: x in names ==> (IsMissing(env1, x) <==> IsMissing(env2, x))
    ensures MissingAmong(env1, names) == MissingAmong(env2, names)
    decreases |names|
  {
    if names != [] {
      SameOutcomeOnRequired(env1, env2, names[1..]);
    }
  }

  /** The names of the message's list, read back: items separated by ", ". */
  function ParseNameList(s: string): (names: Option<seq<string>>)
    decreases |s|
  {
    match IndexOf(s, ',')
    case None => Some([s])
    case Some(k) =>
      if k + 1 < |s| && s[k + 1] == ' ' then
        match ParseNameList(s[k + 2..])
        case None => None
        case Some(rest) => Some([s[..k]] + rest)
      else None
  }

  /** A list joined with ", " reads back as the same list, provided no item contains a comma. */
  lemma {:induction false} JoinedNamesReadBack(names: seq<string>)
    requires names != []
    requires forall i :: 0 <= i < |names| ==> ',' !in names[i]
    ensures ParseNameList(JoinWith(names, ", ")) == Some(names)
    decreases |names|
  {
    var first := names[0];
    if |names| == 1 {
      assert JoinWith(names, ", ") == first;
      assert IndexOf(first, ',').None?;
      assert names == [first];
    } else {
      var rest := JoinWith(names[1..], ", ");
      var tail := ", " + rest;
      var s := first + tail;
      ConcatAssociates(first, ", ", rest);
      assert JoinWith(names, ", ") == s;
      IndexOfAfterPrefix(first, tail, ',');
      SplitAtSeparator(first, rest);
      JoinedNamesReadBack(names[1..]);
      assert [first] + names[1..] == names;
    }
  }

  lemma SplitAtSeparator(first: string, rest: string)
    ensures var s := first + (", " + rest);
            s[|first| + 1] == ' ' && s[..|first|] == first && s[|first| + 2..] == rest
  {
  }

  /** The first comma of `a + b`, when `a` has none and `b` starts with one, is right after `a`. */
  lemma IndexOfAfterPrefix(a: string, b: string, c: char)
    requires c !in a && b != [] && b[0] == c
    ensures IndexOf(a + b, c) == Some(|a|)
  {
    var s := a + b;
    assert s[|a|] == c;
    assert s[..|a|] == a;
    var r := IndexOf(s, c);
    assert r.Some?;
  }

  lemma RequiredVarsHaveNoComma()
    ensures forall x :: x in RequiredVars ==> ',' !in x
  {
  }

  /** Required names contain no comma, so the names in a failure message can be read back. */
  lemma MessageListsMissingNames(env: Env)
    requires ValidateEnvironment(env).Err?
    ensures StartsWith(ValidateEnvironment(env).error, MissingMessagePrefix)
    ensures ParseNameList(ValidateEnvironment(env).error[|MissingMessagePrefix|..]) == Some(MissingVars(env))
  {
    var missing := MissingVars(env);
    RequiredVarsHaveNoComma();
    assert forall x :: x in missing ==> x in RequiredVars;
    ListAfterPrefixReadsBack(MissingMessagePrefix, missing);
  }

  lemma ListAfterPrefixReadsBack(prefix: string, names: seq<string>)
    requires names != []
    requires forall x :: x in names ==> ',' !in x
    ensures StartsWith(prefix + JoinWith(names, ", "), prefix)
    ensures ParseNameList((prefix + JoinWith(names, ", "))[|prefix|..]) == Some(names)
  {
    var msg := prefix + JoinWith(names, ", ");
    assert msg[..|prefix|] == prefix;
    assert msg[|prefix|..] == JoinWith(names, ", ");
    forall i | 0 <= i < |names|
      ensures ',' !in names[i]
    {
      assert names[i] in names;
    }
    JoinedNamesReadBack(names);
  }
}
