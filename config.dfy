/**
 * The first half of `main()`: where the actor input comes from, which keys of
 * it are read, and which session id is used.
 */
module Config {
  import opened Wrappers
  import opened Json

  /**
   * The input file `storage/key_value_stores/default/INPUT.json`: absent, or
   * present with the outcome of opening it and `json.load` (an exception's
   * message on failure).
   */
  datatype InputFile = Absent | Present(load: Result<Value, string>)

  /** The environment variables `main()` reads (`None` when unset). */
  datatype Environment = Environment(
    apifyInput: Option<string>,   // APIFY_INPUT
    igSessionId: Option<string>,  // IG_SESSION_ID
    datasetId: Option<string>)    // APIFY_DEFAULT_DATASET_ID

  /** `json.loads`: the parsed value, or the message of the exception it raises. */
  type Parser = string -> Result<Value, string>

  /** `if s:` on the result of `os.environ.get`: set and not empty. */
  predicate NonEmpty(s: Option<string>) {
    s.Some? && s.value != ""
  }

  /** The empty dict `actor_input` starts as. */
  const EmptyInput: Value := JObj(EmptyDict)

  /**
   * The actor input: the file's contents if the file exists, otherwise a
   * non-empty APIFY_INPUT parsed, otherwise `{}`. A load or parse failure is
   * swallowed and leaves `{}`.
   */
  function ResolveInput(file: InputFile, apifyInput: Option<string>, parse: Parser): (input: Value)
    // the input is `{}` or comes whole from exactly the source the precedence picks
    ensures || input == EmptyInput
            || (file.Present? && file.load == Success(input))
            || (file.Absent? && NonEmpty(apifyInput) && parse(apifyInput.value) == Success(input))
    // a file that loads is the input, whatever the environment holds
    ensures file.Present? && file.load.Success? ==> input == file.load.value
    // the environment string is used when the file is absent and the string is not empty
    ensures file.Absent? && NonEmpty(apifyInput) && parse(apifyInput.value).Success?
            ==> input == parse(apifyInput.value).value
    // a failure on the chosen source, or no source at all, gives `{}`
    ensures file.Present? && file.load.Failure? ==> input == EmptyInput
    ensures file.Absent? && !NonEmpty(apifyInput) ==> input == EmptyInput
    ensures file.Absent? && NonEmpty(apifyInput) && parse(apifyInput.value).Failure? ==> input == EmptyInput
  {
    match file
    case Present(load) =>
      if load.Success? then load.value else EmptyInput
    case Absent =>
      if NonEmpty(apifyInput) then
        match parse(apifyInput.value)
        case Success(v) => v
        case Failure(_) => EmptyInput
      else EmptyInput
  }

  /** While the input file exists, APIFY_INPUT and the parser play no part. */
  lemma FileShadowsEnvironment(load: Result<Value, string>, env1: Option<string>, env2: Option<string>,
                               parse1: Parser, parse2: Parser)
    ensures ResolveInput(Present(load), env1, parse1) == ResolveInput(Present(load), env2, parse2)
  {
  }

  /** What the scrape needs from the input: the targets, the mode, and the `session_id` entry. */
  datatype JobConfig = JobConfig(targets: seq<Value>, mode: Value, sessionField: Value)

  /** The exceptions `main()` does not catch. */
  datatype Fatal =
    | InputNotDict(input: Value)        // `actor_input.get` on a value that is not a dict
    | UsernamesNotSized(usernames: Value) // `len(usernames)` on a value without a length
    | LoginFailed(error: string)        // `login_by_sessionid` raised

  /**
   * `for username in usernames` (after `len(usernames)`): a list gives its
   * items, a string its characters, a dict its keys; `None`, a bool or a
   * number has no length, and `len` raises.
   */
  function Iterate(v: Value): (r: Option<seq<Value>>)
    ensures r.Some? <==> v.JArr? || v.JStr? || v.JObj?
    ensures v.JArr? ==> r == Some(v.items)
    ensures v.JStr? ==>
              r.Some? && |r.value| == |v.s| && forall i | 0 <= i < |v.s| :: r.value[i] == JStr([v.s[i]])
    ensures v.JObj? ==>
              r.Some? && |r.value| == |v.dict.keys|
              && forall i | 0 <= i < |r.value| :: r.value[i] == JStr(v.dict.keys[i])
  {
    match v
    case JArr(xs) => Some(xs)
    case JStr(s) => Some(seq(|s|, i requires 0 <= i < |s| => JStr([s[i]])))
    case JObj(d) => Some(seq(|d.keys|, i requires 0 <= i < |d.keys| => JStr(d.keys[i])))
    case _ => None
  }

  /** Iterating a well-formed dict visits each of its keys exactly once. */
  lemma IterateDictSpec(d: Dict)
    requires WellFormed(d)
    ensures Iterate(JObj(d)).Some?
    ensures var targets := Iterate(JObj(d)).value;
            && (forall i, j | 0 <= i < j < |targets| :: targets[i] != targets[j])
            && (forall k :: JStr(k) in targets <==> k in d.values)
  {
    var targets := Iterate(JObj(d)).value;
    forall k ensures JStr(k) in targets <==> k in d.values {
      if k in d.values {
        var i :| 0 <= i < |d.keys| && d.keys[i] == k;
        assert targets[i] == JStr(k);
      }
    }
  }

  /** The strings of a sequence of targets joined in order (a non-string contributes nothing). */
  function Joined(vs: seq<Value>): string {
    if vs == [] then []
    else Joined(vs[..|vs| - 1]) + (if vs[|vs| - 1].JStr? then vs[|vs| - 1].s else [])
  }

  /** Iterating a string visits its characters as one-character strings, which join back to the string. */
  lemma {:induction false} IterateStringSpec(s: string)
    ensures Iterate(JStr(s)).Some?
    ensures forall t | t in Iterate(JStr(s)).value :: t.JStr? && |t.s| == 1
    ensures Joined(Iterate(JStr(s)).value) == s
    decreases |s|
  {
    if s != [] {
      var n := |s| - 1;
      IterateStringSpec(s[..n]);
      var targets := Iterate(JStr(s)).value;
      assert targets[..n] == Iterate(JStr(s[..n])).value;
      assert s == s[..n] + [s[n]];
    }
  }

  /**
   * `usernames = actor_input.get('usernames', [])` and
   * `mode = actor_input.get('mode', 'enrich')`; a missing key takes the
   * default, a key present with `null` gives `None`, and every other key
   * (`limit` among them) is ignored.
   */
  function Configure(input: Value): (r: Result<JobConfig, Fatal>)
    ensures !input.JObj? ==> r == Failure(InputNotDict(input))
    ensures input.JObj? ==>
              var usernames := GetOr(input.dict, "usernames", JArr([]));
              && (r.Success? <==> Iterate(usernames).Some?)
              && (r.Failure? ==> r.error == UsernamesNotSized(usernames))
              && (r.Success? ==> r.value.targets == Iterate(usernames).value)
              && (r.Success? ==> r.value.mode == GetOr(input.dict, "mode", JStr("enrich")))
              && (r.Success? ==> r.value.sessionField == GetOr(input.dict, "session_id", JNull))
  {
    match input
    case JObj(d) =>
      var usernames := GetOr(d, "usernames", JArr([]));
      (match Iterate(usernames)
       case Some(targets) =>
         Success(JobConfig(targets, GetOr(d, "mode", JStr("enrich")), GetOr(d, "session_id", JNull)))
       case None => Failure(UsernamesNotSized(usernames)))
    case _ => Failure(InputNotDict(input))
  }

  /** With neither `usernames` nor `mode` in the input, there is nothing to scrape and the mode is `enrich`. */
  lemma ConfigureDefaults(d: Dict)
    requires Get(d, "usernames").None? && Get(d, "mode").None?
    ensures Configure(JObj(d)).Success?
    ensures Configure(JObj(d)).value.targets == []
    ensures Configure(JObj(d)).value.mode == JStr("enrich")
  {
  }

  /** The configuration depends on the input only through `usernames`, `mode` and `session_id`. */
  lemma ConfigureIgnoresOtherKeys(d1: Dict, d2: Dict)
    requires Get(d1, "usernames") == Get(d2, "usernames")
    requires Get(d1, "mode") == Get(d2, "mode")
    requires Get(d1, "session_id") == Get(d2, "session_id")
    ensures Configure(JObj(d1)) == Configure(JObj(d2))
  {
  }

  /** `actor_input.get('session_id') or os.environ.get('IG_SESSION_ID')` */
  function SessionId(sessionField: Value, igSessionId: Option<string>): (id: Value)
    // a truthy input entry wins; otherwise the environment's value, or `None` when it is unset
    ensures Truthy(sessionField) ==> id == sessionField
    ensures !Truthy(sessionField) ==> id == (if igSessionId.Some? then JStr(igSessionId.value) else JNull)
    // so there is a session exactly when one of the two sources holds a truthy value
    ensures Truthy(id) <==> Truthy(sessionField) || NonEmpty(igSessionId)
  {
    if Truthy(sessionField) then sessionField
    else if igSessionId.Some? then JStr(igSessionId.value)
    else JNull
  }
}
