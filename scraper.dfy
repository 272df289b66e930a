/**
 * The second half of `main()`: the session decision, the login, and the
 * loop that builds one record per username.
 *
 * The instagrapi client is a pair of functions: `login` (the message of the
 * exception `login_by_sessionid` raises, or `None`) and `fetch` (the
 * `user_info_by_username(u).dict()` of a username, or the message of the
 * exception either call raises). The calls the job makes on the client are
 * returned as a trace, as the test's mock records them.
 */
module Scraper {
  import opened Wrappers
  import opened Json
  import opened Timestamp
  import opened Config

  /** A call on the platform client. */
  datatype Call = Login(sessionId: Value) | UserInfo(username: Value)

  type Fetch = Value -> Result<Dict, string>

  type LoginBySessionId = Value -> Option<string>

  /** `time.gmtime()` as read while processing the i-th username. */
  type Clock = nat -> UtcTime

  /** The `scrapedAt` string computed while processing the i-th username. */
  type Stamps = nat -> string

  /** `time.strftime("%Y-%m-%dT%H:%M:%SZ", time.gmtime())` at each iteration. */
  function StampsOf(clock: Clock): Stamps
    requires forall i: nat :: ValidTime(clock(i))
  {
    (i: nat) => FormatStamp(clock(i))
  }

  /** `mode == 'enrich' or mode == 'followers'`: only these modes fetch. */
  predicate Fetches(mode: Value) {
    mode == JStr("enrich") || mode == JStr("followers")
  }

  /** `data['platform'] = 'instagram'` then `data['scrapedAt'] = stamp`. */
  function Normalize(info: Dict, stamp: string): Dict {
    Put(Put(info, "platform", JStr("instagram")), "scrapedAt", JStr(stamp))
  }

  /** `{"username": username, "error": str(e)}` */
  function ErrorRecord(username: Value, error: string): Dict {
    Dict(["username", "error"], map["username" := username, "error" := JStr(error)])
  }

  /** The record the loop appends for one username. */
  function ScrapeOne(mode: Value, username: Value, fetch: Fetch, stamp: string): Dict {
    if !Fetches(mode) then EmptyDict
    else match fetch(username)
      case Success(info) => Normalize(info, stamp)
      case Failure(error) => ErrorRecord(username, error)
  }

  /** Whether the exception handler runs for this username. */
  predicate Fails(mode: Value, username: Value, fetch: Fetch) {
    Fetches(mode) && fetch(username).Failure?
  }

  /** The usernames whose record gets as far as the "Pushed record" step, in order. */
  function Pushed(mode: Value, usernames: seq<Value>, fetch: Fetch): seq<Value> {
    if usernames == [] then []
    else
      var u := usernames[|usernames| - 1];
      Pushed(mode, usernames[..|usernames| - 1], fetch) + (if Fails(mode, u, fetch) then [] else [u])
  }

  /**
   * Normalizing sets `platform` and `scrapedAt`, overwriting any fetched
   * values of those names, leaves every other attribute as fetched, and keeps
   * the fetched attributes' order, adding the two names after them if new.
   */
  lemma NormalizeSpec(info: Dict, stamp: string)
    requires WellFormed(info)
    ensures WellFormed(Normalize(info, stamp))
    ensures Get(Normalize(info, stamp), "platform") == Some(JStr("instagram"))
    ensures Get(Normalize(info, stamp), "scrapedAt") == Some(JStr(stamp))
    ensures forall k | k != "platform" && k != "scrapedAt" :: Get(Normalize(info, stamp), k) == Get(info, k)
    ensures info.keys <= Normalize(info, stamp).keys
    ensures forall k :: k in Normalize(info, stamp).keys <==> k in info.keys || k == "platform" || k == "scrapedAt"
  {
    var d := Put(info, "platform", JStr("instagram"));
    PutSpec(info, "platform", JStr("instagram"));
    PutSpec(d, "scrapedAt", JStr(stamp));
    var r := Put(d, "scrapedAt", JStr(stamp));
    assert info.keys <= d.keys <= r.keys;
    assert forall k | k != "platform" :: Get(d, k) == Get(info, k);
  }

  /** A successful fetch gives the fetched attributes plus `platform` and an ISO-8601 `scrapedAt` of the clock's time. */
  lemma SuccessRecord(mode: Value, username: Value, fetch: Fetch, t: UtcTime)
    requires ValidTime(t) && Fetches(mode) && fetch(username).Success?
    ensures var r := ScrapeOne(mode, username, fetch, FormatStamp(t));
            && Get(r, "platform") == Some(JStr("instagram"))
            && Get(r, "scrapedAt").Some? && Get(r, "scrapedAt").value.JStr?
            && IsIsoStamp(Get(r, "scrapedAt").value.s)
            && ParseStamp(Get(r, "scrapedAt").value.s) == Some(t)
            && forall k | k != "platform" && k != "scrapedAt" :: Get(r, k) == Get(fetch(username).value, k)
  {
    FormatStampSpec(t);
  }

  /** Each iteration's stamp has the ISO-8601 shape and denotes the clock's reading at that iteration. */
  lemma StampsOfSpec(clock: Clock, i: nat)
    requires forall j: nat :: ValidTime(clock(j))
    ensures IsIsoStamp(StampsOf(clock)(i))
    ensures ParseStamp(StampsOf(clock)(i)) == Some(clock(i))
  {
    FormatStampSpec(clock(i));
  }

  /** A failed fetch gives exactly `{"username": u, "error": msg}`. */
  lemma FailureRecord(mode: Value, username: Value, fetch: Fetch, stamp: string)
    requires Fetches(mode) && fetch(username).Failure?
    ensures var r := ScrapeOne(mode, username, fetch, stamp);
            && WellFormed(r)
            && r.keys == ["username", "error"]
            && Get(r, "username") == Some(username)
            && Get(r, "error") == Some(JStr(fetch(username).error))
  {
  }

  /** In any other mode the record is empty whatever the client would return. */
  lemma OtherModeRecord(mode: Value, username: Value, fetch1: Fetch, fetch2: Fetch, stamp: string)
    requires !Fetches(mode)
    ensures ScrapeOne(mode, username, fetch1, stamp) == ScrapeOne(mode, username, fetch2, stamp) == EmptyDict
  {
  }

  /** `followers` mode produces the same record as `enrich` mode. */
  lemma FollowersAsEnrich(username: Value, fetch: Fetch, stamp: string)
    ensures ScrapeOne(JStr("followers"), username, fetch, stamp) == ScrapeOne(JStr("enrich"), username, fetch, stamp)
  {
  }

  /** Two runs against the same client differ at most in `scrapedAt`. */
  lemma SameModuloStamp(mode: Value, username: Value, fetch: Fetch, stamp1: string, stamp2: string)
    ensures ScrapeOne(mode, username, fetch, stamp1).keys == ScrapeOne(mode, username, fetch, stamp2).keys
    ensures forall k | k != "scrapedAt" ::
              Get(ScrapeOne(mode, username, fetch, stamp1), k) == Get(ScrapeOne(mode, username, fetch, stamp2), k)
  {
  }

  /** A username is pushed exactly when it is one of the usernames and its fetch did not fail. */
  lemma {:induction false} PushedSpec(mode: Value, usernames: seq<Value>, fetch: Fetch)
    ensures |Pushed(mode, usernames, fetch)| <= |usernames|
    ensures forall u :: u in Pushed(mode, usernames, fetch) <==> u in usernames && !Fails(mode, u, fetch)
    decreases |usernames|
  {
    if usernames != [] {
      var init := usernames[..|usernames| - 1];
      PushedSpec(mode, init, fetch);
      assert usernames == init + [usernames[|usernames| - 1]];
    }
  }

  /** The records of the targets, one each, in order. */
  function Records(mode: Value, targets: seq<Value>, fetch: Fetch, stamps: Stamps): seq<Dict> {
    seq(|targets|, i requires 0 <= i < |targets| => ScrapeOne(mode, targets[i], fetch, stamps(i)))
  }

  /** `calls` fetches each target exactly once, in order, when the mode fetches, and makes no call otherwise. */
  predicate FetchesFor(calls: seq<Call>, mode: Value, targets: seq<Value>) {
    && |calls| == (if Fetches(mode) then |targets| else 0)
    && forall i | 0 <= i < |calls| :: calls[i] == UserInfo(targets[i])
  }

  /** Login with `id` is the first call, made once, exactly when `id` is truthy; no other call is a login. */
  predicate LoginOnceFirst(calls: seq<Call>, id: Value) {
    && (Truthy(id) ==> |calls| > 0 && calls[0] == Login(id))
    && forall j | 0 <= j < |calls| :: calls[j].Login? ==> j == 0 && Truthy(id) && calls[j] == Login(id)
  }

  /**
   * One pass of the loop body's `try`: fetch in a fetching mode, normalize
   * `data` in place on success; `failed` tells whether the handler runs.
   */
  method ScrapeUser(mode: Value, username: Value, fetch: Fetch, stamp: string)
    returns (record: Dict, fetched: bool, failed: bool)
    ensures record == ScrapeOne(mode, username, fetch, stamp)
    ensures fetched == Fetches(mode)
    ensures failed == Fails(mode, username, fetch)
  {
    var data: Dict := EmptyDict;
    fetched, failed := false, false;
    if Fetches(mode) {
      fetched := true;
      match fetch(username) {
        case Success(info) =>
          data := info;
          data := Put(data, "platform", JStr("instagram"));
          data := Put(data, "scrapedAt", JStr(stamp));
        case Failure(e) =>
          failed := true;
          data := ErrorRecord(username, e);
      }
    }
    record := data;
  }

  /**
   * The scrape loop: one record per username in input order, each username
   * fetched once and in order when the mode fetches, never otherwise.
   */
  method ScrapeUsers(usernames: seq<Value>, mode: Value, fetch: Fetch, stamps: Stamps, pushEnabled: bool)
    returns (results: seq<Dict>, calls: seq<Call>, pushed: seq<Value>)
    ensures results == Records(mode, usernames, fetch, stamps)
    ensures FetchesFor(calls, mode, usernames)
    ensures pushed == if pushEnabled then Pushed(mode, usernames, fetch) else []
  {
    results, calls, pushed := [], [], [];
    var i := 0;
    while i < |usernames|
      invariant 0 <= i <= |usernames|
      invariant results == Records(mode, usernames, fetch, stamps)[..i]
      invariant |calls| == if Fetches(mode) then i else 0
      invariant forall j | 0 <= j < |calls| :: calls[j] == UserInfo(usernames[j])
      invariant pushed == if pushEnabled then Pushed(mode, usernames[..i], fetch) else []
    {
      var username := usernames[i];
      var record, fetched, failed := ScrapeUser(mode, username, fetch, stamps(i));
      if fetched {
        calls := calls + [UserInfo(username)];
      }
      assert Records(mode, usernames, fetch, stamps)[..i + 1]
               == Records(mode, usernames, fetch, stamps)[..i] + [record];
      results := results + [record];
      if pushEnabled && !failed {
        pushed := pushed + [username];
      }
      assert usernames[..i + 1][..i] == usernames[..i];
      i := i + 1;
    }
    assert usernames[..i] == usernames;
    assert Records(mode, usernames, fetch, stamps)[..i] == Records(mode, usernames, fetch, stamps);
  }

  /** How a run of `main()` ends: the records and the count it reports, or an uncaught exception. */
  datatype JobOutcome = Completed(results: seq<Dict>, scraped: nat) | Aborted(reason: Fatal)

  /**
   * `main()`: resolve the input, read its keys, decide the session once and
   * log in at most once with it, then scrape every username.
   */
  method RunJob(file: InputFile, env: Environment, parse: Parser, login: LoginBySessionId, fetch: Fetch, clock: Clock)
    returns (outcome: JobOutcome, calls: seq<Call>, pushed: seq<Value>)
    requires forall i: nat :: ValidTime(clock(i))
    // an input that is not a dict, or `usernames` without a length, stops the job before the client is used
    ensures Configure(ResolveInput(file, env.apifyInput, parse)).Failure? ==>
              && outcome == Aborted(Configure(ResolveInput(file, env.apifyInput, parse)).error)
              && calls == [] && pushed == []
    ensures Configure(ResolveInput(file, env.apifyInput, parse)).Success? ==>
              var config := Configure(ResolveInput(file, env.apifyInput, parse)).value;
              var id := SessionId(config.sessionField, env.igSessionId);
              // login is the first call, made once with the chosen id, exactly when that id is truthy
              && LoginOnceFirst(calls, id)
              // a rejected login is fatal
              && (outcome.Aborted? <==> Truthy(id) && login(id).Some?)
              && (outcome.Aborted? ==> outcome.reason == LoginFailed(login(id).value) && calls == [Login(id)] && pushed == [])
              // otherwise one record per username, in order, and the count reported is the number of records
              && (outcome.Completed? ==>
                    && outcome.results == Records(config.mode, config.targets, fetch, StampsOf(clock))
                    && outcome.scraped == |outcome.results|
                    && FetchesFor(calls[if Truthy(id) then 1 else 0..], config.mode, config.targets)
                    && pushed == if NonEmpty(env.datasetId) then Pushed(config.mode, config.targets, fetch) else [])
  {
    var actorInput := ResolveInput(file, env.apifyInput, parse);
    var configured := Configure(actorInput);
    if configured.Failure? {
      return Aborted(configured.error), [], [];
    }
    var config := configured.value;
    var sessionId := SessionId(config.sessionField, env.igSessionId);
    calls := [];
    if Truthy(sessionId) {
      calls := [Login(sessionId)];
      var rejected := login(sessionId);
      if rejected.Some? {
        return Aborted(LoginFailed(rejected.value)), calls, [];
      }
    }
    var results, fetches;
    results, fetches, pushed := ScrapeUsers(config.targets, config.mode, fetch, StampsOf(clock), NonEmpty(env.datasetId));
    ghost var logins := |calls|;
    calls := calls + fetches;
    assert calls[logins..] == fetches;
    outcome := Completed(results, |results|);
  }

  /**
   * The enrich flow of the repository's test: the input file holds one
   * username in `enrich` mode, no session id is set and a dataset is
   * configured. No login is made, the one username is fetched, and its
   * normalized attributes are the one record.
   */
  method EnrichFlowScenario(parse: Parser, login: LoginBySessionId, fetch: Fetch, clock: Clock, info: Dict)
    returns (outcome: JobOutcome, calls: seq<Call>, pushed: seq<Value>)
    requires forall i: nat :: ValidTime(clock(i))
    requires fetch(JStr("testuser")) == Success(info)
    ensures calls == [UserInfo(JStr("testuser"))]
    ensures outcome == Completed([Normalize(info, FormatStamp(clock(0)))], 1)
    ensures pushed == [JStr("testuser")]
  {
    var input := JObj(Dict(["usernames", "mode"],
                           map["usernames" := JArr([JStr("testuser")]), "mode" := JStr("enrich")]));
    var env := Environment(None, None, Some("mock_dataset"));
    var config := JobConfig([JStr("testuser")], JStr("enrich"), JNull);
    assert Configure(input) == Success(config);
    assert SessionId(config.sessionField, env.igSessionId) == JNull;
    var stamps := StampsOf(clock);
    assert stamps(0) == FormatStamp(clock(0));
    assert Records(config.mode, config.targets, fetch, stamps) == [ScrapeOne(config.mode, JStr("testuser"), fetch, stamps(0))];
    assert Pushed(config.mode, config.targets, fetch) == [JStr("testuser")];
    outcome, calls, pushed := RunJob(Present(Success(input)), env, parse, login, fetch, clock);
  }
}
