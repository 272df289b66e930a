# Fandom Velocity scraper actor — a Dafny model of `main()`

The scraper actor (`scraper-actor/main.py`) is a batch job. It takes a
list of Instagram usernames and a mode. It fetches each user's public
profile through the instagrapi client and adds two fields:
`platform = "instagram"` and a UTC `scrapedAt` stamp. The result is one
record per username. The job has three stages:

1. **Input resolution.** The actor input comes from
   `storage/key_value_stores/default/INPUT.json` if that file exists.
   Otherwise it comes from a non-empty `APIFY_INPUT` variable. Otherwise
   it is `{}`. Any load or parse exception is swallowed and leaves `{}`.
   Then `usernames` defaults to `[]` and `mode` to `'enrich'`.
2. **Session decision.** The session id is the input's `session_id` if
   that is truthy, else `IG_SESSION_ID`. Login happens once, before the
   loop, and only when the chosen id is truthy.
3. **Scrape loop.** Each username gives one record. In `enrich` or
   `followers` mode, a successful fetch gives the normalized attributes.
   A failed fetch gives `{"username": u, "error": msg}`, and the loop goes
   on to the next username. Any other mode gives `{}` without a fetch.

Files:

- `wrappers.dfy`: `Option` and `Result`.
- `json.dfy`: module `Json`. It holds JSON values as Python's `json` module
  produces them. A dict is its keys in insertion order plus a map from key
  to value. It also holds `d.get`, `d[k] = v` and truthiness.
- `timestamp.dfy`: module `Timestamp`. It holds the
  `%Y-%m-%dT%H:%M:%SZ` format of a `gmtime` value and its inverse.
- `config.dfy`: module `Config`. It holds input resolution, the keys read
  from the input, and the session-id choice.
- `scraper.dfy`: module `Scraper`. It holds the per-username record, the
  scrape loop (`ScrapeUsers`, a method with loop invariants) and the
  whole job (`RunJob`).

The environment is passed in, not read:

- The input file is an `InputFile` value: absent, or present with its
  load outcome.
- The environment variables are an `Environment` value.
- `json.loads` is a function parameter.
- The instagrapi client is two function parameters. `login` gives the
  message of the exception `login_by_sessionid` raises, if any. `fetch`
  gives `user_info_by_username(u).dict()`, or the message of the exception.
- `time.gmtime()` is a `Clock` indexed by the position of the username
  being processed. `RunJob` formats it into one stamp per position
  (`StampsOf`) and hands those stamps to the loop.

The calls made on the client come back as a trace of `Call`s. The
usernames whose record reaches the "Pushed record" step come back as
`pushed`.

How `main()` behaves at its edges:

- A failure record's key is `username`, and its `error` is `str(e)`. That
  string can be empty (a bare `Exception()`), so the model promises no
  non-empty message.
- A parsed input that is not a JSON object, or a `usernames` with no
  length (`null`, a number, a bool), raises an uncaught exception at
  `actor_input.get` or at `len(usernames)`, and the job aborts
  (`Config.Fatal`).
- `usernames` is iterated as Python iterates it. A string gives its
  characters, and a dict gives its keys.
- `mode` is not an enumeration. Any value other than the strings
  `"enrich"` and `"followers"` gives empty records, and those records are
  still pushed.
- `session_id` may be any truthy JSON value, not only a string.
- There is no output sink. "Pushing" a record is a print, done when
  `APIFY_DEFAULT_DATASET_ID` is non-empty.

## Model

| member | source | states |
|---|---|---|
| `Json.PutSpec` | scraper-actor/main.py:75-78 | on a well-formed dict, after `d[k] = v`, `k` reads `v` and every other key reads as before; an existing key keeps its place; a new key is appended last; the keys are the old ones plus `k`; the dict stays well-formed |
| `Timestamp.FormatStampSpec` | scraper-actor/main.py:76-78 | the `scrapedAt` stamp of a valid UTC time matches `YYYY-MM-DDTHH:MM:SSZ` and parses back to that time |
| `Timestamp.ParseStampSpec` | scraper-actor/main.py:76-78 | every string that parses as a stamp is the formatted stamp of the time it parses to, so formatting is a bijection onto stamps |
| `Scraper.StampsOfSpec` | scraper-actor/main.py:76-78 | the stamp used at each position of the loop has the ISO-8601 shape and parses back to the clock's reading at that position |
| `Config.ResolveInput` | scraper-actor/main.py:17-33 | the input is `{}` or the whole result of the source the precedence picks: the file wins; a non-empty `APIFY_INPUT` is used only when there is no file; an empty or unset string, or a load/parse failure, leaves `{}` |
| `Config.FileShadowsEnvironment` | scraper-actor/main.py:21-31 | while the input file exists, neither `APIFY_INPUT` nor the parser affects the input |
| `Config.IterateDictSpec` | scraper-actor/main.py:41-64 | iterating a well-formed dict visits each of its keys exactly once: the targets are pairwise distinct, and a key's string is a target exactly when the dict has that key |
| `Config.IterateStringSpec` | scraper-actor/main.py:41-64 | iterating a string visits one-character strings that, joined in order, give back the string |
| `Config.Configure` | scraper-actor/main.py:35-37 | a non-dict input aborts; otherwise the job proceeds exactly when `usernames` (default `[]`) has a length; the targets are its iteration, the mode is `mode` (default `'enrich'`), and `session_id` is read |
| `Config.ConfigureDefaults` | scraper-actor/main.py:35-36 | an input with neither `usernames` nor `mode` gives no targets and mode `enrich` |
| `Config.ConfigureIgnoresOtherKeys` | scraper-actor/main.py:35-37 | two inputs that agree on `usernames`, `mode` and `session_id` configure the same job, so `limit` and every other key are ignored |
| `Config.SessionId` | scraper-actor/main.py:49-52 | a truthy `session_id` wins, else `IG_SESSION_ID`; the chosen id is truthy exactly when one of the two sources is |
| `Scraper.NormalizeSpec` | scraper-actor/main.py:72-78 | on a well-formed dict, normalizing sets `platform` and `scrapedAt` (overwriting fetched values of those names), keeps every other attribute, keeps the attribute order, and adds only those two keys |
| `Scraper.SuccessRecord` | scraper-actor/main.py:69-79 | in `enrich`/`followers` mode a successful fetch gives the fetched attributes plus `platform = "instagram"` and an ISO-8601 `scrapedAt` of the clock's time |
| `Scraper.FailureRecord` | scraper-actor/main.py:100-102 | a failed fetch gives exactly the keys `username`, `error`, holding the username and the exception's message |
| `Scraper.OtherModeRecord` | scraper-actor/main.py:68-69 | any other mode gives `{}` whatever the client would answer |
| `Scraper.FollowersAsEnrich` | scraper-actor/main.py:80-88 | `followers` mode yields the same record as `enrich` mode |
| `Scraper.SameModuloStamp` | scraper-actor/main.py:71-78 | two runs with different clocks produce records with the same keys and the same values except `scrapedAt` |
| `Scraper.PushedSpec` | scraper-actor/main.py:90-96 | a username reaches the push step exactly when it is in the list and its fetch did not fail; never more pushes than usernames |
| `Scraper.ScrapeUser` | scraper-actor/main.py:65-102 | the loop body's record is `ScrapeOne`'s; it fetches exactly in a fetching mode; the handler runs exactly when the fetch fails |
| `Scraper.ScrapeUsers` | scraper-actor/main.py:61-102 | exactly one record per username, in input order; each username is fetched exactly once and in order when the mode fetches, and none otherwise; the pushes are those of `Pushed` when a dataset is configured |
| `Scraper.RunJob` | scraper-actor/main.py:17-105 | a bad input aborts before any client call; login, when made, is the first call and the only one, made with the chosen id, and exactly when that id is truthy; a rejected login aborts; otherwise records and fetches follow the loop, and the reported count equals the number of records |
| `Scraper.EnrichFlowScenario` | scraper-actor/test_scraper.py:21-58 | with the test's input and no session id, login is never called, `testuser` is fetched once, and its normalized attributes are the only record |

## Left out

- Follower retrieval: the fetch in `followers` mode is commented out in the source, so the model gives that mode no behaviour of its own.
- `limit` and the Apify client are read or created only in commented-out code; the model ignores them.
- Printed diagnostics: the start banner, the load warning, the progress lines, the error lines and the completion line are not modelled. The completion line's count is kept as `JobOutcome.scraped`.
- `time.sleep(2)` has no observable effect here, so it is left out.
- Raising prints and reads: the model assumes every print, the environment read and the sleep never raise. If the progress print before the fetch raised, the record would be an error record and no fetch would be made. If a step after the append raised, a second record (the error record) would be appended for the same username. If the handler's print raised, the job would abort.
- Creating `Client()` is assumed not to fail.
- Client state: the client's state after login is not modelled. `fetch` is one function of the username, so it answers the same way for the same username. A live client could answer differently from call to call.
- Exceptions are treated as their message (`str(e)`). Exceptions outside `Exception`, such as `KeyboardInterrupt`, are not modelled.
- JSON numbers with a fraction are not modelled. This includes the falsiness of `0.0`.
- `%Y` is modelled for four-digit years only (1000 to 9999).
- Well-formedness of dicts: a `Json.Dict` is well-formed when its keys are distinct and are exactly the keys of its map. Every Python dict is, but the parser and `fetch` parameters are not constrained to return well-formed dicts. So the key-order statements of `Json.PutSpec` and `Scraper.NormalizeSpec` require it, while the statements about values hold for any dict.
