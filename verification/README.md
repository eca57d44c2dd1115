# GitHub webhook receiver: event normaliser and recent-events query

This is a Dafny model of the two pieces of logic in `app.py` of a small Flask service. The service receives GitHub webhooks and shows recent repository activity.

* **`POST /webhook`** reads the `X-GitHub-Event` header. A `push` or `pull_request` delivery is normalised into one canonical record (`request_id`, `author`, `action`, `from_branch`, `to_branch`, `timestamp`) and appended to the event store. Every other kind is answered `ignored`. A supported kind whose payload lacks a field raises, so the request fails and nothing is stored.
* **`GET /events`** returns every stored record ingested in the last 60 seconds, newest first. Each record's UTC timestamp is shifted by +5:30 and printed as `DD Mon YYYY - hh:MM AM/PM IST`. There is no limit on the count, whatever the "latest 10" comment says.

Modules:

| file | module | contents |
|---|---|---|
| `wrappers.dfy` | `Wrappers` | `Option`, and `Result` (the failure-compatible one, for `:-`) |
| `text.dfy` | `Text` | `str.split` on one character, its last segment, decimal rendering and parsing |
| `json.dfy` | `Json` | the decoded payload, Python's `v[key]`, `v.get(key)`, `str(v)`, path lookup |
| `events.dfy` | `Events` | canonical record, push / pull-request normalisers, store insert, the webhook endpoint |
| `calendar.dfy` | `Calendar` | Gregorian day-number ↔ civil-date conversion |
| `display.dfy` | `Display` | 12-hour clock, the `strftime` pattern, its parser, the IST display time |
| `query.dfy` | `Query` | window filter, newest-first sort, the `/events` response and its properties |
| `scenarios.dfy` | `Scenarios` | concrete push, pull-request, ignored, malformed and stale-event cases |

Modelling choices:

* **Time.** Instants are integer milliseconds since the epoch. BSON dates hold milliseconds, and the driver floors the microseconds of `datetime.utcnow()` both when it inserts and when it sends the query cutoff. So a clock reading already floored to milliseconds is exactly what the store compares. The clock is a parameter (`now`). The window is 60 000 ms. The IST offset is 19 800 000 ms.
* **Stored values.** Record fields keep the raw JSON value the payload held there, as the source stores it. `author` and the pull-request branches may therefore be any JSON value. The push `request_id` is `null` when `after` is absent. Only the push branches (a split of a string) and the pull-request `request_id` (`str(id)`) are computed strings.
* **Faults.** Python's exceptions are a `Fault`:
  * `KeyError(key)` for a missing key;
  * `TypeError` for subscripting a non-dict;
  * `AttributeError` for `.get` on a non-dict or `.split` on a non-string.

  The fault reported is the first one raised, following the evaluation order of the source's dict literal.
* **Store.** The store is a sequence of documents, and `insert_one` appends. A document's `id` stands for the ObjectId; it is its position in the store. `WellIdentified` states that invariant, and every endpoint preserves it.
* **Sorting.** The database's order among equal timestamps is unspecified. The model uses an insertion sort that puts earlier-stored documents first among equal timestamps, and no contract relies on the order of ties.
* **Branch rule.** The branch is the text after the last `/` of `ref`. A branch whose name contains `/` is therefore recorded by its last component only: `refs/heads/feature/login` gives `login`. A tag push gives the last `/`-component of the tag's name: `refs/tags/release/1.0` gives `1.0`. This is the source's stated rule, and the model keeps it.

Where the code differs from its stated intent, the model follows the code:

* The query is documented as returning the "latest 10" events (app.py:135), but it applies only the 60-second window and no count limit.
* A malformed payload for a supported kind is not answered with a dedicated client error. It raises an uncaught `KeyError`, `TypeError` or `AttributeError`, and Flask turns that into a server error. The model reports the fault (`Failed`), and stores nothing.
* A push's `request_id` is `None` (JSON null) when the payload has no `after`, because the code reads it with `.get`. Other record fields hold whatever JSON value the payload carried, so they need not be strings.

## Model

| member | source | states |
|---|---|---|
| Text.Split | app.py:75 | `ref.split("/")` is never empty, no piece contains the separator, and joining the pieces with the separator gives `ref` back |
| Text.SplitJoin | app.py:75-76 | splitting the join of separator-free pieces gives those pieces, so split and join are mutually inverse |
| Text.LastSegment | app.py:75-76 | `split("/")[-1]` has no `/`, is a suffix of the input, is all of it iff it has no `/`, and is otherwise preceded by `/` |
| Text.LastSegmentUnique | app.py:75-76 | any string with those properties is the last segment, so they determine the branch completely |
| Text.NatDecimalRoundTrip | app.py:90 | the decimal rendering of a natural number parses back to that number |
| Text.DecimalNatRoundTrip | app.py:90 | a canonical digit string (no leading zero) is the rendering of its own value |
| Text.IntToDecimal | app.py:90 | `str(n)` of a Python int is canonical (no leading zero, `-` exactly when `n` is negative, never `-0`) and parses back to `n` |
| Text.CanonicalIntUnique | app.py:90 | a canonical decimal string is `str` of the integer it reads as, so canonical form plus parse-back fixes the text of `str(n)` completely |
| Text.ParseCanonicalInt | app.py:159 | reading an integer accepts exactly the canonical texts, and each accepted text is the rendering of the value read |
| Text.Pad2 | app.py:159 | two-digit zero-padded fields (`%d`, `%I`, `%M`) are two characters and read back as the number |
| Text.Pad2Unique | app.py:159 | every two-character digit string is the padded field of the number it reads as |
| Json.Find | app.py:69 | a key's lookup is absent iff no member has that key; otherwise it is the value of the first member with that key |
| Json.Index | app.py:69 | `v[key]` raises `TypeError` on a non-dict and `KeyError(key)` when the key is missing; otherwise it yields the key's value |
| Json.Get | app.py:66 | `v.get(key)` raises `AttributeError` on a non-dict, gives `None` for a missing key, and otherwise gives the key's value |
| Json.At | app.py:93-100 | a chain of subscripts such as `pr["user"]["login"]` is the value itself for an empty path; its first step raises `TypeError` on a non-dict and `KeyError` for a missing first key; any `KeyError` names a key of the path, and no step raises `AttributeError` |
| Json.Str | app.py:90 | `str(v)` of a JSON integer is its canonical decimal (which, with `Text.CanonicalIntUnique`, fixes the text), of a string is the string itself, of null is `None` and of a boolean is `True`/`False`; a list or dict is its `Json.Repr`, in `[...]` or `{...}` |
| Json.Repr | app.py:90 | `repr` of a nested value is non-empty; null is `None`, a boolean `True`/`False`, an integer its canonical decimal, a string is wrapped in `'` quotes, a list in `[...]`, a dict in `{...}` (quoting is approximate, see Left out) |
| Events.ShortRef | app.py:75-76 | splitting `ref` succeeds iff it is a string (`AttributeError` otherwise), and yields a `/`-free suffix that follows the last `/` |
| Events.NormalizePush | app.py:63-80 | a push succeeds iff the payload is a dict with `pusher.name` and a string `ref`; then `action` is PUSH, `author` is `pusher.name`, `request_id` is `after` or null, both branches are the last segment of `ref`, and the timestamp is `now`; a non-dict payload fails with `AttributeError`, and a missing `pusher` fails with `KeyError` |
| Events.FromPullRequest | app.py:88-104 | the record built from `pr` exists iff `id`, `user.login`, `head.ref` and `base.ref` are present; then `request_id` is `str(id)`, `author` is `user.login`, `from_branch` is `head.ref`, `to_branch` is `base.ref` and `action` is PULL_REQUEST |
| Events.NormalizePullRequest | app.py:85-104 | a pull request succeeds iff `pull_request` and all its nested fields are present, with the same field mapping; a non-dict payload fails with `TypeError`, and a missing `pull_request` fails with `KeyError` |
| Events.Normalize | app.py:55-110 | the outcome is "unsupported" iff the header is neither `push` nor `pull_request` (absent included); for a supported kind it is a record iff the payload is well-formed for that kind; a record has action PUSH iff the kind is `push`, and is stamped `now` |
| Events.Insert | app.py:115 | insertion appends exactly one document holding the event, leaves every existing document unchanged, and keeps identities positional |
| Events.Webhook | app.py:55-118 | the reply is `ignored` iff the kind is unsupported; `ignored` and failures leave the store unchanged; a failure carries the normaliser's fault; `stored` means exactly one new document holding the normalised event is appended after the unchanged old ones |
| Calendar.CivilFromDays | app.py:159 | the civil date of a day number is a valid date whose day number is that number |
| Calendar.DaysFromCivilInjective | app.py:159 | distinct valid dates have distinct day numbers |
| Calendar.CivilRoundTrip | app.py:159 | converting a valid date to its day number and back gives the date |
| Display.To12 | app.py:159 | `%I`/`%p` of a 24-hour hour gives an hour in 1..12 that is PM iff the hour is 12 or later, and converts back to the same 24-hour hour |
| Display.To12RoundTrip | app.py:159 | every 12-hour reading comes from exactly one 24-hour hour |
| Display.StampOf | app.py:147-159 | the broken-down fields of an instant are a valid date and 12-hour time naming exactly the minute that contains the instant |
| Display.MinuteOfInjective | app.py:159 | two valid field sets name the same minute iff they are equal, so the displayed fields are determined by the minute |
| Display.MonthAbbr | app.py:159 | `%b` is a three-letter name that reads back as its month |
| Display.Render | app.py:159 | the text `strftime("%d %b %Y - %I:%M %p IST")` prints parses back to the very fields it was printed from |
| Display.ParseRender | app.py:159 | a text reads back as a valid set of fields iff it is exactly the text printed for them, so each display time has a single spelling (the year included) |
| Display.DisplayTime | app.py:147-159 | the shown timestamp reads back as a valid date and 12-hour time naming the minute containing the stored instant + 5:30, with PM iff that minute's 24-hour hour is 12 or later |
| Display.DisplayTimeDetermined | app.py:147-159 | a text is the shown timestamp iff it reads back as a valid time naming the minute of the stored instant + 5:30, so that description fixes the string |
| Query.Matching | app.py:138-141 | the `$gte cutoff` filter keeps each in-window document exactly as often as it is stored, and keeps nothing older |
| Query.InsertByTime | app.py:142 | placing a document into a newest-first sequence keeps it newest-first and adds exactly that document |
| Query.SortNewestFirst | app.py:142 | the sort is a newest-first permutation of its input |
| Query.Selected | app.py:138-142 | the query's documents are newest-first, all within 60 s of `now`, and are exactly the in-window stored documents with their multiplicities |
| Query.ToDisplay | app.py:147-160 | the entry for a document shows its id, author, action name and branches, no request id, and a timestamp that reads back as the minute of stored time + 5:30 |
| Query.ShowsDetermined | app.py:147-160 | an entry shows a document in that sense iff it is exactly the entry built from it, display text included |
| Query.RecentEvents | app.py:133-162 | one response entry per selected document, in order; each shows the document's id, author, action and branches, no request id, and a timestamp that reads back as the minute of stored time + 5:30, which by `Query.ShowsDetermined` fixes the entry completely |
| Query.RecentEntriesStored | app.py:140-160 | each entry shows the stored document its id names, and that document was ingested at or after `now` - 60 s |
| Query.RecentNewestFirst | app.py:142 | the entries' stored timestamps are non-increasing |
| Query.RecentComplete | app.py:135-142 | every document ingested within the window is shown; the count is not capped |
| Query.RecentDistinct | app.py:145-152 | no document is shown twice |
| Query.WindowBoundary | app.py:138-141 | a stored document is shown iff it was ingested at or after `now` - 60 s |
| Query.StoreThenQuery | app.py:115-159 | for a query within 60 s of a delivery at `t`, the delivery's new id is shown iff the delivery was stored; the entry with that id is the one built from the normalised event, with the display time of `t` |
| Scenarios.PushScenario | app.py:63-80 | `{after: "abc123", pusher: {name: "alice"}, ref: "refs/heads/main"}` becomes `("abc123", "alice", PUSH, "main", "main")` |
| Scenarios.PullRequestScenario | app.py:85-104 | a pull request with id 42, login `bob`, head `feature-x` and base `main` becomes `("42", "bob", PULL_REQUEST, "feature-x", "main")` |
| Scenarios.IgnoredScenario | app.py:109-110 | an `issue_comment` delivery, or one without the header, is ignored and leaves the store unchanged |
| Scenarios.MissingPusherScenario | app.py:69 | a push without `pusher` fails with `KeyError("pusher")` and stores nothing |
| Scenarios.StaleScenario | app.py:138-142 | an event ingested 70 s before the query is not returned |

## Left out

- Flask setup, routing, `jsonify`, CORS, the `/` health route and `app.run` (app.py:13-14, 33-39, 168-169) are HTTP plumbing. The reply status stands for the JSON body. A fault stands for the server error Flask returns for an uncaught exception; the exact status code is not modelled.
- The MongoDB client, database and collection handles (app.py:21-27) are not modelled. The store is an in-memory sequence. `insert_one` is an append, and `find(...).sort(...)` is a filter followed by a sort.
- `datetime.utcnow()` (app.py:79, 103, 138) is the parameter `now`, already floored to milliseconds as the store keeps it.
- The `print` on app.py:116 is not modelled.
- ObjectId generation is not modelled; an identity is the document's position in the store. Its string form is not modelled either; the response carries the position.
- Bodies that are not JSON (`request.json` is `None` or aborts) are not modelled. Floating-point JSON numbers are not modelled; numbers are integers.
- Json.Str: a list or dict `id` is rendered through `Json.Repr`, whose quoting of nested strings is approximate (next line); only its outer brackets are stated.
- Json.Repr: the `repr` of a list or dict nested in a pull-request `id` quotes strings with `'` without Python's escaping or quote-choice rules, and its contract states only the outer shape. `Json.Str` and `Json.Repr` state the text exactly for null (`None`), booleans (`True`/`False`), integers (the canonical decimal) and, in `Str`, strings.
- Json.Find: an object is assumed to be a decoded dict with distinct keys; for a member list with repeated keys the first binding is used, while `json.loads` keeps the last value.
- Display.Render: `%Y` is rendered as the plain decimal year, which matches `strftime` for years 1000 to 9999. `datetime`'s own range (years 1 to 9999, and the `OverflowError` past it) is not modelled. Locale-dependent month names are not modelled; `%b` uses the C locale's English abbreviations.
- Concurrency between requests is not modelled. Every operation is a pure function of the store it is given.
