/** The webhook receiver: normalising a push or pull-request delivery into one
    canonical event, and appending it to the event store.

    The store is a sequence of documents; inserting appends one. The clock is
    a parameter: `now` is the ingestion instant in milliseconds since the
    epoch, the resolution at which the store keeps timestamps. */
module Events {
  import opened Wrappers
  import opened Json
  import Text

  datatype Action = Push | PullRequest

  /** The `action` string a stored record carries. */
  function ActionName(a: Action): string {
    match a
    case Push => "PUSH"
    case PullRequest => "PULL_REQUEST"
  }

  /** A canonical event record. The text fields hold whatever JSON value the
      payload held there (GitHub sends strings); only the push branches are
      computed strings. */
  datatype Event = Event(
    requestId: Json,
    author: Json,
    action: Action,
    fromBranch: Json,
    toBranch: Json,
    timestamp: int)

  /** The three outcomes of normalising one delivery. */
  datatype Normalized =
    | Record(event: Event)   // a supported kind with a well-formed payload
    | Unsupported            // any other kind tag, or no tag at all
    | Malformed(fault: Fault) // a supported kind whose payload lacks a field

  /** `payload["ref"].split("/")[-1]`: only a string can be split. */
  function ShortRef(ref: Json): (r: Result<string, Fault>)
    ensures ref.JStr? <==> r.Success?
    ensures r.Failure? ==> r.error == AttributeError
    ensures r.Success? ==> '/' !in r.value
    ensures r.Success? ==> var s := ref.s;
      |r.value| <= |s| && s[|s| - |r.value|..] == r.value
      && (|r.value| == |s| || s[|s| - |r.value| - 1] == '/')
  {
    match ref
    case JStr(s) => Success(Text.LastSegment(s, '/'))
    case _ => Failure(AttributeError)
  }

  /** The fields a push payload must carry: `pusher.name` and a string `ref`. */
  predicate PushWellFormed(payload: Json) {
    && payload.JObject?
    && At(payload, ["pusher", "name"]).Success?
    && At(payload, ["ref"]).Success? && At(payload, ["ref"]).value.JStr?
  }

  /** The record for a `push` delivery, fields evaluated in source order:
      `after` (optional), `pusher.name`, then the short name of `ref`. */
  function NormalizePush(payload: Json, now: int): (r: Result<Event, Fault>)
    ensures r.Success? <==> PushWellFormed(payload)
    ensures !payload.JObject? ==> r == Failure(AttributeError)
    ensures payload.JObject? && !HasKey(payload, "pusher") ==> r == Failure(KeyError("pusher"))
    ensures r.Success? ==> var e := r.value;
      && e.action == Push
      && e.timestamp == now
      && Success(e.author) == At(payload, ["pusher", "name"])
      && (HasKey(payload, "after") ==> Binds(payload, "after", e.requestId))
      && (!HasKey(payload, "after") ==> e.requestId == JNull)
      && e.fromBranch == e.toBranch == JStr(Text.LastSegment(At(payload, ["ref"]).value.s, '/'))
  {
    AtTwo(payload, "pusher", "name");
    AtOne(payload, "ref");
    var requestId :- Get(payload, "after");
    var pusher :- Index(payload, "pusher");
    var author :- Index(pusher, "name");
    var ref :- Index(payload, "ref");
    // The source splits `ref` once per branch field; both give this segment.
    var branch :- ShortRef(ref);
    Success(Event(requestId, author, Push, JStr(branch), JStr(branch), now))
  }

  /** The fields a pull-request object `pr` must carry. */
  predicate PullRequestFieldsPresent(pr: Json) {
    && At(pr, ["id"]).Success?
    && At(pr, ["user", "login"]).Success?
    && At(pr, ["head", "ref"]).Success?
    && At(pr, ["base", "ref"]).Success?
  }

  /** The fields a pull-request payload must carry under `pull_request`. */
  predicate PullRequestWellFormed(payload: Json) {
    Index(payload, "pull_request").Success?
    && PullRequestFieldsPresent(Index(payload, "pull_request").value)
  }

  /** The record built from `pr = payload["pull_request"]`, fields evaluated
      in source order: `id`, `user.login`, `head.ref`, `base.ref`. */
  function FromPullRequest(pr: Json, now: int): (r: Result<Event, Fault>)
    ensures r.Success? <==> PullRequestFieldsPresent(pr)
    ensures !pr.JObject? ==> r == Failure(TypeError)
    ensures pr.JObject? && !HasKey(pr, "id") ==> r == Failure(KeyError("id"))
    ensures r.Success? ==> var e := r.value;
      && e.action == PullRequest
      && e.timestamp == now
      && e.requestId == JStr(Str(At(pr, ["id"]).value))
      && Success(e.author) == At(pr, ["user", "login"])
      && Success(e.fromBranch) == At(pr, ["head", "ref"])
      && Success(e.toBranch) == At(pr, ["base", "ref"])
  {
    AtOne(pr, "id");
    AtTwo(pr, "user", "login");
    AtTwo(pr, "head", "ref");
    AtTwo(pr, "base", "ref");
    var id :- Index(pr, "id");
    var user :- Index(pr, "user");
    var author :- Index(user, "login");
    var head :- Index(pr, "head");
    var fromBranch :- Index(head, "ref");
    var base :- Index(pr, "base");
    var toBranch :- Index(base, "ref");
    Success(Event(JStr(Str(id)), author, PullRequest, fromBranch, toBranch, now))
  }

  /** The record for a `pull_request` delivery. */
  function NormalizePullRequest(payload: Json, now: int): (r: Result<Event, Fault>)
    ensures r.Success? <==> PullRequestWellFormed(payload)
    ensures !payload.JObject? ==> r == Failure(TypeError)
    ensures payload.JObject? && !HasKey(payload, "pull_request") ==> r == Failure(KeyError("pull_request"))
    ensures r.Success? ==> var e, pr := r.value, Index(payload, "pull_request").value;
      && e.action == PullRequest
      && e.timestamp == now
      && e.requestId == JStr(Str(At(pr, ["id"]).value))
      && Success(e.author) == At(pr, ["user", "login"])
      && Success(e.fromBranch) == At(pr, ["head", "ref"])
      && Success(e.toBranch) == At(pr, ["base", "ref"])
  {
    var pr :- Index(payload, "pull_request");
    FromPullRequest(pr, now)
  }

  predicate Supported(kind: Option<string>) {
    kind == Some("push") || kind == Some("pull_request")
  }

  /** Normalises a delivery whose `X-GitHub-Event` header is `kind`. */
  function Normalize(kind: Option<string>, payload: Json, now: int): (r: Normalized)
    ensures r.Unsupported? <==> !Supported(kind)
    ensures kind == Some("push") ==> (r.Record? <==> PushWellFormed(payload))
    ensures kind == Some("pull_request") ==> (r.Record? <==> PullRequestWellFormed(payload))
    ensures r.Record? ==> r.event.timestamp == now
    ensures r.Record? ==> (r.event.action == Push <==> kind == Some("push"))
  {
    if kind == Some("push") then Outcome(NormalizePush(payload, now))
    else if kind == Some("pull_request") then Outcome(NormalizePullRequest(payload, now))
    else Unsupported
  }

  /** A supported kind either yields its record or raised a fault. */
  function Outcome(r: Result<Event, Fault>): Normalized {
    match r
    case Success(e) => Record(e)
    case Failure(f) => Malformed(f)
  }

  // ---------------------------------------------------------------------------
  // The store and the webhook endpoint
  // ---------------------------------------------------------------------------

  /** A stored record; `id` stands for the database-assigned identity. */
  datatype Document = Document(id: nat, event: Event)

  type Store = seq<Document>

  /** Each document's identity is its position: identities are distinct. */
  predicate WellIdentified(store: Store) {
    forall i :: 0 <= i < |store| ==> store[i].id == i
  }

  /** `collection.insert_one(data)`. */
  function Insert(store: Store, e: Event): (r: Store)
    ensures |r| == |store| + 1
    ensures r[..|store|] == store
    ensures r[|store|].event == e
    ensures WellIdentified(store) ==> WellIdentified(r)
  {
    store + [Document(|store|, e)]
  }

  /** The `status` of the endpoint's reply; a fault surfaces as an error reply. */
  datatype Status = Stored | Ignored | Failed(fault: Fault)

  datatype Reply = Reply(status: Status, store: Store)

  /** `POST /webhook`: ignore an unsupported kind, fail on a malformed
      payload, otherwise append exactly one record. */
  function Webhook(store: Store, kind: Option<string>, payload: Json, now: int): (r: Reply)
    ensures r.status == Ignored <==> !Supported(kind)
    ensures !r.status.Stored? ==> r.store == store
    ensures r.status.Failed? ==> Normalize(kind, payload, now) == Malformed(r.status.fault)
    ensures r.status.Stored? ==>
      && Normalize(kind, payload, now).Record?
      && |r.store| == |store| + 1
      && r.store[..|store|] == store
      && r.store[|store|] == Document(|store|, Normalize(kind, payload, now).event)
    ensures WellIdentified(store) ==> WellIdentified(r.store)
  {
    match Normalize(kind, payload, now)
    case Unsupported => Reply(Ignored, store)
    case Malformed(f) => Reply(Failed(f), store)
    case Record(e) => Reply(Stored, Insert(store, e))
  }
}
