/** Concrete deliveries and queries: the behaviour of the endpoints on
    typical GitHub payloads. */
module Scenarios {
  import opened Wrappers
  import opened Json
  import opened Events
  import Query

  const Pusher: Json := JObject([Member("name", JStr("alice"))])

  /** `{"after": "abc123", "pusher": {"name": "alice"}, "ref": "refs/heads/main"}` */
  const PushPayload: Json := JObject([
    Member("after", JStr("abc123")),
    Member("pusher", Pusher),
    Member("ref", JStr("refs/heads/main"))])

  lemma PushLookups()
    ensures Get(PushPayload, "after") == Success(JStr("abc123"))
    ensures Index(PushPayload, "pusher") == Success(Pusher)
    ensures Index(Pusher, "name") == Success(JStr("alice"))
    ensures Index(PushPayload, "ref") == Success(JStr("refs/heads/main"))
  {
    var m := PushPayload.members;
    assert Find(m, "after") == Some(JStr("abc123"));
    assert Find(m[1..], "pusher") == Some(Pusher);
    assert Find(Pusher.members, "name") == Some(JStr("alice"));
    assert Find(m[1..][1..], "ref") == Some(JStr("refs/heads/main"));
  }

  /** A push stores its commit, pusher and the short branch name twice. */
  lemma PushScenario(now: int)
    ensures Normalize(Some("push"), PushPayload, now)
      == Record(Event(JStr("abc123"), JStr("alice"), Push, JStr("main"), JStr("main"), now))
  {
    PushLookups();
    Text.LastSegmentUnique("refs/heads/main", '/', "main");
    assert ShortRef(JStr("refs/heads/main")) == Success("main");
  }

  const User: Json := JObject([Member("login", JStr("bob"))])
  const Head: Json := JObject([Member("ref", JStr("feature-x"))])
  const Base: Json := JObject([Member("ref", JStr("main"))])
  const PullRequestObject: Json := JObject([
    Member("id", JNum(42)), Member("user", User), Member("head", Head), Member("base", Base)])

  /** `{"pull_request": {"id": 42, "user": {"login": "bob"},
        "head": {"ref": "feature-x"}, "base": {"ref": "main"}}}` */
  const PullRequestPayload: Json := JObject([Member("pull_request", PullRequestObject)])

  lemma PullRequestOuterLookups()
    ensures Index(PullRequestPayload, "pull_request") == Success(PullRequestObject)
    ensures Index(PullRequestObject, "id") == Success(JNum(42))
    ensures Index(PullRequestObject, "user") == Success(User)
  {
    var m := PullRequestObject.members;
    assert Find(PullRequestPayload.members, "pull_request") == Some(PullRequestObject);
    assert Find(m, "id") == Some(JNum(42));
    assert Find(m[1..], "user") == Some(User);
  }

  lemma PullRequestBranchLookups()
    ensures Index(PullRequestObject, "head") == Success(Head)
    ensures Index(PullRequestObject, "base") == Success(Base)
  {
    var m := PullRequestObject.members;
    assert Find(m[1..][1..], "head") == Some(Head);
    assert Find(m[1..][1..][1..], "base") == Some(Base);
  }

  lemma PullRequestInnerLookups()
    ensures Index(User, "login") == Success(JStr("bob"))
    ensures Index(Head, "ref") == Success(JStr("feature-x"))
    ensures Index(Base, "ref") == Success(JStr("main"))
  {
    assert Find(User.members, "login") == Some(JStr("bob"));
    assert Find(Head.members, "ref") == Some(JStr("feature-x"));
    assert Find(Base.members, "ref") == Some(JStr("main"));
  }

  lemma StrFortyTwo()
    ensures Str(JNum(42)) == "42"
  {
  }

  /** A pull request stores `str(id)`, the login and head/base refs. */
  lemma PullRequestScenario(now: int)
    ensures Normalize(Some("pull_request"), PullRequestPayload, now)
      == Record(Event(JStr("42"), JStr("bob"), PullRequest, JStr("feature-x"), JStr("main"), now))
  {
    PullRequestOuterLookups();
    PullRequestBranchLookups();
    PullRequestInnerLookups();
    AtOne(PullRequestObject, "id");
    AtTwo(PullRequestObject, "user", "login");
    AtTwo(PullRequestObject, "head", "ref");
    AtTwo(PullRequestObject, "base", "ref");
    StrFortyTwo();
    var e := Event(JStr("42"), JStr("bob"), PullRequest, JStr("feature-x"), JStr("main"), now);
    var r := FromPullRequest(PullRequestObject, now);
    assert r.Success?;
    assert r.value == e;
    assert NormalizePullRequest(PullRequestPayload, now) == Success(e);
  }

  /** Any other kind is ignored and stores nothing. */
  lemma IgnoredScenario(store: Store, payload: Json, now: int)
    ensures Webhook(store, Some("issue_comment"), payload, now) == Reply(Ignored, store)
    ensures Webhook(store, None, payload, now) == Reply(Ignored, store)
  {
  }

  /** A push without `pusher` is a fault, not an ignored delivery. */
  lemma MissingPusherScenario(store: Store, now: int)
    ensures Webhook(store, Some("push"), JObject([Member("ref", JStr("main"))]), now)
      == Reply(Failed(KeyError("pusher")), store)
  {
  }

  /** An event ingested 70 s before the query is not returned. */
  lemma StaleScenario(e: Event, now: int)
    requires e.timestamp == now - 70_000
    ensures Query.RecentEvents([Document(0, e)], now) == []
  {
    var store := [Document(0, e)];
    assert multiset(store)[Document(0, e)] == 1;
    assert !Query.InWindow(Document(0, e), Query.Cutoff(now));
  }
}
