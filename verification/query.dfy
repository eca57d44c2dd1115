/** `GET /events`: every stored event ingested in the last 60 seconds,
    newest first, each shown with its IST display time.

    The database's `find({"timestamp": {"$gte": cutoff}}).sort("timestamp", -1)`
    becomes a filter and a sort over the store sequence. The order among
    events with equal timestamps is the database's choice; the model picks
    one, and nothing here depends on which. */
module Query {
  import opened Json
  import opened Events
  import Display

  /** The rolling window, 60 seconds, in milliseconds. */
  const WindowMs := 60_000

  /** The earliest timestamp a query at `now` returns. */
  function Cutoff(now: int): int {
    now - WindowMs
  }

  /** One element of the response array; the request id is not shown. */
  datatype DisplayEvent = DisplayEvent(
    id: nat,
    author: Json,
    action: string,
    fromBranch: Json,
    toBranch: Json,
    timestamp: string)

  // ---------------------------------------------------------------------------
  // Filter
  // ---------------------------------------------------------------------------

  predicate InWindow(d: Document, cutoff: int) {
    d.event.timestamp >= cutoff
  }

  /** The documents matching `{"timestamp": {"$gte": cutoff}}`, each as often
      as it is stored. */
  function Matching(store: Store, cutoff: int): (r: Store)
    ensures forall i :: 0 <= i < |r| ==> InWindow(r[i], cutoff)
    ensures forall d :: multiset(r)[d] == if InWindow(d, cutoff) then multiset(store)[d] else 0
  {
    if |store| == 0 then []
    else
      var rest := Matching(store[1..], cutoff);
      assert store == [store[0]] + store[1..];
      if InWindow(store[0], cutoff) then [store[0]] + rest else rest
  }

  // ---------------------------------------------------------------------------
  // Sort, newest first
  // ---------------------------------------------------------------------------

  predicate NewestFirst(s: Store) {
    forall i, j :: 0 <= i < j < |s| ==> s[i].event.timestamp >= s[j].event.timestamp
  }

  /** Places `d` into a newest-first sequence. */
  function InsertByTime(d: Document, s: Store): (r: Store)
    requires NewestFirst(s)
    ensures |r| == |s| + 1
    ensures r[0] == d || (|s| > 0 && r[0] == s[0])
    ensures NewestFirst(r)
    ensures multiset(r) == multiset(s) + multiset{d}
  {
    if |s| == 0 then [d]
    else if d.event.timestamp >= s[0].event.timestamp then [d] + s
    else
      var rest := InsertByTime(d, s[1..]);
      assert s == [s[0]] + s[1..];
      assert rest[0].event.timestamp <= s[0].event.timestamp;
      var r := [s[0]] + rest;
      assert forall j :: 1 <= j < |r| ==> r[j] == rest[j - 1];
      r
  }

  /** `.sort("timestamp", -1)`: a newest-first permutation of `s`. */
  function SortNewestFirst(s: Store): (r: Store)
    ensures NewestFirst(r)
    ensures multiset(r) == multiset(s)
  {
    if |s| == 0 then []
    else
      assert s == [s[0]] + s[1..];
      InsertByTime(s[0], SortNewestFirst(s[1..]))
  }

  /** The documents a query at `now` returns, in response order. */
  function Selected(store: Store, now: int): (r: Store)
    ensures NewestFirst(r)
    ensures forall i :: 0 <= i < |r| ==> InWindow(r[i], Cutoff(now))
    ensures forall d :: multiset(r)[d] == if InWindow(d, Cutoff(now)) then multiset(store)[d] else 0
  {
    var r := SortNewestFirst(Matching(store, Cutoff(now)));
    assert forall i :: 0 <= i < |r| ==> InWindow(r[i], Cutoff(now)) by {
      forall i | 0 <= i < |r| ensures InWindow(r[i], Cutoff(now)) {
        assert r[i] in multiset(Matching(store, Cutoff(now)));
      }
    }
    r
  }

  // ---------------------------------------------------------------------------
  // The response
  // ---------------------------------------------------------------------------

  /** The response entry for one stored document. */
  function ToDisplay(d: Document): (r: DisplayEvent)
    ensures Shows(r, d)
  {
    DisplayEvent(
      d.id,
      d.event.author,
      ActionName(d.event.action),
      d.event.fromBranch,
      d.event.toBranch,
      Display.DisplayTime(d.event.timestamp))
  }

  /** `view` shows `d`: same identity, author, action and branches, and a
      display time that reads back as the minute of `d`'s timestamp + 5:30. */
  predicate Shows(view: DisplayEvent, d: Document) {
    && view.id == d.id
    && view.author == d.event.author
    && view.action == ActionName(d.event.action)
    && view.fromBranch == d.event.fromBranch
    && view.toBranch == d.event.toBranch
    && var s := Display.Parse(view.timestamp);
       && s.Some?
       && Display.ValidStamp(s.value)
       && Display.MinuteOf(s.value)
          == (d.event.timestamp + Display.IstOffsetMs) / Display.MsPerMinute
  }

  /** `GET /events` at instant `now`: one entry per in-window document, in
      newest-first order, with no limit on the count. */
  function RecentEvents(store: Store, now: int): (r: seq<DisplayEvent>)
    ensures |r| == |Selected(store, now)|
    ensures forall i :: 0 <= i < |r| ==> Shows(r[i], Selected(store, now)[i])
  {
    var docs := Selected(store, now);
    seq(|docs|, i requires 0 <= i < |docs| => ToDisplay(docs[i]))
  }

  /** `Shows` pins every field of an entry, the display text included: the
      only entry that shows `d` is the one built from it. */
  lemma ShowsDetermined(view: DisplayEvent, d: Document)
    ensures Shows(view, d) <==> view == ToDisplay(d)
  {
    Display.DisplayTimeDetermined(d.event.timestamp, view.timestamp);
  }

  // ---------------------------------------------------------------------------
  // Properties of the query
  // ---------------------------------------------------------------------------

  /** On a store whose identities are positions, every selected document
      sits at the position its identity names. */
  lemma SelectedAreStored(store: Store, now: int)
    requires WellIdentified(store)
    ensures var docs := Selected(store, now);
      forall i :: 0 <= i < |docs| ==> docs[i].id < |store| && store[docs[i].id] == docs[i]
  {
    var docs := Selected(store, now);
    forall i | 0 <= i < |docs|
      ensures docs[i].id < |store| && store[docs[i].id] == docs[i]
    {
      assert docs[i] in multiset(docs);
      assert docs[i] in store;
    }
  }

  /** Each entry shows the stored document its identity names, and that
      document was ingested within the window. */
  lemma RecentEntriesStored(store: Store, now: int)
    requires WellIdentified(store)
    ensures var r := RecentEvents(store, now);
      forall i :: 0 <= i < |r| ==>
        && r[i].id < |store|
        && Shows(r[i], store[r[i].id])
        && store[r[i].id].event.timestamp >= Cutoff(now)
  {
    SelectedAreStored(store, now);
  }

  /** The entries are in newest-first order of their documents' timestamps. */
  lemma RecentNewestFirst(store: Store, now: int)
    requires WellIdentified(store)
    ensures var r := RecentEvents(store, now);
      forall i, j :: 0 <= i < j < |r| ==>
        r[i].id < |store| && r[j].id < |store|
        && store[r[i].id].event.timestamp >= store[r[j].id].event.timestamp
  {
    SelectedAreStored(store, now);
  }

  /** Every document ingested within the window is shown; there is no cap on
      the number of entries. */
  lemma RecentComplete(store: Store, now: int)
    requires WellIdentified(store)
    ensures var r := RecentEvents(store, now);
      forall k :: 0 <= k < |store| && store[k].event.timestamp >= Cutoff(now) ==>
        exists i :: 0 <= i < |r| && r[i].id == k
  {
    var r := RecentEvents(store, now);
    var docs := Selected(store, now);
    forall k | 0 <= k < |store| && store[k].event.timestamp >= Cutoff(now)
      ensures exists i :: 0 <= i < |r| && r[i].id == k
    {
      var i := SelectedIndex(store, now, k);
      assert Shows(r[i], docs[i]);
    }
  }

  /** Where an in-window document sits among the selected ones. */
  lemma SelectedIndex(store: Store, now: int, k: int) returns (i: int)
    requires 0 <= k < |store| && InWindow(store[k], Cutoff(now))
    ensures 0 <= i < |Selected(store, now)| && Selected(store, now)[i] == store[k]
  {
    var docs := Selected(store, now);
    assert store[k] in multiset(store);
    assert store[k] in multiset(docs);
    i :| 0 <= i < |docs| && docs[i] == store[k];
  }

  /** No document is shown twice. */
  lemma RecentDistinct(store: Store, now: int)
    requires WellIdentified(store)
    ensures var r := RecentEvents(store, now);
      forall i, j :: 0 <= i < j < |r| ==> r[i].id != r[j].id
  {
    var r := RecentEvents(store, now);
    var docs := Selected(store, now);
    SelectedAreStored(store, now);
    forall i, j | 0 <= i < j < |r| ensures r[i].id != r[j].id
    {
      NoDuplicates(store, docs, i, j);
    }
  }

  /** Positional identities are distinct, so a permutation of a sub-multiset
      of the store holds each document at most once. */
  lemma NoDuplicates(store: Store, docs: Store, i: int, j: int)
    requires WellIdentified(store)
    requires forall d :: multiset(docs)[d] <= multiset(store)[d]
    requires 0 <= i < j < |docs|
    ensures docs[i] != docs[j]
  {
    var d := docs[i];
    assert d in multiset(docs);
    assert d in store;
    var k :| 0 <= k < |store| && store[k] == d;
    OnceInStore(store, k);
    Twice(docs, i, j);
  }

  /** Equal elements at two positions occur at least twice. */
  lemma Twice(docs: Store, i: int, j: int)
    requires 0 <= i < j < |docs|
    ensures docs[i] == docs[j] ==> multiset(docs)[docs[i]] >= 2
  {
    var d := docs[i];
    var without := docs[..i] + docs[i + 1..];
    assert docs == docs[..i] + [d] + docs[i + 1..];
    assert multiset(docs) == multiset(without) + multiset{d};
    assert without[j - 1] == docs[j];
  }

  /** In a store whose identities are positions, each document occurs once. */
  lemma OnceInStore(store: Store, k: int)
    requires WellIdentified(store)
    requires 0 <= k < |store|
    ensures multiset(store)[store[k]] == 1
  {
    var d := store[k];
    assert store == store[..k] + [d] + store[k + 1..];
    assert forall x :: x in store[..k] ==> x.id < k;
    assert forall x :: x in store[k + 1..] ==> x.id > k;
  }

  /** A document ingested at `now - 60 s` or later is shown; one ingested
      earlier is not. */
  lemma WindowBoundary(store: Store, now: int, k: int)
    requires WellIdentified(store)
    requires 0 <= k < |store|
    ensures (exists i :: 0 <= i < |RecentEvents(store, now)| && RecentEvents(store, now)[i].id == k)
            <==> store[k].event.timestamp >= Cutoff(now)
  {
    RecentEntriesStored(store, now);
    RecentComplete(store, now);
  }

  /** A query within 60 seconds of a delivery shows the delivery's new
      identity exactly when the delivery was stored, and the entry shown is
      the one built from the normalised event, with the display time of its
      ingestion instant. */
  lemma StoreThenQuery(store: Store, kind: Wrappers.Option<string>, payload: Json, t: int, now: int)
    requires WellIdentified(store)
    requires Cutoff(now) <= t
    ensures var reply := Webhook(store, kind, payload, t);
      var r := RecentEvents(reply.store, now);
      reply.status == Stored <==> exists i :: 0 <= i < |r| && r[i].id == |store|
    ensures var reply := Webhook(store, kind, payload, t);
      var r := RecentEvents(reply.store, now);
      forall i :: 0 <= i < |r| && r[i].id == |store| ==>
        && Normalize(kind, payload, t).Record?
        && r[i] == ToDisplay(Document(|store|, Normalize(kind, payload, t).event))
        && r[i].timestamp == Display.DisplayTime(t)
  {
    var reply := Webhook(store, kind, payload, t);
    var stored := reply.store;
    var r := RecentEvents(stored, now);
    RecentEntriesStored(stored, now);
    forall i | 0 <= i < |r| && r[i].id == |store|
      ensures Normalize(kind, payload, t).Record?
      ensures r[i] == ToDisplay(Document(|store|, Normalize(kind, payload, t).event))
    {
      assert reply.status == Stored;
      ShowsDetermined(r[i], stored[|store|]);
    }
    if reply.status == Stored {
      RecentComplete(stored, now);
      assert stored[|store|].event.timestamp >= Cutoff(now);
    }
  }
}
