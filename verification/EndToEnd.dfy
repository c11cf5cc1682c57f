/** From the review to the answer: whatever the bot cites was gated, reviewed and approved. */
module EndToEnd {
  import opened Wrappers
  import opened Identity
  import opened StoreSpec
  import opened StoreRuns
  import opened WorkflowSpec
  import opened Succession
  import Interleavings
  import StaleReads
  import Schedules
  import IndexRace
  import opened IndexSpec
  import opened IndexRuns
  import opened ManagerSpec
  import opened CitationContract

  // ---- A run of whole routes is one of the interleavings ----

  /** The store calls of the routes. */
  function CallsOf(routes: seq<Route>): seq<Whole> {
    if routes == [] then []
    else
      var last := routes[|routes| - 1];
      CallsOf(routes[..|routes| - 1]) + if last.Taken? then [last.call] else []
  }

  lemma {:induction false} RoutesAreCalls(w: World, policy: Policy, read: Reader, routes: seq<Route>)
    ensures RunWhole(w, policy, CallsOf(routes)) == RunRoutes(w, policy, read, routes).store
    ensures Schedules.PublishedIn(CallsOf(routes)) == PublishedBy(routes)
  {
    hide Call, Reindexed;
    if routes != [] {
      var before, last := routes[..|routes| - 1], routes[|routes| - 1];
      RoutesAreCalls(w, policy, read, before);
      if last.Taken? {
        assert (CallsOf(before) + [last.call])[..|CallsOf(before)|] == CallsOf(before);
      } else {
        assert CallsOf(before) + [] == CallsOf(before);
      }
    }
  }

  function EventsOf(routes: seq<Route>): seq<Interleavings.Event> {
    Schedules.EventsOf(CallsOf(routes))
  }

  lemma RoutesAreEvents(w: World, policy: Policy, read: Reader, routes: seq<Route>)
    ensures
      && Interleavings.Run(w, policy, EventsOf(routes)).store == RunRoutes(w, policy, read, routes).store
      && Interleavings.Published(EventsOf(routes)) == PublishedBy(routes)
  {
    hide RunRoutes, RunWhole, Interleavings.Run, Interleavings.Published;
    RoutesAreCalls(w, policy, read, routes);
    Schedules.CallsAreEvents(w, policy, CallsOf(routes));
  }

  // ---- The chain of evidence ----

  /** The bytes first published pass the gate; an analyst or admin submitted them; and then a reviewer
      other than their analyst, or an admin, approved them. */
  predicate Reviewed(w: World, audit: seq<Entry>, pubs: Pubs, key: Key) {
    && key in pubs && w.gate(pubs[key].bytes)
    && exists j, i :: 0 <= j < i < |audit|
         && Interleavings.Submission(audit, j, key) && audit[j].actor.HasRole(Analyst)
         && Interleavings.Approval(audit, i, key) && audit[i].actor.HasRole(Reviewer)
         && (Admin in audit[i].actor.roles || pubs[key].analyst != Some(audit[i].actor.id))
  }

  lemma ApprovedWasReviewed(w: World, events: seq<Interleavings.Event>, key: Key)
    requires Injective(w) && IsApprovedRow(Interleavings.Run(w, DEFAULT, events).store, key)
    ensures Reviewed(w, Interleavings.Run(w, DEFAULT, events).store.audit, Interleavings.Published(events), key)
  {
    hide Interleavings.Run, Interleavings.Published;
    StaleReads.RunKeepsInv(w, DEFAULT, events);
    StaleReads.LogParts(w, DEFAULT, Interleavings.Run(w, DEFAULT, events).store, Interleavings.Published(events));
    var audit := Interleavings.Run(w, DEFAULT, events).store.audit;
    assert Interleavings.ReviewedIn(audit, key);
    var j, i :| 0 <= j < i < |audit| && Interleavings.Submission(audit, j, key) && Interleavings.Approval(audit, i, key);
    StaleReads.EveryApprovalWasReviewed(w, events, i);
  }

  /** Whatever is in the index after any run of whole routes was reviewed. */
  lemma IndexedWasReviewed(w: World, read: Reader, routes: seq<Route>, c: Chunk)
    requires Injective(w) && c in RunRoutes(w, DEFAULT, read, routes).index
    ensures Reviewed(w, RunRoutes(w, DEFAULT, read, routes).store.audit, PublishedBy(routes), c.key)
  {
    hide RunRoutes, Reviewed, PublishedBy, Interleavings.Run, EventsOf;
    OnlyApprovedIndexed(w, DEFAULT, read, routes, c);
    RoutesAreEvents(w, DEFAULT, read, routes);
    ApprovedWasReviewed(w, EventsOf(routes), c.key);
  }

  // ---- Overlapping reindexes ----

  /** When some reindex read the version it was reviewed. */
  ghost predicate ReviewedWhenRead(w: World, events: seq<IndexRace.Event>, key: Key) {
    exists r :: 0 <= r < |events| && events[r] == IndexRace.ReadStore(key)
      && Reviewed(w, IndexRace.StoreAfter(w, DEFAULT, events[..r]).audit, IndexRace.PublishedBefore(events[..r]), key)
  }

  /** Whatever is in the index, stale writes included, was reviewed when it was read. */
  lemma OverlappedWasReviewed(w: World, read: Reader, events: seq<IndexRace.Event>, c: Chunk)
    requires Injective(w) && c in IndexRace.IndexAfter(w, DEFAULT, read, events)
    ensures ReviewedWhenRead(w, events, c.key)
  {
    hide Reviewed, IndexRace.IndexAfter, Interleavings.Run, Interleavings.Published, IndexRace.Schedule;
    IndexRace.IndexedWasApproved(w, DEFAULT, read, events, c);
    var r :| 0 <= r < |events| && events[r] == IndexRace.ReadStore(c.key)
      && IndexRace.ApprovedAt(w, DEFAULT, events[..r], c.key);
    ApprovedWasReviewed(w, IndexRace.Schedule(events[..r]), c.key);
  }

  lemma StoresKeepNames(w: World, events: seq<IndexRace.Event>)
    requires Injective(w)
    ensures NamedVersions(IndexRace.StoreAfter(w, DEFAULT, events))
  {
    hide IndexRace.StoreAfter, Interleavings.Published;
    IndexRace.StoreIsSound(w, DEFAULT, events);
    PublishedAreNamed(IndexRace.Schedule(events));
  }

  lemma {:induction false} PublishedAreNamed(steps: seq<Interleavings.Event>)
    ensures forall k :: k in Interleavings.Published(steps) ==> ValidKey(k)
  {
    if steps != [] { PublishedAreNamed(steps[..|steps| - 1]); }
  }

  // ---- What the bot cites ----

  function Past(events: seq<IndexRace.Event>, n: nat): seq<IndexRace.Event> {
    if n <= |events| then events[..n] else events
  }

  /** What the tools find at each turn: store and index after so many of the events. */
  function Sites(w: World, read: Reader, engine: Engine, events: seq<IndexRace.Event>, cut: nat -> nat,
                 identity: Identity): Envs
  {
    (t: nat) =>
      var past := Past(events, cut(t));
      Env(w, IndexRace.StoreAfter(w, DEFAULT, past), IndexRace.IndexAfter(w, DEFAULT, read, past), engine, identity)
  }

  /** After the first `n` events the version had been reviewed when read, and the caller could see a chunk of it. */
  ghost predicate Backed(w: World, read: Reader, events: seq<IndexRace.Event>, n: nat, identity: Identity, key: Key) {
    var past := Past(events, n);
    && ReviewedWhenRead(w, past, key)
    && exists c :: c in IndexRace.IndexAfter(w, DEFAULT, read, past) && c.key == key && InScope(identity, c)
  }

  /** Whatever happens between the turns, single steps of reviews, lifecycle calls, publishes and reindexes
      overlapping as they may, for any model and any caller: everything an answer cites belongs to a version
      of which, at the turn it was shown, the caller could see a chunk, and which had passed the gate and an
      independent review when it was read into the index. */
  lemma EveryCitationWasReviewed(w: World, read: Reader, engine: Engine, events: seq<IndexRace.Event>, cut: nat -> nat,
                                 identity: Identity, model: Model, maxTurns: nat, question: string)
    requires Injective(w) && Honest(engine)
    ensures
      var o := Converse(Sites(w, read, engine, events, cut, identity), model, maxTurns, question, [], map[]);
      o.answer.Ok? ==>
        forall cit :: cit in o.answer.value.citations ==>
          exists t: nat :: t < |o.turns| && Backed(w, read, events, cut(t), identity, cit.key)
  {
    hide IndexRace.StoreAfter, IndexRace.IndexAfter, Converse, InScope, Backed, ReviewedWhenRead;
    var envs := Sites(w, read, engine, events, cut, identity);
    var o := Converse(envs, model, maxTurns, question, [], map[]);
    forall t: nat
      ensures Honest(envs(t).engine) && NamedVersions(envs(t).store)
    {
      StoresKeepNames(w, Past(events, cut(t)));
    }
    ConverseIsGrounded(envs, model, maxTurns, question, [], map[]);
    if o.answer.Ok? {
      forall cit | cit in o.answer.value.citations
        ensures exists t: nat :: t < |o.turns| && Backed(w, read, events, cut(t), identity, cit.key)
      {
        var t := ShownIsIndexed(envs, o.turns, cit);
        SiteBacks(w, read, events, cut(t), identity, cit.key, envs(t));
      }
    }
  }

  lemma SiteBacks(w: World, read: Reader, events: seq<IndexRace.Event>, n: nat, identity: Identity, key: Key, env: Env)
    requires Injective(w) && env.rows == IndexRace.IndexAfter(w, DEFAULT, read, Past(events, n))
    requires env.identity == identity
    requires exists c :: c in env.rows && c.key == key && InScope(identity, c)
    ensures Backed(w, read, events, n, identity, key)
  {
    hide IndexRace.IndexAfter, InScope, ReviewedWhenRead;
    var c :| c in env.rows && c.key == key && InScope(identity, c);
    OverlappedWasReviewed(w, read, Past(events, n), c);
  }

  lemma ShownIsIndexed(envs: Envs, turns: seq<Turn>, cit: Citation) returns (t: nat)
    requires AllScoped(envs, turns) && ShownIn(turns, cit)
    ensures t < |turns| && exists c :: c in envs(t).rows && c.key == cit.key && InScope(envs(t).identity, c)
  {
    hide InScope;
    t :| 0 <= t < |turns| && exists r :: r in turns[t].results && Carries(r, cit);
    var r :| r in turns[t].results && Carries(r, cit);
    assert Scoped(envs(t), r);
  }
}
