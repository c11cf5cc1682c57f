/** Overlapping reindexes: each reads the store once and writes the index later, while reviews, lifecycle
    calls and publishes go on in single steps. */
module IndexRace {
  import opened Wrappers
  import opened Text
  import opened StoreSpec
  import opened StoreRuns
  import opened WorkflowSpec
  import opened Succession
  import opened IndexSpec
  import opened IndexRuns
  import opened SuccessionLimits
  import Interleavings
  import StaleReads
  import Schedules

  /** A publish, or a step of a workflow call; the reading half of a reindex; its writing half, which names the
      position of its read; the removal after a purge. */
  datatype Event = Change(step: Interleavings.Event) | ReadStore(key: Key) | WriteIndex(read: nat) | Remove(key: Key)

  /** What a reindex decides to put in; None if it raises. */
  function Decide(read: Reader, s: Store, key: Key): Option<seq<Chunk>> {
    if !IsApprovedRow(s, key) then Some([])
    else
      match Extract(s, key)
      case Err(_) => None
      case Ok(bytes) => Some(RedactPackage(read, bytes, key).chunks)
  }

  function Put(rows: Index, key: Key, chunks: Option<seq<Chunk>>): Index {
    match chunks
    case None => rows
    case Some(c) => Without(rows, key) + c
  }

  /** The two halves with nothing in between are the whole reindex. */
  lemma HalvesAreReindex(read: Reader, s: Store, rows: Index, key: Key)
    ensures Put(rows, key, Decide(read, s, key)) == Reindexed(read, s, rows, key)
  {
    hide Without;
    assert Without(rows, key) + [] == Without(rows, key);
  }

  // ---- Runs ----

  /** The steps that concern the store. */
  function Schedule(events: seq<Event>): seq<Interleavings.Event> {
    if events == [] then []
    else
      var last := events[|events| - 1];
      Schedule(events[..|events| - 1]) + if last.Change? then [last.step] else []
  }

  function StoreAfter(w: World, policy: Policy, events: seq<Event>): Store {
    Interleavings.Run(w, policy, Schedule(events)).store
  }

  /** Each version's first publication. */
  function PublishedBefore(events: seq<Event>): Pubs {
    Interleavings.Published(Schedule(events))
  }

  /** Event `n` is the writing half of a reindex of `key`. */
  predicate Writes(events: seq<Event>, n: nat, key: Key) {
    && n < |events| && events[n].WriteIndex? && events[n].read < n
    && events[events[n].read] == ReadStore(key)
  }

  /** What the reindex with that read decided. */
  function Decided(w: World, policy: Policy, read: Reader, events: seq<Event>, r: nat): Option<seq<Chunk>>
    requires r < |events| && events[r].ReadStore?
  {
    Decide(read, StoreAfter(w, policy, events[..r]), events[r].key)
  }

  function IndexAfter(w: World, policy: Policy, read: Reader, events: seq<Event>): Index {
    if events == [] then []
    else
      var n := |events| - 1;
      var rows := IndexAfter(w, policy, read, events[..n]);
      match events[n]
      case WriteIndex(r) =>
        if r < n && events[r].ReadStore? then Put(rows, events[r].key, Decided(w, policy, read, events, r)) else rows
      case Remove(key) => Without(rows, key)
      case _ => rows
  }

  /** The last write or removal of `key`, with what it put in; empty if there is none. */
  function Shown(w: World, policy: Policy, read: Reader, events: seq<Event>, key: Key): seq<Chunk> {
    if events == [] then []
    else
      var n := |events| - 1;
      if events[n] == Remove(key) then []
      else if Writes(events, n, key) && Decided(w, policy, read, events, events[n].read).Some? then
        Decided(w, policy, read, events, events[n].read).value
      else Shown(w, policy, read, events[..n], key)
  }

  lemma DecidedHasKey(read: Reader, s: Store, key: Key)
    ensures Decide(read, s, key).Some? ==> forall c :: c in Decide(read, s, key).value ==> c.key == key
  {
  }

  /** In every overlapped run the index shows of each version what the last write of it had decided. */
  lemma {:induction false} IndexShowsLastWrite(w: World, policy: Policy, read: Reader, events: seq<Event>, key: Key)
    ensures OfKey(IndexAfter(w, policy, read, events), key) == Shown(w, policy, read, events, key)
  {
    hide OfKey, Without, Decide, StoreAfter;
    if events == [] {
      NoChunks(key);
    } else {
      var n := |events| - 1;
      var rows := IndexAfter(w, policy, read, events[..n]);
      IndexShowsLastWrite(w, policy, read, events[..n], key);
      match events[n]
      case WriteIndex(r) =>
        if r < n && events[r].ReadStore? && Decided(w, policy, read, events, r).Some? {
          var at := events[r].key;
          var chunks := Decided(w, policy, read, events, r).value;
          DecidedHasKey(read, StoreAfter(w, policy, events[..r]), at);
          OfKeyWithout(rows, at, key);
          OfKeyConcat(Without(rows, at), chunks, key);
          AllOfKey(chunks, at, key);
        }
      case Remove(at) => OfKeyWithout(rows, at, key);
      case _ =>
    }
  }

  // ---- When it is up to date ----

  lemma StoreIsSound(w: World, policy: Policy, events: seq<Event>)
    requires Injective(w)
    ensures Sound(w, StoreAfter(w, policy, events), PublishedBefore(events))
  {
    hide Interleavings.Run, Interleavings.Published, StoreInv;
    StaleReads.RunKeepsInv(w, policy, Schedule(events));
    StaleReads.LogParts(w, policy, StoreAfter(w, policy, events), PublishedBefore(events));
  }

  function Contribution(w: World, policy: Policy, read: Reader, events: seq<Event>, key: Key): seq<Chunk> {
    Expected(read, StoreAfter(w, policy, events).rows, PublishedBefore(events), key)
  }

  /** A read decides exactly what the version should contribute at that moment. */
  lemma DecidesExpected(w: World, policy: Policy, read: Reader, events: seq<Event>, r: nat)
    requires Injective(w) && r < |events| && events[r].ReadStore?
    ensures Decided(w, policy, read, events, r) == Some(Contribution(w, policy, read, events[..r], events[r].key))
  {
    hide StoreAfter, PublishedBefore, RedactPackage, Sound;
    StoreIsSound(w, policy, events[..r]);
    var s, pubs := StoreAfter(w, policy, events[..r]), PublishedBefore(events[..r]);
    var key := events[r].key;
    PublishedIfKnown(w, s, pubs, key);
    if IsApprovedRow(s, key) { ApprovedReadsBack(w, s, pubs, key); }
  }

  lemma PublishedIfKnown(w: World, s: Store, pubs: Pubs, key: Key)
    requires Sound(w, s, pubs)
    ensures key in s.rows ==> key in pubs
  {
  }

  /** Publications are never replaced. */
  lemma {:induction false} PublishedStays(events: seq<Event>, r: nat, key: Key)
    requires r <= |events| && key in PublishedBefore(events[..r])
    ensures key in PublishedBefore(events)
    ensures PublishedBefore(events)[key] == PublishedBefore(events[..r])[key]
  {
    if r == |events| {
      assert events[..r] == events;
    } else {
      var n := |events| - 1;
      assert events[..n][..r] == events[..r];
      PublishedStays(events[..n], r, key);
      var before, last := Schedule(events[..n]), events[n];
      if last.Change? {
        assert (before + [last.step])[..|before|] == before;
      } else {
        assert before + [] == before;
      }
    }
  }

  predicate ApprovedAt(w: World, policy: Policy, events: seq<Event>, key: Key) {
    IsApprovedRow(StoreAfter(w, policy, events), key)
  }

  /** No write or removal of `key` follows event `n`. */
  predicate LastFor(events: seq<Event>, n: nat, key: Key) {
    forall m :: n < m < |events| ==> events[m] != Remove(key) && !Writes(events, m, key)
  }

  lemma {:induction false} ShownIsLast(w: World, policy: Policy, read: Reader, events: seq<Event>, n: nat, key: Key)
    requires Writes(events, n, key) && LastFor(events, n, key)
    requires Decided(w, policy, read, events, events[n].read).Some?
    ensures Shown(w, policy, read, events, key) == Decided(w, policy, read, events, events[n].read).value
    decreases |events|
  {
    hide Decide, StoreAfter;
    var m := |events| - 1;
    if n < m {
      assert events[m] != Remove(key) && !Writes(events, m, key);
      var before := events[..m];
      assert before[..events[n].read] == events[..events[n].read];
      ShownIsLast(w, policy, read, before, n, key);
    }
  }

  /** Exactly: for a published version whose content is not blocked, the index is right about it at the end
      of an overlapped run if and only if its last writer read it approved and it is approved now, or
      neither. */
  lemma FollowsIff(w: World, policy: Policy, read: Reader, events: seq<Event>, n: nat, key: Key)
    requires Injective(w) && Writes(events, n, key) && LastFor(events, n, key)
    requires key in PublishedBefore(events)
    requires !read(PublishedBefore(events)[key].bytes).highSeverity
    ensures
      OfKey(IndexAfter(w, policy, read, events), key) == Contribution(w, policy, read, events, key)
      <==> (ApprovedAt(w, policy, events[..events[n].read], key) <==> ApprovedAt(w, policy, events, key))
  {
    hide OfKey, IndexAfter, Shown, StoreAfter, RedactPackage, Decide, LastFor, PublishedBefore;
    var r := events[n].read;
    DecidesExpected(w, policy, read, events, r);
    ShownIsLast(w, policy, read, events, n, key);
    IndexShowsLastWrite(w, policy, read, events, key);
    ApprovedIsPublished(w, policy, events[..r], key);
    if ApprovedAt(w, policy, events[..r], key) { PublishedStays(events, r, key); }
  }

  lemma ApprovedIsPublished(w: World, policy: Policy, events: seq<Event>, key: Key)
    requires Injective(w)
    ensures ApprovedAt(w, policy, events, key) ==> key in PublishedBefore(events)
  {
    hide StoreAfter, PublishedBefore, Sound;
    StoreIsSound(w, policy, events);
    PublishedIfKnown(w, StoreAfter(w, policy, events), PublishedBefore(events), key);
  }

  /** A reindex with nothing in between repairs whatever the index held of that version. */
  lemma LaterReindexRepairs(w: World, policy: Policy, read: Reader, events: seq<Event>, key: Key)
    requires Injective(w)
    ensures
      var longer := events + [ReadStore(key), WriteIndex(|events|)];
      OfKey(IndexAfter(w, policy, read, longer), key) == Contribution(w, policy, read, longer, key)
  {
    hide OfKey, IndexAfter, RedactPackage, Interleavings.Run, Decide, Interleavings.Published;
    var n := |events|;
    var longer := events + [ReadStore(key), WriteIndex(n)];
    assert longer[..n] == events && longer[n] == ReadStore(key) && longer[n + 1] == WriteIndex(n);
    DecidesExpected(w, policy, read, longer, n);
    ShownIsLast(w, policy, read, longer, n + 1, key);
    IndexShowsLastWrite(w, policy, read, longer, key);
    NoCall(events, ReadStore(key));
    NoCall(events + [ReadStore(key)], WriteIndex(n));
    assert longer == events + [ReadStore(key)] + [WriteIndex(n)];
  }

  lemma NoCall(events: seq<Event>, e: Event)
    requires !e.Change?
    ensures Schedule(events + [e]) == Schedule(events)
  {
    assert (events + [e])[..|events|] == events;
  }

  // ---- Everything indexed was approved when it was read ----

  /** An indexed chunk, stale or not, was put there by a reindex that read its version as approved. */
  lemma {:induction false} ShownWasRead(w: World, policy: Policy, read: Reader, events: seq<Event>, key: Key)
    requires Shown(w, policy, read, events, key) != []
    ensures exists r :: 0 <= r < |events| && events[r] == ReadStore(key) && ApprovedAt(w, policy, events[..r], key)
    decreases |events|
  {
    hide Decide, StoreAfter;
    var n := |events| - 1;
    if Writes(events, n, key) && Decided(w, policy, read, events, events[n].read).Some? {
      OnlyApprovedDecided(w, policy, read, events, events[n].read);
    } else {
      var before := events[..n];
      ShownWasRead(w, policy, read, before, key);
      var r :| 0 <= r < n && before[r] == ReadStore(key) && ApprovedAt(w, policy, before[..r], key);
      assert before[..r] == events[..r];
    }
  }

  lemma OnlyApprovedDecided(w: World, policy: Policy, read: Reader, events: seq<Event>, r: nat)
    requires r < |events| && events[r].ReadStore?
    ensures Decided(w, policy, read, events, r).Some? && Decided(w, policy, read, events, r).value != [] ==>
              ApprovedAt(w, policy, events[..r], events[r].key)
  {
    hide StoreAfter, RedactPackage;
  }

  lemma IndexedWasApproved(w: World, policy: Policy, read: Reader, events: seq<Event>, c: Chunk)
    requires c in IndexAfter(w, policy, read, events)
    ensures exists r :: 0 <= r < |events| && events[r] == ReadStore(c.key) && ApprovedAt(w, policy, events[..r], c.key)
  {
    hide IndexAfter, Shown, ApprovedAt;
    OfKeyMembers(IndexAfter(w, policy, read, events), c.key);
    IndexShowsLastWrite(w, policy, read, events, c.key);
    assert c in OfKey(IndexAfter(w, policy, read, events), c.key);
    ShownWasRead(w, policy, read, events, c.key);
  }

  // ---- The stale write ----

  function Changes(steps: seq<Interleavings.Event>): (events: seq<Event>)
    ensures |events| == |steps|
  {
    seq(|steps|, i requires 0 <= i < |steps| => Change(steps[i]))
  }

  lemma {:induction false} ScheduleAppends(events: seq<Event>, steps: seq<Interleavings.Event>)
    ensures Schedule(events + Changes(steps)) == Schedule(events) + steps
  {
    if steps == [] {
      assert events + Changes(steps) == events;
    } else {
      var shorter := steps[..|steps| - 1];
      ScheduleAppends(events, shorter);
      var longer := events + Changes(steps);
      assert longer[..|longer| - 1] == events + Changes(shorter);
      assert steps == shorter + [steps[|steps| - 1]];
    }
  }

  const RECALL := RecallReq(X, BOSS, Some("wrong"))

  /** The steps of one whole recall. */
  function Recalling(): seq<Interleavings.Event> { [Interleavings.Begin(3, RECALL)] + Schedules.Acts(3, 4) }

  /** From nothing: a version is approved, one reindex reads it, it is recalled and reindexed, and then the
      first reindex writes. */
  function StaleRun(b: Bytes): seq<Event> {
    var first := Changes(Schedules.EventsOf(Approving(X, b)));
    var second := first + [ReadStore(X)] + Changes(Recalling());
    second + [ReadStore(X)] + [WriteIndex(|second|)] + [WriteIndex(|first|)]
  }

  /** A recalled version stays in the index. */
  lemma StaleWriteKeepsRecalled(w: World, policy: Policy, read: Reader, b: Bytes)
    requires Injective(w) && (policy.gateBeforeReview ==> w.gate(b)) && !read(b).highSeverity
    ensures
      var events := StaleRun(b);
      && StatusIn(StoreAfter(w, policy, events).rows, X) == Some(Recalled)
      && OfKey(IndexAfter(w, policy, read, events), X) == RedactPackage(read, b, X).chunks != []
  {
    hide OfKey, IndexAfter, RedactPackage, StoreAfter, PublishedBefore, Decide, Shown, Changes, Recalling;
    hide Schedules.EventsOf;
    var events := StaleRun(b);
    var first := Changes(Schedules.EventsOf(Approving(X, b)));
    var n, r := |events| - 1, |first|;
    assert events[..r] == first && events[r] == ReadStore(X) && events[n] == WriteIndex(r);
    StaleStores(w, policy, b);
    DecidesExpected(w, policy, read, events, r);
    assert Writes(events, n, X) && LastFor(events, n, X);
    ShownIsLast(w, policy, read, events, n, X);
    IndexShowsLastWrite(w, policy, read, events, X);
  }

  /** The store where the first reindex reads, and at the end. */
  lemma StaleStores(w: World, policy: Policy, b: Bytes)
    requires policy.gateBeforeReview ==> w.gate(b)
    ensures
      var first := Changes(Schedules.EventsOf(Approving(X, b)));
      && IsApprovedRow(StoreAfter(w, policy, first), X) && PublishedBefore(first) == map[X := DraftOf(X, b)]
      && StatusIn(StoreAfter(w, policy, StaleRun(b)).rows, X) == Some(Recalled)
  {
    hide Interleavings.Run, Interleavings.Published, RunWhole, Take, Schedules.PublishedIn, Changes, Approving;
    var calls := Approving(X, b);
    var first := Changes(Schedules.EventsOf(calls));
    var longer := calls + [Ask(RECALL)];
    StaleSchedule(b);
    Schedules.CallsAreEvents(w, policy, calls);
    Schedules.CallsAreEvents(w, policy, longer);
    Approves(w, policy, EMPTY, X, b);
    RunThree(w, policy, [], calls);
    assert [] + calls == calls;
    NothingYet(w, policy);
    RunAppends(w, policy, calls, Ask(RECALL));
    RecallTakes(w, policy, RunWhole(w, policy, calls));
    OnlyPublication(b);
  }

  lemma StaleSchedule(b: Bytes)
    ensures Schedule(Changes(Schedules.EventsOf(Approving(X, b)))) == Schedules.EventsOf(Approving(X, b))
    ensures Schedule(StaleRun(b)) == Schedules.EventsOf(Approving(X, b) + [Ask(RECALL)])
  {
    hide Changes, Approving;
    var calls := Approving(X, b);
    var first := Changes(Schedules.EventsOf(calls));
    var second := first + [ReadStore(X)] + Changes(Recalling());
    ScheduleAppends([], Schedules.EventsOf(calls));
    assert [] + first == first;
    NoCall(first, ReadStore(X));
    ScheduleAppends(first + [ReadStore(X)], Recalling());
    NoCall(second, ReadStore(X));
    NoCall(second + [ReadStore(X)], WriteIndex(|second|));
    NoCall(second + [ReadStore(X)] + [WriteIndex(|second|)], WriteIndex(|first|));
    assert (calls + [Ask(RECALL)])[..3] == calls;
  }

  lemma NothingYet(w: World, policy: Policy)
    ensures RunWhole(w, policy, []) == EMPTY
  {
  }

  lemma OnlyPublication(b: Bytes)
    ensures Schedules.PublishedIn(Approving(X, b)) == map[X := DraftOf(X, b)]
  {
    var c := Approving(X, b);
    assert [c[0]][..0] == [] && [c[0], c[1]][..1] == [c[0]] && c[..2] == [c[0], c[1]];
    assert Schedules.PublishedIn([c[0]]) == map[X := DraftOf(X, b)];
    assert Schedules.PublishedIn([c[0], c[1]]) == map[X := DraftOf(X, b)];
  }

  lemma RecallTakes(w: World, policy: Policy, s: Store)
    requires IsApprovedRow(s, X)
    ensures StatusIn(Take(w, policy, s, Ask(RECALL)).rows, X) == Some(Recalled)
  {
    StripKeeps("wrong", 'w');
  }
}
