/** When recorded supersede links can form a cycle: exactly with restore, or with overlapping supersedes. */
module SuccessionLimits {
  import opened Wrappers
  import opened Text
  import opened Identity
  import opened StoreSpec
  import opened StoreRuns
  import opened WorkflowSpec
  import opened Succession
  import opened Interleavings
  import Schedules
  import StaleReads

  datatype Kind = Publishes | Reviews | Supersedes | Recalls | Restores | Holds | Purges

  function KindOf(c: Whole): Kind {
    match c
    case Pub(_) => Publishes
    case Ask(ReviewReq(_, _, _, _)) => Reviews
    case Ask(SupersedeReq(_, _, _, _)) => Supersedes
    case Ask(RecallReq(_, _, _)) => Recalls
    case Ask(RestoreReq(_, _, _)) => Restores
    case Ask(HoldReq(_, _, _, _)) => Holds
    case Ask(PurgeReq(_, _, _)) => Purges
  }

  predicate Within(kinds: set<Kind>, calls: seq<Whole>) {
    forall c :: c in calls ==> KindOf(c) in kinds
  }

  /** Something can pass review at all. */
  ghost predicate Approvable(w: World, policy: Policy) {
    !policy.gateBeforeReview || exists b :: w.gate(b)
  }

  lemma NotAWalk(p: seq<Key>)
    requires |p| > 1
    ensures !Recorded([], p)
  {
    assert Link(p[0], p[1]) !in [];
  }

  lemma NoLinksNoWalk()
    ensures Acyclic([])
  {
    forall p | |p| > 1
      ensures !Recorded([], p)
    {
      NotAWalk(p);
    }
  }

  lemma BackAndForth(links: seq<Link>, x: Key, y: Key)
    requires Link(x, y) in links && Link(y, x) in links
    ensures !Acyclic(links)
  {
    var p := [x, y, x];
    assert Recorded(links, p);
    assert p[0] == p[2];
  }

  // ---- From nothing to two approved versions ----

  const BOSS := Identity("boss", {Admin})
  const X := Key("x", "1")
  const Y := Key("y", "1")

  function DraftOf(k: Key, b: Bytes): Publication { Publication(k, b, None, None, BOSS) }

  /** Publish, submit, approve. */
  function Approving(k: Key, b: Bytes): (c: seq<Whole>)
    ensures |c| == 3
  {
    [Pub(DraftOf(k, b)), Ask(ReviewReq(k, InReview, BOSS, None)), Ask(ReviewReq(k, Approved, BOSS, None))]
  }

  predicate BlobFits(w: World, s: Store, b: Bytes) {
    w.hash(b) in s.blobs ==> s.blobs[w.hash(b)] == b
  }

  lemma Approves(w: World, policy: Policy, s: Store, k: Key, b: Bytes)
    requires ValidKey(k) && k !in s.rows && BlobFits(w, s, b) && (policy.gateBeforeReview ==> w.gate(b))
    ensures
      var c := Approving(k, b);
      var t := Take(w, policy, Take(w, policy, Take(w, policy, s, c[0]), c[1]), c[2]);
      && k in t.rows && t.rows == s.rows[k := t.rows[k]] && t.rows[k].status == Approved
      && BlobFits(w, t, b) && Links(t.audit) == Links(s.audit)
  {
    hide Links;
    var c := Approving(k, b);
    var s1 := Take(w, policy, s, c[0]);
    PublishIsQuiet(w, s, DraftOf(k, b));
    assert s1.rows == s.rows[k := NewRow(w, DraftOf(k, b))] && Extract(s1, k) == Ok(b);
    var s2 := Take(w, policy, s1, c[1]);
    assert s2 == SetStatus(s1, k, Draft, InReview, BOSS, None).0;
    SetStatusIsQuiet(s1, k, Draft, InReview, BOSS, None);
    assert Take(w, policy, s2, c[2]) == SetStatus(s2, k, InReview, Approved, BOSS, None).0;
    SetStatusIsQuiet(s2, k, InReview, Approved, BOSS, None);
  }

  lemma {:induction false} RunAppends(w: World, policy: Policy, calls: seq<Whole>, c: Whole)
    ensures RunWhole(w, policy, calls + [c]) == Take(w, policy, RunWhole(w, policy, calls), c)
  {
    assert (calls + [c])[..|calls|] == calls;
  }

  lemma RunThree(w: World, policy: Policy, calls: seq<Whole>, c: seq<Whole>)
    requires |c| == 3
    ensures RunWhole(w, policy, calls + c) ==
            Take(w, policy, Take(w, policy, Take(w, policy, RunWhole(w, policy, calls), c[0]), c[1]), c[2])
  {
    hide Take;
    RunAppends(w, policy, calls, c[0]);
    RunAppends(w, policy, calls + [c[0]], c[1]);
    RunAppends(w, policy, calls + [c[0]] + [c[1]], c[2]);
    assert calls + c == calls + [c[0]] + [c[1]] + [c[2]];
  }

  function BothApproved(b: Bytes): seq<Whole> { Approving(X, b) + Approving(Y, b) }

  /** A run from nothing to two approved versions and no link. */
  lemma TwoApproved(w: World, policy: Policy, b: Bytes)
    requires policy.gateBeforeReview ==> w.gate(b)
    ensures
      var s := RunWhole(w, policy, BothApproved(b));
      IsApprovedRow(s, X) && IsApprovedRow(s, Y) && Links(s.audit) == []
  {
    hide Take, Approving;
    Approves(w, policy, EMPTY, X, b);
    RunThree(w, policy, [], Approving(X, b));
    assert [] + Approving(X, b) == Approving(X, b);
    Approves(w, policy, RunWhole(w, policy, Approving(X, b)), Y, b);
    RunThree(w, policy, Approving(X, b), Approving(Y, b));
  }

  // ---- Restore ----

  function Restoring(): seq<Whole> {
    [Ask(SupersedeReq(X, Y, BOSS, None)), Ask(RestoreReq(X, BOSS, None)), Ask(SupersedeReq(Y, X, BOSS, None))]
  }

  /** Supersede, restore, supersede the other way: a cycle of recorded links, from nothing. */
  lemma RestoreMakesCycle(w: World, policy: Policy, b: Bytes)
    requires policy.gateBeforeReview ==> w.gate(b)
    ensures
      var s := RunWhole(w, policy, BothApproved(b) + Restoring());
      && Links(s.audit) == [Link(X, Y), Link(Y, X)] && !Acyclic(Links(s.audit))
      && PredecessorIn(s.rows, Y) == Some(X) && PredecessorIn(s.rows, X) == Some(Y)
  {
    hide RunWhole, BothApproved;
    TwoApproved(w, policy, b);
    var s := RunWhole(w, policy, BothApproved(b));
    RunThree(w, policy, BothApproved(b), Restoring());
    CycleByRestore(w, policy, s);
    BackAndForth([Link(X, Y), Link(Y, X)], X, Y);
  }

  lemma CycleByRestore(w: World, policy: Policy, s: Store)
    requires IsApprovedRow(s, X) && IsApprovedRow(s, Y)
    ensures
      var c := Restoring();
      var t := Take(w, policy, Take(w, policy, Take(w, policy, s, c[0]), c[1]), c[2]);
      && Links(t.audit) == Links(s.audit) + [Link(X, Y), Link(Y, X)]
      && PredecessorIn(t.rows, Y) == Some(X) && PredecessorIn(t.rows, X) == Some(Y)
  {
    hide Links;
    SupersedeShape(s, X, Y, BOSS, None);
    var s1 := Supersede(s, X, Y, BOSS, None).0;
    assert Supersede(s, X, Y, BOSS, None).1.Ok?;
    var s2 := SetStatus(s1, X, Superseded, Approved, BOSS, None).0;
    SetStatusIsQuiet(s1, X, Superseded, Approved, BOSS, None);
    SupersedeShape(s2, Y, X, BOSS, None);
    assert Supersede(s2, Y, X, BOSS, None).1.Ok?;
  }

  /** Nothing has been reviewed: every row is a draft or a tombstone. */
  predicate OnlyDrafts(kinds: set<Kind>, s: Store) {
    && (forall k :: k in s.rows ==> s.rows[k].status == Draft || s.rows[k].status == Purged)
    && (Publishes !in kinds ==> s.rows == map[])
  }

  lemma TakeKeepsDrafts(w: World, policy: Policy, kinds: set<Kind>, s: Store, c: Whole)
    requires OnlyDrafts(kinds, s) && KindOf(c) in kinds
    requires Publishes !in kinds || Reviews !in kinds || !Approvable(w, policy)
    ensures OnlyDrafts(kinds, Take(w, policy, s, c))
  {
    hide OtherRefs, HasReason;
  }

  /** Without one of the four kinds, or with nothing that passes review, no link is ever recorded. */
  lemma {:induction false} NoLinksWithout(w: World, policy: Policy, kinds: set<Kind>, calls: seq<Whole>)
    requires Within(kinds, calls)
    requires Publishes !in kinds || Reviews !in kinds || Supersedes !in kinds || !Approvable(w, policy)
    ensures Links(RunWhole(w, policy, calls).audit) == []
    ensures Supersedes in kinds ==> OnlyDrafts(kinds, RunWhole(w, policy, calls))
  {
    hide Take, OnlyDrafts, Quiet;
    if calls == [] {
      EmptyDrafts(kinds);
    } else {
      var before, last := calls[..|calls| - 1], calls[|calls| - 1];
      assert last in calls;
      NoLinksWithout(w, policy, kinds, before);
      var s := RunWhole(w, policy, before);
      TakeShape(w, policy, s, last);
      if Supersedes in kinds {
        TakeKeepsDrafts(w, policy, kinds, s, last);
        DraftsAreNotApproved(kinds, s);
      }
      QuietLinks(s, Take(w, policy, s, last));
    }
  }

  lemma QuietLinks(s: Store, t: Store)
    ensures Quiet(s, t) ==> Links(t.audit) == Links(s.audit)
  {
  }

  lemma EmptyDrafts(kinds: set<Kind>)
    ensures OnlyDrafts(kinds, EMPTY)
  {
  }

  lemma DraftsAreNotApproved(kinds: set<Kind>, s: Store)
    requires OnlyDrafts(kinds, s)
    ensures forall k :: StatusIn(s.rows, k) != Some(Approved)
  {
  }

  /** Over whole calls of the permitted kinds, under a policy something can meet, every run's recorded links
      are acyclic if and only if restore is not permitted (given publish, review and supersede are). */
  lemma CyclesIffRestore(w: World, policy: Policy, kinds: set<Kind>)
    ensures (forall calls :: Within(kinds, calls) ==> Acyclic(Links(RunWhole(w, policy, calls).audit))) <==>
            !({Publishes, Reviews, Supersedes, Restores} <= kinds && Approvable(w, policy))
  {
    hide RunWhole, Acyclic, Links;
    if {Publishes, Reviews, Supersedes, Restores} <= kinds && Approvable(w, policy) {
      var b: Bytes :| policy.gateBeforeReview ==> w.gate(b);
      RestoreMakesCycle(w, policy, b);
      assert Within(kinds, BothApproved(b) + Restoring());
    } else {
      forall calls | Within(kinds, calls)
        ensures Acyclic(Links(RunWhole(w, policy, calls).audit))
      {
        if Restores !in kinds {
          AcyclicWithoutRestore(w, policy, calls);
        } else {
          NoLinksWithout(w, policy, kinds, calls);
          NoLinksNoWalk();
        }
      }
    }
  }

  lemma AcyclicWithoutRestore(w: World, policy: Policy, calls: seq<Whole>)
    requires NoRestore(calls)
    ensures Acyclic(Links(RunWhole(w, policy, calls).audit))
  {
    hide RunWhole, Forward, Links;
    SuccessionIsAcyclic(w, policy, calls);
  }

  // ---- Overlapping supersedes ----

  predicate NoRestores(events: seq<Event>) {
    forall e :: e in events ==> !(e.Begin? && e.req.RestoreReq?)
  }

  /** Where the audit records the version's supersession. */
  function CommitOf(audit: seq<Entry>, k: Key): (n: Option<nat>)
    ensures n.Some? ==> n.value < |audit|
  {
    if audit == [] then None
    else
      var last := |audit| - 1;
      if audit[last].key == k && audit[last].what == To(Superseded) then Some(last) else CommitOf(audit[..last], k)
  }

  lemma CommitAppend(audit: seq<Entry>, e: Entry, k: Key)
    ensures CommitOf(audit + [e], k) ==
            if e.key == k && e.what == To(Superseded) then Some(|audit|) else CommitOf(audit, k)
  {
    assert (audit + [e])[..|audit|] == audit;
  }

  /** `x` was superseded, and `y` only after it, if at all. */
  predicate Before(audit: seq<Entry>, x: Key, y: Key) {
    CommitOf(audit, x).Some? && (CommitOf(audit, y).Some? ==> CommitOf(audit, x).value < CommitOf(audit, y).value)
  }

  /** The step is a supersede's status change that will succeed. */
  predicate Commits(sys: Sys, e: Event) {
    && e.Act? && e.id in sys.calls && sys.calls[e.id].Commit? && sys.calls[e.id].req.SupersedeReq?
    && StatusIn(sys.store.rows, sys.calls[e.id].req.key) == Some(Approved)
  }

  /** A supersede commits although its successor has been superseded since it was checked. */
  predicate StaleCommit(sys: Sys, e: Event) {
    Commits(sys, e) && CommitOf(sys.store.audit, sys.calls[e.id].req.successor).Some?
  }

  ghost predicate NeverStale(w: World, policy: Policy, events: seq<Event>) {
    forall n :: 0 <= n < |events| ==> !StaleCommit(Run(w, policy, events[..n]), events[n])
  }

  /** A supersede commits while another call that names its version as successor is past its successor check. */
  predicate Overtakes(sys: Sys, e: Event) {
    && Commits(sys, e)
    && exists j :: j in sys.calls && j != e.id && sys.calls[j].Commit? && sys.calls[j].req.SupersedeReq?
                   && sys.calls[j].req.successor == sys.calls[e.id].req.key
  }

  ghost predicate NeverOvertaken(w: World, policy: Policy, events: seq<Event>) {
    forall n :: 0 <= n < |events| ==> !Overtakes(Run(w, policy, events[..n]), events[n])
  }

  /** What a call under way knows. */
  predicate Fits(audit: seq<Entry>, ph: Phase) {
    match ph
    case Ready(req) => !req.RestoreReq?
    case GateRead(req, from) => req.ReviewReq? && (from, req.to) in REVIEW
    case GateOpen(req, from, _) => req.ReviewReq? && (from, req.to) in REVIEW
    case SuccessorRead(req) => req.SupersedeReq? && req.key != req.successor
    case Commit(req, from) =>
      && from != Superseded && from != Purged && (Target(req) == Superseded ==> req.SupersedeReq?)
      && (req.SupersedeReq? ==> from == Approved && req.key != req.successor)
    case Linking(req, _) => req.SupersedeReq? && Before(audit, req.key, req.successor)
    case _ => true
  }

  ghost predicate CommitsAreOut(s: Store) {
    forall k :: CommitOf(s.audit, k).Some? ==> Out(s.rows, k)
  }

  ghost predicate LinksRise(audit: seq<Entry>) {
    forall l :: l in Links(audit) ==> Before(audit, l.replaced, l.successor)
  }

  ghost predicate RankInv(sys: Sys) {
    && CommitsAreOut(sys.store) && LinksRise(sys.store.audit)
    && forall id :: id in sys.calls ==> Fits(sys.store.audit, sys.calls[id])
  }

  // ---- One store call ----

  /** No supersession, no link, and no superseded or purged version back. */
  ghost predicate Calm(s: Store, t: Store) {
    && Links(t.audit) == Links(s.audit) && (forall k :: CommitOf(t.audit, k) == CommitOf(s.audit, k))
    && (forall k :: Out(s.rows, k) ==> Out(t.rows, k))
  }

  lemma CalmEntry(audit: seq<Entry>, e: Entry)
    requires e.what != To(Superseded) && !e.what.ReplacesLinked?
    ensures Links(audit + [e]) == Links(audit) && forall k :: CommitOf(audit + [e], k) == CommitOf(audit, k)
  {
    hide Links, CommitOf;
    LinksAppend(audit, e);
    forall k ensures CommitOf(audit + [e], k) == CommitOf(audit, k) { CommitAppend(audit, e, k); }
  }

  lemma CalmKeeps(s: Store, t: Store, ph: Phase)
    requires Calm(s, t)
    ensures Fits(s.audit, ph) ==> Fits(t.audit, ph)
    ensures CommitsAreOut(s) ==> CommitsAreOut(t)
    ensures LinksRise(s.audit) ==> LinksRise(t.audit)
  {
    hide Links, CommitOf, Out;
  }

  lemma LookFits(w: World, policy: Policy, s: Store, ph: Phase)
    requires Fits(s.audit, ph)
    ensures Fits(s.audit, Look(w, policy, s, ph))
  {
    hide CommitOf, HasReason, CheckReview, CheckGate;
  }

  /** A write that neither supersedes nor links. */
  lemma WriteIsCalm(w: World, s: Store, ph: Phase)
    requires Fits(s.audit, ph) && OpOf(ph).Some? && !ph.Linking? && !(ph.Commit? && ph.req.SupersedeReq?)
    ensures
      var (t, answer) := Do(w, s, OpOf(ph).value);
      Calm(s, t) && Fits(t.audit, Settle(ph, answer))
  {
    hide Links, CommitOf, HasReason, OtherRefs;
    match ph
    case Commit(req, from) => CalmEntry(s.audit, Entry(req.key, Some(from), To(Target(req)), req.actor, req.reason));
    case HoldWrite(HoldReq(key, hold, actor, reason)) =>
      CalmEntry(s.audit, Entry(key, None, if hold then HoldSet else HoldCleared, actor, reason));
    case PurgeWrite(req) =>
      if req.key in s.rows {
        CalmEntry(s.audit, Entry(req.key, Some(s.rows[req.key].status), To(Purged), req.actor, req.reason));
      }
  }

  lemma PublishIsCalm(w: World, s: Store, p: Publication)
    ensures Calm(s, Publish(w, s, p).0)
  {
    hide Links, CommitOf;
    CalmEntry(s.audit, Entry(p.key, None, To(Draft), p.actor, Some("published")));
  }

  /** A supersession at the end of the audit, of a version not superseded before. */
  lemma CommitRises(s: Store, key: Key, successor: Key, actor: Identity, reason: Option<string>)
    requires CommitsAreOut(s) && LinksRise(s.audit) && StatusIn(s.rows, key) == Some(Approved)
    requires key != successor && CommitOf(s.audit, successor).None?
    ensures
      var t := SetStatus(s, key, Approved, Superseded, actor, reason).0;
      && CommitsAreOut(t) && LinksRise(t.audit) && Before(t.audit, key, successor)
      && (forall x, y :: x != key && Before(s.audit, x, y) ==> Before(t.audit, x, y))
      && CommitOf(s.audit, key).None?
  {
    hide Links, CommitOf;
    var e := Entry(key, Some(Approved), To(Superseded), actor, reason);
    LinksAppend(s.audit, e);
    forall k
      ensures CommitOf(s.audit + [e], k) == if k == key then Some(|s.audit|) else CommitOf(s.audit, k)
    {
      CommitAppend(s.audit, e, k);
    }
  }

  lemma LinkRises(s: Store, key: Key, successor: Key, actor: Identity)
    requires CommitsAreOut(s) && LinksRise(s.audit) && Before(s.audit, key, successor)
    ensures
      var t := LinkReplaces(s, successor, key, actor).0;
      && CommitsAreOut(t) && LinksRise(t.audit) && forall k :: CommitOf(t.audit, k) == CommitOf(s.audit, k)
  {
    hide Links, CommitOf;
    var e := Entry(successor, None, ReplacesLinked(key), actor, None);
    LinksAppend(s.audit, e);
    forall k ensures CommitOf(s.audit + [e], k) == CommitOf(s.audit, k) { CommitAppend(s.audit, e, k); }
  }

  // ---- One step ----

  lemma CalmStep(s: Store, t: Store, calls: map<nat, Phase>)
    requires Calm(s, t) && forall id :: id in calls ==> Fits(s.audit, calls[id])
    ensures forall id :: id in calls ==> Fits(t.audit, calls[id])
    ensures CommitsAreOut(s) ==> CommitsAreOut(t)
    ensures LinksRise(s.audit) ==> LinksRise(t.audit)
  {
    hide Calm, Fits, CommitsAreOut, LinksRise;
    CalmKeeps(s, t, Done(Err(Missing)));
    forall id | id in calls
      ensures Fits(t.audit, calls[id])
    {
      CalmKeeps(s, t, calls[id]);
    }
  }

  lemma CommitStep(w: World, policy: Policy, sys: Sys, id: nat)
    requires RankInv(sys) && id in sys.calls && sys.calls[id].Commit? && sys.calls[id].req.SupersedeReq?
    requires !StaleCommit(sys, Act(id))
    ensures RankInv(Happen(w, policy, sys, Act(id)))
  {
    hide Links, CommitOf, Out;
    var req := sys.calls[id].req;
    if StatusIn(sys.store.rows, req.key) == Some(Approved) {
      CommitRises(sys.store, req.key, req.successor, req.actor, req.reason);
      var t := Happen(w, policy, sys, Act(id));
      assert t.store == SetStatus(sys.store, req.key, Approved, Superseded, req.actor, req.reason).0;
      assert t.calls[id].Linking? && t.calls[id].req == req;
    }
  }

  lemma LinkStep(w: World, policy: Policy, sys: Sys, id: nat)
    requires RankInv(sys) && id in sys.calls && sys.calls[id].Linking?
    ensures RankInv(Happen(w, policy, sys, Act(id)))
  {
    hide Links, CommitOf, Out, LinkReplaces;
    var req := sys.calls[id].req;
    LinkRises(sys.store, req.key, req.successor, req.actor);
  }

  lemma HappenKeepsRank(w: World, policy: Policy, sys: Sys, e: Event)
    requires RankInv(sys) && !StaleCommit(sys, e) && !(e.Begin? && e.req.RestoreReq?)
    ensures RankInv(Happen(w, policy, sys, e))
  {
    hide Look, Do, Settle, CommitsAreOut, LinksRise, CommitOf, Calm, StaleCommit;
    var s := sys.store;
    match e
    case Publishing(p) =>
      PublishIsCalm(w, s, p);
      CalmStep(s, Publish(w, s, p).0, sys.calls);
    case Begin(_, _) =>
    case Act(id) =>
      if id in sys.calls {
        var ph := sys.calls[id];
        match OpOf(ph)
        case None => LookFits(w, policy, s, ph);
        case Some(op) =>
          if ph.Linking? {
            LinkStep(w, policy, sys, id);
          } else if ph.Commit? && ph.req.SupersedeReq? {
            CommitStep(w, policy, sys, id);
          } else {
            WriteIsCalm(w, s, ph);
            CalmStep(s, Do(w, s, op).0, sys.calls);
          }
      }
  }

  lemma {:induction false} FreshKeepsRank(w: World, policy: Policy, events: seq<Event>)
    requires NoRestores(events) && NeverStale(w, policy, events)
    ensures RankInv(Run(w, policy, events))
  {
    hide Happen, RankInv, StaleCommit;
    if events == [] {
      StartRanked(w, policy);
    } else {
      var n := |events| - 1;
      var before := events[..n];
      assert forall i :: 0 <= i <= n ==> before[..i] == events[..i];
      assert events[n] in events;
      FreshKeepsRank(w, policy, before);
      HappenKeepsRank(w, policy, Run(w, policy, before), events[n]);
    }
  }

  lemma StartRanked(w: World, policy: Policy)
    ensures RankInv(Run(w, policy, []))
  {
  }

  /** Links that rise in the order of supersession form no cycle. */
  lemma {:induction false} WalkRises(audit: seq<Entry>, p: seq<Key>, a: nat, b: nat)
    requires LinksRise(audit) && Recorded(Links(audit), p) && a < b < |p|
    ensures Before(audit, p[a], p[b])
    decreases b
  {
    hide Links, CommitOf;
    assert Before(audit, Link(p[b - 1], p[b]).replaced, Link(p[b - 1], p[b]).successor);
    if a < b - 1 { WalkRises(audit, p, a, b - 1); }
  }

  lemma RiseIsAcyclic(audit: seq<Entry>)
    requires LinksRise(audit)
    ensures Acyclic(Links(audit))
  {
    hide Links, CommitOf, LinksRise;
    forall p, a, b | Recorded(Links(audit), p) && 0 <= a < b < |p|
      ensures p[a] != p[b]
    {
      WalkRises(audit, p, a, b);
    }
  }

  // ---- Overtaking comes first ----

  /** No call past its successor check names a superseded version. */
  ghost predicate SuccessorsStand(sys: Sys) {
    && CommitsAreOut(sys.store)
    && forall id :: id in sys.calls ==>
         && Fits(sys.store.audit, sys.calls[id])
         && (sys.calls[id].Commit? && sys.calls[id].req.SupersedeReq? ==>
               CommitOf(sys.store.audit, sys.calls[id].req.successor).None?)
  }

  lemma SuccessorRead(w: World, policy: Policy, s: Store, ph: Phase)
    requires CommitsAreOut(s) && Fits(s.audit, ph)
    ensures
      var next := Look(w, policy, s, ph);
      !ph.Commit? && next.Commit? && next.req.SupersedeReq? ==> CommitOf(s.audit, next.req.successor).None?
  {
    hide CommitOf, HasReason, CheckReview, CheckGate;
  }

  /** Where nothing was ever overtaken, no commit is stale. */
  lemma {:induction false} NeverOvertakenNeverStale(w: World, policy: Policy, events: seq<Event>)
    requires NoRestores(events) && NeverOvertaken(w, policy, events)
    ensures NeverStale(w, policy, events) && SuccessorsStand(Run(w, policy, events))
  {
    hide Happen, RankInv, StaleCommit, Overtakes, SuccessorsStand;
    if events == [] {
      StartStands(w, policy);
    } else {
      var n := |events| - 1;
      var before := events[..n];
      assert forall i :: 0 <= i <= n ==> before[..i] == events[..i];
      assert events[n] in events;
      NeverOvertakenNeverStale(w, policy, before);
      FreshKeepsRank(w, policy, before);
      HappenStands(w, policy, Run(w, policy, before), events[n]);
    }
  }

  lemma StartStands(w: World, policy: Policy)
    ensures SuccessorsStand(Run(w, policy, []))
  {
  }

  lemma HappenStands(w: World, policy: Policy, sys: Sys, e: Event)
    requires RankInv(sys) && SuccessorsStand(sys) && !Overtakes(sys, e) && !(e.Begin? && e.req.RestoreReq?)
    ensures !StaleCommit(sys, e) && SuccessorsStand(Happen(w, policy, sys, e))
  {
    hide Look, Do, Settle, CommitsAreOut, LinksRise, CommitOf, Fits;
    HappenKeepsRank(w, policy, sys, e);
    CommitsChange(w, policy, sys, e);
    var t := Happen(w, policy, sys, e);
    assert CommitsAreOut(t.store);
    forall j | j in t.calls && t.calls[j].Commit? && t.calls[j].req.SupersedeReq?
      ensures CommitOf(t.store.audit, t.calls[j].req.successor).None?
    {
      if e == Act(j) {
        ActedStands(w, policy, sys, j);
      } else {
        assert j in sys.calls && t.calls[j] == sys.calls[j];
      }
    }
  }

  /** A call that acts comes past its successor check only by reading. */
  lemma ActedStands(w: World, policy: Policy, sys: Sys, j: nat)
    requires SuccessorsStand(sys) && j in sys.calls
    ensures
      var t := Happen(w, policy, sys, Act(j));
      t.calls[j].Commit? && t.calls[j].req.SupersedeReq? ==> CommitOf(t.store.audit, t.calls[j].req.successor).None?
  {
    hide Look, Do, Settle, CommitsAreOut, LinksRise, CommitOf, Fits;
    if OpOf(sys.calls[j]).None? {
      SuccessorRead(w, policy, sys.store, sys.calls[j]);
    } else {
      var answer := Do(w, sys.store, OpOf(sys.calls[j]).value).1;
      assert Advance(w, policy, sys.store, sys.calls[j]).1 == Settle(sys.calls[j], answer);
      Settles(sys.calls[j]);
    }
  }

  lemma Settles(ph: Phase)
    requires OpOf(ph).Some?
    ensures forall answer :: !Settle(ph, answer).Commit?
  {
  }

  /** A step supersedes the version whose supersede commits, and no other. */
  lemma CommitsChange(w: World, policy: Policy, sys: Sys, e: Event)
    requires RankInv(sys) && !(e.Begin? && e.req.RestoreReq?)
    ensures forall k :: CommitOf(Happen(w, policy, sys, e).store.audit, k).Some? ==>
              || CommitOf(sys.store.audit, k).Some?
              || (Commits(sys, e) && k == sys.calls[e.id].req.key)
  {
    hide Look, Settle, CommitsAreOut, LinksRise, CommitOf, Links, Do;
    var s := sys.store;
    match e
    case Publishing(p) => PublishIsCalm(w, s, p);
    case Begin(_, _) =>
    case Act(id) =>
      if id in sys.calls && OpOf(sys.calls[id]).Some? {
        var ph := sys.calls[id];
        if ph.Linking? || (ph.Commit? && ph.req.SupersedeReq?) {
          WriteAppends(w, s, ph);
        } else {
          WriteIsCalm(w, s, ph);
        }
      }
  }

  lemma WriteAppends(w: World, s: Store, ph: Phase)
    requires (ph.Linking? && ph.req.SupersedeReq?) || (ph.Commit? && ph.req.SupersedeReq? && ph.from == Approved)
    ensures forall k :: CommitOf(Do(w, s, OpOf(ph).value).0.audit, k).Some? ==>
              || CommitOf(s.audit, k).Some?
              || (ph.Commit? && StatusIn(s.rows, ph.req.key) == Some(Approved) && k == ph.req.key)
  {
    hide CommitOf;
    var t := Do(w, s, OpOf(ph).value).0;
    if t.audit != s.audit {
      forall k
        ensures CommitOf(t.audit, k) ==
                if t.audit[|s.audit|].key == k && t.audit[|s.audit|].what == To(Superseded) then Some(|s.audit|)
                else CommitOf(s.audit, k)
      {
        CommitAppend(s.audit, t.audit[|s.audit|], k);
      }
    }
  }

  // ---- Nothing approved, nothing linked ----

  lemma {:induction false} LinkHasEntry(audit: seq<Entry>)
    requires Links(audit) != []
    ensures exists i :: 0 <= i < |audit| && audit[i].what.ReplacesLinked?
  {
    if !audit[|audit| - 1].what.ReplacesLinked? {
      LinkHasEntry(audit[..|audit| - 1]);
      var i :| 0 <= i < |audit[..|audit| - 1]| && audit[..|audit| - 1][i].what.ReplacesLinked?;
      assert audit[i].what.ReplacesLinked?;
    }
  }

  /** A recorded link means that something passed review. */
  lemma LinksNeedApproval(w: World, policy: Policy, events: seq<Event>)
    requires Injective(w) && Links(Run(w, policy, events).store.audit) != []
    ensures Approvable(w, policy)
  {
    hide Run, Published;
    StaleReads.RunKeepsInv(w, policy, events);
    var audit, pubs := Run(w, policy, events).store.audit, Published(events);
    LinkHasEntry(audit);
    var i :| 0 <= i < |audit| && audit[i].what.ReplacesLinked?;
    ApprovalMeansApprovable(w, policy, pubs, audit, i);
  }

  lemma ApprovalMeansApprovable(w: World, policy: Policy, pubs: Pubs, audit: seq<Entry>, i: nat)
    requires AuditLawful(w, policy, pubs, audit) && ApprovalsReviewed(audit)
    requires i < |audit| && audit[i].what.ReplacesLinked?
    ensures Approvable(w, policy)
  {
    hide Lawful;
    LinkLawful(w, policy, pubs, audit[..i], audit[i]);
    var e :| e in audit[..i] && e.key == audit[i].key && e.what == To(Approved);
    var n :| 0 <= n < i && audit[n] == e;
    assert ReviewedIn(audit[..n + 1], e.key);
    var j, k :| 0 <= j < k < n + 1 && Submission(audit[..n + 1], j, e.key) && Approval(audit[..n + 1], k, e.key);
    SubmitLawful(w, policy, pubs, audit[..j], audit[j]);
  }

  lemma LinkLawful(w: World, policy: Policy, pubs: Pubs, before: seq<Entry>, e: Entry)
    requires Lawful(w, policy, pubs, before, e) && e.what.ReplacesLinked?
    ensures ApprovedIn(before, e.key)
  {
  }

  lemma SubmitLawful(w: World, policy: Policy, pubs: Pubs, before: seq<Entry>, e: Entry)
    requires Lawful(w, policy, pubs, before, e) && e.from == Some(Draft) && e.what == To(InReview)
    ensures Approvable(w, policy)
  {
  }

  // ---- Exactly ----

  /** Two supersedes from nothing, each read while the other's version was still approved. */
  function Overlapping(b: Bytes): seq<Event> {
    Schedules.EventsOf(BothApproved(b)) +
      [Begin(6, SupersedeReq(X, Y, BOSS, None))] + [Begin(7, SupersedeReq(Y, X, BOSS, None))] +
      Schedules.Acts(6, 2) + Schedules.Acts(7, 2) + [Act(6)] + [Act(7)] + [Act(6)] + [Act(7)]
  }

  lemma OverlapMakesCycle(w: World, policy: Policy, b: Bytes)
    requires policy.gateBeforeReview ==> w.gate(b)
    ensures
      var s := Run(w, policy, Overlapping(b)).store;
      && Links(s.audit) == [Link(X, Y), Link(Y, X)] && !Acyclic(Links(s.audit))
      && StatusIn(s.rows, X) == Some(Superseded) && StatusIn(s.rows, Y) == Some(Superseded)
    ensures NoRestores(Overlapping(b))
  {
    hide RunWhole, BothApproved, Run, Published, Advance, Steps, Links, Acyclic;
    var es0 := Schedules.EventsOf(BothApproved(b));
    TwoApproved(w, policy, b);
    SixCalls(b);
    Schedules.CallsAreEvents(w, policy, BothApproved(b));
    var ra, rb := SupersedeReq(X, Y, BOSS, None), SupersedeReq(Y, X, BOSS, None);
    var s := Run(w, policy, es0).store;
    var es1 := es0 + [Begin(6, ra)];
    var es2 := es1 + [Begin(7, rb)];
    var es3 := es2 + Schedules.Acts(6, 2);
    var es4 := es3 + Schedules.Acts(7, 2);
    var es5 := es4 + [Act(6)];
    var es6 := es5 + [Act(7)];
    var es7 := es6 + [Act(6)];
    Schedules.OneEvent(w, policy, es0, Begin(6, ra));
    Schedules.OneEvent(w, policy, es1, Begin(7, rb));
    InterleavedSupersedesCycle(w, policy, s, X, Y, BOSS);
    Schedules.ActsAreSteps(w, policy, es2, 6, 2);
    Schedules.ActsAreSteps(w, policy, es3, 7, 2);
    Schedules.OneEvent(w, policy, es4, Act(6));
    Schedules.OneEvent(w, policy, es5, Act(7));
    Schedules.OneEvent(w, policy, es6, Act(6));
    Schedules.OneEvent(w, policy, es7, Act(7));
    assert Links(s.audit) + [Link(X, Y), Link(Y, X)] == [Link(X, Y), Link(Y, X)];
    BackAndForth([Link(X, Y), Link(Y, X)], X, Y);
    NoneRestores(b);
  }

  lemma SixCalls(b: Bytes)
    ensures |BothApproved(b)| == 6
  {
  }

  lemma {:induction false} NothingRestored(calls: seq<Whole>)
    requires NoRestore(calls)
    ensures NoRestores(Schedules.EventsOf(calls))
  {
    if calls != [] {
      assert calls[|calls| - 1] in calls;
      NothingRestored(calls[..|calls| - 1]);
    }
  }

  lemma NoneRestores(b: Bytes)
    ensures NoRestores(Overlapping(b))
  {
    NothingRestored(BothApproved(b));
  }

  /** Over every interleaving without restore, recorded links are acyclic if and only if no supersede may
      commit after its successor was superseded (under a policy something can meet). A call that stopped
      half-way does not matter: it never commits. */
  lemma CyclesIffStaleCommit(w: World, policy: Policy, stale: bool)
    requires Injective(w)
    ensures (forall events :: NoRestores(events) && (stale || NeverStale(w, policy, events)) ==>
               Acyclic(Links(Run(w, policy, events).store.audit)))
            <==> !(stale && Approvable(w, policy))
  {
    hide Run, Acyclic, Links, NeverStale, NoRestores, Approvable;
    if stale && Approvable(w, policy) {
      var b := Passing(w, policy);
      OverlapMakesCycle(w, policy, b);
    } else {
      forall events | NoRestores(events) && (stale || NeverStale(w, policy, events))
        ensures Acyclic(Links(Run(w, policy, events).store.audit))
      {
        if !Approvable(w, policy) {
          if Links(Run(w, policy, events).store.audit) != [] { LinksNeedApproval(w, policy, events); }
          NoLinksNoWalk();
        } else {
          FreshIsAcyclic(w, policy, events);
        }
      }
    }
  }

  lemma FreshIsAcyclic(w: World, policy: Policy, events: seq<Event>)
    requires NoRestores(events) && NeverStale(w, policy, events)
    ensures Acyclic(Links(Run(w, policy, events).store.audit))
  {
    hide Run, Links, Acyclic, LinksRise;
    FreshKeepsRank(w, policy, events);
    RiseIsAcyclic(Run(w, policy, events).store.audit);
  }

  /** The same for the overlap that makes a commit stale. */
  lemma CyclesIffOvertaken(w: World, policy: Policy, overtaking: bool)
    requires Injective(w)
    ensures (forall events :: NoRestores(events) && (overtaking || NeverOvertaken(w, policy, events)) ==>
               Acyclic(Links(Run(w, policy, events).store.audit)))
            <==> !(overtaking && Approvable(w, policy))
  {
    hide Run, Acyclic, Links, NeverStale, NeverOvertaken, NoRestores, Approvable;
    CyclesIffStaleCommit(w, policy, overtaking);
    if !overtaking {
      forall events | NoRestores(events) && NeverOvertaken(w, policy, events)
        ensures Acyclic(Links(Run(w, policy, events).store.audit))
      {
        NeverOvertakenNeverStale(w, policy, events);
        FreshIsAcyclic(w, policy, events);
      }
    }
  }

  lemma Passing(w: World, policy: Policy) returns (b: Bytes)
    requires Approvable(w, policy)
    ensures policy.gateBeforeReview ==> w.gate(b)
  {
    b := [];
    if policy.gateBeforeReview { b :| w.gate(b); }
  }
}
