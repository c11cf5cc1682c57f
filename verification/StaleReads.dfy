/** Every committed audit entry obeys its policy, whatever was stale when it was checked. */
module StaleReads {
  import opened Wrappers
  import opened Text
  import opened Identity
  import opened StoreSpec
  import opened StoreRuns
  import opened WorkflowSpec
  import opened Interleavings

  predicate Extends(pubs: Pubs, more: Pubs) {
    forall k :: k in pubs ==> k in more && more[k] == pubs[k]
  }

  // ---- More entries, more publications ----

  lemma MembersGrow(audit: seq<Entry>, e: Entry, key: Key, actor: Identity)
    ensures ApprovedIn(audit, key) ==> ApprovedIn(audit + [e], key)
    ensures SupersededIn(audit, key, actor) ==> SupersededIn(audit + [e], key, actor)
    ensures OtherApprovedIn(audit, key) ==> OtherApprovedIn(audit + [e], key)
  {
  }

  lemma AuditMonotone(w: World, policy: Policy, pubs: Pubs, more: Pubs, audit: seq<Entry>)
    requires AuditLawful(w, policy, pubs, audit) && Extends(pubs, more)
    ensures AuditLawful(w, policy, more, audit)
  {
  }

  lemma AuditAppend(w: World, policy: Policy, pubs: Pubs, audit: seq<Entry>, e: Entry)
    requires AuditLawful(w, policy, pubs, audit) && Lawful(w, policy, pubs, audit, e)
    ensures AuditLawful(w, policy, pubs, audit + [e])
  {
    hide Lawful;
    var longer := audit + [e];
    forall i | 0 <= i < |longer|
      ensures Lawful(w, policy, pubs, longer[..i], longer[i])
    {
      assert longer[..i] == if i < |audit| then audit[..i] else audit;
    }
  }

  lemma HistoryGrows(audit: seq<Entry>, e: Entry, key: Key)
    ensures SubmittedIn(audit, key) ==> SubmittedIn(audit + [e], key)
    ensures ReviewedIn(audit, key) ==> ReviewedIn(audit + [e], key)
    ensures e.key == key && e.from == Some(Draft) && e.what == To(InReview) ==> SubmittedIn(audit + [e], key)
    ensures e.key == key && e.from == Some(InReview) && e.what == To(Approved) && SubmittedIn(audit, key) ==>
              ReviewedIn(audit + [e], key)
  {
    var longer := audit + [e];
    if SubmittedIn(audit, key) {
      var j :| 0 <= j < |audit| && Submission(audit, j, key);
      assert Submission(longer, j, key);
      if e.key == key && e.from == Some(InReview) && e.what == To(Approved) {
        assert Approval(longer, |audit|, key);
      }
    }
    if ReviewedIn(audit, key) {
      var j, i :| 0 <= j < i < |audit| && Submission(audit, j, key) && Approval(audit, i, key);
      assert Submission(longer, j, key) && Approval(longer, i, key);
    }
    if e.key == key && e.from == Some(Draft) && e.what == To(InReview) {
      assert Submission(longer, |audit|, key);
    }
  }

  lemma ApprovalsAppend(audit: seq<Entry>, e: Entry)
    requires ApprovalsReviewed(audit) && (e.what == To(Approved) ==> ReviewedIn(audit + [e], e.key))
    ensures ApprovalsReviewed(audit + [e])
  {
    hide ReviewedIn;
    var longer := audit + [e];
    forall i | 0 <= i < |longer| && longer[i].what == To(Approved)
      ensures ReviewedIn(longer[..i + 1], longer[i].key)
    {
      assert longer[..i + 1] == if i < |audit| then audit[..i + 1] else longer;
    }
  }

  // ---- One store call ----

  /** The store call an advancing call makes writes either nothing or one lawful entry. */
  predicate Writes(s: Store, t: Store, key: Key, e: Entry) {
    && t.audit == s.audit + [e] && e.key == key
    && key in t.rows && t.rows == s.rows[key := t.rows[key]]
  }

  lemma NotPurged(s: Store, key: Key)
    requires Histories(s.rows, s.audit) && (key in s.rows ==> !s.rows[key].purged)
    ensures !PurgedIn(s.audit, key)
  {
  }

  /** How the written row and entry go together. */
  predicate Fitting(s: Store, t: Store, e: Entry)
    requires e.key in t.rows
  {
    var row := t.rows[e.key];
    match e.what
    case To(to) =>
      && row.status == to && (row.purged <==> to == Purged)
      && (to == InReview ==> e.from == Some(Draft))
      && (to == Approved ==> e.from == Some(InReview) || e.from == Some(Recalled) || e.from == Some(Superseded))
      && (to in {Superseded, Recalled} ==> e.from == Some(Approved))
      && (if e.from.None? then e.key !in s.rows else e.key in s.rows && s.rows[e.key].status == e.from.value)
    case _ => e.key in s.rows && row.status == s.rows[e.key].status && row.purged == s.rows[e.key].purged
  }

  lemma HistoriesAfter(s: Store, t: Store, e: Entry)
    requires Histories(s.rows, s.audit) && ApprovalsReviewed(s.audit)
    requires Writes(s, t, e.key, e) && Fitting(s, t, e)
    requires e.what.To? ==> e.key !in s.rows || !s.rows[e.key].purged
    ensures Histories(t.rows, t.audit) && ApprovalsReviewed(t.audit)
  {
    hide SubmittedIn, ReviewedIn, ApprovalsReviewed;
    forall k
      ensures SubmittedIn(s.audit, k) ==> SubmittedIn(t.audit, k)
      ensures ReviewedIn(s.audit, k) ==> ReviewedIn(t.audit, k)
    {
      HistoryGrows(s.audit, e, k);
    }
    HistoryGrows(s.audit, e, e.key);
    ApprovalsAppend(s.audit, e);
  }

  lemma DoKeepsLog(w: World, policy: Policy, s: Store, pubs: Pubs, op: Op, e: Entry)
    requires LogInv(w, policy, s, pubs)
    requires Writes(s, Do(w, s, op).0, e.key, e) && Fitting(s, Do(w, s, op).0, e)
    requires e.what.To? ==> e.key !in s.rows || !s.rows[e.key].purged
    requires Lawful(w, policy, AfterOp(pubs, op), s.audit, e)
    ensures LogInv(w, policy, Do(w, s, op).0, AfterOp(pubs, op))
  {
    hide Do, Lawful, Histories, ApprovalsReviewed, StoreInv, Replayed, Fitting, AuditLawful;
    var t, more := Do(w, s, op).0, AfterOp(pubs, op);
    DoKeepsInv(w, s, pubs, op);
    DoKeepsReplay(w, s, op);
    AuditMonotone(w, policy, pubs, more, s.audit);
    AuditAppend(w, policy, more, s.audit, e);
    HistoriesAfter(s, t, e);
  }

  // ---- The calls' writes ----

  lemma PublishKeepsLog(w: World, policy: Policy, s: Store, pubs: Pubs, p: Publication)
    requires LogInv(w, policy, s, pubs)
    ensures LogInv(w, policy, Publish(w, s, p).0, First(pubs, p))
    ensures Publish(w, s, p).0 == s ||
            exists e :: Publish(w, s, p).0.audit == s.audit + [e]
  {
    hide Lawful, ApprovalsReviewed, BlobsCounted, AuditLawful, LogInv;
    assert StoreInv(w, s, pubs) && Replayed(s) && Histories(s.rows, s.audit) by { LogParts(w, policy, s, pubs); }
    var t := Publish(w, s, p).0;
    if t == s {
      assert First(pubs, p) == pubs;
    } else {
      var e := Entry(p.key, None, To(Draft), p.actor, Some("published"));
      NotPurged(s, p.key);
      assert Replay(s.audit, p.key) == Some(LiveOf(s.rows, p.key));
      BirthLawful(w, policy, First(pubs, p), s.audit, e);
      DoKeepsLog(w, policy, s, pubs, DoPublish(p), e);
    }
  }

  lemma LogParts(w: World, policy: Policy, s: Store, pubs: Pubs)
    requires LogInv(w, policy, s, pubs)
    ensures StoreInv(w, s, pubs) && Replayed(s) && Histories(s.rows, s.audit)
  {
  }

  lemma BirthLawful(w: World, policy: Policy, pubs: Pubs, before: seq<Entry>, e: Entry)
    requires e.key in pubs && e.from == None && e.what == To(Draft)
    requires !PurgedIn(before, e.key) && Replay(before, e.key) == Some(UNBORN)
    ensures Lawful(w, policy, pubs, before, e)
  {
  }

  lemma CommitKeepsLog(w: World, policy: Policy, s: Store, pubs: Pubs, req: Request, from: Status)
    requires LogInv(w, policy, s, pubs) && PhaseOk(w, policy, pubs, s.audit, Commit(req, from))
    ensures
      var t := SetStatus(s, req.key, from, Target(req), req.actor, req.reason).0;
      && LogInv(w, policy, t, pubs)
      && (t == s || t.audit == s.audit + [Entry(req.key, Some(from), To(Target(req)), req.actor, req.reason)])
  {
    hide Lawful, Histories, LogInv, PhaseOk, Replayed, StoreInv, Fitting, Target, PurgedIn;
    LogParts(w, policy, s, pubs);
    var to := Target(req);
    if req.key in s.rows && s.rows[req.key].status == from {
      var e := Entry(req.key, Some(from), To(to), req.actor, req.reason);
      TransitionShape(w, policy, pubs, s.audit, req, from);
      TransitionFits(s, e, from, to);
      DoKeepsLog(w, policy, s, pubs, DoSetStatus(req.key, from, to, req.actor, req.reason), e);
    }
  }

  lemma TransitionFits(s: Store, e: Entry, from: Status, to: Status)
    requires Histories(s.rows, s.audit) && e.key in s.rows && s.rows[e.key].status == from
    requires (from, to) in REVIEW + LIFECYCLE && e.from == Some(from) && e.what == To(to)
    ensures !PurgedIn(s.audit, e.key) && !s.rows[e.key].purged
    ensures
      var t := SetStatus(s, e.key, from, to, e.actor, e.reason).0;
      Writes(s, t, e.key, e) && Fitting(s, t, e)
  {
    hide SubmittedIn, ReviewedIn;
    NotPurged(s, e.key);
  }

  lemma TransitionShape(w: World, policy: Policy, pubs: Pubs, audit: seq<Entry>, req: Request, from: Status)
    requires PhaseOk(w, policy, pubs, audit, Commit(req, from))
    ensures (from, Target(req)) in REVIEW + LIFECYCLE
    ensures !PurgedIn(audit, req.key) ==>
              Lawful(w, policy, pubs, audit, Entry(req.key, Some(from), To(Target(req)), req.actor, req.reason))
  {
  }

  lemma LinkKeepsLog(w: World, policy: Policy, s: Store, pubs: Pubs, req: Request, updated: Row)
    requires LogInv(w, policy, s, pubs) && PhaseOk(w, policy, pubs, s.audit, Linking(req, updated))
    ensures
      var t := LinkReplaces(s, req.successor, req.key, req.actor).0;
      && LogInv(w, policy, t, pubs)
      && t.audit == s.audit + [Entry(req.successor, None, ReplacesLinked(req.key), req.actor, None)]
  {
    hide ApprovalsReviewed, BlobsCounted, AuditLawful, LogInv, Histories, Replayed;
    LogParts(w, policy, s, pubs);
    var e := Entry(req.successor, None, ReplacesLinked(req.key), req.actor, None);
    DoKeepsLog(w, policy, s, pubs, DoLink(req.successor, req.key, req.actor), e);
  }

  lemma HoldKeepsLog(w: World, policy: Policy, s: Store, pubs: Pubs, req: Request)
    requires LogInv(w, policy, s, pubs) && PhaseOk(w, policy, pubs, s.audit, HoldWrite(req))
    ensures
      var t := SetHold(s, req.key, req.hold, req.reason, req.actor).0;
      && LogInv(w, policy, t, pubs)
      && t.audit == s.audit + [Entry(req.key, None, if req.hold then HoldSet else HoldCleared, req.actor, req.reason)]
  {
    hide ApprovalsReviewed, BlobsCounted, AuditLawful, LogInv, Histories, Replayed;
    LogParts(w, policy, s, pubs);
    var e := Entry(req.key, None, if req.hold then HoldSet else HoldCleared, req.actor, req.reason);
    DoKeepsLog(w, policy, s, pubs, DoHold(req.key, req.hold, req.reason, req.actor), e);
  }

  lemma PurgeKeepsLog(w: World, policy: Policy, s: Store, pubs: Pubs, req: Request)
    requires LogInv(w, policy, s, pubs) && PhaseOk(w, policy, pubs, s.audit, PurgeWrite(req))
    ensures
      var t := Purge(s, req.key, req.actor, req.reason).0;
      LogInv(w, policy, t, pubs) && (t == s || exists e :: t.audit == s.audit + [e])
  {
    hide ApprovalsReviewed, StoreInv, AuditLawful, LogInv, Replay, SubmittedIn, ReviewedIn, ReviewStep, LifecycleStep;
    LogParts(w, policy, s, pubs);
    if Purge(s, req.key, req.actor, req.reason).0 != s {
      var e := Entry(req.key, Some(s.rows[req.key].status), To(Purged), req.actor, req.reason);
      assert Replay(s.audit, req.key) == Some(LiveOf(s.rows, req.key));
      NotPurged(s, req.key);
      DoKeepsLog(w, policy, s, pubs, DoPurge(req.key, req.actor, req.reason), e);
    }
  }

  // ---- One step ----

  ghost predicate Grew(before: seq<Entry>, after: seq<Entry>) {
    after == before || exists e :: after == before + [e]
  }

  /** Reading and checking leaves the call sure of what it needs. */
  lemma LookOk(w: World, policy: Policy, s: Store, pubs: Pubs, ph: Phase)
    requires Injective(w) && LogInv(w, policy, s, pubs) && PhaseOk(w, policy, pubs, s.audit, ph)
    ensures PhaseOk(w, policy, pubs, s.audit, Look(w, policy, s, ph))
  {
    hide LogInv, ApprovedIn, StoreInv, ReviewStep, Replayed, Start, HasReason, OtherApprovedIn, SupersededIn, Histories;
    LogParts(w, policy, s, pubs);
    match ph
    case Ready(req) => StartOk(w, policy, s, pubs, req);
    case GateRead(req, from) => GateReadOk(w, policy, s, pubs, req, from);
    case GateOpen(req, from, sha) => GateOpenOk(w, policy, s, pubs, req, from, sha);
    case SuccessorRead(req) =>
      if IsApprovedRow(s, req.successor) { SuccessorOk(w, policy, s, pubs, req); }
    case _ =>
  }

  lemma SuccessorOk(w: World, policy: Policy, s: Store, pubs: Pubs, req: Request)
    requires req.SupersedeReq?
    requires StoreInv(w, s, pubs) && Histories(s.rows, s.audit) && IsApprovedRow(s, req.successor)
    requires PhaseOk(w, policy, pubs, s.audit, SuccessorRead(req))
    ensures PhaseOk(w, policy, pubs, s.audit, Commit(req, Approved))
  {
  }

  lemma GateReadOk(w: World, policy: Policy, s: Store, pubs: Pubs, req: Request, from: Status)
    requires StoreInv(w, s, pubs) && PhaseOk(w, policy, pubs, s.audit, GateRead(req, from))
    ensures PhaseOk(w, policy, pubs, s.audit, Look(w, policy, s, GateRead(req, from)))
  {
  }

  /** The bytes opened are the published ones: the hash was read off the row. */
  lemma GateOpenOk(w: World, policy: Policy, s: Store, pubs: Pubs, req: Request, from: Status, sha: string)
    requires Injective(w) && StoreInv(w, s, pubs) && PhaseOk(w, policy, pubs, s.audit, GateOpen(req, from, sha))
    ensures PhaseOk(w, policy, pubs, s.audit, Look(w, policy, s, GateOpen(req, from, sha)))
  {
  }

  lemma ReviewStepIff(w: World, policy: Policy, p: Publication, from: Status, to: Status, actor: Identity,
                      reason: Option<string>)
    ensures ReviewStep(w, policy, p, from, to, actor, reason) <==>
            (from, to) in REVIEW && CheckReview(policy, p.analyst, to, actor, reason).None?
            && (NeedsGate(policy, to) ==> w.gate(p.bytes))
  {
    hide HasReason;
  }

  lemma StartOk(w: World, policy: Policy, s: Store, pubs: Pubs, req: Request)
    requires StoreInv(w, s, pubs) && Histories(s.rows, s.audit)
    ensures PhaseOk(w, policy, pubs, s.audit, Start(policy, s, req))
  {
    hide BlobsCounted, ApprovedIn, HasReason, SubmittedIn, ReviewedIn, ReviewStep, CheckReview;
    if req.key in s.rows {
      assert FromPublication(w, s.rows[req.key], pubs[req.key]);
      if req.ReviewReq? && (s.rows[req.key].status, req.to) in REVIEW {
        ReviewStepIff(w, policy, pubs[req.key], s.rows[req.key].status, req.to, req.actor, req.reason);
        SubmitterIsAnalyst(policy, pubs[req.key].analyst, req.actor, req.reason);
      }
    }
  }

  lemma SubmitterIsAnalyst(policy: Policy, analyst: Option<string>, actor: Identity, reason: Option<string>)
    ensures CheckReview(policy, analyst, InReview, actor, reason).None? ==> actor.HasRole(Analyst)
  {
  }

  lemma AdvanceKeepsInv(w: World, policy: Policy, s: Store, pubs: Pubs, ph: Phase)
    requires Injective(w) && LogInv(w, policy, s, pubs) && PhaseOk(w, policy, pubs, s.audit, ph)
    ensures
      var (t, next) := Advance(w, policy, s, ph);
      LogInv(w, policy, t, pubs) && PhaseOk(w, policy, pubs, t.audit, next) && Grew(s.audit, t.audit)
  {
    hide LogInv, Do, Look;
    match OpOf(ph)
    case None => LookOk(w, policy, s, pubs, ph);
    case Some(op) =>
      WriteKeepsInv(w, policy, s, pubs, ph);
  }

  lemma WriteKeepsInv(w: World, policy: Policy, s: Store, pubs: Pubs, ph: Phase)
    requires LogInv(w, policy, s, pubs) && PhaseOk(w, policy, pubs, s.audit, ph) && OpOf(ph).Some?
    ensures
      var (t, answer) := Do(w, s, OpOf(ph).value);
      LogInv(w, policy, t, pubs) && PhaseOk(w, policy, pubs, t.audit, Settle(ph, answer)) && Grew(s.audit, t.audit)
  {
    hide LogInv;
    match ph
    case Commit(req, from) => CommitKeepsInv(w, policy, s, pubs, req, from);
    case Linking(req, updated) => LinkKeepsLog(w, policy, s, pubs, req, updated);
    case HoldWrite(req) => HoldKeepsLog(w, policy, s, pubs, req);
    case PurgeWrite(req) => PurgeKeepsLog(w, policy, s, pubs, req);
  }

  lemma CommitKeepsInv(w: World, policy: Policy, s: Store, pubs: Pubs, req: Request, from: Status)
    requires LogInv(w, policy, s, pubs) && PhaseOk(w, policy, pubs, s.audit, Commit(req, from))
    ensures
      var (t, answer) := Do(w, s, OpOf(Commit(req, from)).value);
      && LogInv(w, policy, t, pubs) && Grew(s.audit, t.audit)
      && PhaseOk(w, policy, pubs, t.audit, Settle(Commit(req, from), answer))
  {
    hide LogInv, OtherApprovedIn, ApprovedIn, HasReason;
    CommitKeepsLog(w, policy, s, pubs, req, from);
    var e := Entry(req.key, Some(from), To(Target(req)), req.actor, req.reason);
    var (t, answer) := Do(w, s, OpOf(Commit(req, from)).value);
    if req.SupersedeReq? && answer.Ok? {
      MembersGrow(s.audit, e, req.successor, req.actor);
      assert e in t.audit;
      assert req.actor.HasRole(Reviewer);
    }
  }

  lemma HappenKeepsInv(w: World, policy: Policy, sys: Sys, pubs: Pubs, ev: Event)
    requires Injective(w) && Inv(w, policy, sys, pubs)
    ensures Inv(w, policy, Happen(w, policy, sys, ev), AfterEvent(pubs, ev))
  {
    hide LogInv, PhaseOk, Advance, Publish;
    var next, more := Happen(w, policy, sys, ev), AfterEvent(pubs, ev);
    var s := sys.store;
    match ev
    case Publishing(p) =>
      PublishKeepsLog(w, policy, s, pubs, p);
      OthersStay(w, policy, pubs, more, s.audit, next.store.audit, sys.calls);
    case Begin(id, req) =>
      assert PhaseOk(w, policy, pubs, s.audit, Ready(req)) by { ReadyOk(w, policy, pubs, s.audit, req); }
    case Act(id) =>
      if id in sys.calls {
        AdvanceKeepsInv(w, policy, s, pubs, sys.calls[id]);
        OthersStay(w, policy, pubs, pubs, s.audit, next.store.audit, sys.calls);
      }
  }

  lemma ReadyOk(w: World, policy: Policy, pubs: Pubs, audit: seq<Entry>, req: Request)
    ensures PhaseOk(w, policy, pubs, audit, Ready(req))
  {
  }

  lemma OthersStay(w: World, policy: Policy, pubs: Pubs, more: Pubs, before: seq<Entry>, after: seq<Entry>,
                   calls: map<nat, Phase>)
    requires Extends(pubs, more) && Grew(before, after)
    requires forall id :: id in calls ==> PhaseOk(w, policy, pubs, before, calls[id])
    ensures forall id :: id in calls ==> PhaseOk(w, policy, more, after, calls[id])
  {
  }

  lemma {:induction false} RunKeepsInv(w: World, policy: Policy, events: seq<Event>)
    requires Injective(w)
    ensures Inv(w, policy, Interleavings.Run(w, policy, events), Published(events))
  {
    if events == [] {
      assert forall h :: !Referenced(EMPTY.rows, h);
    } else {
      RunKeepsInv(w, policy, events[..|events| - 1]);
      HappenKeepsInv(w, policy, Interleavings.Run(w, policy, events[..|events| - 1]),
                     Published(events[..|events| - 1]), events[|events| - 1]);
    }
  }

  // ---- Main results ----

  /** Under every interleaving every committed entry obeys its policy, judged against the version as it
      was published; the first bytes read back; and the audit replays to the live rows. */
  lemma StaleReadsAreSafe(w: World, policy: Policy, events: seq<Event>)
    requires Injective(w)
    ensures
      var s, pubs := Interleavings.Run(w, policy, events).store, Published(events);
      && AuditLawful(w, policy, pubs, s.audit)
      && ReadsBack(s, pubs)
      && Replayed(s)
      && forall k :: k in s.rows ==> (s.rows[k].purged <==> s.rows[k].status == Purged)
  {
    RunKeepsInv(w, policy, events);
    InvReadsBack(w, Interleavings.Run(w, policy, events).store, Published(events));
  }

  /** Under the default policy every approval, a restore included, has behind it an earlier submission by
      an analyst or admin of bytes that pass the gate, and after that an approval by a reviewer who is
      not the version's analyst, or by an admin. */
  lemma EveryApprovalWasReviewed(w: World, events: seq<Event>, n: nat)
    requires Injective(w)
    requires
      var audit := Interleavings.Run(w, DEFAULT, events).store.audit;
      n < |audit| && audit[n].what == To(Approved)
    ensures
      var audit := Interleavings.Run(w, DEFAULT, events).store.audit;
      var key := audit[n].key;
      && key in Published(events)
      && var p := Published(events)[key];
      && w.gate(p.bytes)
      && exists j, i :: 0 <= j < i <= n
           && Submission(audit, j, key) && audit[j].actor.HasRole(Analyst)
           && Approval(audit, i, key) && audit[i].actor.HasRole(Reviewer)
           && (Admin in audit[i].actor.roles || p.analyst != Some(audit[i].actor.id))
  {
    hide Interleavings.Run, Published, ApprovalsReviewed, AuditLawful;
    RunKeepsInv(w, DEFAULT, events);
    ReviewBehind(w, Published(events), Interleavings.Run(w, DEFAULT, events).store.audit, n);
  }

  lemma ReviewBehind(w: World, pubs: Pubs, audit: seq<Entry>, n: nat)
    requires AuditLawful(w, DEFAULT, pubs, audit) && ApprovalsReviewed(audit)
    requires n < |audit| && audit[n].what == To(Approved)
    ensures
      var key := audit[n].key;
      && key in pubs && w.gate(pubs[key].bytes)
      && exists j, i :: 0 <= j < i <= n
           && Submission(audit, j, key) && audit[j].actor.HasRole(Analyst)
           && Approval(audit, i, key) && audit[i].actor.HasRole(Reviewer)
           && (Admin in audit[i].actor.roles || pubs[key].analyst != Some(audit[i].actor.id))
  {
  }
}
