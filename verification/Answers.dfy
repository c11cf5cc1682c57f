/** When a workflow call goes through: exactly when the policy, judged on the published version, allows it. */
module Answers {
  import opened Wrappers
  import opened Text
  import opened Identity
  import opened StoreSpec
  import opened StoreRuns
  import opened WorkflowSpec
  import opened Interleavings
  import opened StaleReads

  predicate Permitted(w: World, policy: Policy, s: Store, pubs: Pubs, req: Request) {
    && req.key in s.rows && req.key in pubs
    && var row := s.rows[req.key];
       match req
       case ReviewReq(key, to, actor, reason) => ReviewStep(w, policy, pubs[key], row.status, to, actor, reason)
       case SupersedeReq(key, successor, actor, _) =>
         && row.status == Approved && successor != key && IsApprovedRow(s, successor) && actor.HasRole(Reviewer)
       case RecallReq(_, actor, reason) => row.status == Approved && actor.HasRole(Reviewer) && HasReason(reason)
       case RestoreReq(_, actor, _) => (row.status == Recalled || row.status == Superseded) && Admin in actor.roles
       case HoldReq(_, hold, actor, reason) => Admin in actor.roles && (hold ==> HasReason(reason))
       case PurgeReq(_, actor, _) => Admin in actor.roles && row.status != Approved && !row.hold
  }

  /** What a call that went through leaves of its version's row. */
  predicate Effected(before: Row, after: Row, req: Request) {
    match req
    case HoldReq(_, hold, _, reason) => after == before.(hold := hold, holdReason := if hold then reason else None)
    case PurgeReq(_, _, _) => after == before.(status := Purged, purged := true, analyst := None)
    case ReviewReq(_, to, _, _) => after == before.(status := to)
    case SupersedeReq(_, _, _, _) => after == before.(status := Superseded)
    case RecallReq(_, _, _) => after == before.(status := Recalled)
    case RestoreReq(_, _, _) => after == before.(status := Approved)
  }

  /** The audit row for the call's actor and reason. */
  function Noted(before: Row, req: Request): Entry {
    match req
    case ReviewReq(key, to, actor, reason) => Entry(key, Some(before.status), To(to), actor, reason)
    case SupersedeReq(key, _, actor, reason) => Entry(key, Some(Approved), To(Superseded), actor, reason)
    case RecallReq(key, actor, reason) => Entry(key, Some(Approved), To(Recalled), actor, reason)
    case RestoreReq(key, actor, reason) => Entry(key, Some(before.status), To(Approved), actor, reason)
    case HoldReq(key, hold, actor, reason) => Entry(key, None, if hold then HoldSet else HoldCleared, actor, reason)
    case PurgeReq(key, actor, reason) => Entry(key, Some(before.status), To(Purged), actor, reason)
  }

  /** Every other row stays but for a successor's link, and the audit says what happened; purging what is
      purged does nothing at all. */
  predicate NothingElse(s: Store, t: Store, req: Request)
    requires req.key in s.rows
  {
    if req.PurgeReq? && s.rows[req.key].purged then t == s
    else
      && t.rows.Keys == s.rows.Keys
      && (forall k :: k in s.rows && k != req.key ==>
            t.rows[k] == if req.SupersedeReq? && k == req.successor then s.rows[k].(predecessor := Some(req.key))
                         else s.rows[k])
      && t.audit == s.audit + [Noted(s.rows[req.key], req)] +
           if req.SupersedeReq? then [Entry(req.successor, None, ReplacesLinked(req.key), req.actor, None)] else []
  }

  lemma ReviewSucceedsIff(w: World, policy: Policy, s: Store, pubs: Pubs, req: Request)
    requires Injective(w) && StoreInv(w, s, pubs) && Histories(s.rows, s.audit) && req.ReviewReq?
    ensures Call(w, policy, s, req).1.Ok? <==> Permitted(w, policy, s, pubs, req)
  {
    hide BlobsCounted, Referenced, HasReason, SubmittedIn, ReviewedIn, CheckReview, ReviewStep, Extract, Call;
    InvReadsBack(w, s, pubs);
    if req.key in s.rows {
      var row, p := s.rows[req.key], pubs[req.key];
      assert FromPublication(w, row, p);
      ReviewStepIff(w, policy, p, row.status, req.to, req.actor, req.reason);
      ReviewOkIff(w, policy, s, req);
      if (row.status, req.to) in REVIEW { assert row.analyst == p.analyst && Extract(s, req.key) == Ok(p.bytes); }
    } else {
      UnknownIsRefused(w, policy, s, req);
    }
  }

  lemma UnknownIsRefused(w: World, policy: Policy, s: Store, req: Request)
    requires req.ReviewReq? && req.key !in s.rows
    ensures Call(w, policy, s, req).1 == Err(Missing)
  {
  }

  lemma ReviewOkIff(w: World, policy: Policy, s: Store, req: Request)
    requires req.ReviewReq? && req.key in s.rows
    ensures
      var row := s.rows[req.key];
      Call(w, policy, s, req).1.Ok? <==>
        && (row.status, req.to) in REVIEW && CheckReview(policy, row.analyst, req.to, req.actor, req.reason).None?
        && (NeedsGate(policy, req.to) ==> CheckGate(w, Extract(s, req.key)).None?)
  {
    hide CheckReview, CheckGate, Extract;
  }

  /** What the error of a refused call says of the version and the caller. */
  predicate Apt(w: World, policy: Policy, s: Store, pubs: Pubs, req: Request, e: Error) {
    if req.key !in s.rows then e == Missing
    else
      && req.key in pubs
      && var row, p := s.rows[req.key], pubs[req.key];
         match e
         case NotAllowed =>
           (match req
            case ReviewReq(_, to, _, _) => (row.status, to) !in REVIEW
            case SupersedeReq(_, _, _, _) => row.status != Approved
            case RecallReq(_, _, _) => row.status != Approved
            case RestoreReq(_, _, _) => row.status != Recalled && row.status != Superseded
            case _ => false)
         case WrongRole =>
           (match req
            case ReviewReq(_, to, actor, _) => !actor.HasRole(if to == InReview then Analyst else Reviewer) && to != Draft
            case SupersedeReq(_, _, actor, _) => !actor.HasRole(Reviewer)
            case RecallReq(_, actor, _) => !actor.HasRole(Reviewer)
            case RestoreReq(_, actor, _) => Admin !in actor.roles
            case HoldReq(_, _, actor, _) => Admin !in actor.roles
            case PurgeReq(_, actor, _) => Admin !in actor.roles)
         case NeedsReason =>
           (match req
            case ReviewReq(_, to, _, reason) => to == Status.Rejected && !HasReason(reason)
            case RecallReq(_, _, reason) => !HasReason(reason)
            case HoldReq(_, hold, _, reason) => hold && !HasReason(reason)
            case _ => false)
         case SelfReview => req.ReviewReq? && !policy.allowSelfReview && p.analyst == Some(req.actor.id)
         case NotOwner => req.ReviewReq? && req.to == Draft && Admin !in req.actor.roles && p.analyst != Some(req.actor.id)
         case GateFails => req.ReviewReq? && req.to == InReview && policy.gateBeforeReview && !w.gate(p.bytes)
         case SelfSuccession => req.SupersedeReq? && req.successor == req.key
         case BadSuccessor => req.SupersedeReq? && !IsApprovedRow(s, req.successor)
         case IsApproved => req.PurgeReq? && row.status == Approved
         case IsHeld => req.PurgeReq? && row.hold
         case _ => false
  }

  lemma ReviewErrorIsApt(w: World, policy: Policy, s: Store, pubs: Pubs, req: Request)
    requires Injective(w) && StoreInv(w, s, pubs) && Histories(s.rows, s.audit) && req.ReviewReq?
    requires Call(w, policy, s, req).1.Err?
    ensures Apt(w, policy, s, pubs, req, Call(w, policy, s, req).1.error)
  {
    hide BlobsCounted, Referenced, HasReason, SubmittedIn, ReviewedIn, Extract, CheckReview, Apt;
    InvReadsBack(w, s, pubs);
    if req.key !in s.rows {
      UnknownIsApt(w, policy, s, pubs, req);
    } else {
      var row, p, e := s.rows[req.key], pubs[req.key], Call(w, policy, s, req).1.error;
      assert FromPublication(w, row, p);
      if (row.status, req.to) !in REVIEW {
        NotAllowedIsApt(w, policy, s, pubs, req);
      } else {
        assert p.analyst == row.analyst;
        assert Extract(s, req.key) == Ok(p.bytes);
        CheckIsApt(w, policy, s, pubs, req, e);
      }
    }
  }

  lemma UnknownIsApt(w: World, policy: Policy, s: Store, pubs: Pubs, req: Request)
    requires req.key !in s.rows
    ensures Apt(w, policy, s, pubs, req, Missing)
  {
  }

  lemma NotAllowedIsApt(w: World, policy: Policy, s: Store, pubs: Pubs, req: Request)
    requires req.ReviewReq? && req.key in s.rows && req.key in pubs && (s.rows[req.key].status, req.to) !in REVIEW
    ensures Apt(w, policy, s, pubs, req, NotAllowed)
  {
  }

  lemma CheckIsApt(w: World, policy: Policy, s: Store, pubs: Pubs, req: Request, e: Error)
    requires req.ReviewReq? && req.key in s.rows && req.key in pubs && (s.rows[req.key].status, req.to) in REVIEW
    requires CheckReview(policy, pubs[req.key].analyst, req.to, req.actor, req.reason) == Some(e)
             || (e == GateFails && NeedsGate(policy, req.to) && !w.gate(pubs[req.key].bytes))
    ensures Apt(w, policy, s, pubs, req, e)
  {
    hide HasReason;
  }

  lemma LifecycleErrorIsApt(w: World, policy: Policy, s: Store, pubs: Pubs, req: Request)
    requires s.rows.Keys == pubs.Keys && !req.ReviewReq?
    requires Call(w, policy, s, req).1.Err?
    ensures Apt(w, policy, s, pubs, req, Call(w, policy, s, req).1.error)
  {
    hide HasReason, OtherRefs;
  }

  lemma LifecycleSucceedsIff(w: World, policy: Policy, s: Store, pubs: Pubs, req: Request)
    requires s.rows.Keys == pubs.Keys && !req.ReviewReq?
    ensures Call(w, policy, s, req).1.Ok? <==> Permitted(w, policy, s, pubs, req)
  {
    hide HasReason, OtherRefs;
  }

  lemma CallEffects(w: World, policy: Policy, s: Store, req: Request)
    requires forall k :: k in s.rows && s.rows[k].purged ==> s.rows[k].status == Purged && s.rows[k].analyst == None
    requires Call(w, policy, s, req).1.Ok?
    ensures
      var t := Call(w, policy, s, req).0;
      && req.key in s.rows && req.key in t.rows
      && (req.SupersedeReq? ==> req.successor in t.rows && t.rows[req.successor].predecessor == Some(req.key))
      && Effected(s.rows[req.key], t.rows[req.key], req) && NothingElse(s, t, req)
  {
    hide HasReason, OtherRefs, CheckReview, CheckGate;
  }

  // ---- Tombstones ----

  predicate Blanked(rows: map<Key, Row>) {
    forall k :: k in rows && rows[k].purged ==> rows[k].analyst == None
  }

  lemma {:induction false} RunKeepsBlanked(w: World, policy: Policy, events: seq<Event>)
    ensures Blanked(Interleavings.Run(w, policy, events).store.rows)
  {
    if events != [] {
      RunKeepsBlanked(w, policy, events[..|events| - 1]);
      HappenKeepsBlanked(w, policy, Interleavings.Run(w, policy, events[..|events| - 1]), events[|events| - 1]);
    }
  }

  lemma HappenKeepsBlanked(w: World, policy: Policy, sys: Sys, ev: Event)
    requires Blanked(sys.store.rows)
    ensures Blanked(Happen(w, policy, sys, ev).store.rows)
  {
    hide Look, OpOf, Settle, OtherRefs;
  }

  /** In every state any interleaving can reach, a whole call goes through exactly when its policy allows
      it, judged on the version as published; it then has its effect and no other, and otherwise
      changes nothing and says why. */
  lemma CallSucceedsIff(w: World, policy: Policy, events: seq<Event>, req: Request)
    requires Injective(w)
    ensures
      var s, pubs := Interleavings.Run(w, policy, events).store, Published(events);
      var (t, answer) := Call(w, policy, s, req);
      && (answer.Ok? <==> Permitted(w, policy, s, pubs, req))
      && (answer.Ok? ==> req.key in t.rows && Effected(s.rows[req.key], t.rows[req.key], req) && NothingElse(s, t, req))
      && (answer.Err? ==> t == s && Apt(w, policy, s, pubs, req, answer.error))
  {
    hide Apt;
    hide Interleavings.Run, Published, Call, Permitted, Effected, NothingElse, AuditLawful, ApprovalsReviewed;
    StaleReads.RunKeepsInv(w, policy, events);
    RunKeepsBlanked(w, policy, events);
    var s, pubs := Interleavings.Run(w, policy, events).store, Published(events);
    if req.ReviewReq? {
      ReviewSucceedsIff(w, policy, s, pubs, req);
    } else {
      LifecycleSucceedsIff(w, policy, s, pubs, req);
    }
    if Call(w, policy, s, req).1.Ok? {
      CallEffects(w, policy, s, req);
    } else {
      if req.ReviewReq? { ReviewErrorIsApt(w, policy, s, pubs, req); } else { LifecycleErrorIsApt(w, policy, s, pubs, req); }
      RefusedChangesNothing(w, policy, s, req);
    }
  }

  lemma RefusedChangesNothing(w: World, policy: Policy, s: Store, req: Request)
    requires Call(w, policy, s, req).1.Err?
    ensures Call(w, policy, s, req).0 == s
  {
    hide HasReason, OtherRefs, CheckReview, CheckGate;
  }
}
