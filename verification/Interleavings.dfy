/** Workflow calls cut into their reads and writes, any number of them interleaved: stale reads are safe. */
module Interleavings {
  import opened Wrappers
  import opened Text
  import opened Identity
  import opened StoreSpec
  import opened StoreRuns
  import opened WorkflowSpec

  /** Where one call stands. A call that crashes simply never acts again. */
  datatype Phase =
    | Ready(req: Request)
    | GateRead(req: Request, from: Status)
    | GateOpen(req: Request, from: Status, sha: string)
    | SuccessorRead(req: Request)
    | Commit(req: Request, from: Status)
    | Linking(req: Request, updated: Row)
    | HoldWrite(req: Request)
    | PurgeWrite(req: Request)
    | Done(answer: Answer)

  datatype Sys = Sys(store: Store, calls: map<nat, Phase>)

  datatype Event = Publishing(p: Publication) | Begin(id: nat, req: Request) | Act(id: nat)

  function Target(req: Request): Status {
    match req
    case ReviewReq(_, to, _, _) => to
    case SupersedeReq(_, _, _, _) => Superseded
    case RecallReq(_, _, _) => Recalled
    case PurgeReq(_, _, _) => Purged
    case _ => Approved
  }

  function Unless(refusal: Option<Error>, next: Phase): Phase {
    match refusal
    case Some(e) => Done(Err(e))
    case None => next
  }

  /** The first read of a call, and the checks made on it. */
  function Start(policy: Policy, s: Store, req: Request): Phase {
    match req
    case ReviewReq(key, to, actor, reason) =>
      if key !in s.rows then Done(Err(Missing))
      else if (s.rows[key].status, to) !in REVIEW then Done(Err(NotAllowed))
      else
        var from := s.rows[key].status;
        Unless(CheckReview(policy, s.rows[key].analyst, to, actor, reason),
               if NeedsGate(policy, to) then GateRead(req, from) else Commit(req, from))
    case SupersedeReq(key, successor, actor, _) =>
      Unless(CheckSupersede(s, key, successor, actor), SuccessorRead(req))
    case RecallReq(key, actor, reason) => Unless(CheckRecall(s, key, actor, reason), Commit(req, Approved))
    case RestoreReq(key, actor, _) =>
      Unless(CheckRestore(s, key, actor), if key in s.rows then Commit(req, s.rows[key].status) else Ready(req))
    case HoldReq(key, hold, actor, reason) => Unless(CheckHold(s, key, hold, actor, reason), HoldWrite(req))
    case PurgeReq(key, actor, _) => Unless(CheckPurge(s, key, actor), PurgeWrite(req))
  }

  /** A step that only reads the store. */
  function Look(w: World, policy: Policy, s: Store, ph: Phase): Phase {
    match ph
    case Ready(req) => Start(policy, s, req)
    case GateRead(req, from) =>
      if req.key in s.rows then GateOpen(req, from, s.rows[req.key].sha) else Done(Err(Missing))
    case GateOpen(req, from, sha) =>
      Unless(CheckGate(w, if sha in s.blobs then Ok(s.blobs[sha]) else Err(BlobGone)), Commit(req, from))
    case SuccessorRead(req) =>
      if req.SupersedeReq? && IsApprovedRow(s, req.successor) then Commit(req, Approved) else Done(Err(BadSuccessor))
    case _ => ph
  }

  /** The store call a writing phase makes. */
  function OpOf(ph: Phase): Option<Op> {
    match ph
    case Commit(req, from) => Some(DoSetStatus(req.key, from, Target(req), req.actor, req.reason))
    case Linking(SupersedeReq(key, successor, actor, _), _) => Some(DoLink(successor, key, actor))
    case HoldWrite(HoldReq(key, hold, actor, reason)) => Some(DoHold(key, hold, reason, actor))
    case PurgeWrite(req) => Some(DoPurge(req.key, req.actor, req.reason))
    case _ => None
  }

  function Settle(ph: Phase, answer: Answer): Phase {
    match ph
    case Commit(req, _) => if req.SupersedeReq? && answer.Ok? then Linking(req, answer.value) else Done(answer)
    case Linking(_, updated) => Done(Ok(updated))
    case _ => Done(answer)
  }

  function Advance(w: World, policy: Policy, s: Store, ph: Phase): (Store, Phase) {
    match OpOf(ph)
    case None => (s, Look(w, policy, s, ph))
    case Some(op) => var (t, answer) := Do(w, s, op); (t, Settle(ph, answer))
  }

  function Happen(w: World, policy: Policy, sys: Sys, ev: Event): Sys {
    match ev
    case Publishing(p) => sys.(store := Publish(w, sys.store, p).0)
    case Begin(id, req) => if id in sys.calls then sys else sys.(calls := sys.calls[id := Ready(req)])
    case Act(id) =>
      if id !in sys.calls then sys
      else var (t, ph) := Advance(w, policy, sys.store, sys.calls[id]); Sys(t, sys.calls[id := ph])
  }

  function Run(w: World, policy: Policy, events: seq<Event>): Sys {
    if events == [] then Sys(EMPTY, map[])
    else Happen(w, policy, Run(w, policy, events[..|events| - 1]), events[|events| - 1])
  }

  function AfterEvent(pubs: Pubs, ev: Event): Pubs {
    if ev.Publishing? then First(pubs, ev.p) else pubs
  }

  /** Each version's first publication, read off the schedule alone. */
  function Published(events: seq<Event>): Pubs {
    if events == [] then map[] else AfterEvent(Published(events[..|events| - 1]), events[|events| - 1])
  }

  // ---- A call alone ----

  function Steps(w: World, policy: Policy, s: Store, ph: Phase, n: nat): (Store, Phase)
    decreases n
  {
    if n == 0 then (s, ph) else var (t, next) := Advance(w, policy, s, ph); Steps(w, policy, t, next, n - 1)
  }

  /** Undisturbed, the steps of a call add up to the whole call. */
  lemma SoloIsCall(w: World, policy: Policy, s: Store, req: Request)
    ensures Steps(w, policy, s, Ready(req), 4) == (Call(w, policy, s, req).0, Done(Call(w, policy, s, req).1))
  {
    hide Publish, SetStatus, LinkReplaces, SetHold, Purge, CheckReview;
    var (s1, p1) := Advance(w, policy, s, Ready(req));
    var (s2, p2) := Advance(w, policy, s1, p1);
    var (s3, p3) := Advance(w, policy, s2, p2);
    assert Steps(w, policy, s, Ready(req), 4) == Advance(w, policy, s3, p3) by {
      assert Steps(w, policy, s3, p3, 1) == Advance(w, policy, s3, p3) by {
        var last := Advance(w, policy, s3, p3);
        assert Steps(w, policy, last.0, last.1, 0) == last;
      }
      assert Steps(w, policy, s2, p2, 2) == Steps(w, policy, s3, p3, 1);
      assert Steps(w, policy, s1, p1, 3) == Steps(w, policy, s2, p2, 2);
    }
    if req.SupersedeReq? {
      SoloSupersede(s, req.key, req.actor, req.reason);
    }
  }

  lemma SoloSupersede(s: Store, key: Key, actor: Identity, reason: Option<string>)
    ensures key in s.rows && s.rows[key].status == Approved ==>
              SetStatus(s, key, Approved, Superseded, actor, reason).1.Ok?
  {
  }

  // ---- What the audit may say ----

  predicate ApprovedIn(audit: seq<Entry>, key: Key) {
    exists e :: e in audit && e.key == key && e.what == To(Approved)
  }

  predicate SupersededIn(audit: seq<Entry>, key: Key, actor: Identity) {
    exists e :: e in audit && e.key == key && e.what == To(Superseded) && e.actor == actor
  }

  predicate OtherApprovedIn(audit: seq<Entry>, key: Key) {
    exists e :: e in audit && e.key != key && e.what == To(Approved)
  }

  /** The review policy, judged against the version as it was published. */
  predicate ReviewStep(w: World, policy: Policy, p: Publication, from: Status, to: Status, actor: Identity,
                       reason: Option<string>)
  {
    && (|| (from == Draft && to == InReview) || (from == InReview && to in {Status.Approved, Status.Rejected, Draft})
        || (from == Status.Rejected && to == Draft))
    && match to
       case InReview => actor.HasRole(Analyst) && (policy.gateBeforeReview ==> w.gate(p.bytes))
       case Draft => Admin in actor.roles || p.analyst == Some(actor.id)
       case _ =>
         && actor.HasRole(Reviewer)
         && (policy.allowSelfReview || Admin in actor.roles || p.analyst != Some(actor.id))
         && (to == Rejected ==> HasReason(reason))
  }

  /** The lifecycle policy. A superseded version has a successor that was approved before. */
  predicate LifecycleStep(before: seq<Entry>, key: Key, from: Status, to: Status, actor: Identity, reason: Option<string>)
  {
    && (|| (from == Status.Approved && to in {Superseded, Recalled})
        || (from in {Recalled, Superseded} && to == Status.Approved))
    && match to
       case Superseded => actor.HasRole(Reviewer) && OtherApprovedIn(before, key)
       case Recalled => actor.HasRole(Reviewer) && HasReason(reason)
       case _ => Admin in actor.roles
  }

  /** Only an unapproved, unpurged version that is not under hold is purged. */
  predicate PurgeStep(before: seq<Entry>, key: Key, from: Status, to: Status, actor: Identity) {
    && to == Purged && from != Approved && from != Purged && Admin in actor.roles
    && Replay(before, key).Some? && !Replay(before, key).value.hold
  }

  predicate PurgedIn(audit: seq<Entry>, key: Key) {
    exists e :: e in audit && e.key == key && e.what == To(Purged)
  }

  predicate Lawful(w: World, policy: Policy, pubs: Pubs, before: seq<Entry>, e: Entry) {
    && e.key in pubs
    && match e.what
       case To(to) =>
         && !PurgedIn(before, e.key)
         && (match e.from
             case None => to == Draft && Replay(before, e.key) == Some(UNBORN)
             case Some(from) =>
               || ReviewStep(w, policy, pubs[e.key], from, to, e.actor, e.reason)
               || LifecycleStep(before, e.key, from, to, e.actor, e.reason)
               || PurgeStep(before, e.key, from, to, e.actor))
       case ReplacesLinked(replaced) => ApprovedIn(before, e.key) && SupersededIn(before, replaced, e.actor)
       case HoldSet => Admin in e.actor.roles && HasReason(e.reason)
       case HoldCleared => Admin in e.actor.roles
  }

  predicate AuditLawful(w: World, policy: Policy, pubs: Pubs, audit: seq<Entry>) {
    forall i :: 0 <= i < |audit| ==> Lawful(w, policy, pubs, audit[..i], audit[i])
  }

  predicate Submission(audit: seq<Entry>, j: nat, key: Key) {
    j < |audit| && audit[j].key == key && audit[j].from == Some(Draft) && audit[j].what == To(InReview)
  }

  predicate Approval(audit: seq<Entry>, i: nat, key: Key) {
    i < |audit| && audit[i].key == key && audit[i].from == Some(InReview) && audit[i].what == To(Approved)
  }

  predicate SubmittedIn(audit: seq<Entry>, key: Key) {
    exists j :: 0 <= j < |audit| && Submission(audit, j, key)
  }

  predicate ReviewedIn(audit: seq<Entry>, key: Key) {
    exists j, i :: 0 <= j < i < |audit| && Submission(audit, j, key) && Approval(audit, i, key)
  }

  predicate ApprovalsReviewed(audit: seq<Entry>) {
    forall i :: 0 <= i < |audit| && audit[i].what == To(Approved) ==> ReviewedIn(audit[..i + 1], audit[i].key)
  }

  /** What the live status says of the past. */
  predicate Histories(rows: map<Key, Row>, audit: seq<Entry>) {
    && (forall k :: k in rows && rows[k].status == InReview ==> SubmittedIn(audit, k))
    && (forall k :: k in rows && rows[k].status in {Approved, Superseded, Recalled} ==> ReviewedIn(audit, k))
    && (forall k :: k in rows ==> (rows[k].purged <==> rows[k].status == Purged))
    && (forall e :: e in audit && e.what == To(Purged) ==> e.key in rows && rows[e.key].purged)
  }

  /** What a call under way has made sure of: nothing another call can undo. */
  predicate PhaseOk(w: World, policy: Policy, pubs: Pubs, audit: seq<Entry>, ph: Phase) {
    match ph
    case Ready(_) => true
    case Done(_) => true
    case GateRead(req, from) =>
      req.ReviewReq? && req.to == InReview && from == Draft && req.key in pubs && req.actor.HasRole(Analyst)
    case GateOpen(req, from, sha) =>
      && req.ReviewReq? && req.to == InReview && from == Draft && req.key in pubs && req.actor.HasRole(Analyst)
      && sha == w.hash(pubs[req.key].bytes)
    case SuccessorRead(req) =>
      req.SupersedeReq? && req.key in pubs && req.successor != req.key && req.actor.HasRole(Reviewer)
    case Commit(req, from) =>
      && req.key in pubs
      && (if req.ReviewReq? then ReviewStep(w, policy, pubs[req.key], from, req.to, req.actor, req.reason)
          else LifecycleStep(audit, req.key, from, Target(req), req.actor, req.reason))
      && (req.SupersedeReq? ==> req.successor in pubs && ApprovedIn(audit, req.successor))
    case Linking(req, _) =>
      && req.SupersedeReq? && req.successor in pubs && ApprovedIn(audit, req.successor)
      && SupersededIn(audit, req.key, req.actor)
    case HoldWrite(req) =>
      req.HoldReq? && req.key in pubs && Admin in req.actor.roles && (req.hold ==> HasReason(req.reason))
    case PurgeWrite(req) => req.PurgeReq? && req.key in pubs && Admin in req.actor.roles
  }

  ghost predicate LogInv(w: World, policy: Policy, s: Store, pubs: Pubs) {
    && StoreInv(w, s, pubs) && Replayed(s)
    && AuditLawful(w, policy, pubs, s.audit) && Histories(s.rows, s.audit) && ApprovalsReviewed(s.audit)
  }

  ghost predicate Inv(w: World, policy: Policy, sys: Sys, pubs: Pubs) {
    && LogInv(w, policy, sys.store, pubs)
    && forall id :: id in sys.calls ==> PhaseOk(w, policy, pubs, sys.store.audit, sys.calls[id])
  }
}
