/** Review and lifecycle: each workflow call taken whole. */
module WorkflowSpec {
  import opened Wrappers
  import opened Text
  import opened Identity
  import opened StoreSpec

  datatype Policy = Policy(gateBeforeReview: bool, allowSelfReview: bool)

  const DEFAULT := Policy(true, false)

  const REVIEW: set<(Status, Status)> :=
    {(Draft, InReview), (InReview, Approved), (InReview, Rejected), (InReview, Draft), (Rejected, Draft)}

  const LIFECYCLE: set<(Status, Status)> :=
    {(Approved, Superseded), (Approved, Recalled), (Recalled, Approved), (Superseded, Approved)}

  datatype Request =
    | ReviewReq(key: Key, to: Status, actor: Identity, reason: Option<string>)
    | SupersedeReq(key: Key, successor: Key, actor: Identity, reason: Option<string>)
    | RecallReq(key: Key, actor: Identity, reason: Option<string>)
    | RestoreReq(key: Key, actor: Identity, reason: Option<string>)
    | HoldReq(key: Key, hold: bool, actor: Identity, reason: Option<string>)
    | PurgeReq(key: Key, actor: Identity, reason: Option<string>)

  /** The checks of a review transition that look at the record alone, not at the stored bytes. */
  function CheckReview(policy: Policy, analyst: Option<string>, to: Status, actor: Identity, reason: Option<string>)
    : Option<Error>
  {
    match to
    case InReview => if actor.HasRole(Analyst) then None else Some(WrongRole)
    case Draft => if Admin in actor.roles || analyst == Some(actor.id) then None else Some(NotOwner)
    case _ =>
      if !actor.HasRole(Reviewer) then Some(WrongRole)
      else if !policy.allowSelfReview && !actor.HasRole(Admin) && analyst == Some(actor.id) then Some(SelfReview)
      else if to == Rejected && !HasReason(reason) then Some(NeedsReason)
      else None
  }

  predicate NeedsGate(policy: Policy, to: Status) { to == InReview && policy.gateBeforeReview }

  function CheckGate(w: World, bytes: Result<Bytes, Error>): Option<Error> {
    match bytes
    case Err(e) => Some(e)
    case Ok(b) => if w.gate(b) then None else Some(GateFails)
  }

  function Review(w: World, policy: Policy, s: Store, key: Key, to: Status, actor: Identity, reason: Option<string>)
    : (Store, Answer)
  {
    if key !in s.rows then (s, Err(Missing))
    else
      var record := s.rows[key];
      if (record.status, to) !in REVIEW then (s, Err(NotAllowed))
      else
        match CheckReview(policy, record.analyst, to, actor, reason)
        case Some(e) => (s, Err(e))
        case None =>
          match if NeedsGate(policy, to) then CheckGate(w, Extract(s, key)) else None
          case Some(e) => (s, Err(e))
          case None => SetStatus(s, key, record.status, to, actor, reason)
  }

  /** The guards of `supersede` on its own record. */
  function CheckSupersede(s: Store, key: Key, successor: Key, actor: Identity): Option<Error> {
    if key !in s.rows then Some(Missing)
    else if (s.rows[key].status, Superseded) !in LIFECYCLE then Some(NotAllowed)
    else if !(actor.HasRole(Reviewer) || actor.HasRole(Admin)) then Some(WrongRole)
    else if successor == key then Some(SelfSuccession)
    else None
  }

  predicate IsApprovedRow(s: Store, key: Key) { key in s.rows && s.rows[key].status == Approved }

  function Supersede(s: Store, key: Key, successor: Key, actor: Identity, reason: Option<string>): (Store, Answer) {
    match CheckSupersede(s, key, successor, actor)
    case Some(e) => (s, Err(e))
    case None =>
      if !IsApprovedRow(s, successor) then (s, Err(BadSuccessor))
      else
        var (t, updated) := SetStatus(s, key, Approved, Superseded, actor, reason);
        if updated.Err? then (t, updated) else (LinkReplaces(t, successor, key, actor).0, updated)
  }

  function CheckRecall(s: Store, key: Key, actor: Identity, reason: Option<string>): Option<Error> {
    if key !in s.rows then Some(Missing)
    else if (s.rows[key].status, Recalled) !in LIFECYCLE then Some(NotAllowed)
    else if !(actor.HasRole(Reviewer) || actor.HasRole(Admin)) then Some(WrongRole)
    else if !HasReason(reason) then Some(NeedsReason)
    else None
  }

  function CheckRestore(s: Store, key: Key, actor: Identity): Option<Error> {
    if key !in s.rows then Some(Missing)
    else if s.rows[key].status !in {Recalled, Superseded} then Some(NotAllowed)
    else if !actor.HasRole(Admin) then Some(WrongRole)
    else None
  }

  function CheckHold(s: Store, key: Key, hold: bool, actor: Identity, reason: Option<string>): Option<Error> {
    if key !in s.rows then Some(Missing)
    else if !actor.HasRole(Admin) then Some(WrongRole)
    else if hold && !HasReason(reason) then Some(NeedsReason)
    else None
  }

  function CheckPurge(s: Store, key: Key, actor: Identity): Option<Error> {
    if key !in s.rows then Some(Missing)
    else if !actor.HasRole(Admin) then Some(WrongRole)
    else if s.rows[key].status == Approved then Some(IsApproved)
    else if s.rows[key].hold then Some(IsHeld)
    else None
  }

  function Recall(s: Store, key: Key, actor: Identity, reason: Option<string>): (Store, Answer) {
    match CheckRecall(s, key, actor, reason)
    case Some(e) => (s, Err(e))
    case None => SetStatus(s, key, Approved, Recalled, actor, reason)
  }

  function Restore(s: Store, key: Key, actor: Identity, reason: Option<string>): (Store, Answer) {
    match CheckRestore(s, key, actor)
    case Some(e) => (s, Err(e))
    case None => SetStatus(s, key, s.rows[key].status, Approved, actor, reason)
  }

  function Hold(s: Store, key: Key, hold: bool, actor: Identity, reason: Option<string>): (Store, Answer) {
    match CheckHold(s, key, hold, actor, reason)
    case Some(e) => (s, Err(e))
    case None => SetHold(s, key, hold, reason, actor)
  }

  function PurgeChecked(s: Store, key: Key, actor: Identity, reason: Option<string>): (Store, Answer) {
    match CheckPurge(s, key, actor)
    case Some(e) => (s, Err(e))
    case None => Purge(s, key, actor, reason)
  }

  /** One whole call, nobody interfering. */
  function Call(w: World, policy: Policy, s: Store, req: Request): (Store, Answer) {
    match req
    case ReviewReq(key, to, actor, reason) => Review(w, policy, s, key, to, actor, reason)
    case SupersedeReq(key, successor, actor, reason) => Supersede(s, key, successor, actor, reason)
    case RecallReq(key, actor, reason) => Recall(s, key, actor, reason)
    case RestoreReq(key, actor, reason) => Restore(s, key, actor, reason)
    case HoldReq(key, hold, actor, reason) => Hold(s, key, hold, actor, reason)
    case PurgeReq(key, actor, reason) => PurgeChecked(s, key, actor, reason)
  }
}

/** The two workflow objects over one store. */
module Workflows {
  import opened Wrappers
  import opened Text
  import opened Identity
  import opened StoreSpec
  import opened PackageStores
  import opened WorkflowSpec

  class ReviewWorkflow {
    const store: PackageStore
    const policy: Policy

    constructor (store: PackageStore, policy: Policy)
      ensures this.store == store && this.policy == policy
    {
      this.store := store;
      this.policy := policy;
    }

    method Transition(key: Key, to: Status, actor: Identity, reason: Option<string>, ghost g: Store)
      returns (r: Answer)
      requires store.Shows(g)
      modifies store
      ensures var (h, res) := Review(store.w, policy, g, key, to, actor, reason); r == res && store.Shows(h)
    {
      var got := store.Get(key);
      if got.None? { return Err(Missing); }
      var record := got.value;
      if (record.status, to) !in REVIEW { return Err(NotAllowed); }
      var refusal: Option<Error>;
      if to == InReview {
        refusal := CheckSubmit(key, record, actor, g);
      } else if to == Approved || to == Rejected {
        refusal := CheckDecide(record, actor, to, reason);
      } else {
        refusal := CheckPullback(record, actor);
      }
      if refusal.Some? { return Err(refusal.value); }
      r := store.SetStatus(key, record.status, to, actor, reason, g);
    }

    method CheckSubmit(key: Key, record: Row, actor: Identity, ghost g: Store) returns (r: Option<Error>)
      requires store.Shows(g)
      ensures r == match CheckReview(policy, record.analyst, InReview, actor, None)
                   case Some(e) => Some(e)
                   case None => if policy.gateBeforeReview then CheckGate(store.w, Extract(g, key)) else None
    {
      if !actor.HasRole(Analyst) { return Some(WrongRole); }
      if policy.gateBeforeReview {
        var bytes := store.Extract(key, g);
        if bytes.Err? { return Some(bytes.error); }
        if !store.w.gate(bytes.value) { return Some(GateFails); }
      }
      r := None;
    }

    method CheckDecide(record: Row, actor: Identity, to: Status, reason: Option<string>) returns (r: Option<Error>)
      requires to == Approved || to == Rejected
      ensures r == CheckReview(policy, record.analyst, to, actor, reason)
    {
      if !actor.HasRole(Reviewer) { return Some(WrongRole); }
      if !policy.allowSelfReview && !actor.HasRole(Admin) && record.analyst.Some? && actor.id == record.analyst.value {
        return Some(SelfReview);
      }
      if to == Rejected && !HasReason(reason) { return Some(NeedsReason); }
      r := None;
    }

    method CheckPullback(record: Row, actor: Identity) returns (r: Option<Error>)
      ensures r == CheckReview(policy, record.analyst, Draft, actor, None)
    {
      if actor.HasRole(Admin) { return None; }
      if record.analyst.Some? && actor.id == record.analyst.value { return None; }
      r := Some(NotOwner);
    }
  }

  class LifecycleWorkflow {
    const store: PackageStore

    constructor (store: PackageStore)
      ensures this.store == store
    {
      this.store := store;
    }

    method Supersede(key: Key, successor: Key, actor: Identity, reason: Option<string>, ghost g: Store)
      returns (r: Answer)
      requires store.Shows(g)
      modifies store
      ensures var (h, res) := WorkflowSpec.Supersede(g, key, successor, actor, reason); r == res && store.Shows(h)
    {
      var record := store.Get(key);
      if record.None? { return Err(Missing); }
      if (record.value.status, Superseded) !in LIFECYCLE { return Err(NotAllowed); }
      if !(actor.HasRole(Reviewer) || actor.HasRole(Admin)) { return Err(WrongRole); }
      if successor == key { return Err(SelfSuccession); }
      var next := store.Get(successor);
      if next.None? || next.value.status != Approved { return Err(BadSuccessor); }
      r := store.SetStatus(key, Approved, Superseded, actor, reason, g);
      if r.Err? { return; }
      ghost var t := StoreSpec.SetStatus(g, key, Approved, Superseded, actor, reason).0;
      var _ := store.LinkReplaces(successor, key, actor, t);
    }

    method Recall(key: Key, actor: Identity, reason: Option<string>, ghost g: Store) returns (r: Answer)
      requires store.Shows(g)
      modifies store
      ensures var (h, res) := WorkflowSpec.Recall(g, key, actor, reason); r == res && store.Shows(h)
    {
      var record := store.Get(key);
      if record.None? { return Err(Missing); }
      if (record.value.status, Recalled) !in LIFECYCLE { return Err(NotAllowed); }
      if !(actor.HasRole(Reviewer) || actor.HasRole(Admin)) { return Err(WrongRole); }
      if !HasReason(reason) { return Err(NeedsReason); }
      r := store.SetStatus(key, Approved, Recalled, actor, reason, g);
    }

    method Restore(key: Key, actor: Identity, reason: Option<string>, ghost g: Store) returns (r: Answer)
      requires store.Shows(g)
      modifies store
      ensures var (h, res) := WorkflowSpec.Restore(g, key, actor, reason); r == res && store.Shows(h)
    {
      var record := store.Get(key);
      if record.None? { return Err(Missing); }
      if record.value.status !in {Recalled, Superseded} { return Err(NotAllowed); }
      if !actor.HasRole(Admin) { return Err(WrongRole); }
      r := store.SetStatus(key, record.value.status, Approved, actor, reason, g);
    }

    method SetLegalHold(key: Key, hold: bool, reason: Option<string>, actor: Identity, ghost g: Store)
      returns (r: Answer)
      requires store.Shows(g)
      modifies store
      ensures var (h, res) := Hold(g, key, hold, actor, reason); r == res && store.Shows(h)
    {
      var record := store.Get(key);
      if record.None? { return Err(Missing); }
      if !actor.HasRole(Admin) { return Err(WrongRole); }
      if hold && !HasReason(reason) { return Err(NeedsReason); }
      r := store.SetLegalHold(key, hold, reason, actor, g);
    }

    method Purge(key: Key, actor: Identity, reason: Option<string>, ghost g: Store) returns (r: Answer)
      requires store.Shows(g)
      modifies store, store.blobStore
      ensures var (h, res) := PurgeChecked(g, key, actor, reason); r == res && store.Shows(h)
    {
      var record := store.Get(key);
      if record.None? { return Err(Missing); }
      if !actor.HasRole(Admin) { return Err(WrongRole); }
      if record.value.status == Approved { return Err(IsApproved); }
      if record.value.hold { return Err(IsHeld); }
      r := store.Purge(key, actor, reason, g);
    }
  }
}
