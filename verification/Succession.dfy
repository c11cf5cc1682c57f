/** Who superseded whom: over every run of whole calls following successors goes forward and ends. */
module Succession {
  import opened Wrappers
  import opened Identity
  import opened StoreSpec
  import opened WorkflowSpec
  import opened Interleavings

  /** A whole route: a publish, or a workflow call nobody interferes with. */
  datatype Whole = Pub(p: Publication) | Ask(req: Request)

  function Take(w: World, policy: Policy, s: Store, call: Whole): Store {
    match call
    case Pub(p) => Publish(w, s, p).0
    case Ask(req) => Call(w, policy, s, req).0
  }

  function RunWhole(w: World, policy: Policy, calls: seq<Whole>): Store {
    if calls == [] then EMPTY
    else Take(w, policy, RunWhole(w, policy, calls[..|calls| - 1]), calls[|calls| - 1])
  }

  datatype Link = Link(replaced: Key, successor: Key)

  /** The links supersede recorded, oldest first. */
  function Links(audit: seq<Entry>): seq<Link> {
    if audit == [] then []
    else
      var e := audit[|audit| - 1];
      Links(audit[..|audit| - 1]) + if e.what.ReplacesLinked? then [Link(e.what.replaced, e.key)] else []
  }

  function StatusIn(rows: map<Key, Row>, k: Key): Option<Status> {
    if k in rows then Some(rows[k].status) else None
  }

  function PredecessorIn(rows: map<Key, Row>, k: Key): Option<Key> {
    if k in rows then rows[k].predecessor else None
  }

  predicate Out(rows: map<Key, Row>, k: Key) {
    StatusIn(rows, k) == Some(Superseded) || StatusIn(rows, k) == Some(Purged)
  }

  // ---- What one whole call does to statuses and links ----

  /** A call that records no link supersedes nothing. */
  ghost predicate Quiet(s: Store, t: Store) {
    && Links(t.audit) == Links(s.audit)
    && (forall k :: StatusIn(t.rows, k) == Some(Superseded) ==> StatusIn(s.rows, k) == Some(Superseded))
    && (forall k :: PredecessorIn(t.rows, k) == PredecessorIn(s.rows, k))
  }

  /** A call that records a link supersedes one approved version by another, and changes nothing else. */
  ghost predicate Linked(s: Store, t: Store, key: Key, successor: Key) {
    && key != successor
    && StatusIn(s.rows, key) == Some(Approved) && StatusIn(s.rows, successor) == Some(Approved)
    && Links(t.audit) == Links(s.audit) + [Link(key, successor)]
    && (forall k :: StatusIn(t.rows, k) == if k == key then Some(Superseded) else StatusIn(s.rows, k))
    && (forall k :: PredecessorIn(t.rows, k) == if k == successor then Some(key) else PredecessorIn(s.rows, k))
  }

  lemma PublishIsQuiet(w: World, s: Store, p: Publication)
    ensures Quiet(s, Publish(w, s, p).0)
    ensures forall k :: Out(s.rows, k) ==> Out(Publish(w, s, p).0.rows, k)
  {
  }

  lemma SetStatusIsQuiet(s: Store, key: Key, from: Status, to: Status, actor: Identity, reason: Option<string>)
    requires to != Superseded
    ensures Quiet(s, SetStatus(s, key, from, to, actor, reason).0)
    ensures from != Superseded && from != Purged ==>
              forall k :: Out(s.rows, k) ==> Out(SetStatus(s, key, from, to, actor, reason).0.rows, k)
  {
  }

  lemma HoldIsQuiet(s: Store, key: Key, hold: bool, reason: Option<string>, actor: Identity)
    ensures Quiet(s, SetHold(s, key, hold, reason, actor).0)
    ensures forall k :: Out(s.rows, k) ==> Out(SetHold(s, key, hold, reason, actor).0.rows, k)
  {
  }

  lemma PurgeIsQuiet(s: Store, key: Key, actor: Identity, reason: Option<string>)
    ensures Quiet(s, Purge(s, key, actor, reason).0)
    ensures forall k :: Out(s.rows, k) ==> Out(Purge(s, key, actor, reason).0.rows, k)
  {
  }

  lemma SupersedeShape(s: Store, key: Key, successor: Key, actor: Identity, reason: Option<string>)
    ensures
      var (t, answer) := Supersede(s, key, successor, actor, reason);
      if answer.Ok? then Linked(s, t, key, successor) else t == s
  {
  }

  lemma TakeShape(w: World, policy: Policy, s: Store, call: Whole)
    ensures
      var t := Take(w, policy, s, call);
      || (call.Ask? && call.req.SupersedeReq? && Linked(s, t, call.req.key, call.req.successor))
      || (Quiet(s, t) && (!(call.Ask? && call.req.RestoreReq?) ==> forall k :: Out(s.rows, k) ==> Out(t.rows, k)))
  {
    hide Quiet, Linked, Out, SetStatus, Supersede, SetHold, Purge, Publish, CheckReview, CheckGate;
    NothingIsQuiet(s);
    match call
    case Pub(p) => PublishIsQuiet(w, s, p);
    case Ask(req) =>
      match req
      case ReviewReq(key, to, actor, reason) =>
        if key in s.rows && (s.rows[key].status, to) in REVIEW {
          SetStatusIsQuiet(s, key, s.rows[key].status, to, actor, reason);
        }
      case SupersedeReq(key, successor, actor, reason) => SupersedeShape(s, key, successor, actor, reason);
      case RecallReq(key, actor, reason) => SetStatusIsQuiet(s, key, Approved, Recalled, actor, reason);
      case RestoreReq(key, actor, reason) =>
        if key in s.rows { SetStatusIsQuiet(s, key, s.rows[key].status, Approved, actor, reason); }
      case HoldReq(key, hold, actor, reason) => HoldIsQuiet(s, key, hold, reason, actor);
      case PurgeReq(key, actor, reason) => PurgeIsQuiet(s, key, actor, reason);
  }

  lemma NothingIsQuiet(s: Store)
    ensures Quiet(s, s)
  {
  }

  // ---- Following successors ----

  /** The newest link that names `k` as superseded. */
  function LastOf(links: seq<Link>, k: Key): (i: Option<nat>)
    ensures i.Some? ==> i.value < |links| && links[i.value].replaced == k
    ensures i.Some? ==> forall j :: i.value < j < |links| ==> links[j].replaced != k
    ensures i.None? ==> forall j :: 0 <= j < |links| ==> links[j].replaced != k
  {
    if links == [] then None
    else if links[|links| - 1].replaced == k then Some(|links| - 1)
    else LastOf(links[..|links| - 1], k)
  }

  /** The newest link that names `k` as successor: what the `replaces_*` columns hold. */
  function Column(links: seq<Link>, k: Key): Option<Key> {
    if links == [] then None
    else if links[|links| - 1].successor == k then Some(links[|links| - 1].replaced)
    else Column(links[..|links| - 1], k)
  }

  /** Each member of `live` has a link, and a member that succeeds it was itself superseded later. */
  predicate Forward(links: seq<Link>, live: set<Key>) {
    forall k :: k in live ==>
      && LastOf(links, k).Some?
      && var i := LastOf(links, k).value;
         links[i].successor in live ==>
           LastOf(links, links[i].successor).Some? && LastOf(links, links[i].successor).value > i
  }

  /** A walk from each member of `live` to its latest successor. */
  predicate Walk(links: seq<Link>, live: set<Key>, p: seq<Key>) {
    forall n :: 0 <= n < |p| - 1 ==>
      p[n] in live && LastOf(links, p[n]).Some? && links[LastOf(links, p[n]).value].successor == p[n + 1]
  }

  /** Following successors for as long as there are any ends. */
  function Trail(links: seq<Link>, live: set<Key>, k: Key): (p: seq<Key>)
    requires Forward(links, live)
    ensures p != [] && p[0] == k && Walk(links, live, p) && p[|p| - 1] !in live
    decreases if k in live then |links| - LastOf(links, k).value else 0
  {
    if k !in live then [k]
    else
      var next := links[LastOf(links, k).value].successor;
      var rest := Trail(links, live, next);
      assert forall n :: 0 < n < |rest| ==> ([k] + rest)[n] == rest[n - 1];
      [k] + rest
  }

  /** A walk never comes back to where it was. */
  lemma {:induction false} NoReturn(links: seq<Link>, live: set<Key>, p: seq<Key>, a: nat, b: nat)
    requires Forward(links, live) && Walk(links, live, p) && a < b < |p|
    ensures p[a] != p[b]
    ensures p[b] in live ==> LastOf(links, p[a]).value < LastOf(links, p[b]).value
    decreases b
  {
    hide LastOf;
    if a < b - 1 { NoReturn(links, live, p, a, b - 1); }
    assert p[b - 1] in live && links[LastOf(links, p[b - 1]).value].successor == p[b];
    if p[b] !in live { assert p[a] in live; }
  }

  // ---- Without restore: the whole recorded relation ----

  predicate NoRestore(calls: seq<Whole>) {
    forall c :: c in calls ==> !(c.Ask? && c.req.RestoreReq?)
  }

  /** A walk from version to successor along recorded links. */
  predicate Recorded(links: seq<Link>, p: seq<Key>) {
    forall n :: 0 <= n < |p| - 1 ==> Link(p[n], p[n + 1]) in links
  }

  /** No walk along recorded links comes back to a version. */
  ghost predicate Acyclic(links: seq<Link>) {
    forall p, a, b :: Recorded(links, p) && 0 <= a < b < |p| ==> p[a] != p[b]
  }

  function Replaced(links: seq<Link>): set<Key> {
    set l | l in links :: l.replaced
  }

  /** Each version is superseded once, and never succeeds another afterwards. */
  predicate Ordered(links: seq<Link>) {
    && (forall i, j :: 0 <= i < j < |links| ==> links[i].replaced != links[j].replaced)
    && (forall i, j :: 0 <= i <= j < |links| ==> links[i].replaced != links[j].successor)
  }

  ghost predicate OnceInv(s: Store) {
    && Ordered(Links(s.audit))
    && (forall l :: l in Links(s.audit) ==> Out(s.rows, l.replaced))
    && (forall k :: StatusIn(s.rows, k) == Some(Superseded) ==> k in Replaced(Links(s.audit)))
  }

  lemma OrderedGrows(links: seq<Link>, l: Link)
    requires Ordered(links) && l.replaced != l.successor
    requires forall m :: m in links ==> m.replaced != l.replaced && m.replaced != l.successor
    ensures Ordered(links + [l])
  {
  }

  lemma TakeKeepsOnce(w: World, policy: Policy, s: Store, call: Whole)
    requires OnceInv(s) && !(call.Ask? && call.req.RestoreReq?)
    ensures OnceInv(Take(w, policy, s, call))
  {
    hide Take, Links, Ordered;
    var t := Take(w, policy, s, call);
    TakeShape(w, policy, s, call);
    if call.Ask? && call.req.SupersedeReq? && Linked(s, t, call.req.key, call.req.successor) {
      var l := Link(call.req.key, call.req.successor);
      OrderedGrows(Links(s.audit), l);
      assert l in Links(t.audit);
    }
  }

  lemma {:induction false} RunIsOnce(w: World, policy: Policy, calls: seq<Whole>)
    requires NoRestore(calls)
    ensures OnceInv(RunWhole(w, policy, calls))
  {
    if calls != [] {
      var last := calls[|calls| - 1];
      assert last in calls;
      RunIsOnce(w, policy, calls[..|calls| - 1]);
      TakeKeepsOnce(w, policy, RunWhole(w, policy, calls[..|calls| - 1]), last);
    }
  }

  lemma OrderedIsForward(links: seq<Link>)
    requires Ordered(links)
    ensures Forward(links, Replaced(links))
    ensures forall l :: l in links ==> l.replaced in Replaced(links)
    ensures forall l :: l in links ==> LastOf(links, l.replaced).Some?
    ensures forall l :: l in links ==> links[LastOf(links, l.replaced).value] == l
  {
  }

  /** Over every run of whole calls without restore: each superseded version has exactly one recorded
      successor; following recorded successors never returns to a version; and from any superseded
      version it ends at one that is not superseded. */
  lemma SuccessionIsAcyclic(w: World, policy: Policy, calls: seq<Whole>)
    requires NoRestore(calls)
    ensures
      var s := RunWhole(w, policy, calls);
      var links := Links(s.audit);
      && (forall l, m :: l in links && m in links && l.replaced == m.replaced ==> l == m)
      && Acyclic(links)
      && Forward(links, Replaced(links))
      && (forall k :: k in Replaced(links) ==> StatusIn(s.rows, Last(Trail(links, Replaced(links), k))) != Some(Superseded))
  {
    hide RunWhole, Links, Ordered, LastOf, Forward, Trail, Acyclic;
    RunIsOnce(w, policy, calls);
    var s := RunWhole(w, policy, calls);
    OrderedIsForward(Links(s.audit));
    OrderedIsAcyclic(Links(s.audit));
  }

  lemma OrderedIsAcyclic(links: seq<Link>)
    requires Ordered(links)
    ensures Acyclic(links)
  {
    hide Ordered, LastOf, Forward;
    var live := Replaced(links);
    OrderedIsForward(links);
    forall p, a, b | Recorded(links, p) && 0 <= a < b < |p|
      ensures p[a] != p[b]
    {
      forall n | 0 <= n < |p| - 1
        ensures p[n] in live && LastOf(links, p[n]).Some? && links[LastOf(links, p[n]).value].successor == p[n + 1]
      {
        assert Link(p[n], p[n + 1]).replaced in live;
      }
      NoReturn(links, live, p, a, b);
    }
  }

  function Last(p: seq<Key>): Key
    requires p != []
  {
    p[|p| - 1]
  }

  // ---- With restore: the links that still hold ----

  ghost predicate LiveInv(s: Store) {
    && (forall k :: PredecessorIn(s.rows, k) == Column(Links(s.audit), k))
    && Forward(Links(s.audit), Gone(s.rows))
  }

  function Gone(rows: map<Key, Row>): set<Key> {
    set k | k in rows && rows[k].status == Superseded
  }

  lemma LastOfAppend(links: seq<Link>, l: Link, k: Key)
    ensures LastOf(links + [l], k) == if l.replaced == k then Some(|links|) else LastOf(links, k)
    ensures Column(links + [l], k) == if l.successor == k then Some(l.replaced) else Column(links, k)
  {
  }

  lemma ForwardShrinks(links: seq<Link>, live: set<Key>, fewer: set<Key>)
    requires Forward(links, live) && fewer <= live
    ensures Forward(links, fewer)
  {
  }

  lemma ForwardGrows(links: seq<Link>, live: set<Key>, l: Link)
    requires Forward(links, live) && l.replaced !in live && l.successor !in live && l.replaced != l.successor
    ensures Forward(links + [l], live + {l.replaced})
  {
  }

  lemma TakeKeepsLive(w: World, policy: Policy, s: Store, call: Whole)
    requires LiveInv(s)
    ensures LiveInv(Take(w, policy, s, call))
  {
    hide Take, Links, Forward, Column, LastOf;
    var t := Take(w, policy, s, call);
    TakeShape(w, policy, s, call);
    if call.Ask? && call.req.SupersedeReq? && Linked(s, t, call.req.key, call.req.successor) {
      var l := Link(call.req.key, call.req.successor);
      ForwardGrows(Links(s.audit), Gone(s.rows), l);
      GoneIs(s.rows, t.rows, call.req.key);
      forall k
        ensures PredecessorIn(t.rows, k) == Column(Links(t.audit), k)
      {
        LastOfAppend(Links(s.audit), l, k);
      }
    } else {
      assert Gone(t.rows) <= Gone(s.rows) by {
        assert forall k :: k in Gone(t.rows) ==> StatusIn(t.rows, k) == Some(Superseded);
      }
      ForwardShrinks(Links(s.audit), Gone(s.rows), Gone(t.rows));
    }
  }

  lemma GoneIs(rows: map<Key, Row>, after: map<Key, Row>, key: Key)
    requires forall k :: StatusIn(after, k) == if k == key then Some(Superseded) else StatusIn(rows, k)
    ensures Gone(after) == Gone(rows) + {key}
  {
    assert forall k :: k in Gone(after) <==> StatusIn(after, k) == Some(Superseded);
    assert forall k :: k in Gone(rows) <==> StatusIn(rows, k) == Some(Superseded);
  }

  /** Over every run of whole calls, restore included: the replaces columns hold the newest link to each
      version, and from any superseded version following the latest successors of superseded versions
      never returns and ends at a version that is not superseded. */
  lemma {:induction false} LiveSuccessionEnds(w: World, policy: Policy, calls: seq<Whole>)
    ensures
      var s := RunWhole(w, policy, calls);
      && (forall k :: PredecessorIn(s.rows, k) == Column(Links(s.audit), k))
      && Forward(Links(s.audit), Gone(s.rows))
      && (forall k :: StatusIn(s.rows, Last(Trail(Links(s.audit), Gone(s.rows), k))) != Some(Superseded))
      && (forall p, a, b :: Walk(Links(s.audit), Gone(s.rows), p) && 0 <= a < b < |p| ==> p[a] != p[b])
  {
    hide Take, Trail, Walk, LastOf;
    if calls != [] {
      LiveSuccessionEnds(w, policy, calls[..|calls| - 1]);
      TakeKeepsLive(w, policy, RunWhole(w, policy, calls[..|calls| - 1]), calls[|calls| - 1]);
    }
    var s := RunWhole(w, policy, calls);
    forall p, a, b | Walk(Links(s.audit), Gone(s.rows), p) && 0 <= a < b < |p|
      ensures p[a] != p[b]
    {
      NoReturn(Links(s.audit), Gone(s.rows), p, a, b);
    }
  }

  // ---- What interleaving breaks ----

  /** Two supersedes, each read while the other's version was still approved, supersede each other: both
      versions are gone and each one's column names the other. */
  lemma InterleavedSupersedesCycle(w: World, policy: Policy, s: Store, x: Key, y: Key, actor: Identity)
    requires x != y && IsApprovedRow(s, x) && IsApprovedRow(s, y) && actor.HasRole(Reviewer)
    ensures
      var a, b := Ready(SupersedeReq(x, y, actor, None)), Ready(SupersedeReq(y, x, actor, None));
      var (a2, b2) := (Steps(w, policy, s, a, 2).1, Steps(w, policy, s, b, 2).1);
      var (s1, a3) := Advance(w, policy, s, a2);
      var (s2, b3) := Advance(w, policy, s1, b2);
      var (s3, a4) := Advance(w, policy, s2, a3);
      var (s4, b4) := Advance(w, policy, s3, b3);
      && Steps(w, policy, s, a, 2).0 == s && Steps(w, policy, s, b, 2).0 == s
      && a4.Done? && a4.answer.Ok? && b4.Done? && b4.answer.Ok?
      && StatusIn(s4.rows, x) == Some(Superseded) && StatusIn(s4.rows, y) == Some(Superseded)
      && PredecessorIn(s4.rows, y) == Some(x) && PredecessorIn(s4.rows, x) == Some(y)
      && Links(s4.audit) == Links(s.audit) + [Link(x, y), Link(y, x)]
  {
    hide Links;
    var audit := s.audit + [Entry(x, Some(Approved), To(Superseded), actor, None)];
    var later := audit + [Entry(y, Some(Approved), To(Superseded), actor, None)];
    LinksAppend(s.audit, Entry(x, Some(Approved), To(Superseded), actor, None));
    LinksAppend(audit, Entry(y, Some(Approved), To(Superseded), actor, None));
    LinksAppend(later, Entry(y, None, ReplacesLinked(x), actor, None));
    LinksAppend(later + [Entry(y, None, ReplacesLinked(x), actor, None)], Entry(x, None, ReplacesLinked(y), actor, None));
  }

  lemma LinksAppend(audit: seq<Entry>, e: Entry)
    ensures Links(audit + [e]) == Links(audit) + if e.what.ReplacesLinked? then [Link(e.what.replaced, e.key)] else []
  {
  }
}
