/** What every run of store calls keeps: the blobs counted, the first bytes readable, the audit a full record. */
module StoreRuns {
  import opened Wrappers
  import opened Identity
  import opened StoreSpec

  datatype Op =
    | DoPublish(p: Publication)
    | DoSetStatus(key: Key, from: Status, to: Status, actor: Identity, reason: Option<string>)
    | DoLink(key: Key, replaced: Key, actor: Identity)
    | DoHold(key: Key, hold: bool, reason: Option<string>, actor: Identity)
    | DoPurge(key: Key, actor: Identity, reason: Option<string>)

  function Do(w: World, s: Store, op: Op): (Store, Answer) {
    match op
    case DoPublish(p) => Publish(w, s, p)
    case DoSetStatus(key, from, to, actor, reason) => SetStatus(s, key, from, to, actor, reason)
    case DoLink(key, replaced, actor) => LinkReplaces(s, key, replaced, actor)
    case DoHold(key, hold, reason, actor) => SetHold(s, key, hold, reason, actor)
    case DoPurge(key, actor, reason) => Purge(s, key, actor, reason)
  }

  function RunOps(w: World, ops: seq<Op>): Store {
    if ops == [] then EMPTY else Do(w, RunOps(w, ops[..|ops| - 1]), ops[|ops| - 1]).0
  }

  type Pubs = map<Key, Publication>

  /** A publication counts if its key is well-formed and new. */
  function First(pubs: Pubs, p: Publication): Pubs {
    if ValidKey(p.key) && p.key !in pubs then pubs[p.key := p] else pubs
  }

  function AfterOp(pubs: Pubs, op: Op): Pubs {
    if op.DoPublish? then First(pubs, op.p) else pubs
  }

  /** Each version's first publication, read off the calls alone. */
  function Publications(ops: seq<Op>): Pubs {
    if ops == [] then map[] else AfterOp(Publications(ops[..|ops| - 1]), ops[|ops| - 1])
  }

  predicate Referenced(rows: map<Key, Row>, sha: string) {
    exists k :: k in rows && rows[k].sha == sha && !rows[k].purged
  }

  predicate FromPublication(w: World, row: Row, p: Publication) {
    && row.sha == w.hash(p.bytes) && (!row.purged ==> row.analyst == p.analyst)
    && row.publisher == p.actor && row.gatePass == match p.report case Some(pass) => pass case None => w.gate(p.bytes)
  }

  predicate RowsPublished(w: World, rows: map<Key, Row>, pubs: Pubs) {
    rows.Keys == pubs.Keys && forall k :: k in rows ==> FromPublication(w, rows[k], pubs[k])
  }

  /** A blob is present exactly when some unpurged row names its hash, and hashes to its name. */
  ghost predicate BlobsCounted(w: World, rows: map<Key, Row>, blobs: map<string, Bytes>) {
    && (forall h :: h in blobs <==> Referenced(rows, h))
    && (forall h :: h in blobs ==> w.hash(blobs[h]) == h)
  }

  ghost predicate StoreInv(w: World, s: Store, pubs: Pubs) {
    RowsPublished(w, s.rows, pubs) && BlobsCounted(w, s.rows, s.blobs)
  }

  /** Changing a row but not its hash or tombstone changes no reference. */
  lemma SameReferences(rows: map<Key, Row>, key: Key, row: Row)
    requires key in rows && row.sha == rows[key].sha && row.purged == rows[key].purged
    ensures forall h :: Referenced(rows[key := row], h) <==> Referenced(rows, h)
  {
    var after := rows[key := row];
    forall h
      ensures Referenced(after, h) <==> Referenced(rows, h)
    {
      if Referenced(rows, h) {
        var k :| k in rows && rows[k].sha == h && !rows[k].purged;
        assert k in after && after[k].sha == h && !after[k].purged;
      }
      if Referenced(after, h) {
        var k :| k in after && after[k].sha == h && !after[k].purged;
        assert k in rows && rows[k].sha == h && !rows[k].purged;
      }
    }
  }

  lemma PublishCounts(w: World, s: Store, pubs: Pubs, p: Publication)
    requires StoreInv(w, s, pubs)
    ensures StoreInv(w, Publish(w, s, p).0, First(pubs, p))
  {
    if ValidKey(p.key) && p.key !in s.rows {
      var after := Publish(w, s, p).0;
      var row := after.rows[p.key];
      forall h
        ensures Referenced(after.rows, h) <==> Referenced(s.rows, h) || h == row.sha
      {
        if Referenced(s.rows, h) {
          var k :| k in s.rows && s.rows[k].sha == h && !s.rows[k].purged;
          assert after.rows[k] == s.rows[k];
        }
        assert after.rows[p.key].sha == row.sha && !after.rows[p.key].purged;
      }
    }
  }

  lemma PurgeCounts(w: World, s: Store, pubs: Pubs, key: Key, actor: Identity, reason: Option<string>)
    requires StoreInv(w, s, pubs)
    ensures StoreInv(w, Purge(s, key, actor, reason).0, pubs)
  {
    var after := Purge(s, key, actor, reason).0;
    if after != s {
      var row := s.rows[key];
      var others := OtherRefs(s.rows, key, row.sha);
      forall h
        ensures Referenced(after.rows, h) <==> Referenced(s.rows, h) && (h != row.sha || others != {})
      {
        if Referenced(after.rows, h) {
          var k :| k in after.rows && after.rows[k].sha == h && !after.rows[k].purged;
          assert k != key && s.rows[k] == after.rows[k];
          if h == row.sha { assert k in others; }
        }
        if h == row.sha && others != {} {
          var k :| k in others;
          assert after.rows[k] == s.rows[k];
        }
        if Referenced(s.rows, h) && h != row.sha {
          var k :| k in s.rows && s.rows[k].sha == h && !s.rows[k].purged;
          assert after.rows[k] == s.rows[k];
        }
      }
    }
  }

  lemma DoKeepsInv(w: World, s: Store, pubs: Pubs, op: Op)
    requires StoreInv(w, s, pubs)
    ensures StoreInv(w, Do(w, s, op).0, AfterOp(pubs, op))
  {
    hide Referenced;
    match op
    case DoPublish(p) => PublishCounts(w, s, pubs, p);
    case DoPurge(key, actor, reason) => PurgeCounts(w, s, pubs, key, actor, reason);
    case _ =>
      var after := Do(w, s, op).0;
      if op.key in s.rows { SameReferences(s.rows, op.key, after.rows[op.key]); }
  }

  lemma {:induction false} RunKeepsInv(w: World, ops: seq<Op>)
    ensures StoreInv(w, RunOps(w, ops), Publications(ops))
  {
    if ops == [] {
      assert forall h :: !Referenced(EMPTY.rows, h);
    } else {
      RunKeepsInv(w, ops[..|ops| - 1]);
      DoKeepsInv(w, RunOps(w, ops[..|ops| - 1]), Publications(ops[..|ops| - 1]), ops[|ops| - 1]);
    }
  }

  /** A blob is present exactly when an unpurged row names its hash; an unpurged version reads back the
      bytes it was first published with; a purged one reads back nothing unless an unpurged version was
      published with the same bytes. */
  ghost predicate ReadsBack(s: Store, pubs: Pubs) {
    && s.rows.Keys == pubs.Keys
    && (forall h :: h in s.blobs <==> Referenced(s.rows, h))
    && (forall k :: k in pubs && !s.rows[k].purged ==> Extract(s, k) == Ok(pubs[k].bytes))
    && (forall k :: Extract(s, k).Err? ==> Extract(s, k).error == if k in pubs then BlobGone else Missing)
    && (forall k :: k in pubs && s.rows[k].purged ==>
          (Extract(s, k).Ok? <==> exists j :: j in pubs && !s.rows[j].purged && pubs[j].bytes == pubs[k].bytes))
  }

  lemma InvReadsBack(w: World, s: Store, pubs: Pubs)
    requires Injective(w) && StoreInv(w, s, pubs)
    ensures ReadsBack(s, pubs)
  {
  }

  /** Over every run of store calls the first bytes read back. */
  lemma FirstBytesReadBack(w: World, ops: seq<Op>)
    requires Injective(w)
    ensures ReadsBack(RunOps(w, ops), Publications(ops))
  {
    RunKeepsInv(w, ops);
    InvReadsBack(w, RunOps(w, ops), Publications(ops));
  }

  /** Over every run a publication goes through exactly if its key is whole and the version is new or was
      published with the same bytes. A new version starts as a draft that records who published it and the
      gate's verdict; anything else changes nothing. */
  lemma PublishSucceedsIff(w: World, ops: seq<Op>, p: Publication)
    requires Injective(w)
    ensures
      var s, pubs := RunOps(w, ops), Publications(ops);
      var (t, r) := Publish(w, s, p);
      && (r.Ok? <==> p.key.id != "" && p.key.version != "" && (p.key in pubs ==> pubs[p.key].bytes == p.bytes))
      && (r.Err? || p.key in pubs ==> t == s)
      && (r.Err? ==> r.error == if p.key.id == "" || p.key.version == "" then BadManifest else Immutable)
      && (r.Ok? && p.key in pubs ==> r.value == s.rows[p.key])
      && (r.Ok? && p.key !in pubs ==>
            && FromPublication(w, r.value, p) && t.rows == s.rows[p.key := r.value]
            && r.value.status == Draft && !r.value.hold && !r.value.purged && r.value.predecessor == None
            && t.audit == s.audit + [Entry(p.key, None, To(Draft), p.actor, Some("published"))]
            && Extract(t, p.key) == Ok(p.bytes))
  {
    hide RunOps, Publications, Referenced;
    RunKeepsInv(w, ops);
    var s, pubs := RunOps(w, ops), Publications(ops);
    InvReadsBack(w, s, pubs);
    DoKeepsInv(w, s, pubs, DoPublish(p));
    InvReadsBack(w, Publish(w, s, p).0, First(pubs, p));
  }

  // ---- The audit replayed ----

  /** What one version's audit entries say of it. */
  datatype Live = Live(status: Option<Status>, hold: bool, predecessor: Option<Key>)

  const UNBORN := Live(None, false, None)

  /** One entry replayed; None if its from-status is not the status reached so far. */
  function ReplayEntry(live: Live, e: Entry): Option<Live> {
    match e.what
    case To(status) => if e.from == live.status then Some(live.(status := Some(status))) else None
    case ReplacesLinked(replaced) => Some(live.(predecessor := Some(replaced)))
    case HoldSet => Some(live.(hold := true))
    case HoldCleared => Some(live.(hold := false))
  }

  function Replay(audit: seq<Entry>, key: Key): Option<Live> {
    if audit == [] then Some(UNBORN)
    else
      var before := Replay(audit[..|audit| - 1], key);
      var e := audit[|audit| - 1];
      if e.key != key || before.None? then before else ReplayEntry(before.value, e)
  }

  function LiveOf(rows: map<Key, Row>, key: Key): Live {
    if key in rows then Live(Some(rows[key].status), rows[key].hold, rows[key].predecessor) else UNBORN
  }

  ghost predicate Replayed(s: Store) {
    forall k :: Replay(s.audit, k) == Some(LiveOf(s.rows, k))
  }

  lemma DoKeepsReplay(w: World, s: Store, op: Op)
    requires Replayed(s)
    ensures Replayed(Do(w, s, op).0)
  {
  }

  /** Over every run of store calls, a version's audit entries chain without a gap from nothing to its
      live status, and say its live hold flag and replaces columns. */
  lemma {:induction false} AuditReplays(w: World, ops: seq<Op>)
    ensures forall k :: Replay(RunOps(w, ops).audit, k) == Some(LiveOf(RunOps(w, ops).rows, k))
  {
    if ops != [] {
      AuditReplays(w, ops[..|ops| - 1]);
      DoKeepsReplay(w, RunOps(w, ops[..|ops| - 1]), ops[|ops| - 1]);
    }
  }
}
