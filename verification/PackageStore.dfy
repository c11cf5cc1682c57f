/** The package store: rows with a live status, an append-only audit log, blobs shared by content hash. */
module StoreSpec {
  import opened Wrappers
  import opened Identity

  type Bytes = seq<bv8>

  datatype Key = Key(id: string, version: string)

  datatype Status = Draft | InReview | Approved | Rejected | Superseded | Recalled | Purged

  datatype Row = Row(
    status: Status,
    sha: string,
    analyst: Option<string>,
    gatePass: bool,
    publisher: Identity,
    predecessor: Option<Key>,
    hold: bool,
    holdReason: Option<string>,
    purged: bool)

  /** The audit's `to_status` column: a status, or one of the pseudo entries that are no transition. */
  datatype Label = To(status: Status) | ReplacesLinked(replaced: Key) | HoldSet | HoldCleared

  datatype Entry = Entry(key: Key, from: Option<Status>, what: Label, actor: Identity, reason: Option<string>)

  datatype Store = Store(rows: map<Key, Row>, audit: seq<Entry>, blobs: map<string, Bytes>)

  const EMPTY := Store(map[], [], map[])

  datatype Error =
    | BadManifest | Immutable | Missing | Conflict(status: Status) | IsApproved | IsHeld
    | BlobGone | NotAllowed | WrongRole | SelfReview | NeedsReason | NotOwner | GateFails
    | SelfSuccession | BadSuccessor

  /** What a publish call is given: the manifest's key and analyst, the packed bytes, and the gate
      report's verdict if the caller brings one. */
  datatype Publication = Publication(key: Key, bytes: Bytes, analyst: Option<string>, report: Option<bool>,
                                     actor: Identity)

  /** The content hash and the gate, both functions of the packed bytes alone. */
  datatype World = World(hash: Bytes -> string, gate: Bytes -> bool)

  ghost predicate Injective(w: World) {
    forall a, b :: w.hash(a) == w.hash(b) ==> a == b
  }

  type Answer = Result<Row, Error>

  predicate ValidKey(key: Key) { key.id != "" && key.version != "" }

  function NewRow(w: World, p: Publication): Row {
    Row(Draft, w.hash(p.bytes), p.analyst, p.report.GetOr(w.gate(p.bytes)), p.actor, None, false, None, false)
  }

  function Publish(w: World, s: Store, p: Publication): (Store, Answer) {
    var sha := w.hash(p.bytes);
    if !ValidKey(p.key) then (s, Err(BadManifest))
    else if p.key in s.rows then
      (s, if s.rows[p.key].sha == sha then Ok(s.rows[p.key]) else Err(Immutable))
    else
      var row := NewRow(w, p);
      (Store(s.rows[p.key := row],
             s.audit + [Entry(p.key, None, To(Draft), p.actor, Some("published"))],
             if sha in s.blobs then s.blobs else s.blobs[sha := p.bytes]),
       Ok(row))
  }

  function SetStatus(s: Store, key: Key, from: Status, to: Status, actor: Identity, reason: Option<string>)
    : (Store, Answer)
  {
    if key !in s.rows then (s, Err(Missing))
    else if s.rows[key].status != from then (s, Err(Conflict(s.rows[key].status)))
    else
      var row := s.rows[key].(status := to);
      (s.(rows := s.rows[key := row], audit := s.audit + [Entry(key, Some(from), To(to), actor, reason)]), Ok(row))
  }

  function LinkReplaces(s: Store, key: Key, replaced: Key, actor: Identity): (Store, Answer) {
    if key !in s.rows then (s, Err(Missing))
    else
      var row := s.rows[key].(predecessor := Some(replaced));
      (s.(rows := s.rows[key := row], audit := s.audit + [Entry(key, None, ReplacesLinked(replaced), actor, None)]),
       Ok(row))
  }

  function SetHold(s: Store, key: Key, hold: bool, reason: Option<string>, actor: Identity): (Store, Answer) {
    if key !in s.rows then (s, Err(Missing))
    else
      var row := s.rows[key].(hold := hold, holdReason := if hold then reason else None);
      (s.(rows := s.rows[key := row],
          audit := s.audit + [Entry(key, None, if hold then HoldSet else HoldCleared, actor, reason)]),
       Ok(row))
  }

  function OtherRefs(rows: map<Key, Row>, key: Key, sha: string): set<Key> {
    set k | k in rows && k != key && rows[k].sha == sha && !rows[k].purged
  }

  function Purge(s: Store, key: Key, actor: Identity, reason: Option<string>): (Store, Answer) {
    if key !in s.rows then (s, Err(Missing))
    else
      var row := s.rows[key];
      if row.purged then (s, Ok(row))
      else if row.status == Approved then (s, Err(IsApproved))
      else if row.hold then (s, Err(IsHeld))
      else
        var tomb := row.(status := Purged, purged := true, analyst := None);
        (Store(s.rows[key := tomb],
               s.audit + [Entry(key, Some(row.status), To(Purged), actor, reason)],
               if OtherRefs(s.rows, key, row.sha) == {} then s.blobs - {row.sha} else s.blobs),
         Ok(tomb))
  }

  /** Reading a version's bytes back. */
  function Extract(s: Store, key: Key): Result<Bytes, Error> {
    if key !in s.rows then Err(Missing)
    else if s.rows[key].sha !in s.blobs then Err(BlobGone)
    else Ok(s.blobs[s.rows[key].sha])
  }
}

/** The store's two objects. */
module PackageStores {
  import opened Wrappers
  import opened Identity
  import opened StoreSpec

  class BlobStore {
    var files: map<string, Bytes>

    constructor ()
      ensures files == map[]
    {
      files := map[];
    }

    /** Bytes already stored under a hash stay as they are. */
    method Put(blob: Bytes, sha: string)
      modifies this
      ensures files == if sha in old(files) then old(files) else old(files)[sha := blob]
    {
      if sha !in files {
        files := files[sha := blob];
      }
    }

    method Get(sha: string) returns (r: Result<Bytes, Error>)
      ensures r == if sha in files then Ok(files[sha]) else Err(BlobGone)
    {
      if sha !in files { return Err(BlobGone); }
      r := Ok(files[sha]);
    }

    method Delete(sha: string)
      modifies this
      ensures files == old(files) - {sha}
    {
      if sha in files {
        files := map h | h in files && h != sha :: files[h];
      }
    }
  }

  class PackageStore {
    const w: World
    const blobStore: BlobStore
    var rows: map<Key, Row>
    var audit: seq<Entry>

    ghost predicate Shows(g: Store)
      reads this, blobStore
    {
      rows == g.rows && audit == g.audit && blobStore.files == g.blobs
    }

    constructor (w: World)
      ensures Shows(EMPTY) && fresh(blobStore)
    {
      this.w := w;
      blobStore := new BlobStore();
      rows := map[];
      audit := [];
    }

    method Publish(p: Publication, ghost g: Store) returns (r: Answer)
      requires Shows(g)
      modifies this, blobStore
      ensures var (h, res) := StoreSpec.Publish(w, g, p); r == res && Shows(h)
    {
      if p.key.id == "" || p.key.version == "" { return Err(BadManifest); }
      var sha := w.hash(p.bytes);
      if p.key in rows {
        if rows[p.key].sha == sha { return Ok(rows[p.key]); }
        return Err(Immutable);
      }
      blobStore.Put(p.bytes, sha);
      var verdict := if p.report.Some? then p.report.value else w.gate(p.bytes);
      rows := rows[p.key := Row(Draft, sha, p.analyst, verdict, p.actor, None, false, None, false)];
      InsertAudit(p.key, None, To(Draft), p.actor, Some("published"));
      r := Ok(rows[p.key]);
    }

    method InsertAudit(key: Key, from: Option<Status>, what: Label, actor: Identity, reason: Option<string>)
      modifies this`audit
      ensures audit == old(audit) + [Entry(key, from, what, actor, reason)]
    {
      audit := audit + [Entry(key, from, what, actor, reason)];
    }

    method Get(key: Key) returns (r: Option<Row>)
      ensures r == if key in rows then Some(rows[key]) else None
    {
      r := if key in rows then Some(rows[key]) else None;
    }

    method Extract(key: Key, ghost g: Store) returns (r: Result<Bytes, Error>)
      requires Shows(g)
      ensures r == StoreSpec.Extract(g, key)
    {
      var record := Get(key);
      if record.None? { return Err(Missing); }
      r := blobStore.Get(record.value.sha);
    }

    method SetStatus(key: Key, from: Status, to: Status, actor: Identity, reason: Option<string>, ghost g: Store)
      returns (r: Answer)
      requires Shows(g)
      modifies this
      ensures var (h, res) := StoreSpec.SetStatus(g, key, from, to, actor, reason); r == res && Shows(h)
    {
      if key in rows && rows[key].status == from {
        rows := rows[key := rows[key].(status := to)];
      } else {
        if key !in rows { return Err(Missing); }
        return Err(Conflict(rows[key].status));
      }
      InsertAudit(key, Some(from), To(to), actor, reason);
      r := Ok(rows[key]);
    }

    method LinkReplaces(key: Key, replaced: Key, actor: Identity, ghost g: Store) returns (r: Answer)
      requires Shows(g)
      modifies this
      ensures var (h, res) := StoreSpec.LinkReplaces(g, key, replaced, actor); r == res && Shows(h)
    {
      if key !in rows { return Err(Missing); }
      rows := rows[key := rows[key].(predecessor := Some(replaced))];
      InsertAudit(key, None, ReplacesLinked(replaced), actor, None);
      r := Ok(rows[key]);
    }

    method SetLegalHold(key: Key, hold: bool, reason: Option<string>, actor: Identity, ghost g: Store)
      returns (r: Answer)
      requires Shows(g)
      modifies this
      ensures var (h, res) := SetHold(g, key, hold, reason, actor); r == res && Shows(h)
    {
      if key !in rows { return Err(Missing); }
      rows := rows[key := rows[key].(hold := hold, holdReason := if hold then reason else None)];
      InsertAudit(key, None, if hold then HoldSet else HoldCleared, actor, reason);
      r := Ok(rows[key]);
    }

    method Purge(key: Key, actor: Identity, reason: Option<string>, ghost g: Store) returns (r: Answer)
      requires Shows(g)
      modifies this, blobStore
      ensures var (h, res) := StoreSpec.Purge(g, key, actor, reason); r == res && Shows(h)
    {
      if key !in rows { return Err(Missing); }
      var row := rows[key];
      if row.purged { return Ok(row); }
      if row.status == Approved { return Err(IsApproved); }
      if row.hold { return Err(IsHeld); }
      var others := set k | k in rows && k != key && rows[k].sha == row.sha && !rows[k].purged;
      assert others == OtherRefs(rows, key, row.sha);
      if |others| == 0 {
        blobStore.Delete(row.sha);
      }
      rows := rows[key := row.(status := Purged, purged := true, analyst := None)];
      InsertAudit(key, Some(row.status), To(Purged), actor, reason);
      r := Ok(rows[key]);
    }
  }
}
