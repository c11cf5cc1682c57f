/** Redaction and the search index: what one version contributes, and the routes that keep it current. */
module IndexSpec {
  import opened Wrappers
  import opened StoreSpec
  import opened WorkflowSpec
  import opened Succession

  datatype Chunk = Chunk(
    id: string,
    key: Key,
    asOf: string,
    profile: string,
    kind: string,
    fieldPath: string,
    confidentiality: string,
    text: string)

  /** One extracted row, its text already scrubbed. */
  datatype Raw = Raw(kind: string, row: string, fieldPath: string, text: string)

  /** What the stored bytes hold: whether the secret scan found a high-severity hit, the manifest's
      tags, the summary row made from the manifest, and the rows read from the declared files. */
  datatype Reading = Reading(highSeverity: bool, asOf: string, profile: string, confidentiality: string,
                             summary: Raw, labels: seq<Raw>, sections: seq<Raw>, exceptions: seq<Raw>)

  type Reader = Bytes -> Reading

  datatype Redaction = Redaction(chunks: seq<Chunk>, blocked: bool)

  /** `build_all_chunks`: the summary always comes first. */
  function AllRows(r: Reading): seq<Raw> {
    [r.summary] + r.labels + r.sections + r.exceptions
  }

  function ChunkOf(r: Reading, key: Key, raw: Raw): Chunk {
    Chunk(key.id + "/" + key.version + "/" + raw.kind + "/" + raw.row, key, r.asOf, r.profile, raw.kind,
          raw.fieldPath, r.confidentiality, raw.text)
  }

  /** A blocked version yields nothing; any other yields at least one chunk, all of them its own. */
  function RedactPackage(read: Reader, bytes: Bytes, key: Key): (r: Redaction)
    ensures r.blocked <==> read(bytes).highSeverity
    ensures r.blocked <==> r.chunks == []
    ensures forall c :: c in r.chunks ==> c.key == key && c.confidentiality == read(bytes).confidentiality
  {
    var content := read(bytes);
    if content.highSeverity then Redaction([], true)
    else
      var rows := AllRows(content);
      Redaction(seq(|rows|, i requires 0 <= i < |rows| => ChunkOf(content, key, rows[i])), false)
  }

  /** The chunk shows this row of the version's content. */
  predicate ShowsRow(c: Chunk, content: Reading, key: Key, raw: Raw) {
    && c.key == key && c.id == key.id + "/" + key.version + "/" + raw.kind + "/" + raw.row
    && c.kind == raw.kind && c.fieldPath == raw.fieldPath && c.text == raw.text
    && c.asOf == content.asOf && c.profile == content.profile && c.confidentiality == content.confidentiality
  }

  /** The manifest's summary, a label row, a section of the run summary, or an exception. */
  predicate RowOf(content: Reading, raw: Raw) {
    raw == content.summary || raw in content.labels || raw in content.sections || raw in content.exceptions
  }

  /** Unblocked, a version yields one chunk for each of its rows: the summary, then labels, sections and
      exceptions, in order. */
  lemma EveryRowHasItsChunk(read: Reader, bytes: Bytes, key: Key)
    requires !read(bytes).highSeverity
    ensures
      var content, chunks := read(bytes), RedactPackage(read, bytes, key).chunks;
      var l, s, e := |content.labels|, |content.sections|, |content.exceptions|;
      && |chunks| == 1 + l + s + e && ShowsRow(chunks[0], content, key, content.summary)
      && (forall i :: 0 <= i < l ==> ShowsRow(chunks[1 + i], content, key, content.labels[i]))
      && (forall i :: 0 <= i < s ==> ShowsRow(chunks[1 + l + i], content, key, content.sections[i]))
      && (forall i :: 0 <= i < e ==> ShowsRow(chunks[1 + l + s + i], content, key, content.exceptions[i]))
  {
  }

  /** So what it yields is exactly its rows. */
  lemma YieldedIff(read: Reader, bytes: Bytes, key: Key, c: Chunk)
    ensures c in RedactPackage(read, bytes, key).chunks <==>
            !read(bytes).highSeverity && exists raw :: RowOf(read(bytes), raw) && ShowsRow(c, read(bytes), key, raw)
  {
    hide ShowsRow, RowOf, AllRows;
    var content := read(bytes);
    var chunks, rows := RedactPackage(read, bytes, key).chunks, AllRows(content);
    forall raw
      ensures raw in rows <==> RowOf(content, raw)
      ensures ShowsRow(c, content, key, raw) <==> c == ChunkOf(content, key, raw)
    {
      RowsAre(content, raw);
      ShownIff(c, content, key, raw);
    }
    if c in chunks {
      var i :| 0 <= i < |chunks| && chunks[i] == c;
      assert rows[i] in rows;
    } else if !content.highSeverity {
      forall raw | raw in rows
        ensures c != ChunkOf(content, key, raw)
      {
        var i :| 0 <= i < |rows| && rows[i] == raw;
        assert chunks[i] in chunks;
      }
    }
  }

  lemma RowsAre(content: Reading, raw: Raw)
    ensures raw in AllRows(content) <==> RowOf(content, raw)
  {
  }

  lemma ShownIff(c: Chunk, content: Reading, key: Key, raw: Raw)
    ensures ShowsRow(c, content, key, raw) <==> c == ChunkOf(content, key, raw)
  {
  }

  // ---- The index ----

  type Index = seq<Chunk>

  /** The indexed chunks of one version, in row order. */
  function OfKey(rows: Index, key: Key): Index {
    if rows == [] then [] else (if rows[0].key == key then [rows[0]] else []) + OfKey(rows[1..], key)
  }

  function Without(rows: Index, key: Key): Index {
    if rows == [] then [] else (if rows[0].key == key then [] else [rows[0]]) + Without(rows[1..], key)
  }

  datatype IndexError = MixedKeys

  function IndexPackage(rows: Index, chunks: seq<Chunk>): Result<Index, IndexError> {
    if chunks == [] then Ok(rows)
    else if exists c :: c in chunks && c.key != chunks[0].key then Err(MixedKeys)
    else Ok(Without(rows, chunks[0].key) + chunks)
  }

  /** `reindex_package`: the index afterwards, or the error that leaves it as it was. */
  function Reindex(read: Reader, s: Store, rows: Index, key: Key): Result<Index, Error> {
    if !IsApprovedRow(s, key) then Ok(Without(rows, key))
    else
      match Extract(s, key)
      case Err(e) => Err(e)
      case Ok(bytes) =>
        var r := RedactPackage(read, bytes, key);
        if r.blocked then Ok(Without(rows, key))
        else
          match IndexPackage(rows, r.chunks)
          case Ok(after) => Ok(after)
          case Err(_) => Ok(rows)
  }

  /** The index after a reindex that may raise. */
  function Reindexed(read: Reader, s: Store, rows: Index, key: Key): Index {
    match Reindex(read, s, rows, key)
    case Ok(after) => after
    case Err(_) => rows
  }

  // ---- Whole routes ----

  datatype Route = Taken(call: Whole) | ReindexAgain(key: Key)

  datatype Site = Site(store: Store, index: Index)

  /** Every status-changing route reindexes once its call succeeded; legal hold and publish do not touch
      the index; purge removes. */
  function Follow(w: World, policy: Policy, read: Reader, site: Site, route: Route): Site {
    match route
    case ReindexAgain(key) => site.(index := Reindexed(read, site.store, site.index, key))
    case Taken(Pub(p)) => site.(store := Publish(w, site.store, p).0)
    case Taken(Ask(req)) =>
      var (s, answer) := Call(w, policy, site.store, req);
      if answer.Err? then Site(s, site.index)
      else
        Site(s,
             match req
             case HoldReq(_, _, _, _) => site.index
             case PurgeReq(key, _, _) => Without(site.index, key)
             case SupersedeReq(key, successor, _, _) =>
               Reindexed(read, s, Reindexed(read, s, site.index, key), successor)
             case _ => Reindexed(read, s, site.index, req.key))
  }

  function RunRoutes(w: World, policy: Policy, read: Reader, routes: seq<Route>): Site {
    if routes == [] then Site(EMPTY, [])
    else Follow(w, policy, read, RunRoutes(w, policy, read, routes[..|routes| - 1]), routes[|routes| - 1])
  }

  /** The rebuild from scratch: every version once, in some order, into an empty index. */
  function Rebuild(read: Reader, s: Store, order: seq<Key>): Index {
    if order == [] then []
    else Reindexed(read, s, Rebuild(read, s, order[..|order| - 1]), order[|order| - 1])
  }

  // ---- Search ----

  /** What the filters hold of: an empty filter value is no filter. */
  datatype Filters = Filters(packageId: Option<string>, profile: Option<string>, kind: Option<string>,
                             confidentialityIn: seq<string>)

  /** The text search: some of the rows, in the order of their rank. */
  type Engine = (string, Index) -> Index

  ghost predicate Honest(engine: Engine) {
    forall query, rows, c :: c in engine(query, rows) ==> c in rows
  }

  predicate Admits(f: Filters, c: Chunk) {
    && (f.packageId.GetOr("") != "" ==> c.key.id == f.packageId.value)
    && (f.profile.GetOr("") != "" ==> c.profile == f.profile.value)
    && (f.kind.GetOr("") != "" ==> c.kind == f.kind.value)
    && (f.confidentialityIn != [] ==> c.confidentiality in f.confidentialityIn)
  }

  function Admitted(f: Filters, rows: Index): (r: Index)
    ensures forall c :: c in r <==> c in rows && Admits(f, c)
  {
    if rows == [] then [] else (if Admits(f, rows[0]) then [rows[0]] else []) + Admitted(f, rows[1..])
  }

  /** What the filters ask of a chunk. */
  predicate Wanted(f: Filters, c: Chunk) {
    && (f.packageId == None || f.packageId == Some("") || f.packageId == Some(c.key.id))
    && (f.profile == None || f.profile == Some("") || f.profile == Some(c.profile))
    && (f.kind == None || f.kind == Some("") || f.kind == Some(c.kind))
    && (f.confidentialityIn == [] || exists i :: 0 <= i < |f.confidentialityIn| && f.confidentialityIn[i] == c.confidentiality)
  }

  /** The filters keep the wanted rows, in their order. */
  lemma {:induction false} AdmittedOneMore(f: Filters, rows: Index, c: Chunk)
    ensures Admitted(f, rows + [c]) == Admitted(f, rows) + if Wanted(f, c) then [c] else []
  {
    if rows == [] {
      assert rows + [c] == [c];
    } else {
      AdmittedOneMore(f, rows[1..], c);
      assert (rows + [c])[1..] == rows[1..] + [c];
    }
  }

  /** The first `limit` matching rows the filters admit; a negative limit is none. */
  function SearchRows(engine: Engine, rows: Index, query: Option<string>, f: Filters, limit: int): (r: Index)
    ensures 0 <= limit ==> |r| <= limit
    ensures forall c :: c in r ==> Admits(f, c)
    ensures Honest(engine) ==> forall c :: c in r ==> c in rows
    ensures query == None && limit != 0 ==> (r == [] <==> forall c :: c in rows ==> !Admits(f, c))
  {
    var admitted := Admitted(f, if query.GetOr("") != "" then engine(query.value, rows) else rows);
    assert admitted != [] ==> admitted[0] in admitted;
    if 0 <= limit < |admitted| then admitted[..limit] else admitted
  }
}

/** The index object and the reindex hook. */
module IndexStores {
  import opened Wrappers
  import opened StoreSpec
  import opened PackageStores
  import opened WorkflowSpec
  import opened IndexSpec

  class IndexStore {
    const engine: Engine
    var rows: Index

    constructor (engine: Engine)
      ensures rows == [] && this.engine == engine
    {
      this.engine := engine;
      rows := [];
    }

    method Search(query: Option<string>, f: Filters, limit: int) returns (r: seq<Chunk>)
      ensures r == SearchRows(engine, rows, query, f, limit)
    {
      var matched := rows;
      if query.Some? && query.value != "" {
        matched := engine(query.value, rows);
      }
      r := Admitted(f, matched);
      if 0 <= limit < |r| {
        r := r[..limit];
      }
    }

    method IndexPackage(chunks: seq<Chunk>) returns (r: Result<(), IndexError>)
      modifies this
      ensures match IndexSpec.IndexPackage(old(rows), chunks)
              case Ok(after) => r.Ok? && rows == after
              case Err(e) => r == Err(e) && rows == old(rows)
    {
      if |chunks| == 0 { return Ok(()); }
      var key := chunks[0].key;
      if exists c :: c in chunks && c.key != key { return Err(MixedKeys); }
      RemovePackage(key);
      rows := rows + chunks;
      r := Ok(());
    }

    method RemovePackage(key: Key)
      modifies this
      ensures rows == Without(old(rows), key)
    {
      rows := Without(rows, key);
    }

    method GetChunk(id: string) returns (r: Option<Chunk>)
      ensures r.Some? ==> r.value in rows && r.value.id == id
      ensures r.None? ==> forall c :: c in rows ==> c.id != id
    {
      var n := 0;
      while n < |rows|
        invariant n <= |rows| && forall i :: 0 <= i < n ==> rows[i].id != id
      {
        if rows[n].id == id { return Some(rows[n]); }
        n := n + 1;
      }
      r := None;
    }
  }

  /** Membership is worked out again from the live status; the result says whether redaction blocked. */
  method ReindexPackage(store: PackageStore, index: IndexStore, read: Reader, key: Key, ghost g: Store)
    returns (r: Result<Option<bool>, Error>)
    requires store.Shows(g)
    modifies index
    ensures index.rows == Reindexed(read, g, old(index.rows), key)
    ensures match Reindex(read, g, old(index.rows), key)
            case Err(e) => r == Err(e)
            case Ok(_) =>
              r == Ok(if IsApprovedRow(g, key) then Some(read(Extract(g, key).value).highSeverity) else None)
  {
    var record := store.Get(key);
    if record.None? || record.value.status != Approved {
      index.RemovePackage(key);
      return Ok(None);
    }
    var bytes := store.Extract(key, g);
    if bytes.Err? { return Err(bytes.error); }
    var redaction := RedactPackage(read, bytes.value, key);
    if redaction.blocked {
      index.RemovePackage(key);
    } else {
      var _ := index.IndexPackage(redaction.chunks);
    }
    r := Ok(Some(redaction.blocked));
  }
}

/** The index follows the store: over every run of whole routes it equals a rebuild from scratch. */
module IndexRuns {
  import opened Wrappers
  import opened Text
  import opened Identity
  import opened StoreSpec
  import opened StoreRuns
  import opened WorkflowSpec
  import opened Succession
  import opened IndexSpec

  function AfterRoute(pubs: Pubs, route: Route): Pubs {
    if route.Taken? && route.call.Pub? then First(pubs, route.call.p) else pubs
  }

  /** Each version's first publication, read off the routes alone. */
  function PublishedBy(routes: seq<Route>): Pubs {
    if routes == [] then map[] else AfterRoute(PublishedBy(routes[..|routes| - 1]), routes[|routes| - 1])
  }

  /** What a version contributes: its published bytes redacted, if it is approved. */
  function Expected(read: Reader, rows: map<Key, Row>, pubs: Pubs, k: Key): seq<Chunk> {
    if k in rows && k in pubs && rows[k].status == Approved then RedactPackage(read, pubs[k].bytes, k).chunks else []
  }

  predicate Tombs(rows: map<Key, Row>) {
    forall k :: k in rows ==> (rows[k].purged <==> rows[k].status == Purged)
  }

  ghost predicate Sound(w: World, s: Store, pubs: Pubs) {
    StoreInv(w, s, pubs) && Tombs(s.rows)
  }

  ghost predicate Follows(read: Reader, site: Site, pubs: Pubs) {
    forall k :: OfKey(site.index, k) == Expected(read, site.store.rows, pubs, k)
  }

  lemma {:induction false} OfKeyConcat(a: Index, b: Index, k: Key)
    ensures OfKey(a + b, k) == OfKey(a, k) + OfKey(b, k)
  {
    hide OfKey;
    OfKeyFirst(a, k);
    OfKeyFirst(a + b, k);
    if a == [] {
      assert a + b == b;
    } else {
      OfKeyConcat(a[1..], b, k);
      assert (a + b)[1..] == a[1..] + b;
    }
  }

  lemma OfKeyFirst(rows: Index, k: Key)
    ensures OfKey(rows, k) ==
            if rows == [] then [] else (if rows[0].key == k then [rows[0]] else []) + OfKey(rows[1..], k)
  {
  }

  lemma {:induction false} OfKeyMembers(rows: Index, key: Key)
    ensures forall c :: c in OfKey(rows, key) <==> c in rows && c.key == key
  {
    if rows != [] {
      OfKeyMembers(rows[1..], key);
      assert rows == [rows[0]] + rows[1..];
    }
  }

  lemma {:induction false} OfKeyWithout(rows: Index, key: Key, k: Key)
    ensures OfKey(Without(rows, key), k) == if k == key then [] else OfKey(rows, k)
  {
    if rows != [] {
      OfKeyWithout(rows[1..], key, k);
      OfKeyConcat(if rows[0].key == key then [] else [rows[0]], Without(rows[1..], key), k);
      assert OfKey([rows[0]], k) == (if rows[0].key == k then [rows[0]] else []) + OfKey([rows[0]][1..], k);
    }
  }

  lemma {:induction false} AllOfKey(chunks: seq<Chunk>, key: Key, k: Key)
    requires forall c :: c in chunks ==> c.key == key
    ensures OfKey(chunks, k) == if k == key then chunks else []
  {
    if chunks != [] {
      assert chunks[0] in chunks && forall c :: c in chunks[1..] ==> c in chunks;
      AllOfKey(chunks[1..], key, k);
    }
  }

  /** Reindexing one version puts in what is expected of it, and leaves the others alone. It relies on
      unblocked redaction never being empty: indexing no chunks changes nothing. */
  lemma ReindexedIs(w: World, read: Reader, s: Store, pubs: Pubs, rows: Index, key: Key)
    requires Injective(w) && Sound(w, s, pubs)
    ensures Reindex(read, s, rows, key).Ok?
    ensures forall k :: OfKey(Reindexed(read, s, rows, key), k) ==
                   if k == key then Expected(read, s.rows, pubs, key) else OfKey(rows, k)
  {
    hide OfKey, Without, RedactPackage, BlobsCounted;
    forall k
      ensures OfKey(Without(rows, key), k) == if k == key then [] else OfKey(rows, k)
    {
      OfKeyWithout(rows, key, k);
    }
    if IsApprovedRow(s, key) {
      ApprovedReadsBack(w, s, pubs, key);
      var r := RedactPackage(read, pubs[key].bytes, key);
      if !r.blocked {
        assert r.chunks[0] in r.chunks;
        forall k
          ensures OfKey(Without(rows, key) + r.chunks, k) == if k == key then r.chunks else OfKey(rows, k)
        {
          OfKeyConcat(Without(rows, key), r.chunks, k);
          AllOfKey(r.chunks, key, k);
        }
      }
    }
  }

  lemma ApprovedReadsBack(w: World, s: Store, pubs: Pubs, key: Key)
    requires Injective(w) && Sound(w, s, pubs) && IsApprovedRow(s, key)
    ensures key in pubs && Extract(s, key) == Ok(pubs[key].bytes)
  {
  }

  // ---- What a whole call does to the store ----

  lemma TransitionKeepsSound(w: World, s: Store, pubs: Pubs, key: Key, from: Status, to: Status, actor: Identity,
                             reason: Option<string>)
    requires Sound(w, s, pubs) && from != Purged && to != Purged
    ensures Sound(w, SetStatus(s, key, from, to, actor, reason).0, pubs)
  {
    hide BlobsCounted;
    DoKeepsInv(w, s, pubs, DoSetStatus(key, from, to, actor, reason));
  }

  lemma CallKeepsSound(w: World, policy: Policy, s: Store, pubs: Pubs, req: Request)
    requires Sound(w, s, pubs)
    ensures Sound(w, Call(w, policy, s, req).0, pubs)
  {
    hide StoreInv, CheckReview, CheckGate, HasReason;
    match req
    case ReviewReq(key, to, actor, reason) =>
      if key in s.rows && (s.rows[key].status, to) in REVIEW {
        TransitionKeepsSound(w, s, pubs, key, s.rows[key].status, to, actor, reason);
      }
    case SupersedeReq(key, successor, actor, reason) =>
      TransitionKeepsSound(w, s, pubs, key, Approved, Superseded, actor, reason);
      var t := SetStatus(s, key, Approved, Superseded, actor, reason).0;
      DoKeepsInv(w, t, pubs, DoLink(successor, key, actor));
    case RecallReq(key, actor, reason) =>
      TransitionKeepsSound(w, s, pubs, key, Approved, Recalled, actor, reason);
    case RestoreReq(key, actor, reason) =>
      if key in s.rows && s.rows[key].status != Purged {
        TransitionKeepsSound(w, s, pubs, key, s.rows[key].status, Approved, actor, reason);
      }
    case HoldReq(key, hold, actor, reason) => DoKeepsInv(w, s, pubs, DoHold(key, hold, reason, actor));
    case PurgeReq(key, actor, reason) => DoKeepsInv(w, s, pubs, DoPurge(key, actor, reason));
  }

  /** A call changes at most the status of the version it names, and a refused one nothing. */
  lemma CallTouches(w: World, policy: Policy, s: Store, req: Request)
    ensures
      var (t, answer) := Call(w, policy, s, req);
      && (answer.Err? ==> t == s)
      && (forall k :: k != req.key ==> StatusIn(t.rows, k) == StatusIn(s.rows, k))
      && (req.HoldReq? ==> StatusIn(t.rows, req.key) == StatusIn(s.rows, req.key))
      && (req.PurgeReq? && answer.Ok? ==> answer.value.purged && req.key in t.rows && t.rows[req.key].purged)
  {
  }

  lemma ExpectedByStatus(read: Reader, a: map<Key, Row>, b: map<Key, Row>, pubs: Pubs, k: Key)
    requires StatusIn(a, k) == StatusIn(b, k)
    ensures Expected(read, a, pubs, k) == Expected(read, b, pubs, k)
  {
  }

  // ---- One route ----

  lemma AskFollows(w: World, policy: Policy, read: Reader, site: Site, pubs: Pubs, req: Request)
    requires Injective(w) && Sound(w, site.store, pubs) && Follows(read, site, pubs)
    ensures
      var after := Follow(w, policy, read, site, Taken(Ask(req)));
      Sound(w, after.store, pubs) && Follows(read, after, pubs)
  {
    hide Sound, OfKey, Without, Reindexed, Call, Expected;
    var (s, answer) := Call(w, policy, site.store, req);
    CallKeepsSound(w, policy, site.store, pubs, req);
    CallTouches(w, policy, site.store, req);
    forall k | k != req.key || req.HoldReq? || answer.Err?
      ensures Expected(read, s.rows, pubs, k) == OfKey(site.index, k)
    {
      ExpectedByStatus(read, site.store.rows, s.rows, pubs, k);
    }
    if answer.Ok? && !req.HoldReq? {
      if req.PurgeReq? {
        PurgedExpectsNothing(w, read, s, pubs, req.key);
        forall k
          ensures OfKey(Without(site.index, req.key), k) == if k == req.key then [] else OfKey(site.index, k)
        {
          OfKeyWithout(site.index, req.key, k);
        }
      } else {
        ReindexedIs(w, read, s, pubs, site.index, req.key);
        if req.SupersedeReq? {
          ReindexedIs(w, read, s, pubs, Reindexed(read, s, site.index, req.key), req.successor);
        }
      }
    }
  }

  lemma PurgedExpectsNothing(w: World, read: Reader, s: Store, pubs: Pubs, key: Key)
    requires Sound(w, s, pubs) && key in s.rows && s.rows[key].purged
    ensures Expected(read, s.rows, pubs, key) == []
  {
  }

  lemma PubFollows(w: World, read: Reader, site: Site, pubs: Pubs, p: Publication)
    requires Sound(w, site.store, pubs) && Follows(read, site, pubs)
    ensures Sound(w, Publish(w, site.store, p).0, First(pubs, p))
    ensures Follows(read, Site(Publish(w, site.store, p).0, site.index), First(pubs, p))
  {
    hide OfKey, BlobsCounted, RedactPackage;
    DoKeepsInv(w, site.store, pubs, DoPublish(p));
  }

  lemma {:induction false} RunFollows(w: World, policy: Policy, read: Reader, routes: seq<Route>)
    requires Injective(w)
    ensures
      var site := RunRoutes(w, policy, read, routes);
      Sound(w, site.store, PublishedBy(routes)) && Follows(read, site, PublishedBy(routes))
  {
    hide Follow, Sound, Follows, OfKey, Expected;
    if routes == [] {
      NothingFollows(w, read);
    } else {
      var before, route := routes[..|routes| - 1], routes[|routes| - 1];
      RunFollows(w, policy, read, before);
      FollowKeeps(w, policy, read, RunRoutes(w, policy, read, before), PublishedBy(before), route);
    }
  }

  lemma NothingFollows(w: World, read: Reader)
    ensures Sound(w, EMPTY, map[]) && Follows(read, Site(EMPTY, []), map[])
  {
  }

  lemma FollowKeeps(w: World, policy: Policy, read: Reader, site: Site, pubs: Pubs, route: Route)
    requires Injective(w) && Sound(w, site.store, pubs) && Follows(read, site, pubs)
    ensures
      var after := Follow(w, policy, read, site, route);
      Sound(w, after.store, AfterRoute(pubs, route)) && Follows(read, after, AfterRoute(pubs, route))
  {
    hide Sound, OfKey, Expected, Reindexed;
    match route
    case ReindexAgain(key) => ReindexedIs(w, read, site.store, pubs, site.index, key);
    case Taken(Pub(p)) => PubFollows(w, read, site, pubs, p);
    case Taken(Ask(req)) => AskFollows(w, policy, read, site, pubs, req);
  }

  // ---- Against a rebuild ----

  lemma {:induction false} RebuildIs(w: World, read: Reader, s: Store, pubs: Pubs, order: seq<Key>)
    requires Injective(w) && Sound(w, s, pubs)
    ensures forall k :: OfKey(Rebuild(read, s, order), k) ==
                   if k in order then Expected(read, s.rows, pubs, k) else []
  {
    hide Sound, OfKey, Expected, Reindexed;
    if order == [] {
      forall k ensures OfKey([], k) == [] { NoChunks(k); }
    } else {
      var before, key := order[..|order| - 1], order[|order| - 1];
      RebuildIs(w, read, s, pubs, before);
      ReindexedIs(w, read, s, pubs, Rebuild(read, s, before), key);
      assert order == before + [key];
    }
  }

  lemma NoChunks(k: Key)
    ensures OfKey([], k) == []
  {
  }

  lemma {:induction false} CountByKey(rows: Index, c: Chunk)
    ensures multiset(rows)[c] == multiset(OfKey(rows, c.key))[c]
  {
    if rows != [] {
      CountByKey(rows[1..], c);
      assert rows == [rows[0]] + rows[1..];
      var here := if rows[0].key == c.key then [rows[0]] else [];
      assert OfKey(rows, c.key) == here + OfKey(rows[1..], c.key);
      assert multiset(OfKey(rows, c.key)) == multiset(here) + multiset(OfKey(rows[1..], c.key));
      assert multiset(rows) == multiset([rows[0]]) + multiset(rows[1..]);
    }
  }

  /** The chunk shows a row of an approved version whose published content is not blocked. */
  ghost predicate Belongs(read: Reader, s: Store, pubs: Pubs, c: Chunk) {
    && c.key in s.rows && s.rows[c.key].status == Approved && c.key in pubs
    && var content := read(pubs[c.key].bytes);
       !content.highSeverity && exists raw :: RowOf(content, raw) && ShowsRow(c, content, c.key, raw)
  }

  lemma IndexedIff(w: World, policy: Policy, read: Reader, routes: seq<Route>, c: Chunk)
    requires Injective(w)
    ensures c in RunRoutes(w, policy, read, routes).index <==>
            Belongs(read, RunRoutes(w, policy, read, routes).store, PublishedBy(routes), c)
  {
    hide RunRoutes, RedactPackage, RowOf, ShowsRow, Sound;
    var site, pubs := RunRoutes(w, policy, read, routes), PublishedBy(routes);
    RunFollows(w, policy, read, routes);
    OfKeyMembers(site.index, c.key);
    assert c in site.index <==> c in OfKey(site.index, c.key);
    if c.key in pubs { YieldedIff(read, pubs[c.key].bytes, c.key, c); }
  }

  /** After every run of whole routes the index holds exactly the chunks a rebuild from scratch would
      put there, whatever order the rebuild takes the versions in: for each approved version its first
      published bytes redacted (nothing if blocked), for any other version nothing. So a chunk is indexed if
      and only if it shows a row of an approved, unblocked version. No reindex raised. */
  lemma IncrementalEqualsRebuild(w: World, policy: Policy, read: Reader, routes: seq<Route>, order: seq<Key>)
    requires Injective(w)
    requires forall k :: k in RunRoutes(w, policy, read, routes).store.rows ==> k in order
    ensures
      var site, pubs := RunRoutes(w, policy, read, routes), PublishedBy(routes);
      && multiset(site.index) == multiset(Rebuild(read, site.store, order))
      && (forall k :: OfKey(site.index, k) == Expected(read, site.store.rows, pubs, k))
      && (forall k :: Reindex(read, site.store, site.index, k).Ok?)
      && (forall c :: c in site.index <==> Belongs(read, site.store, pubs, c))
  {
    hide RunRoutes, OfKey, Expected, Reindex, Rebuild, Sound;
    var site, pubs := RunRoutes(w, policy, read, routes), PublishedBy(routes);
    RunFollows(w, policy, read, routes);
    RebuildIs(w, read, site.store, pubs, order);
    var rebuilt := Rebuild(read, site.store, order);
    forall k
      ensures OfKey(site.index, k) == OfKey(rebuilt, k)
    {
      UnknownExpectsNothing(read, site.store.rows, pubs, k);
    }
    forall c
      ensures multiset(site.index)[c] == multiset(rebuilt)[c]
    {
      CountByKey(site.index, c);
      CountByKey(rebuilt, c);
    }
    forall c
      ensures c in site.index <==> Belongs(read, site.store, pubs, c)
    {
      IndexedIff(w, policy, read, routes, c);
    }
    forall k
      ensures Reindex(read, site.store, site.index, k).Ok?
    {
      ReindexedIs(w, read, site.store, pubs, site.index, k);
    }
  }

  /** Whatever is indexed comes from an approved version: its published bytes, redacted and unblocked. */
  lemma OnlyApprovedIndexed(w: World, policy: Policy, read: Reader, routes: seq<Route>, c: Chunk)
    requires Injective(w) && c in RunRoutes(w, policy, read, routes).index
    ensures
      var s, pubs := RunRoutes(w, policy, read, routes).store, PublishedBy(routes);
      && IsApprovedRow(s, c.key) && c.key in pubs
      && !RedactPackage(read, pubs[c.key].bytes, c.key).blocked
      && c in RedactPackage(read, pubs[c.key].bytes, c.key).chunks
  {
    hide RunRoutes, RedactPackage;
    RunFollows(w, policy, read, routes);
    OfKeyMembers(RunRoutes(w, policy, read, routes).index, c.key);
    assert c in OfKey(RunRoutes(w, policy, read, routes).index, c.key);
  }

  lemma UnknownExpectsNothing(read: Reader, rows: map<Key, Row>, pubs: Pubs, k: Key)
    ensures k !in rows ==> Expected(read, rows, pubs, k) == []
  {
  }
}
