/** The version-keyed read cache of the profile loader, and why its reads are never stale. */
module ProfileLoader {
  import opened Wrappers
  import opened Versions
  import opened RegistrySpec
  import opened Registry

  datatype LoadError = UnknownProfileVersion

  /** One lookup: the manifest's raw `profile` value, the file, the configured root, the fail-closed knob. */
  datatype Request = Request(profile: Option<string>, file: string, root: Option<string>, failClosed: bool)

  /** `profile_short_name`; None also where the caller treats the name as missing. */
  function ShortName(profile: Option<string>): Option<string> {
    if profile.None? || profile.value == "" then None
    else
      var name := profile.value[..IndexOf(profile.value, '/')];
      if name == "" then None else Some(name)
  }

  /** `resolve_profile_declaration`. */
  function Declaration(profile: Option<string>): Option<(string, string)> {
    if profile.None? || '/' !in profile.value then None
    else
      var name := profile.value[..IndexOf(profile.value, '/')];
      var version := AfterFirst(profile.value, '/');
      if name == "" || version == "" then None else Some((name, version))
  }

  function RepoDefault(repo: map<string, Files>, name: string, file: string): Option<Json> {
    if name in repo && file in repo[name] && !repo[name][file].JNull? then Some(repo[name][file]) else None
  }

  /** The resolution order without any cache: registry, then fail-closed error, then repo default. */
  function LoadUncached(roots: Roots, repo: map<string, Files>, req: Request): Result<Option<Json>, LoadError> {
    match ShortName(req.profile)
    case None => Ok(None)
    case Some(name) =>
      match Declaration(req.profile)
      case Some(d) =>
        if req.root.None? then Ok(RepoDefault(repo, name, req.file))
        else
          var key := CacheKey(req.root.value, name, d.1, req.file);
          if Known(roots, key) then Ok(FileAt(roots, key))
          else if req.failClosed then Err(UnknownProfileVersion)
          else Ok(RepoDefault(repo, name, req.file))
      case None => Ok(RepoDefault(repo, name, req.file))
  }

  /** `_load_profile_file`. */
  method LoadProfileFile(cache: FileCache, disk: Disk, repo: map<string, Files>, req: Request)
    returns (r: Result<Option<Json>, LoadError>)
    modifies cache
    ensures (cache.entries, r) == LoadCached(old(cache.entries), disk.roots, repo, req)
    ensures Coherent(old(cache.entries), disk.roots) ==>
              r == LoadUncached(disk.roots, repo, req) && Coherent(cache.entries, disk.roots)
  {
    var name := ShortName(req.profile);
    if name.None? {
      return Ok(None);
    }
    var declared := Declaration(req.profile);
    if req.root.Some? && declared.Some? {
      var key := CacheKey(req.root.value, name.value, declared.value.1, req.file);
      var content, known := cache.Read(disk, key);
      if known {
        return Ok(content);
      }
      if req.failClosed {
        return Err(UnknownProfileVersion);
      }
    }
    r := Ok(RepoDefault(repo, name.value, req.file));
  }

  /** A file of a directory; a JSON null reads as absent. */
  function FileIn(files: Files, file: string): Option<Json> {
    if file in files && files[file] != JNull then Some(files[file]) else None
  }

  function Shipped(repo: map<string, Files>, name: string, file: string): Option<Json> {
    if name in repo then FileIn(repo[name], file) else None
  }

  /** What a lookup answers, by the form of the declaration: nothing without a name; the shipped file for a
      bare name, an empty version or no registry; the registered version's file for `name/version`, and for
      an unregistered one an error or the shipped file, as the knob says. */
  lemma LookUpIs(roots: Roots, repo: map<string, Files>, req: Request)
    ensures req.profile.None? || req.profile.value == "" || req.profile.value[0] == '/' ==>
              LoadUncached(roots, repo, req) == Ok(None)
    ensures forall name :: req.profile == Some(name) && name != "" && '/' !in name ==>
              LoadUncached(roots, repo, req) == Ok(Shipped(repo, name, req.file))
    ensures forall name, version :: req.profile == Some(name + "/" + version) && name != "" && '/' !in name ==>
              LoadUncached(roots, repo, req) ==
                if version == "" || req.root.None? then Ok(Shipped(repo, name, req.file))
                else
                  var dirs := At(roots, req.root.value, name).dirs;
                  if version in dirs then Ok(FileIn(dirs[version], req.file))
                  else if req.failClosed then Err(UnknownProfileVersion)
                  else Ok(Shipped(repo, name, req.file))
  {
    hide Shipped, FileIn, At;
    forall name, version | req.profile == Some(name + "/" + version) && name != "" && '/' !in name
      ensures ShortName(req.profile) == Some(name)
      ensures Declaration(req.profile) == if version == "" then None else Some((name, version))
    {
      FirstSep(name, '/', version);
      assert name + "/" + version == name + ['/'] + version;
    }
    forall name | req.profile == Some(name) && name != "" && '/' !in name
      ensures ShortName(req.profile) == Some(name) && Declaration(req.profile) == None
    {
      BareName(name);
    }
    ShippedIs(repo);
    FoundIs(roots);
  }

  lemma BareName(name: string)
    requires name != "" && '/' !in name
    ensures ShortName(Some(name)) == Some(name) && Declaration(Some(name)) == None
  {
    assert name[..|name|] == name;
  }

  lemma ShippedIs(repo: map<string, Files>)
    ensures forall name, file :: RepoDefault(repo, name, file) == Shipped(repo, name, file)
  {
  }

  lemma FoundIs(roots: Roots)
    ensures forall root, name, version, file :: Known(roots, CacheKey(root, name, version, file)) <==>
              version in At(roots, root, name).dirs
    ensures forall root, name, version, file :: version in At(roots, root, name).dirs ==>
              FileAt(roots, CacheKey(root, name, version, file)) == FileIn(At(roots, root, name).dirs[version], file)
  {
  }

  function ReadCached(entries: Entries, roots: Roots, key: CacheKey): (Entries, Option<Json>) {
    if key in entries then (entries, entries[key])
    else (entries[key := FileAt(roots, key)], FileAt(roots, key))
  }

  /** The lookup through the cache: the cache it leaves, and its answer. */
  function LoadCached(entries: Entries, roots: Roots, repo: map<string, Files>, req: Request)
    : (Entries, Result<Option<Json>, LoadError>)
  {
    match ShortName(req.profile)
    case None => (entries, Ok(None))
    case Some(name) =>
      match Declaration(req.profile)
      case Some(d) =>
        if req.root.None? then (entries, Ok(RepoDefault(repo, name, req.file)))
        else
          var key := CacheKey(req.root.value, name, d.1, req.file);
          if Known(roots, key) then
            var (after, content) := ReadCached(entries, roots, key);
            (after, Ok(content))
          else if req.failClosed then (entries, Err(UnknownProfileVersion))
          else (entries, Ok(RepoDefault(repo, name, req.file)))
      case None => (entries, Ok(RepoDefault(repo, name, req.file)))
  }

  /** Every cached read of a version directory that exists is what the disk holds. */
  ghost predicate Coherent(entries: Entries, roots: Roots) {
    forall k :: k in entries && Known(roots, k) ==> entries[k] == FileAt(roots, k)
  }

  datatype System = System(roots: Roots, entries: Entries)

  /** Everything that touches a registry root or the cache, each an atomic step. */
  datatype Op =
    | Load(req: Request)
    | Seed(root: string, name: string, initial: string)
    | Bump(root: string, name: string, next: string, patch: Patch, note: string, actor: Option<string>)
    | SeedScratch(root: string, name: string, version: string, files: Files)
    | Invalidate(which: Option<string>, names: Option<string>)
    | DeleteRoot(root: string)

  /** A registry call that leaves `p` in the place of `name`'s profile. */
  function Wrote(s: System, root: string, name: string, p: Profile): System {
    var names := if root in s.roots then s.roots[root] else map[];
    System(s.roots[root := names[name := p]],
           if p == At(s.roots, root, name) then s.entries else Dropped(s.entries, None, Some(name)))
  }

  function Step(repo: map<string, Files>, s: System, op: Op): System {
    match op
    case Load(req) => s.(entries := LoadCached(s.entries, s.roots, repo, req).0)
    case Seed(root, name, initial) =>
      if !ValidComponent(name) then s
      else Wrote(s, root, name, RegistrySpec.EnsureSeeded(At(s.roots, root, name), Vendored(repo, name), initial).0)
    case Bump(root, name, next, patch, note, actor) =>
      if !ValidComponent(name) then s
      else
        var p := RegistrySpec.BumpVersion(At(s.roots, root, name), Vendored(repo, name), next, patch, note, actor).0;
        Wrote(s, root, name, p)
    case SeedScratch(root, name, version, files) =>
      if !ValidComponent(name) then s
      else Wrote(s, root, name, RegistrySpec.SeedVersion(At(s.roots, root, name), version, files).0)
    case Invalidate(which, names) => s.(entries := Dropped(s.entries, which, names))
    case DeleteRoot(root) => s.(roots := s.roots - {root})
  }

  function Vendored(repo: map<string, Files>, name: string): Option<Files> {
    if name in repo then Some(repo[name]) else None
  }

  function Run(repo: map<string, Files>, s: System, ops: seq<Op>): System
    decreases |ops|
  {
    if ops == [] then s else Run(repo, Step(repo, s, ops[0]), ops[1..])
  }

  lemma WroteStaysCoherent(s: System, root: string, name: string, p: Profile)
    requires Coherent(s.entries, s.roots)
    ensures var t := Wrote(s, root, name, p); Coherent(t.entries, t.roots)
  {
  }

  lemma StepStaysCoherent(repo: map<string, Files>, s: System, op: Op)
    requires Coherent(s.entries, s.roots)
    ensures var t := Step(repo, s, op); Coherent(t.entries, t.roots)
  {
    match op
    case Load(req) => LoadIsUncached(s.entries, s.roots, repo, req);
    case Seed(root, name, initial) =>
      WroteStaysCoherent(s, root, name,
        RegistrySpec.EnsureSeeded(At(s.roots, root, name), Vendored(repo, name), initial).0);
    case Bump(root, name, next, patch, note, actor) =>
      WroteStaysCoherent(s, root, name,
        RegistrySpec.BumpVersion(At(s.roots, root, name), Vendored(repo, name), next, patch, note, actor).0);
    case SeedScratch(root, name, version, files) =>
      WroteStaysCoherent(s, root, name,
        RegistrySpec.SeedVersion(At(s.roots, root, name), version, files).0);
    case Invalidate(_, _) =>
    case DeleteRoot(root) =>
      var roots := s.roots - {root};
      forall k | k in s.entries && Known(roots, k)
        ensures s.entries[k] == FileAt(roots, k)
      {
        assert At(roots, k.root, k.name) == At(s.roots, k.root, k.name);
      }
  }

  lemma LoadIsUncached(entries: Entries, roots: Roots, repo: map<string, Files>, req: Request)
    requires Coherent(entries, roots)
    ensures LoadCached(entries, roots, repo, req).1 == LoadUncached(roots, repo, req)
    ensures Coherent(LoadCached(entries, roots, repo, req).0, roots)
  {
  }

  lemma {:induction false} RunStaysCoherent(repo: map<string, Files>, s: System, ops: seq<Op>)
    requires Coherent(s.entries, s.roots)
    ensures Coherent(Run(repo, s, ops).entries, Run(repo, s, ops).roots)
    decreases |ops|
  {
    if ops != [] {
      StepStaysCoherent(repo, s, ops[0]);
      RunStaysCoherent(repo, Step(repo, s, ops[0]), ops[1..]);
    }
  }

  // ---- A registered version never changes ----

  /** What may follow: every version directory stands as it was, and the pointer is kept or moved on. */
  ghost predicate GrownFrom(p: Profile, q: Profile) {
    && (forall v :: v in p.dirs ==> v in q.dirs && q.dirs[v] == p.dirs[v])
    && (p.pointer.Some? ==>
          q.pointer.Some? && (q.pointer == p.pointer || KeyLess(SortKey(p.pointer.value), SortKey(q.pointer.value))))
  }

  /** A step that neither deletes the root nor writes a scratch registry over the profile. */
  predicate Ordinary(op: Op, root: string, name: string) {
    && (op.DeleteRoot? ==> op.root != root)
    && (op.SeedScratch? ==> op.root != root || op.name != name)
  }

  lemma StepGrows(repo: map<string, Files>, s: System, op: Op, root: string, name: string)
    requires Ordinary(op, root, name)
    ensures GrownFrom(At(s.roots, root, name), At(Step(repo, s, op).roots, root, name))
  {
    hide GrownFrom, RegistrySpec.EnsureSeeded, RegistrySpec.BumpVersion, RegistrySpec.SeedVersion;
    var p := At(s.roots, root, name);
    NothingGrown(p);
    match op
    case Seed(_, _, initial) => SeedGrows(p, Vendored(repo, name), initial);
    case Bump(_, _, next, patch, note, actor) => BumpGrows(p, Vendored(repo, name), next, patch, note, actor);
    case _ =>
  }

  lemma SeedGrows(p: Profile, repo: Option<Files>, initial: string)
    ensures GrownFrom(p, RegistrySpec.EnsureSeeded(p, repo, initial).0)
  {
    hide KeyLess, SortKey, SeedFiles;
  }

  lemma BumpGrows(p: Profile, repo: Option<Files>, next: string, patch: Patch, note: string, actor: Option<string>)
    ensures GrownFrom(p, RegistrySpec.BumpVersion(p, repo, next, patch, note, actor).0)
  {
    hide KeyLess, SortKey, Patched, SeedFiles, View;
    SeedGrows(p, repo, INITIAL_VERSION);
  }

  lemma GrownOn(p: Profile, q: Profile, r: Profile)
    requires GrownFrom(p, q) && GrownFrom(q, r)
    ensures GrownFrom(p, r)
  {
    hide KeyLess, SortKey;
    if p.pointer.Some? && q.pointer != p.pointer && r.pointer != q.pointer {
      KeyLessTransitive(SortKey(p.pointer.value), SortKey(q.pointer.value), SortKey(r.pointer.value));
    }
  }

  /** Over every run of reads, seeds and bumps a registered version directory is never changed or lost, and
      the pointer only moves to newer versions. */
  lemma {:induction false} RegistryOnlyGrows(repo: map<string, Files>, s: System, ops: seq<Op>, root: string, name: string)
    requires forall op :: op in ops ==> Ordinary(op, root, name)
    ensures GrownFrom(At(s.roots, root, name), At(Run(repo, s, ops).roots, root, name))
    decreases |ops|
  {
    hide Step, GrownFrom;
    if ops == [] {
      assert GrownFrom(At(s.roots, root, name), At(s.roots, root, name)) by { NothingGrown(At(s.roots, root, name)); }
    } else {
      var t := Step(repo, s, ops[0]);
      assert ops[0] in ops;
      StepGrows(repo, s, ops[0], root, name);
      RegistryOnlyGrows(repo, t, ops[1..], root, name);
      GrownOn(At(s.roots, root, name), At(t.roots, root, name), At(Run(repo, s, ops).roots, root, name));
    }
  }

  lemma NothingGrown(p: Profile)
    ensures GrownFrom(p, p)
  {
  }

  /** So a package pinned to a registered version is judged by the same files for good, whatever is approved
      later. */
  lemma PinnedRulesNeverChange(repo: map<string, Files>, s: System, ops: seq<Op>, root: string, name: string,
                               version: string, file: string, failClosed: bool)
    requires forall op :: op in ops ==> Ordinary(op, root, name)
    requires name != "" && '/' !in name && version != "" && version in At(s.roots, root, name).dirs
    ensures
      var req := Request(Some(name + "/" + version), file, Some(root), failClosed);
      LoadUncached(Run(repo, s, ops).roots, repo, req) == LoadUncached(s.roots, repo, req)
      == Ok(FileIn(At(s.roots, root, name).dirs[version], file))
  {
    hide Run, LoadUncached;
    var req := Request(Some(name + "/" + version), file, Some(root), failClosed);
    RegistryOnlyGrows(repo, s, ops, root, name);
    LookUpIs(s.roots, repo, req);
    LookUpIs(Run(repo, s, ops).roots, repo, req);
  }

  /** From an empty cache over any disk, after any run of reads, seeds, bumps, scratch registries,
      invalidations and root deletions (a deleted path may be reused), a cached load answers exactly
      what the uncached resolution would. */
  lemma CacheRefinesUncachedRead(repo: map<string, Files>, roots: Roots, ops: seq<Op>, req: Request)
    ensures
      var t := Run(repo, System(roots, map[]), ops);
      LoadCached(t.entries, t.roots, repo, req).1 == LoadUncached(t.roots, repo, req)
  {
    hide Run, LoadCached, LoadUncached;
    RunStaysCoherent(repo, System(roots, map[]), ops);
    var t := Run(repo, System(roots, map[]), ops);
    LoadIsUncached(t.entries, t.roots, repo, req);
  }
}
