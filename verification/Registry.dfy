/** What the versioned profile registry stores, and what each whole call does to one profile. */
module RegistrySpec {
  import opened Wrappers
  import opened Versions
  import Text

  datatype Json =
    | JNull
    | JBool(b: bool)
    | JNum(n: real)
    | JStr(s: string)
    | JArr(items: seq<Json>)
    | JObj(fields: map<string, Json>)

  /** File name to content: one version directory, or one repo `profiles/<name>/` tree. */
  type Files = map<string, Json>

  /** File name to new content; None deletes the file. */
  type Patch = map<string, Option<Json>>

  /** A changelog line. */
  datatype Row = Row(version: string, previous: Option<string>, note: string, actor: Option<string>)

  /** Everything under `<root>/<name>/`. */
  datatype Profile = Profile(dirs: map<string, Files>, pointer: Option<string>, log: seq<Row>)

  const FRESH := Profile(map[], None, [])

  datatype Error =
    | RegistryError      // ProfileRegistryError
    | ApplyError         // ProposalApplyError
    | OsError            // OSError out of a rename the file system refuses
    | MalformedCodes     // AttributeError / TypeError out of the reason-code merge
    | PolicyError        // ProposalPolicyError
    | ValidationError    // ProposalValidationError
    | StoreError         // ProposalStoreError

  /** A proposal's `diff_json`, one shape per kind. */
  datatype Diff =
    | ProfileChange(profile: string, file: string, after: Json)
    | ReasonCodeAdd(profile: string, code: string, description: string)
    | StandardChange(target: string, description: string, patch: Option<string>)
    | CheckAdd(checkId: string, severity: string, description: string)
  {
    predicate Declarative() { ProfileChange? || ReasonCodeAdd? }
  }

  const INITIAL_VERSION := "0.1"
  const REASON_CODES := "reason_codes.json"

  /** `_validate_registry_component`. */
  predicate ValidComponent(value: string) {
    value != "" && value != "." && value != ".." && '\0' !in value && '/' !in value && '\\' !in value
  }

  /** A component is one segment of a path, whichever way paths are written, and leads nowhere else. */
  lemma ComponentIff(value: string)
    ensures ValidComponent(value) <==>
            && value !in {"", ".", ".."}
            && |Text.Split(value, '/')| == |Text.Split(value, '\\')| == |Text.Split(value, '\0')| == 1
  {
    Text.OnePartIff(value, '/');
    Text.OnePartIff(value, '\\');
    Text.OnePartIff(value, '\0');
  }

  /** What the glob `*.json` selects. */
  predicate IsJsonName(file: string) {
    |file| >= 5 && file[|file| - 5..] == ".json"
  }

  function JsonOnly(files: Files): Files {
    map f | f in files && IsJsonName(f) :: files[f]
  }

  /** The files a never-touched profile is seeded with. */
  function SeedFiles(repo: Option<Files>): Files {
    match repo
    case Some(files) => JsonOnly(files)
    case None => map[]
  }

  /** `read_version(name, version) or {}`: only `*.json` files are seen. */
  function View(dirs: map<string, Files>, version: string): Files {
    if version in dirs then JsonOnly(dirs[version]) else map[]
  }

  /** The rules in force: the current version, or the repo default before first touch. */
  function Effective(p: Profile, repo: Option<Files>): Files {
    match p.pointer
    case Some(v) => View(p.dirs, v)
    case None => SeedFiles(repo)
  }

  /** `base` with `patch` applied on top. */
  function Patched(base: Files, patch: Patch): Files {
    map f | f in base.Keys + patch.Keys && (f in patch ==> patch[f].Some?) ::
      if f in patch then patch[f].value else base[f]
  }

  /** `_write_version_dir`, run without interference. */
  function WriteVersionDir(p: Profile, version: string, files: Files): Result<Profile, Error> {
    if !ValidComponent(version) || (exists f :: f in files && !ValidComponent(f)) then Err(RegistryError)
    else if version in p.dirs then Err(RegistryError)
    else Ok(p.(dirs := p.dirs[version := files]))
  }

  function SeedNote(repo: Option<Files>): string {
    if repo.Some? then "seeded from repo profiles/ tree" else "seeded empty (no repo profile found)"
  }

  function EnsureSeeded(p: Profile, repo: Option<Files>, initial: string): (Profile, Result<string, Error>) {
    match p.pointer
    case Some(v) => (p, Ok(v))
    case None =>
      match WriteVersionDir(p, initial, SeedFiles(repo))
      case Err(e) => (p, Err(e))
      case Ok(q) =>
        (q.(pointer := Some(initial), log := q.log + [Row(initial, None, SeedNote(repo), None)]), Ok(initial))
  }

  function BumpVersion(p: Profile, repo: Option<Files>, next: string, patch: Patch, note: string, actor: Option<string>)
    : (Profile, Result<string, Error>)
  {
    var (q, seeded) := EnsureSeeded(p, repo, INITIAL_VERSION);
    match seeded
    case Err(e) => (q, Err(e))
    case Ok(current) =>
      if !KeyLess(SortKey(current), SortKey(next)) then (q, Err(RegistryError))
      else
        match WriteVersionDir(q, next, Patched(View(q.dirs, current), patch))
        case Err(e) => (q, Err(e))
        case Ok(r) =>
          (r.(pointer := Some(next), log := r.log + [Row(next, Some(current), note, actor)]), Ok(next))
  }

  function SeedVersion(p: Profile, version: string, files: Files): (Profile, Result<string, Error>) {
    match WriteVersionDir(p, version, files)
    case Err(e) => (p, Err(e))
    case Ok(q) => (q.(pointer := Some(version)), Ok(version))
  }

  /** Python truth value of a parsed document. */
  predicate Falsy(j: Json) {
    match j
    case JNull => true
    case JBool(b) => !b
    case JNum(n) => n == 0.0
    case JStr(s) => s == ""
    case JArr(items) => items == []
    case JObj(fields) => fields == map[]
  }

  function DefaultCodes(name: string): Json {
    JObj(map["profile" := JStr(name), "reason_codes" := JArr([]), "other_requires_reason_text" := JBool(false)])
  }

  /** `list(current.get("reason_codes", []))`. */
  function CodeList(fields: map<string, Json>): Result<seq<Json>, Error> {
    if "reason_codes" !in fields then Ok([])
    else
      match fields["reason_codes"]
      case JArr(items) => Ok(items)
      case JStr(s) => Ok(seq(|s|, i requires 0 <= i < |s| => JStr([s[i]])))
      case _ => Err(MalformedCodes)
  }

  /** reason_codes.json with `code` appended unless it is already listed. */
  function WithCode(current: Option<Json>, name: string, code: string): Result<Json, Error> {
    var doc := if current.Some? && !Falsy(current.value) then current.value else DefaultCodes(name);
    if !doc.JObj? then Err(MalformedCodes)
    else
      match CodeList(doc.fields)
      case Err(e) => Err(e)
      case Ok(codes) =>
        var merged := if JStr(code) in codes then codes else codes + [JStr(code)];
        Ok(JObj(doc.fields["reason_codes" := JArr(merged)]))
  }

  function Lookup(files: Files, file: string): Option<Json> {
    if file in files then Some(files[file]) else None
  }

  /** `compute_changed_files` over the files in force. A null `after` deletes the file. */
  function ChangedFiles(inForce: Files, diff: Diff): Result<Patch, Error>
    requires diff.Declarative()
  {
    match diff
    case ProfileChange(_, file, after) => Ok(map[file := if after.JNull? then None else Some(after)])
    case ReasonCodeAdd(name, code, _) =>
      match WithCode(Lookup(inForce, REASON_CODES), name, code)
      case Err(e) => Err(e)
      case Ok(doc) => Ok(map[REASON_CODES := Some(doc)])
  }

  function ApplyNote(diff: Diff): string {
    if diff.ProfileChange? then "applied via proposal decision (profile_change)"
    else "applied via proposal decision (reason_code_add)"
  }

  /** `apply_declarative` once the profile is known to be seeded. */
  function ApplySeeded(q: Profile, repo: Option<Files>, current: string, diff: Diff, actor: string)
    : (Profile, Result<string, Error>)
    requires diff.Declarative()
  {
    match ChangedFiles(Effective(q, repo), diff)
    case Err(e) => (q, Err(e))
    case Ok(patch) =>
      match BumpMinor(current)
      case None => (q, Err(ApplyError))
      case Some(next) =>
        var (r, bumped) := BumpVersion(q, repo, next, patch, ApplyNote(diff), Some(actor));
        (r, if bumped.Err? then Err(ApplyError) else bumped)
  }

  /** `apply_declarative` on the profile the diff names, run without interference. */
  function ApplyDeclarative(p: Profile, repo: Option<Files>, diff: Diff, actor: string)
    : (Profile, Result<string, Error>)
    requires diff.Declarative()
  {
    if !ValidComponent(diff.profile) then (p, Err(ApplyError))
    else
      match EnsureSeeded(p, repo, INITIAL_VERSION)
      case (q, Err(_)) => (q, Err(ApplyError))
      case (q, Ok(current)) => ApplySeeded(q, repo, current, diff, actor)
  }

  /** The files a dry run overlays for `patch`. */
  function DryRunFiles(p: Profile, repo: Option<Files>, patch: Patch): Files {
    Patched(Effective(p, repo), patch)
  }

  lemma JsonOnlyIdempotent(files: Files)
    ensures JsonOnly(JsonOnly(files)) == JsonOnly(files)
  {
  }

  /** Seeding changes no rule in force. */
  lemma SeedingKeepsRules(p: Profile, repo: Option<Files>)
    ensures Effective(EnsureSeeded(p, repo, INITIAL_VERSION).0, repo) == Effective(p, repo)
  {
  }

  lemma SeededPointer(p: Profile, repo: Option<Files>)
    ensures
      var (q, seeded) := EnsureSeeded(p, repo, INITIAL_VERSION);
      && (seeded.Ok? ==> q.pointer == Some(seeded.value))
      && (seeded.Err? ==> q == p)
  {
  }

  lemma BumpWrites(p: Profile, repo: Option<Files>, next: string, patch: Patch, note: string, actor: Option<string>)
    requires p.pointer.Some?
    ensures
      var (q, bumped) := BumpVersion(p, repo, next, patch, note, actor);
      bumped.Ok? ==>
        && bumped.value == next && q.pointer == Some(next)
        && q.dirs == p.dirs[next := Patched(Effective(p, repo), patch)]
        && q.log == p.log + [Row(next, p.pointer, note, actor)]
  {
  }

  /** `apply_declarative` succeeds only by bumping the seeded profile with the diff's patch. */
  lemma ApplyShape(p: Profile, repo: Option<Files>, diff: Diff, actor: string)
    requires diff.Declarative()
    ensures
      var (q, seeded) := EnsureSeeded(p, repo, INITIAL_VERSION);
      var changed := ChangedFiles(Effective(q, repo), diff);
      ApplyDeclarative(p, repo, diff, actor).1.Ok? ==>
        && ValidComponent(diff.profile) && seeded.Ok? && changed.Ok? && BumpMinor(seeded.value).Some?
        && ApplyDeclarative(p, repo, diff, actor) ==
           BumpVersion(q, repo, BumpMinor(seeded.value).value, changed.value, ApplyNote(diff), Some(actor))
  {
  }

  /** Why an apply fails: a reason-code file that cannot be merged says so; anything else is an apply error. */
  lemma ApplyErrors(p: Profile, repo: Option<Files>, diff: Diff, actor: string)
    requires diff.Declarative()
    ensures
      var (q, seeded) := EnsureSeeded(p, repo, INITIAL_VERSION);
      var applied := ApplyDeclarative(p, repo, diff, actor).1;
      applied.Err? ==>
        applied.error ==
          if ValidComponent(diff.profile) && seeded.Ok? && ChangedFiles(Effective(q, repo), diff).Err? then MalformedCodes
          else ApplyError
  {
    hide BumpVersion, BumpMinor, ValidComponent, EnsureSeeded, Effective;
  }

  /** Whatever state the registry is in, the files the dry run shows the approver are the files the
      approval writes as the next version; a diff the dry run cannot merge is never applied. */
  lemma DryRunPredictsApply(p: Profile, repo: Option<Files>, diff: Diff, actor: string)
    requires diff.Declarative() && ApplyDeclarative(p, repo, diff, actor).1.Ok?
    ensures
      var changed := ChangedFiles(Effective(p, repo), diff);
      var (q, applied) := ApplyDeclarative(p, repo, diff, actor);
      && changed.Ok?
      && applied.value in q.dirs && q.pointer == Some(applied.value)
      && q.dirs[applied.value] == DryRunFiles(p, repo, changed.value)
  {
    hide BumpMinor, SortKey, KeyLess, ChangedFiles, SeedFiles;
    SeedingKeepsRules(p, repo);
    ApplyShape(p, repo, diff, actor);
    var (q, seeded) := EnsureSeeded(p, repo, INITIAL_VERSION);
    var changed := ChangedFiles(Effective(p, repo), diff);
    BumpWrites(q, repo, BumpMinor(seeded.value).value, changed.value, ApplyNote(diff), Some(actor));
  }
}

/** The registry, its disk and the reader's cache, as the code updates them in place. */
module Registry {
  import opened Wrappers
  import opened Versions
  import opened RegistrySpec

  /** registry root to profile name to what is stored there. */
  type Roots = map<string, map<string, Profile>>

  datatype CacheKey = CacheKey(root: string, name: string, version: string, file: string)
  type Entries = map<CacheKey, Option<Json>>

  function At(roots: Roots, root: string, name: string): Profile {
    if root in roots && name in roots[root] then roots[root][name] else FRESH
  }

  /** Only the profile `name` under `root` differs, and it is now `p`. */
  ghost predicate Updated(after: Roots, before: Roots, root: string, name: string, p: Profile) {
    forall r, n :: At(after, r, n) == if r == root && n == name then p else At(before, r, n)
  }

  /** The same profiles under the same names. */
  ghost predicate SameDisk(a: Roots, b: Roots) {
    forall r, n :: At(a, r, n) == At(b, r, n)
  }

  predicate Matches(key: CacheKey, root: Option<string>, name: Option<string>) {
    (root.None? || root.value == key.root) && (name.None? || name.value == key.name)
  }

  /** The cache after `invalidate_registry_cache(root, name)`. */
  function Dropped(entries: Entries, root: Option<string>, name: Option<string>): Entries {
    map k | k in entries && !Matches(k, root, name) :: entries[k]
  }

  /** The content of one file of one version directory; a JSON null reads as absent. */
  function FileAt(roots: Roots, key: CacheKey): Option<Json> {
    var p := At(roots, key.root, key.name);
    if key.version in p.dirs && key.file in p.dirs[key.version] && !p.dirs[key.version][key.file].JNull?
    then Some(p.dirs[key.version][key.file]) else None
  }

  predicate Known(roots: Roots, key: CacheKey) {
    key.version in At(roots, key.root, key.name).dirs
  }

  class Disk {
    var roots: Roots

    constructor ()
      ensures roots == map[]
    {
      roots := map[];
    }

    method Remove(root: string)
      modifies this
      ensures roots == old(roots) - {root}
    {
      roots := roots - {root};
    }
  }

  class FileCache {
    var entries: Entries

    constructor ()
      ensures entries == map[]
    {
      entries := map[];
    }

    /** `invalidate_registry_cache`. */
    method Invalidate(root: Option<string>, name: Option<string>)
      modifies this
      ensures entries == Dropped(old(entries), root, name)
      ensures forall k :: k in entries <==> k in old(entries) && !((root == None || root == Some(k.root))
                                                                   && (name == None || name == Some(k.name)))
      ensures forall k :: k in entries ==> entries[k] == old(entries)[k]
    {
      if root.None? && name.None? {
        entries := map[];
        return;
      }
      hide Matches;
      var keys := set k | k in entries && Matches(k, root, name);
      ghost var all := keys;
      while keys != {}
        invariant keys <= all
        invariant entries == map k | k in old(entries) && k !in all - keys :: old(entries)[k]
        decreases |keys|
      {
        var k :| k in keys;
        keys := keys - {k};
        entries := map j | j in entries && j != k :: entries[j];
      }
      assert all - keys == all;
      assert forall k :: k in old(entries) ==> (k in all <==> Matches(k, root, name));
      assert entries.Keys == Dropped(old(entries), root, name).Keys;
    }

    /** `_read_registry_file`: the content, and whether the version directory exists. */
    method Read(disk: Disk, key: CacheKey) returns (content: Option<Json>, known: bool)
      modifies this
      ensures known == Known(disk.roots, key)
      ensures !known ==> content == None && entries == old(entries)
      ensures known && key in old(entries) ==> content == old(entries)[key] && entries == old(entries)
      ensures known && key !in old(entries) ==>
                content == FileAt(disk.roots, key) && entries == old(entries)[key := content]
    {
      var p := At(disk.roots, key.root, key.name);
      if key.version !in p.dirs {
        return None, false;
      }
      if key in entries {
        return entries[key], true;
      }
      content := FileAt(disk.roots, key);
      entries := entries[key := content];
      known := true;
    }
  }

  class ProfileRegistry {
    const root: string
    const disk: Disk
    const cache: FileCache
    /** The vendored `profiles/` tree. */
    const repo: map<string, Files>

    constructor (root: string, disk: Disk, cache: FileCache, repo: map<string, Files>)
      ensures this.root == root && this.disk == disk && this.cache == cache && this.repo == repo
    {
      this.root, this.disk, this.cache, this.repo := root, disk, cache, repo;
    }

    function Stored(name: string): Profile
      reads disk
    {
      At(disk.roots, root, name)
    }

    function Vendored(name: string): Option<Files> {
      if name in repo then Some(repo[name]) else None
    }

    /** What a whole call leaves: the profile as `after` says, and its cached reads dropped if it changed. */
    twostate predicate Leaves(name: string, after: Profile)
      reads disk, cache
    {
      && Updated(disk.roots, old(disk.roots), root, name, after)
      && cache.entries == if after == old(Stored(name)) then old(cache.entries)
                          else Dropped(old(cache.entries), None, Some(name))
    }

    method Put(name: string, p: Profile)
      modifies disk
      ensures Updated(disk.roots, old(disk.roots), root, name, p)
    {
      var names := if root in disk.roots then disk.roots[root] else map[];
      disk.roots := disk.roots[root := names[name := p]];
    }

    /** `current_version` on a valid name. */
    function CurrentVersion(name: string): Option<string>
      reads disk
    {
      Stored(name).pointer
    }

    method WriteVersionDir(name: string, version: string, files: Files) returns (r: Result<(), Error>)
      modifies disk
      ensures match RegistrySpec.WriteVersionDir(old(Stored(name)), version, files)
              case Ok(p) => r == Ok(()) && Updated(disk.roots, old(disk.roots), root, name, p)
              case Err(e) => r == Err(e) && disk.roots == old(disk.roots)
    {
      if !ValidComponent(version) || exists f :: f in files && !ValidComponent(f) {
        return Err(RegistryError);
      }
      var p := Stored(name);
      if version in p.dirs {
        return Err(RegistryError);
      }
      Put(name, p.(dirs := p.dirs[version := files]));
      r := Ok(());
    }

    method WritePointer(name: string, version: string)
      modifies disk
      ensures Updated(disk.roots, old(disk.roots), root, name, old(Stored(name)).(pointer := Some(version)))
    {
      Put(name, Stored(name).(pointer := Some(version)));
    }

    method AppendChangelog(name: string, row: Row)
      modifies disk
      ensures Updated(disk.roots, old(disk.roots), root, name,
                      old(Stored(name)).(log := old(Stored(name)).log + [row]))
    {
      var p := Stored(name);
      Put(name, p.(log := p.log + [row]));
    }

    /** `ensure_seeded`. */
    method EnsureSeeded(name: string, initial: string) returns (r: Result<string, Error>)
      modifies disk, cache
      ensures !ValidComponent(name) ==> r == Err(RegistryError) && Leaves(name, old(Stored(name)))
      ensures ValidComponent(name) ==>
                var (p, res) := RegistrySpec.EnsureSeeded(old(Stored(name)), Vendored(name), initial);
                r == res && Leaves(name, p)
    {
      if !ValidComponent(name) {
        return Err(RegistryError);
      }
      if CurrentVersion(name).Some? {
        return Ok(CurrentVersion(name).value);
      }
      var written := WriteVersionDir(name, initial, SeedFiles(Vendored(name)));
      if written.Err? {
        return Err(written.error);
      }
      WritePointer(name, initial);
      AppendChangelog(name, Row(initial, None, SeedNote(Vendored(name)), None));
      cache.Invalidate(None, Some(name));
      r := Ok(initial);
    }

    /** `bump_version`. */
    method BumpVersion(name: string, next: string, patch: Patch, note: string, actor: Option<string>)
      returns (r: Result<string, Error>)
      modifies disk, cache
      ensures !ValidComponent(name) ==> r == Err(RegistryError) && Leaves(name, old(Stored(name)))
      ensures ValidComponent(name) ==>
                var (p, res) := RegistrySpec.BumpVersion(old(Stored(name)), Vendored(name), next, patch, note, actor);
                r == res && Leaves(name, p)
    {
      if !ValidComponent(name) {
        return Err(RegistryError);
      }
      if CurrentVersion(name).None? {
        var seeded := EnsureSeeded(name, INITIAL_VERSION);
        if seeded.Err? {
          return seeded;
        }
      }
      ghost var entries := cache.entries;
      var current := CurrentVersion(name).value;
      if !KeyLess(SortKey(current), SortKey(next)) {
        return Err(RegistryError);
      }
      var base := View(Stored(name).dirs, current);
      var files := Overlay(base, patch);
      var written := WriteVersionDir(name, next, files);
      if written.Err? {
        return Err(written.error);
      }
      WritePointer(name, next);
      AppendChangelog(name, Row(next, Some(current), note, actor));
      cache.Invalidate(None, Some(name));
      DroppedTwice(old(cache.entries), name);
      r := Ok(next);
    }

    /** `seed_version`: scratch registries only. */
    method SeedVersion(name: string, version: string, files: Files) returns (r: Result<string, Error>)
      modifies disk, cache
      ensures !ValidComponent(name) ==> r == Err(RegistryError) && Leaves(name, old(Stored(name)))
      ensures ValidComponent(name) ==>
                var (p, res) := RegistrySpec.SeedVersion(old(Stored(name)), version, files);
                r == res && Leaves(name, p)
    {
      if !ValidComponent(name) {
        return Err(RegistryError);
      }
      var written := WriteVersionDir(name, version, files);
      if written.Err? {
        return Err(written.error);
      }
      WritePointer(name, version);
      cache.Invalidate(None, Some(name));
      r := Ok(version);
    }
  }

  lemma DroppedTwice(entries: Entries, name: string)
    ensures Dropped(Dropped(entries, None, Some(name)), None, Some(name)) == Dropped(entries, None, Some(name))
  {
  }

  /** The patch loop: each named file is replaced, or removed when its new content is None. */
  method Overlay(base: Files, patch: Patch) returns (files: Files)
    ensures files == Patched(base, patch)
  {
    files := base;
    var todo := patch.Keys;
    assert files == Patched(base, Without(patch, todo));
    while todo != {}
      invariant todo <= patch.Keys
      invariant files == Patched(base, Without(patch, todo))
      decreases |todo|
    {
      var f :| f in todo;
      PatchedOneMore(base, Without(patch, todo), f, patch[f]);
      WithoutOneLess(patch, todo, f);
      todo := todo - {f};
      if patch[f].None? {
        files := map g | g in files && g != f :: files[g];
      } else {
        files := files[f := patch[f].value];
      }
    }
    assert Without(patch, {}) == patch;
  }

  function Without(patch: Patch, names: set<string>): Patch {
    map f | f in patch && f !in names :: patch[f]
  }

  lemma WithoutOneLess(patch: Patch, names: set<string>, f: string)
    requires f in names && f in patch
    ensures Without(patch, names - {f}) == Without(patch, names)[f := patch[f]]
  {
  }

  lemma PatchedOneMore(base: Files, patch: Patch, f: string, content: Option<Json>)
    ensures Patched(base, patch[f := content]) ==
            if content.None? then map g | g in Patched(base, patch) && g != f :: Patched(base, patch)[g]
            else Patched(base, patch)[f := content.value]
  {
  }
}
