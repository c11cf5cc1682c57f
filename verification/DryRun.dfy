/** The dry run: the overlay it scans the corpus under, and the comparison it shows the approver. */
module DryRun {
  import opened Wrappers
  import opened RegistrySpec
  import opened Registry
  import opened ProfileLoader
  import opened Versions
  import Gate

  type Outcome = Gate.Outcome

  datatype PackageScan = PackageScan(packageId: string, packageVersion: string, outcomes: seq<Outcome>)

  datatype CheckMovement = CheckMovement(packageId: string, packageVersion: string, checkId: string,
                                         before: Gate.Verdict, after: Gate.Verdict)

  datatype DryRunResult = DryRunResult(profileName: string, evaluatedVersion: string,
                                       newlyFailing: seq<string>, newlyPassing: seq<string>,
                                       movements: seq<CheckMovement>)

  function Key(scan: PackageScan): string {
    scan.packageId + "@" + scan.packageVersion
  }

  /** `outcomes.get(check_id)`. */
  function OutcomeOf(outcomes: seq<Outcome>, checkId: string): Option<Outcome> {
    if outcomes == [] then None
    else if outcomes[0].checkId == checkId then Some(outcomes[0])
    else OutcomeOf(outcomes[1..], checkId)
  }

  /** `{key: scan}`: a later scan with the same key wins. */
  function ByKey(scans: seq<PackageScan>): map<string, PackageScan> {
    if scans == [] then map[] else ByKey(scans[..|scans| - 1])[Key(scans[|scans| - 1]) := scans[|scans| - 1]]
  }

  /** `_overall_pass`. */
  predicate Passes(scan: PackageScan) {
    !Gate.AnyBlocks(scan.outcomes)
  }

  /** One package's movements: the checks present on both sides whose result changed, in order. */
  function MovementsOf(before: PackageScan, after: PackageScan, outcomes: seq<Outcome>): seq<CheckMovement> {
    if outcomes == [] then []
    else
      var last := outcomes[|outcomes| - 1];
      var now := OutcomeOf(after.outcomes, last.checkId);
      MovementsOf(before, after, outcomes[..|outcomes| - 1]) +
        (if now.Some? && now.value.result != last.result
         then [CheckMovement(before.packageId, before.packageVersion, last.checkId, last.result, now.value.result)]
         else [])
  }

  /** `_diff` over a prefix of the baseline. */
  function Compare(name: string, version: string, baseline: seq<PackageScan>, proposed: map<string, PackageScan>)
    : DryRunResult
  {
    if baseline == [] then DryRunResult(name, version, [], [], [])
    else
      var r := Compare(name, version, baseline[..|baseline| - 1], proposed);
      var before := baseline[|baseline| - 1];
      var key := Key(before);
      if key !in proposed then r
      else
        var after := proposed[key];
        r.(newlyFailing := r.newlyFailing + (if Passes(before) && !Passes(after) then [key] else []),
           newlyPassing := r.newlyPassing + (if !Passes(before) && Passes(after) then [key] else []),
           movements := r.movements + MovementsOf(before, after, before.outcomes))
  }

  method Diff(name: string, version: string, baseline: seq<PackageScan>, proposed: seq<PackageScan>)
    returns (r: DryRunResult)
    ensures r == Compare(name, version, baseline, ByKey(proposed))
  {
    var table: map<string, PackageScan> := map[];
    for i := 0 to |proposed|
      invariant table == ByKey(proposed[..i])
    {
      assert proposed[..i + 1][..i] == proposed[..i];
      table := table[Key(proposed[i]) := proposed[i]];
    }
    assert proposed[..|proposed|] == proposed;

    var movements: seq<CheckMovement>, newlyFailing: seq<string>, newlyPassing: seq<string> := [], [], [];
    for i := 0 to |baseline|
      invariant DryRunResult(name, version, newlyFailing, newlyPassing, movements) ==
                Compare(name, version, baseline[..i], table)
    {
      assert baseline[..i + 1][..i] == baseline[..i];
      var before := baseline[i];
      var key := Key(before);
      if key in table {
        var after := table[key];
        if Passes(before) && !Passes(after) {
          newlyFailing := newlyFailing + [key];
        } else if Passes(after) && !Passes(before) {
          newlyPassing := newlyPassing + [key];
        }
        var moved := Moves(before, after);
        movements := movements + moved;
      }
    }
    assert baseline[..|baseline|] == baseline;
    r := DryRunResult(name, version, newlyFailing, newlyPassing, movements);
  }

  /** The inner loop over one package's checks. */
  method Moves(before: PackageScan, after: PackageScan) returns (movements: seq<CheckMovement>)
    ensures movements == MovementsOf(before, after, before.outcomes)
  {
    movements := [];
    for i := 0 to |before.outcomes|
      invariant movements == MovementsOf(before, after, before.outcomes[..i])
    {
      assert before.outcomes[..i + 1][..i] == before.outcomes[..i];
      var o := before.outcomes[i];
      var now := OutcomeOf(after.outcomes, o.checkId);
      if now.Some? && o.result != now.value.result {
        movements := movements +
          [CheckMovement(before.packageId, before.packageVersion, o.checkId, o.result, now.value.result)];
      }
    }
    assert before.outcomes[..|before.outcomes|] == before.outcomes;
  }

  // ---- The corpus scanned under a registry ----

  /** An approved package: its key, the profile its manifest declares, and what the gate reads of it. */
  datatype Pkg = Pkg(id: string, version: string, profile: Option<string>, m: Gate.Manifest)

  type Loaded = Result<Option<Json>, LoadError>

  /** The simple checks of one package, given the profile's reason codes and training grade. */
  type Judge = (Pkg, Loaded, Loaded) -> seq<Outcome>

  const TRAINING_GRADE := "training_grade.json"

  function LookUp(roots: Roots, repo: map<string, Files>, root: string, failClosed: bool, pkg: Pkg, file: string): Loaded {
    LoadUncached(roots, repo, Request(pkg.profile, file, Some(root), failClosed))
  }

  /** `scan_package`: the gate rerun under one registry root. */
  function ScanOf(judge: Judge, roots: Roots, repo: map<string, Files>, root: string, failClosed: bool, pkg: Pkg)
    : PackageScan
  {
    var codes := LookUp(roots, repo, root, failClosed, pkg, REASON_CODES);
    var grade := LookUp(roots, repo, root, failClosed, pkg, TRAINING_GRADE);
    PackageScan(pkg.id, pkg.version, Gate.RunAll(judge(pkg, codes, grade), pkg.m))
  }

  function ScanAll(judge: Judge, roots: Roots, repo: map<string, Files>, root: string, failClosed: bool, corpus: seq<Pkg>)
    : seq<PackageScan>
  {
    seq(|corpus|, i requires 0 <= i < |corpus| => ScanOf(judge, roots, repo, root, failClosed, corpus[i]))
  }

  /** The scratch registry: one version of one profile. */
  function Scratch(roots: Roots, tmp: string, name: string, version: string, files: Files): Roots {
    roots[tmp := map[name := Profile(map[version := files], Some(version), [])]]
  }

  /** `scan_corpus`, through the reader's cache. */
  method ScanCorpus(cache: FileCache, disk: Disk, repo: map<string, Files>, root: string, failClosed: bool,
                    judge: Judge, corpus: seq<Pkg>) returns (scans: seq<PackageScan>)
    requires Coherent(cache.entries, disk.roots)
    modifies cache
    ensures scans == ScanAll(judge, disk.roots, repo, root, failClosed, corpus)
    ensures Coherent(cache.entries, disk.roots)
  {
    hide LoadUncached, LoadCached, Coherent, Gate.RunAll;
    scans := [];
    for i := 0 to |corpus|
      invariant Coherent(cache.entries, disk.roots)
      invariant |scans| == i
      invariant forall j :: 0 <= j < i ==> scans[j] == ScanOf(judge, disk.roots, repo, root, failClosed, corpus[j])
    {
      var pkg := corpus[i];
      var codes := LoadProfileFile(cache, disk, repo, Request(pkg.profile, REASON_CODES, Some(root), failClosed));
      var grade := LoadProfileFile(cache, disk, repo, Request(pkg.profile, TRAINING_GRADE, Some(root), failClosed));
      var scan := PackageScan(pkg.id, pkg.version, Gate.RunAll(judge(pkg, codes, grade), pkg.m));
      scans := scans + [scan];
    }
  }

  /** What `dry_run` answers. */
  function DryRunOf(roots: Roots, repo: map<string, Files>, root: string, tmp: string, name: string, patch: Patch,
                    judge: Judge, failClosed: bool, corpus: seq<Pkg>, later: seq<Pkg>): Result<DryRunResult, Error>
  {
    var p := At(roots, root, name);
    var version, files := p.pointer.GetOr(INITIAL_VERSION), DryRunFiles(p, ProfileLoader.Vendored(repo, name), patch);
    if !ValidComponent(name) || RegistrySpec.WriteVersionDir(FRESH, version, files).Err? then Err(RegistryError)
    else
      Ok(Compare(name, version, ScanAll(judge, roots, repo, root, failClosed, corpus),
                 ByKey(ScanAll(judge, Scratch(roots, tmp, name, version, files), repo, tmp, failClosed, later))))
  }

  /** `dry_run`: scan under the real registry, overlay the patch at the version packages already pin in a
      scratch registry under the fresh path `tmp`, rescan, compare, delete the scratch. `corpus` is what is
      approved at the first scan, `later` at the second. */
  method Evaluate(registry: ProfileRegistry, tmp: string, name: string, patch: Patch, judge: Judge, failClosed: bool,
                  corpus: seq<Pkg>, later: seq<Pkg>)
    returns (r: Result<DryRunResult, Error>)
    requires Coherent(registry.cache.entries, registry.disk.roots) && tmp !in registry.disk.roots
    modifies registry.disk, registry.cache
    ensures Coherent(registry.cache.entries, registry.disk.roots)
    ensures SameDisk(registry.disk.roots, old(registry.disk.roots))
    ensures r == DryRunOf(old(registry.disk.roots), registry.repo, registry.root, tmp, name, patch, judge, failClosed,
                          corpus, later)
  {
    hide Coherent, ScanAll, Patched, View, SeedFiles, Compare, ByKey, Dropped, At, ScanOf;
    var cache, disk, repo := registry.cache, registry.disk, registry.repo;
    ghost var roots := disk.roots;
    var baseline := ScanCorpus(cache, disk, repo, registry.root, failClosed, judge, corpus);
    if !ValidComponent(name) { return Err(RegistryError); }
    var current := registry.CurrentVersion(name);
    var version := current.GetOr(INITIAL_VERSION);
    var base := if current.Some? then View(registry.Stored(name).dirs, current.value)
                else SeedFiles(registry.Vendored(name));
    var overlay := Overlay(base, patch);
    var scratch := new ProfileRegistry(tmp, disk, cache, repo);
    NothingThere(roots, tmp, name);
    ghost var entries := cache.entries;
    var seeded := scratch.SeedVersion(name, version, overlay);
    if seeded.Err? {
      StillCoherent(roots, disk.roots, entries, tmp, name, FRESH);
      return Err(seeded.error);
    }
    ghost var p := RegistrySpec.SeedVersion(FRESH, version, overlay).0;
    StillCoherent(roots, disk.roots, entries, tmp, name, p);
    var proposed := ScanCorpus(cache, disk, repo, tmp, failClosed, judge, later);
    ScratchScan(judge, roots, disk.roots, repo, tmp, name, version, overlay, failClosed, later);
    RemovedScratch(roots, disk.roots, cache.entries, tmp, name, p);
    disk.Remove(tmp);
    var result := Diff(name, version, baseline, proposed);
    r := Ok(result);
  }

  lemma NothingThere(roots: Roots, tmp: string, name: string)
    requires tmp !in roots
    ensures At(roots, tmp, name) == FRESH
  {
  }

  lemma StillCoherent(roots: Roots, after: Roots, entries: Entries, tmp: string, name: string, p: Profile)
    requires Coherent(entries, roots) && tmp !in roots && Updated(after, roots, tmp, name, p)
    ensures p == FRESH ==> Coherent(entries, after) && SameDisk(after, roots)
    ensures Coherent(Dropped(entries, None, Some(name)), after)
  {
  }

  lemma RemovedScratch(roots: Roots, after: Roots, entries: Entries, tmp: string, name: string, p: Profile)
    requires Coherent(entries, after) && tmp !in roots && Updated(after, roots, tmp, name, p)
    ensures Coherent(entries, after - {tmp}) && SameDisk(after - {tmp}, roots)
  {
    forall r, n
      ensures At(after - {tmp}, r, n) == At(roots, r, n)
    {
      assert At(after, r, n) == if r == tmp && n == name then p else At(roots, r, n);
    }
  }

  lemma ScratchScan(judge: Judge, roots: Roots, after: Roots, repo: map<string, Files>, tmp: string, name: string,
                    version: string, files: Files, failClosed: bool, corpus: seq<Pkg>)
    requires tmp !in roots
    requires Updated(after, roots, tmp, name, Profile(map[version := files], Some(version), []))
    ensures ScanAll(judge, after, repo, tmp, failClosed, corpus) ==
            ScanAll(judge, Scratch(roots, tmp, name, version, files), repo, tmp, failClosed, corpus)
  {
    SameLookUps(after, Scratch(roots, tmp, name, version, files), repo);
  }

  /** Lookups only see what the disk holds under each name. */
  lemma SameLookUps(a: Roots, b: Roots, repo: map<string, Files>)
    requires SameDisk(a, b)
    ensures forall req :: LoadUncached(a, repo, req) == LoadUncached(b, repo, req)
  {
  }

  /** A package is reported newly failing exactly when it is in the baseline, its key is in the proposed
      scan, and its verdict went from pass to fail; newly passing the other way round. */
  lemma {:induction false} ReportedIff(name: string, version: string, baseline: seq<PackageScan>,
                                       proposed: map<string, PackageScan>, key: string)
    ensures
      var r := Compare(name, version, baseline, proposed);
      && (key in r.newlyFailing <==>
            exists i :: 0 <= i < |baseline| && Key(baseline[i]) == key && key in proposed
                        && Passes(baseline[i]) && !Passes(proposed[key]))
      && (key in r.newlyPassing <==>
            exists i :: 0 <= i < |baseline| && Key(baseline[i]) == key && key in proposed
                        && !Passes(baseline[i]) && Passes(proposed[key]))
    ensures
      var r := Compare(name, version, baseline, proposed);
      && r.profileName == name && r.evaluatedVersion == version
      && forall moved :: moved in r.movements <==>
           exists i :: 0 <= i < |baseline| && Key(baseline[i]) in proposed
                       && moved in MovementsOf(baseline[i], proposed[Key(baseline[i])], baseline[i].outcomes)
  {
    hide MovementsOf, Passes;
    if baseline != [] {
      var n := |baseline| - 1;
      ReportedIff(name, version, baseline[..n], proposed, key);
      assert forall i :: 0 <= i < n ==> baseline[..n][i] == baseline[i];
    }
  }

  /** What a scan produced by the gate satisfies: one outcome per check id, waived means pass. */
  ghost predicate Scanned(scan: PackageScan) {
    && (forall i, j :: 0 <= i < j < |scan.outcomes| ==> scan.outcomes[i].checkId != scan.outcomes[j].checkId)
    && (forall o :: o in scan.outcomes && o.waived ==> o.result == Gate.Pass)
  }

  predicate SameChecks(before: PackageScan, after: PackageScan) {
    && |before.outcomes| == |after.outcomes|
    && forall i :: 0 <= i < |before.outcomes| ==> before.outcomes[i].checkId == after.outcomes[i].checkId
  }

  lemma {:induction false} OutcomeAt(outcomes: seq<Outcome>, i: nat)
    requires i < |outcomes|
    requires forall i, j :: 0 <= i < j < |outcomes| ==> outcomes[i].checkId != outcomes[j].checkId
    ensures OutcomeOf(outcomes, outcomes[i].checkId) == Some(outcomes[i])
  {
    if i > 0 {
      assert outcomes[0].checkId != outcomes[i].checkId;
      OutcomeAt(outcomes[1..], i - 1);
    }
  }

  predicate ResultMoved(before: PackageScan, after: PackageScan) {
    exists i :: 0 <= i < |before.outcomes| && i < |after.outcomes|
                && before.outcomes[i].result != after.outcomes[i].result
  }

  predicate SeverityMoved(before: PackageScan, after: PackageScan) {
    exists i :: 0 <= i < |before.outcomes| && i < |after.outcomes|
                && before.outcomes[i].severity != after.outcomes[i].severity
  }

  /** A verdict never flips without some check changing its result or its severity. */
  lemma FlipHasACause(before: PackageScan, after: PackageScan)
    requires Scanned(before) && Scanned(after) && SameChecks(before, after)
    requires Passes(before) != Passes(after)
    ensures ResultMoved(before, after) || SeverityMoved(before, after)
  {
  }

  /** The movement of check `i` that the dry run is to show. */
  predicate Moved(before: PackageScan, after: PackageScan, i: int, moved: CheckMovement) {
    && 0 <= i < |before.outcomes| && i < |after.outcomes| && before.outcomes[i].result != after.outcomes[i].result
    && moved == CheckMovement(before.packageId, before.packageVersion, before.outcomes[i].checkId,
                              before.outcomes[i].result, after.outcomes[i].result)
  }

  /** A package's movements are those of the checks whose result changed, old and new result each: a change of
      severity alone makes none. */
  lemma {:induction false} MovementIff(before: PackageScan, after: PackageScan, n: nat)
    requires Scanned(before) && Scanned(after) && SameChecks(before, after) && n <= |before.outcomes|
    ensures forall moved :: moved in MovementsOf(before, after, before.outcomes[..n]) <==>
              exists i :: 0 <= i < n && Moved(before, after, i, moved)
    ensures MovementsOf(before, after, before.outcomes[..n]) != [] <==>
            exists i :: 0 <= i < n && before.outcomes[i].result != after.outcomes[i].result
  {
    if n > 0 {
      MovementIff(before, after, n - 1);
      assert before.outcomes[..n][..n - 1] == before.outcomes[..n - 1];
      OutcomeAt(after.outcomes, n - 1);
      var earlier := MovementsOf(before, after, before.outcomes[..n - 1]);
      var was, now := before.outcomes[n - 1], after.outcomes[n - 1];
      var last := CheckMovement(before.packageId, before.packageVersion, was.checkId, was.result, now.result);
      assert MovementsOf(before, after, before.outcomes[..n]) == earlier + if was.result != now.result then [last] else [];
      assert was.result != now.result ==> Moved(before, after, n - 1, last);
    }
  }

  /** The scan of one package by the gate. */
  function Scan(id: string, version: string, simple: seq<Outcome>, m: Gate.Manifest): PackageScan {
    PackageScan(id, version, Gate.RunAll(simple, m))
  }

  /** What the gate returns is such a scan, with the same checks every time. */
  lemma GateScans(id: string, version: string, a: seq<Outcome>, b: seq<Outcome>, m: Gate.Manifest)
    requires Gate.Simple(a) && Gate.Simple(b)
    ensures Scanned(Scan(id, version, a, m)) && SameChecks(Scan(id, version, a, m), Scan(id, version, b, m))
  {
    hide Gate.RunAll, Gate.Waivers;
    Gate.IdsAreDistinct();
    Gate.WaivedMeansPass(a, m);
    Gate.WaivedMeansPass(b, m);
  }

  /** A verdict of the gate flips without any recorded movement exactly if no simple check's reported
      result changed and the meta check cannot show it: the package is not marked approved, or waives it. */
  lemma SilentFlipIff(id: string, version: string, a: seq<Outcome>, b: seq<Outcome>, m: Gate.Manifest)
    requires Gate.Simple(a) && Gate.Simple(b)
    requires Passes(Scan(id, version, a, m)) != Passes(Scan(id, version, b, m))
    ensures
      var before, after := Scan(id, version, a, m), Scan(id, version, b, m);
      MovementsOf(before, after, before.outcomes) == [] <==>
        && (forall i :: 0 <= i < |a| ==> before.outcomes[i].result == after.outcomes[i].result)
        && (m.qaStatus != Some("approved") || Gate.Waived(m.waivers, Gate.QA_APPROVED_IMPLIES_PASS))
  {
    hide Gate.RunAll, Gate.Waivers, MovementsOf;
    var before, after := Scan(id, version, a, m), Scan(id, version, b, m);
    var n := |before.outcomes|;
    GateScans(id, version, a, b, m);
    GateScans(id, version, b, a, m);
    Gate.WaivedMeansPass(a, m);
    Gate.MetaRepeatsVerdict(a, m);
    Gate.MetaRepeatsVerdict(b, m);
    MovementIff(before, after, n);
    assert before.outcomes[..n] == before.outcomes;
  }

  /** All simple checks in order, of a package in good order but for the agent's draft: its absence fails as
      severely as the profile says; no reason codes are registered; the stub skips. */
  function DraftMissing(severity: Gate.Severity): (simple: seq<Outcome>)
    ensures Gate.Simple(simple)
    ensures forall i :: 0 <= i < |simple| ==>
              simple[i].result == if i == 13 then Gate.Fail else if i == 10 || i == 14 then Gate.Skip else Gate.Pass
    ensures forall i :: 0 <= i < |simple| ==> simple[i].severity == if i == 13 then severity else Gate.Required
  {
    seq(15, i requires 0 <= i < 15 =>
      if i == 13 then Gate.Outcome(Gate.SIMPLE_CHECKS[i], Gate.Fail, severity, false, "no agent_draft")
      else Gate.Outcome(Gate.SIMPLE_CHECKS[i], if i == 10 || i == 14 then Gate.Skip else Gate.Pass, Gate.Required,
                        false, ""))
  }

  lemma DraftVerdict(id: string, version: string, severity: Gate.Severity, m: Gate.Manifest)
    requires m.waivers == []
    ensures Passes(Scan(id, version, DraftMissing(severity), m)) <==> severity == Gate.Advisory
  {
    hide Gate.RunAll;
    var simple := DraftMissing(severity);
    Gate.PassIff(simple, m);
    assert simple[13].result == Gate.Fail;
  }

  /** Such a flip: the profile turns the advisory failure of a package in review into a required one. */
  lemma FlipWithoutMovement()
    ensures
      var m := Gate.Manifest(Some("in_review"), []);
      var before := Scan("p", "1", DraftMissing(Gate.Advisory), m);
      var after := Scan("p", "1", DraftMissing(Gate.Required), m);
      Compare("n", "0.1", [before], ByKey([after])) == DryRunResult("n", "0.1", ["p@1"], [], [])
  {
    hide Gate.RunAll, Gate.Waivers, MovementsOf;
    var m := Gate.Manifest(Some("in_review"), []);
    var a, b := DraftMissing(Gate.Advisory), DraftMissing(Gate.Required);
    var before, after := Scan("p", "1", a, m), Scan("p", "1", b, m);
    DraftVerdict("p", "1", Gate.Advisory, m);
    DraftVerdict("p", "1", Gate.Required, m);
    SameResults(a, b, m);
    SilentFlipIff("p", "1", a, b, m);
    assert [before][..0] == [] && [after][..0] == [];
    assert Key(before) == Key(after) == "p@1";
  }

  lemma SameResults(a: seq<Outcome>, b: seq<Outcome>, m: Gate.Manifest)
    requires Gate.Simple(a) && Gate.Simple(b) && forall i :: 0 <= i < |a| ==> a[i].result == b[i].result
    ensures forall i :: 0 <= i < |a| ==> Gate.RunAll(a, m)[i].result == Gate.RunAll(b, m)[i].result
  {
    hide Gate.Waivers, Gate.MetaCheck;
    Gate.RunAllShape(a, m);
    Gate.RunAllShape(b, m);
  }

  // ---- Which reports follow from the proposal ----

  predicate Pinned(pkg: Pkg, name: string, version: string) {
    Declaration(pkg.profile) == Some((name, version))
  }

  /** The version the overlay stands at is what a pinned package resolves to in the real registry. */
  predicate Resolves(p: Profile, version: string, failClosed: bool) {
    match p.pointer
    case Some(v) => version == v && version in p.dirs
    case None => version == INITIAL_VERSION && version !in p.dirs && !failClosed
  }

  /** The rescan of one package in an overlay of `files`. */
  function Rescan(judge: Judge, roots: Roots, repo: map<string, Files>, tmp: string, name: string, version: string,
                  files: Files, failClosed: bool, pkg: Pkg): PackageScan
  {
    ScanOf(judge, Scratch(roots, tmp, name, version, files), repo, tmp, failClosed, pkg)
  }

  /** A package not pinned to the evaluated version is rescanned alike whatever is proposed: under the repo
      default, or the fail-closed error. A report about it never follows from the proposal. */
  lemma OthersIgnoreProposal(judge: Judge, roots: Roots, repo: map<string, Files>, tmp: string, name: string,
                             version: string, files: Files, other: Files, failClosed: bool, pkg: Pkg)
    requires !Pinned(pkg, name, version)
    ensures Rescan(judge, roots, repo, tmp, name, version, files, failClosed, pkg) ==
            Rescan(judge, roots, repo, tmp, name, version, other, failClosed, pkg)
  {
    hide Gate.RunAll;
    var s, t := Scratch(roots, tmp, name, version, files), Scratch(roots, tmp, name, version, other);
    forall file
      ensures LookUp(s, repo, tmp, failClosed, pkg, file) == LookUp(t, repo, tmp, failClosed, pkg, file)
    {
    }
  }

  /** A package pinned to it is rescanned like the first time where the proposal changes nothing, so every
      report about it follows from the proposal. */
  lemma PinnedFollowsProposal(judge: Judge, roots: Roots, repo: map<string, Files>, root: string, tmp: string,
                              name: string, version: string, patch: Patch, failClosed: bool, pkg: Pkg)
    requires Pinned(pkg, name, version) && Resolves(At(roots, root, name), version, failClosed)
    requires REASON_CODES !in patch && TRAINING_GRADE !in patch
    ensures
      var files := DryRunFiles(At(roots, root, name), ProfileLoader.Vendored(repo, name), patch);
      Rescan(judge, roots, repo, tmp, name, version, files, failClosed, pkg) ==
        ScanOf(judge, roots, repo, root, failClosed, pkg)
  {
    hide Gate.RunAll;
    var files := DryRunFiles(At(roots, root, name), ProfileLoader.Vendored(repo, name), patch);
    var s := Scratch(roots, tmp, name, version, files);
    forall file | file == REASON_CODES || file == TRAINING_GRADE
      ensures LookUp(s, repo, tmp, failClosed, pkg, file) == LookUp(roots, repo, root, failClosed, pkg, file)
    {
      PinnedLookUp(roots, repo, root, tmp, name, version, patch, failClosed, pkg, file);
    }
  }

  lemma PinnedLookUp(roots: Roots, repo: map<string, Files>, root: string, tmp: string, name: string,
                     version: string, patch: Patch, failClosed: bool, pkg: Pkg, file: string)
    requires Pinned(pkg, name, version) && Resolves(At(roots, root, name), version, failClosed)
    requires file !in patch && IsJsonName(file)
    ensures
      var files := DryRunFiles(At(roots, root, name), ProfileLoader.Vendored(repo, name), patch);
      LookUp(Scratch(roots, tmp, name, version, files), repo, tmp, failClosed, pkg, file) ==
        LookUp(roots, repo, root, failClosed, pkg, file)
  {
  }

  /** Both lookups of the gate answer in the overlay of an empty proposal what they answer in the registry. */
  predicate Agrees(roots: Roots, repo: map<string, Files>, root: string, tmp: string, name: string, version: string,
                   failClosed: bool, pkg: Pkg)
  {
    var s := Scratch(roots, tmp, name, version, DryRunFiles(At(roots, root, name), ProfileLoader.Vendored(repo, name), map[]));
    forall file :: file in {REASON_CODES, TRAINING_GRADE} ==>
      LookUp(s, repo, tmp, failClosed, pkg, file) == LookUp(roots, repo, root, failClosed, pkg, file)
  }

  /** What is registered as version `v` of profile `n` is what the repository holds for it. */
  predicate AsVendored(roots: Roots, repo: map<string, Files>, root: string, n: string, v: string) {
    forall file :: file in {REASON_CODES, TRAINING_GRADE} ==>
      FileAt(roots, CacheKey(root, n, v, file)) == RepoDefault(repo, n, file)
  }

  /** Whether rescanning under an empty proposal leaves a package alone. A bare profile name: always. The
      evaluated version: if it is current; before the first seeding, if unknown versions are tolerated. Any
      other version: if it is not registered, or is registered just as the repository has it and unknown
      versions are tolerated. */
  predicate LeftAlone(roots: Roots, repo: map<string, Files>, root: string, name: string, version: string,
                      failClosed: bool, pkg: Pkg)
  {
    match Declaration(pkg.profile)
    case None => true
    case Some(d) =>
      var known := d.1 in At(roots, root, d.0).dirs;
      if d != (name, version) then known ==> !failClosed && AsVendored(roots, repo, root, d.0, d.1)
      else if At(roots, root, name).pointer.Some? then true
      else if known then AsVendored(roots, repo, root, name, version)
      else !failClosed
  }

  lemma AgreesIff(roots: Roots, repo: map<string, Files>, root: string, tmp: string, name: string, version: string,
                  failClosed: bool, pkg: Pkg)
    requires version == At(roots, root, name).pointer.GetOr(INITIAL_VERSION)
    requires At(roots, root, name).pointer.Some? ==> version in At(roots, root, name).dirs
    ensures Agrees(roots, repo, root, tmp, name, version, failClosed, pkg) <==>
            LeftAlone(roots, repo, root, name, version, failClosed, pkg)
  {
    hide LookUp, Scratch, DryRunFiles, FileAt, RepoDefault, Declaration;
    OneAgreesIff(roots, repo, root, tmp, name, version, failClosed, pkg, REASON_CODES);
    OneAgreesIff(roots, repo, root, tmp, name, version, failClosed, pkg, TRAINING_GRADE);
  }

  lemma OneAgreesIff(roots: Roots, repo: map<string, Files>, root: string, tmp: string, name: string, version: string,
                     failClosed: bool, pkg: Pkg, file: string)
    requires version == At(roots, root, name).pointer.GetOr(INITIAL_VERSION) && IsJsonName(file)
    requires At(roots, root, name).pointer.Some? ==> version in At(roots, root, name).dirs
    ensures
      var files := DryRunFiles(At(roots, root, name), ProfileLoader.Vendored(repo, name), map[]);
      LookUp(Scratch(roots, tmp, name, version, files), repo, tmp, failClosed, pkg, file) ==
        LookUp(roots, repo, root, failClosed, pkg, file)
      <==>
      match Declaration(pkg.profile)
      case None => true
      case Some(d) =>
        var known := d.1 in At(roots, root, d.0).dirs;
        var same := FileAt(roots, CacheKey(root, d.0, d.1, file)) == RepoDefault(repo, d.0, file);
        if d != (name, version) then known ==> !failClosed && same
        else if At(roots, root, name).pointer.Some? then true
        else if known then same
        else !failClosed
  {
    DeclaredName(pkg.profile);
    hide Declaration, ShortName;
    if Declaration(pkg.profile) == Some((name, version)) {
      OverlayFile(roots, repo, root, tmp, name, version, file);
    }
  }

  /** What an overlay of nothing shows of one file. */
  lemma OverlayFile(roots: Roots, repo: map<string, Files>, root: string, tmp: string, name: string, version: string,
                    file: string)
    requires version == At(roots, root, name).pointer.GetOr(INITIAL_VERSION) && IsJsonName(file)
    requires At(roots, root, name).pointer.Some? ==> version in At(roots, root, name).dirs
    ensures
      var files := DryRunFiles(At(roots, root, name), ProfileLoader.Vendored(repo, name), map[]);
      FileAt(Scratch(roots, tmp, name, version, files), CacheKey(tmp, name, version, file)) ==
        if At(roots, root, name).pointer.Some? then FileAt(roots, CacheKey(root, name, version, file))
        else RepoDefault(repo, name, file)
  {
  }

  /** A declared name is the short name. */
  lemma DeclaredName(profile: Option<string>)
    ensures Declaration(profile).Some? ==> ShortName(profile) == Some(Declaration(profile).value.0)
  {
  }

  /** For the version a dry run evaluates: proposing nothing leaves a package's scan as it is, whatever its
      checks make of the two profile files, exactly if the package is one of those left alone. */
  lemma NothingProposedIff(roots: Roots, repo: map<string, Files>, root: string, tmp: string, name: string,
                           version: string, failClosed: bool, pkg: Pkg)
    requires version == At(roots, root, name).pointer.GetOr(INITIAL_VERSION)
    requires At(roots, root, name).pointer.Some? ==> version in At(roots, root, name).dirs
    ensures
      var files := DryRunFiles(At(roots, root, name), ProfileLoader.Vendored(repo, name), map[]);
      (forall judge: Judge :: Rescan(judge, roots, repo, tmp, name, version, files, failClosed, pkg) ==
                              ScanOf(judge, roots, repo, root, failClosed, pkg))
      <==> LeftAlone(roots, repo, root, name, version, failClosed, pkg)
  {
    hide LookUp, Scratch, DryRunFiles, Gate.RunAll, LeftAlone;
    AgreesIff(roots, repo, root, tmp, name, version, failClosed, pkg);
    var files := DryRunFiles(At(roots, root, name), ProfileLoader.Vendored(repo, name), map[]);
    var s := Scratch(roots, tmp, name, version, files);
    var codes := LookUp(s, repo, tmp, failClosed, pkg, REASON_CODES);
    var grade := LookUp(s, repo, tmp, failClosed, pkg, TRAINING_GRADE);
    var tell: Judge := (q, c, g) => if c == codes && g == grade then [] else DraftMissing(Gate.Advisory);
    if !Agrees(roots, repo, root, tmp, name, version, failClosed, pkg) {
      var c := LookUp(roots, repo, root, failClosed, pkg, REASON_CODES);
      var g := LookUp(roots, repo, root, failClosed, pkg, TRAINING_GRADE);
      assert tell(pkg, c, g) == DraftMissing(Gate.Advisory) && tell(pkg, codes, grade) == [];
      Lengths([], pkg.m);
      Lengths(DraftMissing(Gate.Advisory), pkg.m);
      assert Rescan(tell, roots, repo, tmp, name, version, files, failClosed, pkg) !=
             ScanOf(tell, roots, repo, root, failClosed, pkg);
    }
  }

  lemma Lengths(simple: seq<Outcome>, m: Gate.Manifest)
    ensures |Gate.RunAll(simple, m)| == |simple| + 1
  {
  }

  const DRAFT_DEMANDED := JObj(map["require_agent_draft" := JBool(true)])
  const GRADED := Profile(map["0.1" := map[TRAINING_GRADE := DRAFT_DEMANDED]], Some("0.1"), [])

  /** `training_grade and training_grade.get("require_agent_draft")`. */
  predicate DemandsDraft(grade: Loaded) {
    && grade.Ok? && grade.value.Some? && grade.value.value.JObj?
    && "require_agent_draft" in grade.value.value.fields
    && !Falsy(grade.value.value.fields["require_agent_draft"])
  }

  /** The agent-draft check on a package that lacks one. */
  function DraftJudge(k: Pkg, c: Loaded, g: Loaded): seq<Outcome> {
    DraftMissing(if DemandsDraft(g) then Gate.Required else Gate.Advisory)
  }

  /** A dry run that proposes nothing, for profile `p`, reports a package of profile `q`: its registered
      training grade demands a draft, the repository's own does not. */
  lemma UntouchedReported()
    ensures
      var pkg := Pkg("x", "1", Some("q/0.1"), Gate.Manifest(Some("in_review"), []));
      var r := DryRunOf(map["r" := map["q" := GRADED]], map[], "r", "t", "p", map[], DraftJudge, false, [pkg], [pkg]);
      r.Ok? && r.value.newlyPassing == ["x@1"] && r.value.newlyFailing == []
  {
    hide Gate.RunAll, Gate.Waivers, MovementsOf, DraftMissing, ScanAll, Scan, Compare, ByKey, Passes, Scratch, Key;
    var roots: Roots := map["r" := map["q" := GRADED]];
    var m := Gate.Manifest(Some("in_review"), []);
    var pkg := Pkg("x", "1", Some("q/0.1"), m);
    var before, after := Scan("x", "1", DraftMissing(Gate.Required), m), Scan("x", "1", DraftMissing(Gate.Advisory), m);
    UntouchedScans(roots, pkg, before, after);
    DraftVerdict("x", "1", Gate.Advisory, m);
    DraftVerdict("x", "1", Gate.Required, m);
    OneReported(before, after);
    NothingOnNothing(roots);
  }

  lemma NothingOnNothing(roots: Roots)
    requires roots == map["r" := map["q" := GRADED]]
    ensures At(roots, "r", "p") == FRESH && DryRunFiles(At(roots, "r", "p"), ProfileLoader.Vendored(map[], "p"), map[]) == map[]
    ensures ValidComponent("p") && RegistrySpec.WriteVersionDir(FRESH, "0.1", map[]).Ok?
  {
  }

  lemma UntouchedScans(roots: Roots, pkg: Pkg, before: PackageScan, after: PackageScan)
    requires pkg == Pkg("x", "1", Some("q/0.1"), Gate.Manifest(Some("in_review"), []))
    requires roots == map["r" := map["q" := GRADED]]
    requires before == Scan("x", "1", DraftMissing(Gate.Required), pkg.m)
    requires after == Scan("x", "1", DraftMissing(Gate.Advisory), pkg.m)
    ensures ScanAll(DraftJudge, roots, map[], "r", false, [pkg]) == [before]
    ensures ScanAll(DraftJudge, Scratch(roots, "t", "p", "0.1", map[]), map[], "t", false, [pkg]) == [after]
    ensures Key(before) == Key(after) == "x@1"
  {
    hide Gate.RunAll, DraftMissing, LookUp, Scratch;
    GradeOfQ(pkg, roots, Scratch(roots, "t", "p", "0.1", map[]));
  }

  lemma GradeOfQ(pkg: Pkg, roots: Roots, s: Roots)
    requires pkg.profile == Some("q/0.1")
    requires roots == map["r" := map["q" := GRADED]] && s == Scratch(roots, "t", "p", "0.1", map[])
    ensures LookUp(roots, map[], "r", false, pkg, TRAINING_GRADE) == Ok(Some(DRAFT_DEMANDED))
    ensures LookUp(s, map[], "t", false, pkg, TRAINING_GRADE) == Ok(None)
  {
    hide Declaration, ShortName;
    DeclaresQ(pkg.profile);
  }

  lemma OneReported(before: PackageScan, after: PackageScan)
    requires Key(before) == Key(after) && !Passes(before) && Passes(after)
    ensures
      var r := Compare("p", "0.1", [before], ByKey([after]));
      r.newlyPassing == [Key(before)] && r.newlyFailing == []
  {
    hide Passes, MovementsOf, Key;
    assert [before][..0] == [] && [after][..0] == [];
  }

  lemma DeclaresQ(profile: Option<string>)
    requires profile == Some("q/0.1")
    ensures Declaration(profile) == Some(("q", "0.1")) && ShortName(profile) == Some("q")
  {
    var s := profile.value;
    assert s[1] == '/' && s[0] == 'q' && s[1..][0] == '/';
    assert IndexOf(s, '/') == 1;
    assert s[..1] == "q" && s[2..] == "0.1";
  }

  // ---- What the report forecasts ----

  /** No two packages of the corpus share a report key. */
  predicate Keyed(corpus: seq<Pkg>) {
    forall i, j :: 0 <= i < j < |corpus| ==>
      corpus[i].id + "@" + corpus[i].version != corpus[j].id + "@" + corpus[j].version
  }

  lemma {:induction false} ByKeyIs(scans: seq<PackageScan>, i: nat)
    requires i < |scans| && forall j, k :: 0 <= j < k < |scans| ==> Key(scans[j]) != Key(scans[k])
    ensures Key(scans[i]) in ByKey(scans) && ByKey(scans)[Key(scans[i])] == scans[i]
  {
    var n := |scans| - 1;
    if i < n { ByKeyIs(scans[..n], i); }
  }

  /** The dry run's overlay answers a package pinned to the evaluated version as the registry will, once the
      diff is approved, answer it pinned to the new one. */
  lemma SameRulesLater(roots: Roots, after: Roots, repo: map<string, Files>, root: string, tmp: string, diff: Diff,
                       actor: string, failClosed: bool, pkg: Pkg, later: Pkg, file: string)
    requires diff.Declarative()
    requires
      var p, vendored := At(roots, root, diff.profile), ProfileLoader.Vendored(repo, diff.profile);
      var (q, applied) := RegistrySpec.ApplyDeclarative(p, vendored, diff, actor);
      && applied.Ok? && At(after, root, diff.profile) == q
      && pkg.profile == Some(diff.profile + "/" + p.pointer.GetOr("0.1"))
      && later == pkg.(profile := Some(diff.profile + "/" + applied.value))
    ensures
      var p, vendored := At(roots, root, diff.profile), ProfileLoader.Vendored(repo, diff.profile);
      && ChangedFiles(Effective(p, vendored), diff).Ok?
      && var files := DryRunFiles(p, vendored, ChangedFiles(Effective(p, vendored), diff).value);
         LookUp(Scratch(roots, tmp, diff.profile, p.pointer.GetOr(INITIAL_VERSION), files), repo, tmp, failClosed, pkg, file)
         == LookUp(after, repo, root, failClosed, later, file)
  {
    hide RegistrySpec.ApplyDeclarative, ChangedFiles, DryRunFiles, LoadUncached, ValidComponent;
    var name := diff.profile;
    var p, vendored := At(roots, root, name), ProfileLoader.Vendored(repo, name);
    var version := p.pointer.GetOr("0.1");
    DryRunPredictsApply(p, vendored, diff, actor);
    NamesAreWhole(p, vendored, diff, actor);
    var files := DryRunFiles(p, vendored, ChangedFiles(Effective(p, vendored), diff).value);
    var s := Scratch(roots, tmp, name, version, files);
    assert At(s, tmp, name).dirs == map[version := files];
    LookUpIs(s, repo, Request(pkg.profile, file, Some(tmp), failClosed));
    LookUpIs(after, repo, Request(later.profile, file, Some(root), failClosed));
  }

  lemma NamesAreWhole(p: Profile, vendored: Option<Files>, diff: Diff, actor: string)
    requires diff.Declarative() && RegistrySpec.ApplyDeclarative(p, vendored, diff, actor).1.Ok?
    ensures diff.profile != "" && '/' !in diff.profile
    ensures p.pointer.GetOr("0.1") != "" && RegistrySpec.ApplyDeclarative(p, vendored, diff, actor).1.value != ""
  {
    hide RegistrySpec.BumpVersion, ChangedFiles, BumpMinor;
    ApplyShape(p, vendored, diff, actor);
    var seeded := RegistrySpec.EnsureSeeded(p, vendored, INITIAL_VERSION).1.value;
    assert seeded == p.pointer.GetOr("0.1");
    var major, minor, k := BumpShape(seeded);
    var q := RegistrySpec.EnsureSeeded(p, vendored, INITIAL_VERSION).0;
    BumpWrites(q, vendored, BumpMinor(seeded).value, ChangedFiles(Effective(q, vendored), diff).value, ApplyNote(diff),
               Some(actor));
  }

  /** The dry run's promise: a package pinned to the evaluated version is reported newly failing if and only if
      it passes the gate now and, once the diff is approved, would fail it pinned to the version the approval
      creates; newly passing the other way round. (The checks look at the profile's files, not at the version's
      number.) */
  lemma ReportForecasts(roots: Roots, after: Roots, repo: map<string, Files>, root: string, tmp: string, diff: Diff,
                        actor: string, judge: Judge, failClosed: bool, corpus: seq<Pkg>, n: nat, later: Pkg)
    requires diff.Declarative() && Keyed(corpus) && n < |corpus|
    requires
      var p, vendored := At(roots, root, diff.profile), ProfileLoader.Vendored(repo, diff.profile);
      var (q, applied) := RegistrySpec.ApplyDeclarative(p, vendored, diff, actor);
      && applied.Ok? && At(after, root, diff.profile) == q
      && corpus[n].profile == Some(diff.profile + "/" + p.pointer.GetOr("0.1"))
      && later == corpus[n].(profile := Some(diff.profile + "/" + applied.value))
    requires forall codes, grade :: judge(later, codes, grade) == judge(corpus[n], codes, grade)
    ensures
      var p, vendored := At(roots, root, diff.profile), ProfileLoader.Vendored(repo, diff.profile);
      && ChangedFiles(Effective(p, vendored), diff).Ok?
      && var r := DryRunOf(roots, repo, root, tmp, diff.profile, ChangedFiles(Effective(p, vendored), diff).value, judge,
                           failClosed, corpus, corpus);
         var key := corpus[n].id + "@" + corpus[n].version;
         var passes, willPass := Passes(ScanOf(judge, roots, repo, root, failClosed, corpus[n])),
                                 Passes(ScanOf(judge, after, repo, root, failClosed, later));
         r.Ok? ==> (key in r.value.newlyFailing <==> passes && !willPass)
                   && (key in r.value.newlyPassing <==> !passes && willPass)
  {
    hide RegistrySpec.ApplyDeclarative, ChangedFiles, DryRunFiles, LookUp, Scratch, Gate.RunAll, Compare, ByKey, Passes,
      ValidComponent, RegistrySpec.WriteVersionDir;
    var name := diff.profile;
    var p, vendored := At(roots, root, name), ProfileLoader.Vendored(repo, name);
    var version := p.pointer.GetOr(INITIAL_VERSION);
    SameRulesLater(roots, after, repo, root, tmp, diff, actor, failClosed, corpus[n], later, REASON_CODES);
    SameRulesLater(roots, after, repo, root, tmp, diff, actor, failClosed, corpus[n], later, TRAINING_GRADE);
    var files := DryRunFiles(p, vendored, ChangedFiles(Effective(p, vendored), diff).value);
    var baseline := ScanAll(judge, roots, repo, root, failClosed, corpus);
    var proposed := ScanAll(judge, Scratch(roots, tmp, name, version, files), repo, tmp, failClosed, corpus);
    var key := Key(baseline[n]);
    ByKeyIs(proposed, n);
    ReportedIff(name, version, baseline, ByKey(proposed), key);
    assert forall i :: 0 <= i < |baseline| && Key(baseline[i]) == key ==> i == n;
  }
}
