/** Concurrent `apply_declarative` calls on one profile, one file-system access per step, with crashes.
    Creating the version directory is the compare-and-swap: `rename` refuses a target directory that
    holds files (POSIX.1-2017, rename), but replaces an empty one. */
module RegistryRace {
  import opened Wrappers
  import opened Versions
  import opened RegistrySpec

  /** Where a call is; each step performs the access named here. */
  datatype PC =
    | Start         // ensure_seeded: read the pointer
    | SeedCheck     // does the initial directory exist?
    | SeedRename    // rename the built directory into place
    | SeedFlip      // write the pointer
    | SeedLog       // append the changelog row
    | ReadCurrent   // read the pointer
    | ReadCodes     // _current_file_content: read the pointer
    | Merge         // read that version, compute the patch
    | Compare       // bump the version, read the pointer again, compare
    | ReadBase      // read the base version, apply the patch
    | DirCheck      // does the new directory exist?
    | DirRename     // rename the built directory into place
    | Flip          // write the pointer
    | Log           // append the changelog row
    | Done
    | Failed(error: Error)

  /** A call and its local variables. */
  datatype Writer = Writer(pc: PC, diff: Diff, actor: string, current: string, at: string, patch: Patch,
                           base: string, next: string, files: Files)

  /** One pointer write: the version it made visible, and the diff behind it (None for a seed). */
  datatype Step = Step(version: string, cause: Option<Diff>)

  /** The profile on disk, the calls in flight, and the pointer writes so far. */
  datatype Race = Race(p: Profile, writers: map<nat, Writer>, flips: seq<Step>)

  datatype Event =
    | Begin(w: nat, diff: Diff, actor: string)
    | Advance(w: nat)
    | Crash(w: nat)

  function Fresh(diff: Diff, actor: string): Writer {
    Writer(Start, diff, actor, "", "", map[], "", "", map[])
  }

  /** `os.replace(tmp_dir, final_dir)`: None when the target holds files. */
  function Rename(dirs: map<string, Files>, version: string, files: Files): Option<map<string, Files>> {
    if version in dirs && dirs[version] != map[] then None else Some(dirs[version := files])
  }

  predicate Writable(version: string, files: Files) {
    ValidComponent(version) && forall f :: f in files ==> ValidComponent(f)
  }

  /** Steps a call has left at most. */
  function Rank(pc: PC): nat {
    match pc
    case Start => 14
    case SeedCheck => 13
    case SeedRename => 12
    case SeedFlip => 11
    case SeedLog => 10
    case ReadCurrent => 9
    case ReadCodes => 8
    case Merge => 7
    case Compare => 6
    case ReadBase => 5
    case DirCheck => 4
    case DirRename => 3
    case Flip => 2
    case Log => 1
    case Done => 0
    case Failed(_) => 0
  }

  /** The seeding steps of one call. */
  function SeedNext(repo: Option<Files>, p: Profile, w: Writer): (next: (Profile, Writer))
    requires w.diff.Declarative()
    ensures next.1.diff == w.diff
    ensures w.pc.Start? || w.pc.SeedCheck? || w.pc.SeedRename? || w.pc.SeedFlip? || w.pc.SeedLog? ==>
              Rank(next.1.pc) < Rank(w.pc)
  {
    match w.pc
    case Start =>
      if !ValidComponent(w.diff.profile) then (p, w.(pc := Failed(ApplyError)))
      else (p, w.(pc := if p.pointer.Some? then ReadCurrent else SeedCheck))
    case SeedCheck =>
      if !Writable(INITIAL_VERSION, SeedFiles(repo)) || INITIAL_VERSION in p.dirs
      then (p, w.(pc := Failed(ApplyError)))
      else (p, w.(pc := SeedRename))
    case SeedRename =>
      (match Rename(p.dirs, INITIAL_VERSION, SeedFiles(repo))
       case None => (p, w.(pc := Failed(OsError)))
       case Some(dirs) => (p.(dirs := dirs), w.(pc := SeedFlip)))
    case SeedFlip => (p.(pointer := Some(INITIAL_VERSION)), w.(pc := SeedLog))
    case SeedLog =>
      (p.(log := p.log + [Row(INITIAL_VERSION, None, SeedNote(repo), None)]), w.(pc := ReadCurrent))
    case _ => (p, w)
  }

  /** The steps that work out the patch and the next version. */
  function PlanNext(p: Profile, w: Writer): (next: (Profile, Writer))
    requires w.diff.Declarative()
    ensures next.1.diff == w.diff
    ensures w.pc.ReadCurrent? || w.pc.ReadCodes? || w.pc.Merge? || w.pc.Compare? ==> Rank(next.1.pc) < Rank(w.pc)
  {
    match w.pc
    case ReadCurrent =>
      (match p.pointer
       case None => (p, w.(pc := Failed(ApplyError)))
       case Some(v) => (p, w.(current := v, at := v, pc := if w.diff.ReasonCodeAdd? then ReadCodes else Merge)))
    case ReadCodes =>
      (match p.pointer
       case None => (p, w.(pc := Failed(ApplyError)))
       case Some(v) => (p, w.(at := v, pc := Merge)))
    case Merge =>
      (match ChangedFiles(View(p.dirs, w.at), w.diff)
       case Err(e) => (p, w.(pc := Failed(e)))
       case Ok(patch) => (p, w.(patch := patch, pc := Compare)))
    case Compare =>
      (match BumpMinor(w.current)
       case None => (p, w.(pc := Failed(ApplyError)))
       case Some(next) =>
         if p.pointer.None? || !KeyLess(SortKey(p.pointer.value), SortKey(next))
         then (p, w.(pc := Failed(ApplyError)))
         else (p, w.(next := next, base := p.pointer.value, pc := ReadBase)))
    case _ => (p, w)
  }

  /** The steps that write the next version. */
  function WriteNext(p: Profile, w: Writer): (next: (Profile, Writer))
    requires w.diff.Declarative()
    ensures next.1.diff == w.diff
    ensures w.pc.ReadBase? || w.pc.DirCheck? || w.pc.DirRename? || w.pc.Flip? || w.pc.Log? ==>
              Rank(next.1.pc) < Rank(w.pc)
  {
    match w.pc
    case ReadBase => (p, w.(files := Patched(View(p.dirs, w.base), w.patch), pc := DirCheck))
    case DirCheck =>
      if !Writable(w.next, w.files) || w.next in p.dirs then (p, w.(pc := Failed(ApplyError)))
      else (p, w.(pc := DirRename))
    case DirRename =>
      (match Rename(p.dirs, w.next, w.files)
       case None => (p, w.(pc := Failed(OsError)))
       case Some(dirs) => (p.(dirs := dirs), w.(pc := Flip)))
    case Flip => (p.(pointer := Some(w.next)), w.(pc := Log))
    case Log => (p.(log := p.log + [Row(w.next, Some(w.base), ApplyNote(w.diff), Some(w.actor))]), w.(pc := Done))
    case _ => (p, w)
  }

  /** The next step of one call: what it leaves on disk and where it goes. */
  function Next(repo: Option<Files>, p: Profile, w: Writer): (next: (Profile, Writer))
    requires w.diff.Declarative()
    ensures next.1.diff == w.diff
    ensures w.pc.Done? || w.pc.Failed? || Rank(next.1.pc) < Rank(w.pc)
  {
    if w.pc.Done? || w.pc.Failed? then (p, w)
    else if Rank(w.pc) > 9 then SeedNext(repo, p, w)
    else if Rank(w.pc) > 5 then PlanNext(p, w)
    else WriteNext(p, w)
  }

  /** The pointer write a step performs, if it is one. */
  function FlipOf(w: Writer): seq<Step> {
    if w.pc.SeedFlip? then [Step(INITIAL_VERSION, None)]
    else if w.pc.Flip? then [Step(w.next, Some(w.diff))]
    else []
  }

  predicate WellTyped(s: Race) {
    forall w :: w in s.writers ==> s.writers[w].diff.Declarative()
  }

  function Happen(repo: Option<Files>, s: Race, e: Event): (t: Race)
    requires WellTyped(s)
    ensures WellTyped(t)
  {
    match e
    case Begin(w, diff, actor) =>
      if w in s.writers || !diff.Declarative() then s
      else s.(writers := s.writers[w := Fresh(diff, actor)])
    case Advance(w) =>
      if w !in s.writers then s
      else
        var (p, after) := Next(repo, s.p, s.writers[w]);
        Race(p, s.writers[w := after], s.flips + FlipOf(s.writers[w]))
    case Crash(w) => s.(writers := s.writers - {w})
  }

  function Run(repo: Option<Files>, s: Race, es: seq<Event>): (t: Race)
    requires WellTyped(s)
    ensures WellTyped(t)
    decreases |es|
  {
    if es == [] then s else Run(repo, Happen(repo, s, es[0]), es[1..])
  }

  const EMPTY := Race(FRESH, map[], [])

  // ---- What must hold of every run ----

  type Dirs = map<string, Files>

  predicate Visible(flips: seq<Step>, version: string) {
    exists i :: 0 <= i < |flips| && flips[i].version == version
  }

  /** `next` made `version`'s successor visible by applying its diff to exactly those files. */
  predicate Follows(dirs: Dirs, version: string, next: Step) {
    && next.cause.Some? && next.cause.value.Declarative()
    && BumpMinor(version) == Some(next.version)
    && next.version in dirs
    && var changed := ChangedFiles(View(dirs, version), next.cause.value);
       changed.Ok? && dirs[next.version] == Patched(View(dirs, version), changed.value)
  }

  /** The visible versions are one chain from the seed to the pointer, no diff lost on the way. */
  ghost predicate Chain(repo: Option<Files>, dirs: Dirs, pointer: Option<string>, flips: seq<Step>) {
    && pointer == (if flips == [] then None else Some(flips[|flips| - 1].version))
    && (flips != [] ==>
          && flips[0] == Step(INITIAL_VERSION, None)
          && INITIAL_VERSION in dirs && dirs[INITIAL_VERSION] == SeedFiles(repo))
    && (forall i :: 0 < i < |flips| ==> Follows(dirs, flips[i - 1].version, flips[i]))
    && (forall i, j :: 0 <= i < j < |flips| ==> flips[i].version != flips[j].version)
  }

  ghost predicate Chained(repo: Option<Files>, s: Race) {
    Chain(repo, s.p.dirs, s.p.pointer, s.flips)
  }

  /** A call that got past its pointer write is in the chain, under its own version. */
  predicate Recorded(flips: seq<Step>, w: Writer) {
    w.pc.Log? || w.pc.Done? ==> Step(w.next, Some(w.diff)) in flips
  }

  /** The diff, if it gets past the check of its profile's name, does not delete `keep`. */
  predicate Keeps(keep: string, diff: Diff) {
    diff.ProfileChange? && ValidComponent(diff.profile) && diff.file == keep ==> !diff.after.JNull?
  }

  /** `keep` is seeded, and no call deletes it: then no version is ever an empty directory. */
  ghost predicate Anchored(repo: Option<Files>, keep: string, es: seq<Event>) {
    && keep in SeedFiles(repo)
    && forall e :: e in es && e.Begin? ==> Keeps(keep, e.diff)
  }

  /** Everything on disk and visible before is still there, unchanged. */
  predicate Extends(dirs: Dirs, flips: seq<Step>, dirs': Dirs, flips': seq<Step>) {
    && (forall v :: v in dirs ==> v in dirs' && dirs'[v] == dirs[v])
    && |flips| <= |flips'| && flips'[..|flips|] == flips
  }

  // ---- The invariant ----

  function Pos(flips: seq<Step>, version: string): (i: nat)
    requires Visible(flips, version)
    ensures i < |flips| && flips[i].version == version
  {
    if flips[0].version == version then 0 else
      assert exists i :: 0 <= i < |flips[1..]| && flips[1..][i].version == version by {
        var i :| 0 <= i < |flips| && flips[i].version == version;
        assert flips[1..][i - 1].version == version;
      }
      1 + Pos(flips[1..], version)
  }

  lemma {:induction false} PosStays(flips: seq<Step>, more: seq<Step>, version: string)
    requires Visible(flips, version)
    ensures Visible(flips + more, version) && Pos(flips + more, version) == Pos(flips, version)
  {
    var i := Pos(flips, version);
    assert (flips + more)[i].version == version;
    if flips[0].version != version {
      assert flips[1..][i - 1].version == version;
      PosStays(flips[1..], more, version);
      assert (flips + more)[1..] == flips[1..] + more;
    }
  }

  /** A call past its first step has a valid profile name. */
  predicate Named(w: Writer)
    requires w.diff.Declarative()
  {
    w.pc.Start? || w.pc.Failed? || ValidComponent(w.diff.profile)
  }

  predicate InFlight(w: Writer) { w.pc.SeedFlip? || w.pc.Flip? }

  predicate HasPatch(w: Writer) { w.pc.Compare? || HasBase(w) }

  predicate HasBase(w: Writer) { w.pc.ReadBase? || HasFiles(w) }

  predicate HasFiles(w: Writer) { w.pc.DirCheck? || w.pc.DirRename? }

  /** The local variables of a call name visible versions, read in the order they became visible. */
  ghost predicate Reads(dirs: Dirs, flips: seq<Step>, w: Writer)
    requires w.diff.Declarative()
  {
    && (w.pc.SeedLog? || w.pc.ReadCurrent? ==> flips != [])
    && (w.pc.ReadCodes? || w.pc.Merge? || HasPatch(w) ==>
          Visible(flips, w.current) && Visible(flips, w.at) && Pos(flips, w.current) <= Pos(flips, w.at))
    && (HasPatch(w) ==> ChangedFiles(View(dirs, w.at), w.diff) == Ok(w.patch))
    && (HasBase(w) ==>
          && Visible(flips, w.base) && Pos(flips, w.at) <= Pos(flips, w.base)
          && BumpMinor(w.current) == Some(w.next))
    && (HasFiles(w) ==> w.files == Patched(View(dirs, w.base), w.patch))
  }

  /** The one call that has its directory in place but not yet its pointer. */
  ghost predicate Owns(repo: Option<Files>, dirs: Dirs, flips: seq<Step>, w: Writer) {
    && (w.pc.SeedFlip? ==>
          flips == [] && INITIAL_VERSION in dirs && dirs[INITIAL_VERSION] == SeedFiles(repo))
    && (w.pc.Flip? ==>
          && flips != [] && !Visible(flips, w.next)
          && Follows(dirs, flips[|flips| - 1].version, Step(w.next, Some(w.diff))))
  }

  ghost predicate Sound(repo: Option<Files>, keep: string, dirs: Dirs, flips: seq<Step>, w: Writer) {
    && w.diff.Declarative() && Named(w) && Keeps(keep, w.diff)
    && Reads(dirs, flips, w) && Owns(repo, dirs, flips, w) && Recorded(flips, w)
  }

  ghost predicate AtMostOneInFlight(writers: map<nat, Writer>) {
    forall v, w :: v in writers && w in writers && InFlight(writers[v]) && InFlight(writers[w]) ==> v == w
  }

  predicate AllHold(dirs: Dirs, keep: string) {
    forall v :: v in dirs ==> keep in dirs[v]
  }

  ghost predicate Inv(repo: Option<Files>, keep: string, s: Race) {
    && keep in SeedFiles(repo)
    && Chained(repo, s)
    && AllHold(s.p.dirs, keep)
    && (forall w :: w in s.writers ==> Sound(repo, keep, s.p.dirs, s.flips, s.writers[w]))
    && AtMostOneInFlight(s.writers)
  }

  lemma VisibleDir(repo: Option<Files>, s: Race, version: string)
    requires Chained(repo, s) && Visible(s.flips, version)
    ensures version in s.p.dirs
  {
    var i := Pos(s.flips, version);
    if i > 0 {
      assert Follows(s.p.dirs, s.flips[i - 1].version, s.flips[i]);
    }
  }

  lemma PointerIsLast(repo: Option<Files>, s: Race)
    requires Chained(repo, s)
    ensures s.p.pointer.Some? ==>
              && s.flips != [] && Visible(s.flips, s.p.pointer.value)
              && Pos(s.flips, s.p.pointer.value) == |s.flips| - 1
    ensures s.p.pointer.None? ==> s.flips == []
    ensures forall v :: Visible(s.flips, v) ==> Pos(s.flips, v) <= |s.flips| - 1
  {
  }

  lemma ReadsStay(repo: Option<Files>, s: Race, t: Race, w: Writer)
    requires w.diff.Declarative() && Chained(repo, s) && Extends(s.p.dirs, s.flips, t.p.dirs, t.flips)
    requires Reads(s.p.dirs, s.flips, w) && Recorded(s.flips, w)
    ensures Reads(t.p.dirs, t.flips, w) && Recorded(t.flips, w)
  {
    hide ChangedFiles, BumpMinor, Patched, SeedFiles, JsonOnly;
    var more := t.flips[|s.flips|..];
    assert t.flips == s.flips + more;
    forall v | Visible(s.flips, v)
      ensures Visible(t.flips, v) && Pos(t.flips, v) == Pos(s.flips, v) && View(t.p.dirs, v) == View(s.p.dirs, v)
    {
      PosStays(s.flips, more, v);
      VisibleDir(repo, s, v);
    }
  }

  /** The heart: a directory that can be created belongs to the successor of the pointer's version,
      and everything its writer read was that version. */
  lemma CreatorIsCurrent(repo: Option<Files>, s: Race, w: Writer)
    requires Chained(repo, s) && w.diff.Declarative() && Reads(s.p.dirs, s.flips, w)
    requires w.pc.DirRename? && w.next !in s.p.dirs
    ensures s.flips != [] && w.current == w.at == w.base == s.flips[|s.flips| - 1].version
    ensures BumpMinor(w.current) == Some(w.next)
  {
    hide ChangedFiles, BumpMinor, Patched, SeedFiles, View;
    if Pos(s.flips, w.current) < |s.flips| - 1 {
      SuccessorExists(repo, s, w.current);
    }
  }

  lemma SuccessorExists(repo: Option<Files>, s: Race, version: string)
    requires Chained(repo, s) && Visible(s.flips, version) && Pos(s.flips, version) < |s.flips| - 1
    ensures BumpMinor(version).Some? && BumpMinor(version).value in s.p.dirs
  {
    var i := Pos(s.flips, version);
    assert Follows(s.p.dirs, s.flips[i].version, s.flips[i + 1]);
  }

  lemma PatchKeeps(keep: string, inForce: Files, base: Files, diff: Diff)
    requires diff.Declarative() && ValidComponent(diff.profile) && Keeps(keep, diff) && keep in base
    requires ChangedFiles(inForce, diff).Ok?
    ensures keep in Patched(base, ChangedFiles(inForce, diff).value)
  {
  }

  lemma KeptIsSeen(repo: Option<Files>, keep: string, files: Files)
    requires keep in SeedFiles(repo) && keep in files
    ensures keep in JsonOnly(files)
  {
  }

  // ---- Each step keeps it ----

  /** A step that writes neither a directory nor the pointer. */
  predicate Quiet(w: Writer) {
    !w.pc.SeedRename? && !w.pc.DirRename? && !InFlight(w)
  }

  /** What a quiet step must leave for its own call. */
  ghost predicate QuietlyReads(repo: Option<Files>, s: Race, me: Writer)
    requires me.diff.Declarative()
  {
    var (p, after) := Next(repo, s.p, me);
    && p.dirs == s.p.dirs && p.pointer == s.p.pointer
    && after.diff == me.diff && !InFlight(after)
    && Reads(s.p.dirs, s.flips, after) && Recorded(s.flips, after)
  }

  /** The steps after the pointer is written. */
  lemma QuietEnds(repo: Option<Files>, s: Race, me: Writer)
    requires me.diff.Declarative() && Chained(repo, s)
    requires Reads(s.p.dirs, s.flips, me) && Recorded(s.flips, me)
    requires me.pc.Log? || me.pc.Done? || me.pc.Failed?
    ensures QuietlyReads(repo, s, me)
  {
    hide SeedNext, PlanNext, BumpMinor, SortKey, KeyLess, ChangedFiles, ValidComponent, View, Patched, Visible, Pos;
    hide Chain, Chained, SeedFiles, Rename, Writable;
  }

  /** The steps before the pointer is read. */
  lemma QuietStarts(repo: Option<Files>, s: Race, me: Writer)
    requires me.diff.Declarative() && Chained(repo, s)
    requires Reads(s.p.dirs, s.flips, me) && Recorded(s.flips, me)
    requires me.pc.Start? || me.pc.SeedCheck? || me.pc.SeedLog?
    ensures QuietlyReads(repo, s, me)
  {
    hide PlanNext, WriteNext, BumpMinor, SortKey, KeyLess, ChangedFiles, ValidComponent, View, Patched, Visible, Pos, Chain, SeedFiles;
    PointerIsLast(repo, s);
  }

  /** The steps that read the version to start from. */
  lemma QuietReads(repo: Option<Files>, s: Race, me: Writer)
    requires me.diff.Declarative() && Chained(repo, s)
    requires Reads(s.p.dirs, s.flips, me) && Recorded(s.flips, me)
    requires me.pc.ReadCurrent? || me.pc.ReadCodes? || me.pc.Merge?
    ensures QuietlyReads(repo, s, me)
  {
    hide SeedNext, WriteNext, BumpMinor, SortKey, KeyLess, ChangedFiles, ValidComponent, View, Patched, Visible, Pos, Chain, SeedFiles;
    PointerIsLast(repo, s);
  }

  /** The steps that prepare the new version. */
  lemma QuietBuilds(repo: Option<Files>, s: Race, me: Writer)
    requires me.diff.Declarative() && Chained(repo, s)
    requires Reads(s.p.dirs, s.flips, me) && Recorded(s.flips, me)
    requires me.pc.Compare? || me.pc.ReadBase? || me.pc.DirCheck?
    ensures QuietlyReads(repo, s, me)
  {
    hide BumpMinor, SortKey, KeyLess, ChangedFiles, ValidComponent, View, Patched, Visible, Pos, Chain, SeedFiles;
    PointerIsLast(repo, s);
  }

  lemma QuietStep(repo: Option<Files>, s: Race, me: Writer)
    requires me.diff.Declarative() && Chained(repo, s) && Quiet(me)
    requires Reads(s.p.dirs, s.flips, me) && Recorded(s.flips, me)
    ensures QuietlyReads(repo, s, me)
  {
    hide QuietlyReads, Reads, Recorded, Chained;
    if me.pc.ReadCurrent? || me.pc.ReadCodes? || me.pc.Merge? {
      QuietReads(repo, s, me);
    } else if HasPatch(me) {
      QuietBuilds(repo, s, me);
    } else if me.pc.Start? || me.pc.SeedCheck? || me.pc.SeedLog? {
      QuietStarts(repo, s, me);
    } else {
      QuietEnds(repo, s, me);
    }
  }

  /** One call's step keeps the invariant once its own part and the chain are shown to hold after it. */
  lemma Assemble(repo: Option<Files>, keep: string, s: Race, t: Race, w: nat, after: Writer)
    requires Inv(repo, keep, s) && w in s.writers && after.diff == s.writers[w].diff
    requires t.writers == s.writers[w := after]
    requires Extends(s.p.dirs, s.flips, t.p.dirs, t.flips) && Chained(repo, t) && AllHold(t.p.dirs, keep)
    requires after.diff.Declarative() && Named(after) && Reads(t.p.dirs, t.flips, after) && Recorded(t.flips, after)
    requires Owns(repo, t.p.dirs, t.flips, after)
    requires InFlight(after) ==> forall v :: v in s.writers && v != w ==> !InFlight(s.writers[v])
    requires forall v :: v in s.writers && v != w && InFlight(s.writers[v]) ==>
               Owns(repo, t.p.dirs, t.flips, s.writers[v])
    ensures Inv(repo, keep, t)
  {
    hide Chain, Reads, Extends, Follows, Visible, SeedFiles;
    forall v | v in t.writers
      ensures Sound(repo, keep, t.p.dirs, t.flips, t.writers[v])
    {
      if v != w {
        ReadsStay(repo, s, t, s.writers[v]);
      }
    }
  }

  lemma StepIsNamed(repo: Option<Files>, p: Profile, w: Writer)
    requires w.diff.Declarative() && Named(w)
    ensures Named(Next(repo, p, w).1)
  {
    hide BumpMinor, SortKey, KeyLess, ChangedFiles, ValidComponent, View, Patched, SeedFiles, Rename, Writable;
  }

  lemma QuietKeepsInv(repo: Option<Files>, keep: string, s: Race, w: nat)
    requires Inv(repo, keep, s) && w in s.writers && Quiet(s.writers[w])
    ensures var t := Happen(repo, s, Advance(w)); Inv(repo, keep, t) && ExtendsState(s, t)
  {
    hide Next, Reads, Follows, ChangedFiles, BumpMinor, View, Patched, SeedFiles;
    QuietStep(repo, s, s.writers[w]);
    StepIsNamed(repo, s.p, s.writers[w]);
    var t := Happen(repo, s, Advance(w));
    assert t.flips == s.flips;
    Assemble(repo, keep, s, t, w, t.writers[w]);
  }

  predicate ExtendsState(s: Race, t: Race) {
    Extends(s.p.dirs, s.flips, t.p.dirs, t.flips)
  }

  /** New directories under other names leave the chain as it is. */
  lemma ChainStays(repo: Option<Files>, s: Race, t: Race)
    requires Chained(repo, s) && ExtendsState(s, t) && t.flips == s.flips && t.p.pointer == s.p.pointer
    ensures Chained(repo, t)
  {
    hide ChangedFiles, BumpMinor, Patched, SeedFiles, JsonOnly;
    forall i | 0 < i < |s.flips|
      ensures Follows(t.p.dirs, t.flips[i - 1].version, t.flips[i])
    {
      assert Follows(s.p.dirs, s.flips[i - 1].version, s.flips[i]);
      assert Visible(s.flips, s.flips[i - 1].version);
      VisibleDir(repo, s, s.flips[i - 1].version);
    }
  }

  lemma FreshReads(dirs: Dirs, flips: seq<Step>, w: Writer)
    requires w.diff.Declarative() && (InFlight(w) || w.pc.Failed? || w.pc.Start? || (w.pc.SeedLog? && flips != []))
    ensures Reads(dirs, flips, w) && Recorded(flips, w)
  {
  }

  lemma SeedRenameDoes(repo: Option<Files>, p: Profile, w: Writer)
    requires w.diff.Declarative() && w.pc.SeedRename?
    requires INITIAL_VERSION in p.dirs ==> p.dirs[INITIAL_VERSION] != map[]
    ensures Next(repo, p, w) ==
            if INITIAL_VERSION in p.dirs then (p, w.(pc := Failed(OsError)))
            else (p.(dirs := p.dirs[INITIAL_VERSION := SeedFiles(repo)]), w.(pc := SeedFlip))
  {
    hide PlanNext, WriteNext, SeedFiles;
  }

  lemma SeedRenameKeepsInv(repo: Option<Files>, keep: string, s: Race, w: nat)
    requires Inv(repo, keep, s) && w in s.writers && s.writers[w].pc.SeedRename?
    ensures var t := Happen(repo, s, Advance(w)); Inv(repo, keep, t) && ExtendsState(s, t)
  {
    hide ChangedFiles, BumpMinor, View, Patched, SeedFiles, Follows, Reads, Next;
    var t := Happen(repo, s, Advance(w));
    SeedRenameDoes(repo, s.p, s.writers[w]);
    assert t.flips == s.flips;
    if INITIAL_VERSION !in s.p.dirs {
      forall v | v in s.writers && v != w
        ensures !InFlight(s.writers[v])
      {
        assert Sound(repo, keep, s.p.dirs, s.flips, s.writers[v]);
      }
    }
    ChainStays(repo, s, t);
    FreshReads(t.p.dirs, t.flips, t.writers[w]);
    Assemble(repo, keep, s, t, w, t.writers[w]);
  }

  lemma CreatedFollows(repo: Option<Files>, keep: string, s: Race, t: Race, me: Writer)
    requires Inv(repo, keep, s) && me.diff.Declarative() && Named(me) && Keeps(keep, me.diff)
    requires Reads(s.p.dirs, s.flips, me) && me.pc.DirRename? && me.next !in s.p.dirs
    requires t.p.dirs == s.p.dirs[me.next := me.files]
    ensures
      && s.flips != [] && keep in me.files && !Visible(s.flips, me.next)
      && Follows(t.p.dirs, s.flips[|s.flips| - 1].version, Step(me.next, Some(me.diff)))
  {
    hide ChangedFiles, BumpMinor, Patched, SeedFiles, JsonOnly;
    CreatorIsCurrent(repo, s, me);
    var last := s.flips[|s.flips| - 1].version;
    assert Visible(s.flips, last);
    VisibleDir(repo, s, last);
    KeptIsSeen(repo, keep, s.p.dirs[last]);
    PatchKeeps(keep, View(s.p.dirs, last), View(s.p.dirs, last), me.diff);
    assert View(t.p.dirs, last) == View(s.p.dirs, last);
    if Visible(s.flips, me.next) {
      VisibleDir(repo, s, me.next);
    }
  }

  lemma OwnerHoldsSuccessor(repo: Option<Files>, s: Race, w: Writer)
    requires Owns(repo, s.p.dirs, s.flips, w)
    ensures w.pc.SeedFlip? ==> s.flips == []
    ensures w.pc.Flip? && s.flips != [] ==>
              var succ := BumpMinor(s.flips[|s.flips| - 1].version); succ.Some? && succ.value in s.p.dirs
  {
  }

  lemma DirRenameKeepsInv(repo: Option<Files>, keep: string, s: Race, w: nat)
    requires Inv(repo, keep, s) && w in s.writers && s.writers[w].pc.DirRename?
    ensures var t := Happen(repo, s, Advance(w)); Inv(repo, keep, t) && ExtendsState(s, t)
  {
    hide ChangedFiles, BumpMinor, View, Patched, SeedFiles, Reads, Follows;
    var t := Happen(repo, s, Advance(w));
    var me := s.writers[w];
    assert t.flips == s.flips;
    if me.next !in s.p.dirs {
      CreatedFollows(repo, keep, s, t, me);
      CreatorIsCurrent(repo, s, me);
      forall v | v in s.writers && v != w
        ensures !InFlight(s.writers[v])
      {
        OwnerHoldsSuccessor(repo, s, s.writers[v]);
      }
    }
    ChainStays(repo, s, t);
    FreshReads(t.p.dirs, t.flips, t.writers[w]);
    Assemble(repo, keep, s, t, w, t.writers[w]);
  }

  lemma FlipChain(repo: Option<Files>, s: Race, t: Race, me: Writer)
    requires Chained(repo, s) && Owns(repo, s.p.dirs, s.flips, me) && InFlight(me)
    requires t.p.dirs == s.p.dirs && t.flips == s.flips + FlipOf(me)
    requires t.p.pointer == Some(FlipOf(me)[0].version)
    ensures Chained(repo, t)
  {
    hide ChangedFiles, BumpMinor, Patched, SeedFiles;
    var n := |s.flips|;
    assert forall i :: 0 <= i < n ==> Visible(s.flips, s.flips[i].version);
    forall i | 0 < i < |t.flips|
      ensures Follows(t.p.dirs, t.flips[i - 1].version, t.flips[i])
    {
      if i < n {
        assert Follows(s.p.dirs, s.flips[i - 1].version, s.flips[i]);
      }
    }
  }

  lemma AfterFlip(dirs: Dirs, flips: seq<Step>, w: Writer)
    requires w.diff.Declarative() && (w.pc.SeedLog? || w.pc.Log?) && flips != []
    ensures Reads(dirs, flips, w)
  {
  }

  lemma FlipKeepsInv(repo: Option<Files>, keep: string, s: Race, w: nat)
    requires Inv(repo, keep, s) && w in s.writers && InFlight(s.writers[w])
    ensures var t := Happen(repo, s, Advance(w)); Inv(repo, keep, t) && ExtendsState(s, t)
  {
    hide ChangedFiles, BumpMinor, View, Patched, SeedFiles, Reads, Follows, Visible, Chain;
    var t := Happen(repo, s, Advance(w));
    var me := s.writers[w];
    assert Sound(repo, keep, s.p.dirs, s.flips, me);
    FlipChain(repo, s, t, me);
    AfterFlip(t.p.dirs, t.flips, t.writers[w]);
    assert t.flips[|s.flips|] == FlipOf(me)[0];
    Assemble(repo, keep, s, t, w, t.writers[w]);
  }

  lemma HappenKeepsInv(repo: Option<Files>, keep: string, s: Race, e: Event)
    requires Inv(repo, keep, s) && (e.Begin? ==> Keeps(keep, e.diff))
    ensures var t := Happen(repo, s, e); Inv(repo, keep, t) && ExtendsState(s, t)
  {
    hide Next, Reads, Chain, SeedFiles;
    match e
    case Advance(w) =>
      if w in s.writers {
        var me := s.writers[w];
        if Quiet(me) { QuietKeepsInv(repo, keep, s, w); }
        else if me.pc.SeedRename? { SeedRenameKeepsInv(repo, keep, s, w); }
        else if me.pc.DirRename? { DirRenameKeepsInv(repo, keep, s, w); }
        else { FlipKeepsInv(repo, keep, s, w); }
      }
    case Begin(w, diff, actor) =>
      if diff.Declarative() {
        FreshReads(s.p.dirs, s.flips, Fresh(diff, actor));
      }
    case Crash(_) =>
  }

  lemma {:induction false} RunKeepsInv(repo: Option<Files>, keep: string, s: Race, es: seq<Event>)
    requires WellTyped(s) && Inv(repo, keep, s) && Anchored(repo, keep, es)
    ensures var t := Run(repo, s, es); Inv(repo, keep, t) && ExtendsState(s, t)
    decreases |es|
  {
    hide Inv, Happen, SeedFiles;
    if es != [] {
      assert es[0] in es;
      HappenKeepsInv(repo, keep, s, es[0]);
      RunKeepsInv(repo, keep, Happen(repo, s, es[0]), es[1..]);
      ExtendsTransitive(s, Happen(repo, s, es[0]), Run(repo, s, es));
    }
  }

  lemma ExtendsTransitive(s: Race, t: Race, u: Race)
    requires ExtendsState(s, t) && ExtendsState(t, u)
    ensures ExtendsState(s, u)
  {
  }

  /** No lost update. Over every interleaving and every crash of approvals of one profile that keep
      one seeded file: the visible versions form one chain in which each version is its predecessor
      with its own writer's patch applied, its last is current and complete, a call that
      reports success is in the chain, and what is visible at one time never changes later. */
  lemma NoLostUpdate(repo: Option<Files>, keep: string, es: seq<Event>, later: seq<Event>)
    requires Anchored(repo, keep, es) && Anchored(repo, keep, later)
    ensures
      var s := Run(repo, EMPTY, es);
      && Chained(repo, s)
      && (forall w :: w in s.writers ==> Recorded(s.flips, s.writers[w]))
      && ExtendsState(s, Run(repo, s, later))
  {
    RunKeepsInv(repo, keep, EMPTY, es);
    RunKeepsInv(repo, keep, Run(repo, EMPTY, es), later);
  }
}
