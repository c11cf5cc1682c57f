/** A crash between creating a version directory and pointing at it: what it leaves, and what still works. */
module RegistryCrash {
  import opened Wrappers
  import opened Versions
  import opened RegistrySpec
  import opened RegistryRace
  import opened RegistryRaceLimits
  import opened ProposalRuns
  import opened RegistryRaceExact

  /** The version the next successful call creates first. */
  function Successor(p: Profile): Option<string> {
    match p.pointer
    case Some(v) => BumpMinor(v)
    case None => Some(INITIAL_VERSION)
  }

  predicate Blocked(p: Profile) {
    Successor(p).Some? && Successor(p).value in p.dirs
  }

  /** The next version's directory exists and nobody is about to point at it. */
  predicate Orphaned(s: Race) {
    Blocked(s.p) && NobodyInFlight(s)
  }

  // ---- How it comes about ----

  /** A crash leaves an orphan exactly if there was one, or if it hits the call that has created its
      directory and not yet written the pointer. */
  lemma CrashOrphansIff(repo: Option<Files>, keep: string, s: Race, w: nat)
    requires WellTyped(s) && RegistryRace.Inv(repo, keep, s)
    ensures Orphaned(Happen(repo, s, Crash(w))) <==> Orphaned(s) || (w in s.writers && InFlight(s.writers[w]))
  {
    hide Reads, BumpMinor, ChangedFiles, View, Patched, SeedFiles, Chain, Blocked;
    var t := Happen(repo, s, Crash(w));
    assert t.p == s.p && t.writers == s.writers - {w};
    if w in s.writers && InFlight(s.writers[w]) {
      FlightBlocks(repo, keep, s, w);
      assert forall v :: v in s.writers && v != w ==> !InFlight(s.writers[v]);
    } else {
      assert forall v :: v in s.writers && InFlight(s.writers[v]) ==> v in t.writers && t.writers[v] == s.writers[v];
    }
  }

  lemma FlightBlocks(repo: Option<Files>, keep: string, s: Race, w: nat)
    requires RegistryRace.Inv(repo, keep, s) && w in s.writers && InFlight(s.writers[w])
    ensures Blocked(s.p)
  {
    hide Reads, BumpMinor, ChangedFiles, View, Patched, SeedFiles, Visible;
    assert Sound(repo, keep, s.p.dirs, s.flips, s.writers[w]);
  }

  /** From nothing: the first call crashes while seeding. No pointer, and its directory in the way. */
  lemma CrashWhileSeeding(repo: Option<Files>, d: Diff, actor: string)
    requires Live(d) && SeedWritable(repo)
    ensures
      var s := Run(repo, EMPTY, [Begin(0, d, actor)] + (Steps(0, 2) + [Advance(0), Crash(0)]));
      && Orphaned(s) && s.p == Profile(map[INITIAL_VERSION := SeedFiles(repo)], None, []) && s.writers == map[]
  {
    hide Run, Next, SeedFiles, ValidComponent;
    var s1 := EMPTY.(writers := EMPTY.writers[0 := Fresh(d, actor)]);
    var last := [Advance(0)] + ([Crash(0)] + []);
    assert [Advance(0), Crash(0)] == last;
    Begins(repo, EMPTY, 0, d, actor, Steps(0, 2) + last);
    ToSeedRename(repo, s1, 0, d, actor);
    RunAppend(repo, s1, Steps(0, 2), last);
    SeedsAndCrashes(repo, Run(repo, s1, Steps(0, 2)), 0);
  }

  lemma SeedsAndCrashes(repo: Option<Files>, s: Race, w: nat)
    requires WellTyped(s) && w in s.writers && s.writers[w].pc.SeedRename? && INITIAL_VERSION !in s.p.dirs
    ensures
      var t := Run(repo, s, [Advance(w)] + ([Crash(w)] + []));
      && t.p == s.p.(dirs := s.p.dirs[INITIAL_VERSION := SeedFiles(repo)])
      && t.writers == s.writers - {w}
  {
    hide Run, Next, SeedFiles;
    SeedDirs(repo, s, w);
    var s1 := Happen(repo, s, Advance(w));
    RunOne(repo, s, Advance(w), [Crash(w)] + []);
    RunOne(repo, s1, Crash(w), []);
    NoSteps(repo, Happen(repo, s1, Crash(w)));
  }

  lemma SeedDirs(repo: Option<Files>, s: Race, w: nat)
    requires WellTyped(s) && w in s.writers && s.writers[w].pc.SeedRename? && INITIAL_VERSION !in s.p.dirs
    ensures
      var t := Happen(repo, s, Advance(w));
      && t.p == s.p.(dirs := s.p.dirs[INITIAL_VERSION := SeedFiles(repo)])
      && t.writers == s.writers[w := s.writers[w].(pc := SeedFlip)]
  {
    hide PlanNext, WriteNext, SeedFiles;
  }

  /** From nothing: a call seeds and stops; the next one crashes before it writes the pointer. */
  lemma CrashWhileApplying(repo: Option<Files>, d: Diff) returns (es: seq<Event>)
    requires Live(d) && SeedWritable(repo) && d.ProfileChange? && (!d.after.JNull? ==> ValidComponent(d.file))
    ensures forall e :: e in es && e.Begin? ==> e.diff == d
    ensures
      var s := Run(repo, EMPTY, es);
      && Orphaned(s) && s.p.pointer == Some(INITIAL_VERSION) && "0.2" in s.p.dirs && s.writers.Keys == {0}
  {
    hide Run, Next, Happen, SeedFiles, ValidComponent, ProfileInv, BumpMinor, SortKey, KeyLess, VersionAt, View, Patched, Effective;
    var first, s := SeededState(repo, d, "a");
    TwoPrints();
    VersionAtBumps(0);
    NextVersionIsFree(s.p, repo, []);
    VersionIsComponent(1);
    NamesValid(s.p, repo, [], d);
    var s1 := s.(writers := s.writers[1 := Fresh(d, "b")]);
    var last := [Advance(1)] + ([Crash(1)] + []);
    es := first + ([Begin(1, d, "b")] + (Steps(1, 6) + last));
    PointsAtFirst(repo, s.p);
    Begins(repo, s, 1, d, "b", Steps(1, 6) + last);
    ToRename(repo, s1, 1, d, "b", INITIAL_VERSION, "0.2");
    var s2 := Run(repo, s1, Steps(1, 6));
    RunAppend(repo, EMPTY, first, [Begin(1, d, "b")] + (Steps(1, 6) + last));
    RunAppend(repo, s1, Steps(1, 6), last);
    CreatesAndCrashes(repo, s2, 1);
  }

  lemma PointsAtFirst(repo: Option<Files>, p: Profile)
    requires p == EnsureSeeded(FRESH, repo, INITIAL_VERSION).0 && p.pointer.Some?
    ensures p.pointer == Some(INITIAL_VERSION)
  {
  }

  lemma CreatesDir(repo: Option<Files>, s: Race, w: nat)
    requires WellTyped(s) && w in s.writers && s.writers[w].pc.DirRename? && s.writers[w].next !in s.p.dirs
    ensures
      var t := Happen(repo, s, Advance(w));
      && t.p == s.p.(dirs := s.p.dirs[s.writers[w].next := s.writers[w].files])
      && t.writers == s.writers[w := s.writers[w].(pc := Flip)]
  {
    hide PlanNext, SeedNext, SeedFiles, Patched, View;
  }

  // ---- What it blocks ----

  lemma OrphanStays(repo: Option<Files>, keep: string, s: Race, e: Event)
    requires RegistryRace.Inv(repo, keep, s) && Orphaned(s)
    ensures
      var t := Happen(repo, s, e);
      && Orphaned(t) && t.p.pointer == s.p.pointer && t.p.dirs == s.p.dirs && t.flips == s.flips
      && forall w :: w in t.writers && (t.writers[w].pc.Done? || t.writers[w].pc.Log?) ==>
           w in s.writers && (s.writers[w].pc.Done? || s.writers[w].pc.Log?)
  {
    hide BumpMinor, SortKey, KeyLess, Patched, ValidComponent, ChangedFiles, View, SeedFiles, Visible, Reads, Next;
    if e.Advance? && e.w in s.writers {
      var me := s.writers[e.w];
      assert Sound(repo, keep, s.p.dirs, s.flips, me);
      if Quiet(me) {
        QuietStep(repo, s, me);
        QuietNotDone(repo, s.p, me);
      } else {
        RefusedRename(repo, keep, s, me);
      }
    }
  }

  lemma QuietNotDone(repo: Option<Files>, p: Profile, w: Writer)
    requires w.diff.Declarative() && Quiet(w)
    ensures Next(repo, p, w).1.pc.Done? || Next(repo, p, w).1.pc.Log? ==> w.pc.Done? || w.pc.Log?
    ensures FlipOf(w) == []
  {
    hide BumpMinor, SortKey, KeyLess, Patched, ValidComponent, ChangedFiles, View, SeedFiles;
  }

  /** Over an orphan no directory is ever created: the one that could be is in the way, and holds a file. */
  lemma RefusedRename(repo: Option<Files>, keep: string, s: Race, me: Writer)
    requires RegistryRace.Inv(repo, keep, s) && Orphaned(s) && Sound(repo, keep, s.p.dirs, s.flips, me)
    requires me.pc.SeedRename? || me.pc.DirRename?
    ensures Next(repo, s.p, me) == (s.p, me.(pc := Failed(OsError))) && FlipOf(me) == []
  {
    hide BumpMinor, SortKey, KeyLess, Patched, ValidComponent, ChangedFiles, View, SeedFiles, Visible, Reads;
    if me.pc.DirRename? && me.next !in s.p.dirs {
      CreatorIsCurrent(repo, s, me);
    }
  }

  /** Whatever is tried later, seeding included: pointer, directories and visible versions stay, and no call
      succeeds that had not written its pointer before. */
  lemma {:induction false} OrphanBlocksForever(repo: Option<Files>, keep: string, s: Race, es: seq<Event>)
    requires WellTyped(s) && RegistryRace.Inv(repo, keep, s) && Orphaned(s) && Anchored(repo, keep, es)
    ensures
      var t := Run(repo, s, es);
      && t.p.pointer == s.p.pointer && t.p.dirs == s.p.dirs && t.flips == s.flips && Orphaned(t)
      && forall w :: w in t.writers && (t.writers[w].pc.Done? || t.writers[w].pc.Log?) ==>
           w in s.writers && (s.writers[w].pc.Done? || s.writers[w].pc.Log?)
    decreases |es|
  {
    hide Happen, RegistryRace.Inv, Orphaned, SeedFiles;
    if es != [] {
      assert es[0] in es;
      OrphanStays(repo, keep, s, es[0]);
      RegistryRace.HappenKeepsInv(repo, keep, s, es[0]);
      OrphanBlocksForever(repo, keep, Happen(repo, s, es[0]), es[1..]);
    }
  }

  // ---- Overtaking an empty orphan ----

  /** The two calls of `BothReady`; the first creates its empty directory and crashes; the second, past its
      existence check, renames over it. */
  lemma OvertakesLast(repo: Option<Files>, s: Race, ds: seq<Diff>, m: nat, file: string, d: Diff, e: Diff)
    returns (es: seq<Event>, later: seq<Event>)
    requires WellTyped(s) && (forall w :: w in s.writers ==> w < m) && (forall x :: x in ds ==> x.Declarative())
    requires NobodyInFlight(s)
    requires ProfileInv(s.p, repo, ds) && s.p.pointer.Some? && Effective(s.p, repo).Keys == {file}
    requires Deletes(d, file) && Live(e) && e.ProfileChange? && (!e.after.JNull? ==> ValidComponent(e.file))
    ensures forall x :: x in es && x.Begin? ==> x.diff == d || x.diff == e
    ensures forall x :: x in later ==> !x.Begin?
    ensures
      var u, t := Run(repo, s, es), Run(repo, Run(repo, s, es), later);
      && Orphaned(u) && u.p.pointer == s.p.pointer
      && m + 1 in t.writers && t.writers[m + 1].pc.Done? && t.writers[m + 1].diff == e
      && t.p.pointer == Some(VersionAt(|ds| + 1)) != u.p.pointer
  {
    hide Run, Next, Happen, ProfileInv, BumpMinor, VersionAt, ValidComponent, Patched, Effective, Live, Deletes;
    var first, r := BothReady(repo, s, ds, m, file, d, e);
    var last := [Advance(m)] + ([Crash(m)] + []);
    es := first + last;
    RunAppend(repo, s, first, last);
    CreatesAndCrashes(repo, r, m);
    later := Steps(m + 1, 3);
    Finishes(repo, Run(repo, r, last), m + 1);
    NextIsNew(s.p, repo, ds);
    LeavesOrphan(repo, s, ds, m, r, Run(repo, r, last));
  }

  lemma LeavesOrphan(repo: Option<Files>, s: Race, ds: seq<Diff>, m: nat, r: Race, u: Race)
    requires NobodyInFlight(s) && (forall x :: x in ds ==> x.Declarative()) && ProfileInv(s.p, repo, ds) && s.p.pointer.Some?
    requires m in r.writers && m + 1 in r.writers && !InFlight(r.writers[m + 1])
    requires r.writers == s.writers[m := r.writers[m]][m + 1 := r.writers[m + 1]] && u.writers == r.writers - {m}
    requires u.p.pointer == s.p.pointer && VersionAt(|ds| + 1) in u.p.dirs
    ensures Orphaned(u)
  {
    hide ProfileInv, BumpMinor, VersionAt;
    NextVersionIsFree(s.p, repo, ds);
  }

  lemma CreatesAndCrashes(repo: Option<Files>, s: Race, w: nat)
    requires WellTyped(s) && w in s.writers && s.writers[w].pc.DirRename? && s.writers[w].next !in s.p.dirs
    ensures
      var t := Run(repo, s, [Advance(w)] + ([Crash(w)] + []));
      && t.p == s.p.(dirs := s.p.dirs[s.writers[w].next := s.writers[w].files])
      && t.writers == s.writers - {w}
  {
    hide Run, Next;
    CreatesDir(repo, s, w);
    var s1 := Happen(repo, s, Advance(w));
    RunOne(repo, s, Advance(w), [Crash(w)] + []);
    RunOne(repo, s1, Crash(w), []);
    NoSteps(repo, Happen(repo, s1, Crash(w)));
  }

  lemma Finishes(repo: Option<Files>, s: Race, w: nat)
    requires WellTyped(s) && w in s.writers && s.writers[w].pc.DirRename?
    requires s.writers[w].next in s.p.dirs ==> s.p.dirs[s.writers[w].next] == map[]
    ensures
      var t := Run(repo, s, Steps(w, 3));
      t.p.pointer == Some(s.writers[w].next) && t.writers == s.writers[w := s.writers[w].(pc := Done)]
  {
    hide Run, Next, Happen;
    Publishes(repo, s, w);
    var s1 := Happen(repo, s, Advance(w));
    var s2 := Happen(repo, s1, Advance(w));
    Logs(repo, s2, w);
    assert Steps(w, 3) == [Advance(w)] + ([Advance(w)] + ([Advance(w)] + []));
    RunOne(repo, s, Advance(w), [Advance(w)] + ([Advance(w)] + []));
    RunOne(repo, s1, Advance(w), [Advance(w)] + []);
    RunOne(repo, s2, Advance(w), []);
    NoSteps(repo, Happen(repo, s2, Advance(w)));
    assert s.writers[w := s.writers[w].(pc := Log)][w := s.writers[w].(pc := Done)] ==
           s.writers[w := s.writers[w].(pc := Done)];
  }

  lemma NextIsNew(p: Profile, repo: Option<Files>, ds: seq<Diff>)
    requires (forall x :: x in ds ==> x.Declarative()) && ProfileInv(p, repo, ds) && p.pointer.Some?
    ensures p.pointer != Some(VersionAt(|ds| + 1))
  {
    hide VersionAt;
    if VersionAt(|ds|) == VersionAt(|ds| + 1) { VersionAtInjective(|ds|, |ds| + 1); }
  }

  /** The same with two seeding calls, on an empty seed. */
  lemma OvertakesSeed(repo: Option<Files>, d: Diff) returns (es: seq<Event>, later: seq<Event>)
    requires SeedFiles(repo) == map[] && Live(d)
    ensures forall x :: x in es && x.Begin? ==> x.diff == d
    ensures forall x :: x in later ==> !x.Begin?
    ensures
      var u, t := Run(repo, EMPTY, es), Run(repo, Run(repo, EMPTY, es), later);
      Orphaned(u) && u.p.pointer == None && t.p.pointer == Some(INITIAL_VERSION)
  {
    hide Run, Next, SeedFiles, ValidComponent;
    NothingIsWritable(repo);
    var first, t := BothAtSeed(repo, d);
    var last := [Advance(0)] + ([Crash(0)] + []);
    es, later := first + last, Steps(1, 2);
    RunAppend(repo, EMPTY, first, last);
    SeedsAndCrashes(repo, t, 0);
    Seeds(repo, Run(repo, t, last), 1);
  }

  /** A run from nothing: the seed holds one file; a call deleting it crashes after its directory appeared; a
      second call overtakes the empty orphan and reports success. */
  lemma OrphanIsOvertaken(repo: Option<Files>) returns (es: seq<Event>, later: seq<Event>)
    requires SeedFiles(repo).Keys == {"a.json"}
    ensures
      var u, t := Run(repo, EMPTY, es), Run(repo, Run(repo, EMPTY, es), later);
      && Orphaned(u) && u.p.pointer == Some(INITIAL_VERSION)
      && 2 in t.writers && t.writers[2].diff == ADD && t.writers[2].pc == Done && t.p.pointer == Some("0.2")
  {
    NamesOfExample();
    hide Run, Next, ProfileInv, Effective, SeedFiles, VersionAt, Orphaned, ValidComponent, EnsureSeeded;
    var first, s := SeededState(repo, DELETE, "c");
    PointsAtFirst(repo, s.p);
    var rest;
    rest, later := OvertakesLast(repo, s, [], 1, "a.json", DELETE, ADD);
    es := first + rest;
    RunAppend(repo, EMPTY, first, rest);
    TwoPrints();
  }

  // ---- Exactly when an orphan stays ----

  ghost predicate Stays(repo: Option<Files>, es: seq<Event>, later: seq<Event>) {
    var s := Run(repo, EMPTY, es);
    var t := Run(repo, s, later);
    t.p.pointer == s.p.pointer && t.p.dirs == s.p.dirs
  }

  /** Over approvals whose diffs are drawn from `diffs`: every orphan blocks the profile for good, whatever
      comes later, if and only if none of these diffs is ever applied or one seeded file is deleted by none
      of them. */
  lemma OrphanStaysIffOneFileKept(repo: Option<Files>, diffs: iset<Diff>)
    ensures
      (forall es, later :: Over(diffs, es) && Over(diffs, later) && Orphaned(Run(repo, EMPTY, es)) ==>
         Stays(repo, es, later))
      <==> Harmless(repo, diffs)
  {
    hide Run, SeedFiles, Orphaned, Stays, Keeps, Live;
    if Harmless(repo, diffs) {
      forall es, later | Over(diffs, es) && Over(diffs, later) && Orphaned(Run(repo, EMPTY, es))
        ensures Stays(repo, es, later)
      {
        HarmlessStays(repo, diffs, es, later);
      }
    } else {
      var es, later := HarmfulMoves(repo, diffs);
    }
  }

  lemma HarmlessStays(repo: Option<Files>, diffs: iset<Diff>, es: seq<Event>, later: seq<Event>)
    requires Harmless(repo, diffs) && Over(diffs, es) && Over(diffs, later) && Orphaned(Run(repo, EMPTY, es))
    ensures Stays(repo, es, later)
  {
    hide Run, SeedFiles, Orphaned, ValidComponent, RegistryRace.Inv;
    if keep :| keep in SeedFiles(repo) && forall d :: d in diffs ==> Keeps(keep, d) {
      assert Anchored(repo, keep, es) && Anchored(repo, keep, later);
      StartsSound(repo, keep);
      RegistryRace.RunKeepsInv(repo, keep, EMPTY, es);
      OrphanBlocksForever(repo, keep, Run(repo, EMPTY, es), later);
    } else {
      var s := Run(repo, EMPTY, es);
      RunStaysIdle(repo, diffs, EMPTY, es);
      RunStaysIdle(repo, diffs, s, later);
    }
  }

  lemma StartsSound(repo: Option<Files>, keep: string)
    requires keep in SeedFiles(repo)
    ensures RegistryRace.Inv(repo, keep, EMPTY)
  {
  }

  lemma HarmfulMoves(repo: Option<Files>, diffs: iset<Diff>) returns (es: seq<Event>, later: seq<Event>)
    requires !Harmless(repo, diffs)
    ensures Over(diffs, es) && Over(diffs, later) && Orphaned(Run(repo, EMPTY, es)) && !Stays(repo, es, later)
  {
    hide Run, SeedFiles, ValidComponent, Next, ProfileInv, Effective, Orphaned, VersionAt;
    var d :| d in diffs && Live(d);
    if SeedFiles(repo) == map[] {
      es, later := OvertakesSeed(repo, d);
    } else {
      var first, s := SeededState(repo, d, "a");
      forall f | f in Effective(s.p, repo)
        ensures exists e :: e in diffs && Deletes(e, f)
      {
        var e :| e in diffs && !Keeps(f, e);
        assert Deletes(e, f);
      }
      var second, t, done, n, file, e := ToLast(repo, diffs, s, [], 1);
      var third;
      third, later := OvertakesLast(repo, t, done, n, file, e, e);
      es := first + (second + third);
      RunAppend(repo, EMPTY, first, second + third);
      RunAppend(repo, s, second, third);
    }
  }

  // ---- When an approval still gets through ----

  ghost predicate IsVersion(v: string) {
    exists k: nat :: v == VersionAt(k)
  }

  predicate BeforePointer(pc: PC) {
    pc.Start? || pc.SeedCheck? || pc.SeedRename? || pc.SeedFlip? || pc.Failed?
  }

  /** What a call's local variables can be. */
  ghost predicate PlainWriter(repo: Option<Files>, p: Profile, w: Writer) {
    && (p.pointer.None? ==> BeforePointer(w.pc))
    && (w.pc.SeedRename? || w.pc.SeedFlip? ==> SeedWritable(repo))
    && (w.pc.ReadCodes? || w.pc.Merge? || w.pc.Compare? ==> IsVersion(w.current))
    && (w.pc.ReadBase? || w.pc.DirCheck? || w.pc.DirRename? || w.pc.Flip? ==> IsVersion(w.next))
    && (w.pc.DirRename? ==> Writable(w.next, w.files))
  }

  /** What the disk can hold: valid names; a pointer that is a version; nothing but the initial directory
      before there is a pointer. */
  ghost predicate PlainDisk(p: Profile) {
    && (p.pointer.Some? ==> IsVersion(p.pointer.value))
    && (p.pointer.None? ==> forall v :: v in p.dirs ==> v == INITIAL_VERSION)
    && (forall v, f :: v in p.dirs && f in p.dirs[v] ==> ValidComponent(f))
  }

  ghost predicate Plain(repo: Option<Files>, s: Race) {
    PlainDisk(s.p) && forall w :: w in s.writers ==> PlainWriter(repo, s.p, s.writers[w])
  }

  lemma BumpOfVersion(v: string)
    requires IsVersion(v)
    ensures BumpMinor(v).Some? && IsVersion(BumpMinor(v).value)
  {
    hide VersionAt, BumpMinor;
    var k: nat :| v == VersionAt(k);
    VersionAtBumps(k);
  }

  lemma FirstIsVersion()
    ensures IsVersion(INITIAL_VERSION)
  {
    VersionAtBumps(0);
  }

  lemma SeedStaysPlain(repo: Option<Files>, p: Profile, w: Writer)
    requires w.diff.Declarative() && PlainDisk(p) && PlainWriter(repo, p, w) && Rank(w.pc) > 9
    ensures PlainDisk(Next(repo, p, w).0) && PlainWriter(repo, Next(repo, p, w).0, Next(repo, p, w).1)
    ensures p.pointer.Some? ==> Next(repo, p, w).0.pointer.Some?
  {
    hide PlanNext, WriteNext, SeedFiles, SeedNote, Writable, ValidComponent, IsVersion, PlainDisk;
    FirstIsVersion();
    SeedKeepsDisk(repo, p, w);
  }

  lemma SeedKeepsDisk(repo: Option<Files>, p: Profile, w: Writer)
    requires w.diff.Declarative() && PlainDisk(p) && PlainWriter(repo, p, w) && Rank(w.pc) > 9
    ensures PlainDisk(Next(repo, p, w).0) && (p.pointer.Some? ==> Next(repo, p, w).0.pointer.Some?)
  {
    hide PlanNext, WriteNext, SeedFiles, ValidComponent, IsVersion;
    FirstIsVersion();
  }

  lemma PlanStaysPlain(repo: Option<Files>, p: Profile, w: Writer)
    requires w.diff.Declarative() && PlainDisk(p) && PlainWriter(repo, p, w) && 5 < Rank(w.pc) <= 9
    ensures PlainDisk(Next(repo, p, w).0) && PlainWriter(repo, Next(repo, p, w).0, Next(repo, p, w).1)
    ensures p.pointer.Some? ==> Next(repo, p, w).0.pointer.Some?
  {
    hide SeedNext, WriteNext, SeedFiles, ValidComponent, IsVersion, BumpMinor, SortKey, KeyLess, ChangedFiles, View;
    if w.pc.Compare? { BumpOfVersion(w.current); }
  }

  lemma WriteStaysPlain(repo: Option<Files>, p: Profile, w: Writer)
    requires w.diff.Declarative() && PlainDisk(p) && PlainWriter(repo, p, w) && Rank(w.pc) <= 5
    ensures PlainDisk(Next(repo, p, w).0) && PlainWriter(repo, Next(repo, p, w).0, Next(repo, p, w).1)
    ensures p.pointer.Some? ==> Next(repo, p, w).0.pointer.Some?
  {
    hide SeedNext, PlanNext, SeedFiles, ValidComponent, IsVersion, BumpMinor, SortKey, KeyLess, ChangedFiles, View, Patched;
    hide ApplyNote, SeedNote;
  }

  lemma HappenStaysPlain(repo: Option<Files>, s: Race, e: Event)
    requires WellTyped(s) && Plain(repo, s)
    ensures Plain(repo, Happen(repo, s, e))
  {
    hide Next, PlainDisk, SeedFiles, IsVersion, Writable;
    if e.Advance? && e.w in s.writers {
      var me := s.writers[e.w];
      if Rank(me.pc) > 9 { SeedStaysPlain(repo, s.p, me); }
      else if Rank(me.pc) > 5 { PlanStaysPlain(repo, s.p, me); }
      else { WriteStaysPlain(repo, s.p, me); }
    }
  }

  lemma {:induction false} RunIsPlain(repo: Option<Files>, s: Race, es: seq<Event>)
    requires WellTyped(s) && Plain(repo, s)
    ensures Plain(repo, Run(repo, s, es))
    decreases |es|
  {
    hide Happen, Plain;
    if es != [] {
      HappenStaysPlain(repo, s, es[0]);
      RunIsPlain(repo, Happen(repo, s, es[0]), es[1..]);
    }
  }

  /** A seeded profile whose files have valid names. */
  lemma SeededAppliesIff(p: Profile, repo: Option<Files>, n: nat, diff: Diff, actor: string)
    requires diff.Declarative() && p.pointer == Some(VersionAt(n))
    requires forall v, f :: v in p.dirs && f in p.dirs[v] ==> ValidComponent(f)
    ensures ApplyDeclarative(p, repo, diff, actor).1.Ok? <==> CanApply(p, repo, diff) && VersionAt(n + 1) !in p.dirs
  {
    hide VersionAt, BumpMinor, SortKey, KeyLess, Patched, ValidComponent, ChangedFiles, BumpVersion, Effective;
    VersionAtBumps(n);
    BumpIncreases(VersionAt(n));
    VersionIsComponent(n + 1);
    EffectiveNames(p, repo);
    var changed := ChangedFiles(Effective(p, repo), diff);
    if changed.Ok? {
      PatchNames(Effective(p, repo), diff);
      if VersionAt(n + 1) !in p.dirs {
        BumpOkIff(p, repo, VersionAt(n + 1), changed.value, ApplyNote(diff), Some(actor));
      } else {
        BumpRefused(p, repo, VersionAt(n + 1), changed.value, ApplyNote(diff), Some(actor));
      }
    }
  }

  lemma EffectiveNames(p: Profile, repo: Option<Files>)
    requires p.pointer.Some? && forall v, f :: v in p.dirs && f in p.dirs[v] ==> ValidComponent(f)
    ensures forall f :: f in Effective(p, repo) ==> ValidComponent(f)
  {
  }

  lemma BumpRefused(p: Profile, repo: Option<Files>, next: string, patch: Patch, note: string, actor: Option<string>)
    requires p.pointer.Some? && next in p.dirs
    ensures BumpVersion(p, repo, next, patch, note, actor).1.Err?
  {
  }

  /** In every state that overlapping calls and crashes can reach: an undisturbed approval succeeds if and only
      if its diff merges, its names are valid, and the next version's directory is not there yet. */
  lemma AppliesIffFree(repo: Option<Files>, es: seq<Event>, diff: Diff, actor: string)
    requires diff.Declarative()
    ensures
      var p := Run(repo, EMPTY, es).p;
      ApplyDeclarative(p, repo, diff, actor).1.Ok? <==> CanApply(p, repo, diff) && !Blocked(p)
  {
    hide Run, ApplyDeclarative, CanApply, VersionAt, BumpMinor, SeedFiles;
    RunIsPlain(repo, EMPTY, es);
    var p := Run(repo, EMPTY, es).p;
    if p.pointer.Some? {
      var n: nat :| p.pointer.value == VersionAt(n);
      VersionAtBumps(n);
      SeededAppliesIff(p, repo, n, diff, actor);
    } else {
      UnseededAppliesIff(p, repo, diff, actor);
    }
  }

  lemma UnseededAppliesIff(p: Profile, repo: Option<Files>, diff: Diff, actor: string)
    requires diff.Declarative() && p.pointer.None? && forall v :: v in p.dirs ==> v == INITIAL_VERSION
    ensures ApplyDeclarative(p, repo, diff, actor).1.Ok? <==> CanApply(p, repo, diff) && INITIAL_VERSION !in p.dirs
  {
    hide VersionAt, BumpMinor, SortKey, KeyLess, Patched, ValidComponent, ChangedFiles, BumpVersion, SeedFiles, ApplySeeded;
    VersionAtBumps(0);
    VersionIsComponent(0);
    SeedingKeepsRules(p, repo);
    SeedsIff(p, repo);
    var (q, seeded) := EnsureSeeded(p, repo, INITIAL_VERSION);
    if seeded.Ok? && ValidComponent(diff.profile) {
      SeededFirst(repo, p, diff, actor);
      SeededAppliesIff(q, repo, 0, diff, actor);
      if VersionAt(1) == VersionAt(0) { VersionAtInjective(1, 0); }
    }
  }

  lemma SeedsIff(p: Profile, repo: Option<Files>)
    requires p.pointer.None? && forall v :: v in p.dirs ==> v == INITIAL_VERSION
    ensures
      var (q, seeded) := EnsureSeeded(p, repo, INITIAL_VERSION);
      && (seeded.Ok? <==> INITIAL_VERSION !in p.dirs && forall f :: f in SeedFiles(repo) ==> ValidComponent(f))
      && (seeded.Ok? ==> q.pointer == Some(INITIAL_VERSION) && q.dirs == map[INITIAL_VERSION := SeedFiles(repo)])
  {
    hide SeedFiles;
    assert ValidComponent(INITIAL_VERSION);
  }
}
