/** Exactly which approvals of one profile are safe against each other, deleting ones included. */
module RegistryRaceExact {
  import opened Wrappers
  import opened Versions
  import opened RegistrySpec
  import opened RegistryRace
  import opened RegistryRaceLimits
  import opened ProposalRuns

  /** A diff that gets past the check of its profile's name. */
  predicate Live(d: Diff) {
    d.Declarative() && ValidComponent(d.profile)
  }

  predicate Deletes(d: Diff, file: string) {
    Live(d) && d.ProfileChange? && d.file == file && d.after.JNull?
  }

  /** Every call of the run proposes a diff of `diffs`. */
  ghost predicate Over(diffs: iset<Diff>, es: seq<Event>) {
    forall e :: e in es && e.Begin? ==> e.diff in diffs
  }

  predicate SeedWritable(repo: Option<Files>) {
    Writable(INITIAL_VERSION, SeedFiles(repo))
  }

  /** Nothing of `diffs` is ever applied, or one seeded file is deleted by none of them. */
  ghost predicate Harmless(repo: Option<Files>, diffs: iset<Diff>) {
    || (forall d :: d in diffs ==> !Live(d))
    || !SeedWritable(repo)
    || exists keep :: keep in SeedFiles(repo) && forall d :: d in diffs ==> Keeps(keep, d)
  }

  predicate NobodyInFlight(s: Race) {
    forall w :: w in s.writers ==> !InFlight(s.writers[w])
  }

  // ---- Runs in which nothing is ever written ----

  ghost predicate Idle(repo: Option<Files>, diffs: iset<Diff>, s: Race) {
    && s.p == FRESH && s.flips == []
    && forall w :: w in s.writers ==>
         && s.writers[w].diff in diffs
         && (s.writers[w].pc.Start? || s.writers[w].pc.Failed? || (s.writers[w].pc.SeedCheck? && !SeedWritable(repo)))
  }

  lemma {:induction false} RunStaysIdle(repo: Option<Files>, diffs: iset<Diff>, s: Race, es: seq<Event>)
    requires WellTyped(s) && Idle(repo, diffs, s) && Over(diffs, es)
    requires (forall d :: d in diffs ==> !Live(d)) || !SeedWritable(repo)
    ensures Idle(repo, diffs, Run(repo, s, es))
    decreases |es|
  {
    hide PlanNext, WriteNext, ValidComponent, Writable, SeedFiles;
    if es != [] {
      assert es[0] in es && forall e :: e in es[1..] ==> e in es;
      RunStaysIdle(repo, diffs, Happen(repo, s, es[0]), es[1..]);
    }
  }

  lemma IdleIsChained(repo: Option<Files>, diffs: iset<Diff>, s: Race)
    requires Idle(repo, diffs, s)
    ensures Chained(repo, s)
  {
  }

  // ---- Pieces of runs ----

  /** A writer's steps that change nothing on disk. */
  lemma {:induction false} QuietRun(repo: Option<Files>, s: Race, w: nat, ws: seq<Writer>)
    requires WellTyped(s) && w in s.writers && ws != [] && s.writers[w] == ws[0]
    requires forall i :: 0 <= i < |ws| ==> ws[i].diff == ws[0].diff && FlipOf(ws[i]) == []
    requires forall i :: 0 <= i < |ws| - 1 ==> ws[i].diff.Declarative() && Next(repo, s.p, ws[i]) == (s.p, ws[i + 1])
    ensures Run(repo, s, Steps(w, |ws| - 1)) == s.(writers := s.writers[w := ws[|ws| - 1]])
    decreases |ws|
  {
    hide Next, FlipOf;
    if |ws| == 1 {
      assert s.writers[w := ws[0]] == s.writers;
    } else {
      var t := s.(writers := s.writers[w := ws[1]]);
      assert Happen(repo, s, Advance(w)) == t;
      QuietRun(repo, t, w, ws[1..]);
      assert Steps(w, |ws| - 1)[1..] == Steps(w, |ws| - 2);
    }
  }

  /** A profile change on a seeded profile, up to the moment before its directory appears. */
  lemma ToRename(repo: Option<Files>, s: Race, w: nat, d: Diff, actor: string, version: string, next: string)
    requires WellTyped(s) && w in s.writers && s.writers[w] == Fresh(d, actor)
    requires Live(d) && d.ProfileChange? && s.p.pointer == Some(version) && BumpMinor(version) == Some(next)
    requires KeyLess(SortKey(version), SortKey(next)) && next !in s.p.dirs
    requires Writable(next, Patched(View(s.p.dirs, version), PatchOf(d)))
    ensures
      var t := Run(repo, s, Steps(w, 6));
      && w in t.writers && t == s.(writers := s.writers[w := t.writers[w]])
      && var me := t.writers[w];
         me.pc.DirRename? && me.diff == d && me.next == next && me.files == Patched(View(s.p.dirs, version), PatchOf(d))
  {
    hide BumpMinor, SortKey, KeyLess, Patched, ValidComponent, View, Writable, ChangedFiles, Next;
    PatchOfChange(View(s.p.dirs, version), d);
    var w0 := s.writers[w];
    var w1 := w0.(pc := ReadCurrent);
    var w2 := w1.(current := version, at := version, pc := Merge);
    var w3 := w2.(patch := PatchOf(d), pc := Compare);
    var w4 := w3.(next := next, base := version, pc := ReadBase);
    var w5 := w4.(files := Patched(View(s.p.dirs, version), PatchOf(d)), pc := DirCheck);
    Plans(repo, s.p, w0, version, PatchOf(d), next);
    Builds(repo, s.p, w4);
    QuietRun(repo, s, w, [w0, w1, w2, w3, w4, w5, w5.(pc := DirRename)]);
  }

  lemma Plans(repo: Option<Files>, p: Profile, w: Writer, version: string, patch: Patch, next: string)
    requires Live(w.diff) && w.diff.ProfileChange? && w.pc.Start? && p.pointer == Some(version)
    requires BumpMinor(version) == Some(next) && KeyLess(SortKey(version), SortKey(next))
    requires ChangedFiles(View(p.dirs, version), w.diff) == Ok(patch)
    ensures
      var w1 := w.(pc := ReadCurrent);
      var w2 := w1.(current := version, at := version, pc := Merge);
      var w3 := w2.(patch := patch, pc := Compare);
      && Next(repo, p, w) == (p, w1) && Next(repo, p, w1) == (p, w2) && Next(repo, p, w2) == (p, w3)
      && Next(repo, p, w3) == (p, w3.(next := next, base := version, pc := ReadBase))
  {
    hide BumpMinor, SortKey, KeyLess, ValidComponent, View, Writable, ChangedFiles, WriteNext;
  }

  lemma Builds(repo: Option<Files>, p: Profile, w: Writer)
    requires w.diff.Declarative() && w.pc.ReadBase? && w.next !in p.dirs
    requires Writable(w.next, Patched(View(p.dirs, w.base), w.patch))
    ensures
      var built := w.(files := Patched(View(p.dirs, w.base), w.patch), pc := DirCheck);
      Next(repo, p, w) == (p, built) && Next(repo, p, built) == (p, built.(pc := DirRename))
  {
    hide Patched, View, Writable;
  }

  function PatchOf(d: Diff): Patch
    requires d.ProfileChange?
  {
    map[d.file := if d.after.JNull? then None else Some(d.after)]
  }

  lemma PatchOfChange(inForce: Files, d: Diff)
    requires d.ProfileChange?
    ensures ChangedFiles(inForce, d) == Ok(PatchOf(d))
  {
  }

  /** Two calls about to create the same directory, the first of them an empty one: both succeed, and the
      second's files stand. */
  lemma Overwrites(repo: Option<Files>, s: Race, a: nat, b: nat)
    requires WellTyped(s) && a != b && a in s.writers && b in s.writers
    requires s.writers[a].pc.DirRename? && s.writers[b].pc.DirRename? && s.writers[a].next == s.writers[b].next
    requires s.writers[a].next !in s.p.dirs && s.writers[a].files == map[]
    ensures
      var next := s.writers[a].next;
      var t := Run(repo, s, Steps(a, 3) + Steps(b, 2));
      && a in t.writers && t.writers[a] == s.writers[a].(pc := Done)
      && t.p.pointer == Some(next) && t.p.dirs == s.p.dirs[next := s.writers[b].files]
      && !Chained(repo, t)
  {
    hide Happen, Chain, Next;
    var next := s.writers[a].next;
    var s2 := Happen(repo, Happen(repo, s, Advance(a)), Advance(a));
    Publishes(repo, s, a);
    var s3 := Happen(repo, s2, Advance(a));
    Logs(repo, s2, a);
    Publishes(repo, s3, b);
    var s5 := Happen(repo, Happen(repo, s3, Advance(b)), Advance(b));
    Unchained(repo, s5, |s.flips|);
    Unroll(repo, s, a, b);
  }

  /** The two steps that make a version visible. */
  lemma Publishes(repo: Option<Files>, s: Race, w: nat)
    requires WellTyped(s) && w in s.writers && s.writers[w].pc.DirRename?
    requires s.writers[w].next in s.p.dirs ==> s.p.dirs[s.writers[w].next] == map[]
    ensures
      var me := s.writers[w];
      var t := Happen(repo, Happen(repo, s, Advance(w)), Advance(w));
      && t.p.dirs == s.p.dirs[me.next := me.files] && t.p.pointer == Some(me.next)
      && t.flips == s.flips + [Step(me.next, Some(me.diff))]
      && t.writers == s.writers[w := me.(pc := Log)]
  {
    hide SeedNext, PlanNext, ApplyNote, Writable, Patched, View;
    var me := s.writers[w];
    var t := Happen(repo, s, Advance(w));
    assert t == Race(s.p.(dirs := s.p.dirs[me.next := me.files]), s.writers[w := me.(pc := Flip)], s.flips + []);
  }

  lemma Logs(repo: Option<Files>, s: Race, w: nat)
    requires WellTyped(s) && w in s.writers && s.writers[w].pc.Log?
    ensures
      var t := Happen(repo, s, Advance(w));
      && t.p.dirs == s.p.dirs && t.p.pointer == s.p.pointer && t.flips == s.flips
      && t.writers == s.writers[w := s.writers[w].(pc := Done)]
  {
    hide SeedNext, PlanNext, ApplyNote, Writable, Patched, View;
  }

  lemma Unroll(repo: Option<Files>, s: Race, a: nat, b: nat)
    requires WellTyped(s)
    ensures Run(repo, s, Steps(a, 3) + Steps(b, 2)) ==
            var s3 := Happen(repo, Happen(repo, Happen(repo, s, Advance(a)), Advance(a)), Advance(a));
            Happen(repo, Happen(repo, s3, Advance(b)), Advance(b))
  {
    hide Happen;
    var s1 := Happen(repo, s, Advance(a));
    var s2 := Happen(repo, s1, Advance(a));
    var s3 := Happen(repo, s2, Advance(a));
    assert Steps(a, 3) + Steps(b, 2) == [Advance(a)] + ([Advance(a)] + ([Advance(a)] + ([Advance(b)] + ([Advance(b)] + []))));
    RunOne(repo, s, Advance(a), [Advance(a)] + ([Advance(a)] + ([Advance(b)] + ([Advance(b)] + []))));
    RunOne(repo, s1, Advance(a), [Advance(a)] + ([Advance(b)] + ([Advance(b)] + [])));
    RunOne(repo, s2, Advance(a), [Advance(b)] + ([Advance(b)] + []));
    RunOne(repo, s3, Advance(b), [Advance(b)] + []);
    RunOne(repo, Happen(repo, s3, Advance(b)), Advance(b), []);
  }

  /** A version made visible twice is no chain. */
  lemma Unchained(repo: Option<Files>, s: Race, i: nat)
    requires i + 1 < |s.flips| && s.flips[i].version == s.flips[i + 1].version
    ensures !Chained(repo, s)
  {
  }

  lemma Begins(repo: Option<Files>, s: Race, w: nat, d: Diff, actor: string, rest: seq<Event>)
    requires WellTyped(s) && w !in s.writers && d.Declarative()
    ensures Run(repo, s, [Begin(w, d, actor)] + rest) ==
            Run(repo, s.(writers := s.writers[w := Fresh(d, actor)]), rest)
  {
    hide Happen;
    RunOne(repo, s, Begin(w, d, actor), rest);
    BeginsNow(repo, s, w, d, actor);
  }

  lemma BeginsNow(repo: Option<Files>, s: Race, w: nat, d: Diff, actor: string)
    requires WellTyped(s) && w !in s.writers && d.Declarative()
    ensures Happen(repo, s, Begin(w, d, actor)) == s.(writers := s.writers[w := Fresh(d, actor)])
  {
  }

  lemma BothBegin(repo: Option<Files>, s: Race, m: nat, d: Diff, e: Diff, tail: seq<Event>) returns (t: Race)
    requires WellTyped(s) && m !in s.writers && m + 1 !in s.writers && d.Declarative() && e.Declarative()
    ensures t == s.(writers := s.writers[m := Fresh(d, "a")][m + 1 := Fresh(e, "b")]) && WellTyped(t)
    ensures Run(repo, s, [Begin(m, d, "a")] + ([Begin(m + 1, e, "b")] + tail)) == Run(repo, t, tail)
  {
    hide Run;
    var s1 := s.(writers := s.writers[m := Fresh(d, "a")]);
    t := s1.(writers := s1.writers[m + 1 := Fresh(e, "b")]);
    Begins(repo, s, m, d, "a", [Begin(m + 1, e, "b")] + tail);
    Begins(repo, s1, m + 1, e, "b", tail);
  }

  // ---- Seeding ----

  /** The checks before seeding. */
  lemma ToSeedRename(repo: Option<Files>, s: Race, w: nat, d: Diff, actor: string)
    requires WellTyped(s) && w in s.writers && s.writers[w] == Fresh(d, actor)
    requires Live(d) && SeedWritable(repo) && s.p == FRESH
    ensures Run(repo, s, Steps(w, 2)) == s.(writers := s.writers[w := Fresh(d, actor).(pc := SeedRename)])
  {
    hide PlanNext, WriteNext, ValidComponent, Writable, SeedFiles;
    var w0 := Fresh(d, actor);
    QuietRun(repo, s, w, [w0, w0.(pc := SeedCheck), w0.(pc := SeedRename)]);
  }

  /** The two steps that make the seed visible. */
  lemma Seeds(repo: Option<Files>, s: Race, w: nat)
    requires WellTyped(s) && w in s.writers && s.writers[w].pc.SeedRename?
    requires INITIAL_VERSION in s.p.dirs ==> s.p.dirs[INITIAL_VERSION] == map[]
    ensures
      var t := Run(repo, s, Steps(w, 2));
      && t.p == s.p.(dirs := s.p.dirs[INITIAL_VERSION := SeedFiles(repo)], pointer := Some(INITIAL_VERSION))
      && t.flips == s.flips + [Step(INITIAL_VERSION, None)]
      && t.writers == s.writers[w := s.writers[w].(pc := SeedLog)]
  {
    hide PlanNext, WriteNext, ValidComponent, Writable, SeedFiles;
    var me := s.writers[w];
    var s1 := Happen(repo, s, Advance(w));
    assert s1 == Race(s.p.(dirs := s.p.dirs[INITIAL_VERSION := SeedFiles(repo)]), s.writers[w := me.(pc := SeedFlip)],
                      s.flips + []);
    assert Steps(w, 2) == [Advance(w)] + ([Advance(w)] + []);
    RunOne(repo, s, Advance(w), [Advance(w)] + []);
    RunOne(repo, s1, Advance(w), []);
  }

  lemma NothingIsWritable(repo: Option<Files>)
    requires SeedFiles(repo) == map[]
    ensures SeedWritable(repo)
  {
  }

  /** Two calls about to seed. */
  lemma BothAtSeed(repo: Option<Files>, d: Diff) returns (es: seq<Event>, t: Race)
    requires SeedWritable(repo) && Live(d)
    ensures es == [Begin(0, d, "a")] + ([Begin(1, d, "b")] + (Steps(0, 2) + Steps(1, 2)))
    ensures t == Run(repo, EMPTY, es) && t.p == FRESH && t.flips == [] && t.writers.Keys == {0, 1}
    ensures t.writers[0].pc.SeedRename? && t.writers[1].pc.SeedRename?
  {
    hide Run, Chain, Next, SeedFiles, ValidComponent;
    var tail := Steps(0, 2) + Steps(1, 2);
    es := [Begin(0, d, "a")] + ([Begin(1, d, "b")] + tail);
    var s2 := BothBegin(repo, EMPTY, 0, d, d, tail);
    ToSeedRename(repo, s2, 0, d, "a");
    var s3 := Run(repo, s2, Steps(0, 2));
    ToSeedRename(repo, s3, 1, d, "b");
    RunAppend(repo, s2, Steps(0, 2), Steps(1, 2));
    t := Run(repo, s3, Steps(1, 2));
  }

  /** On an empty seed two calls can both seed. */
  lemma BothSeed(repo: Option<Files>, diffs: iset<Diff>, d: Diff) returns (es: seq<Event>)
    requires SeedFiles(repo) == map[] && Live(d) && d in diffs
    ensures Over(diffs, es) && !Chained(repo, Run(repo, EMPTY, es))
  {
    hide Run, Chain, Next, SeedFiles, ValidComponent;
    NothingIsWritable(repo);
    var first, t := BothAtSeed(repo, d);
    var rest := Steps(0, 2) + Steps(1, 2);
    es := first + rest;
    RunAppend(repo, EMPTY, first, rest);
    Seeds(repo, t, 0);
    var t1 := Run(repo, t, Steps(0, 2));
    Seeds(repo, t1, 1);
    RunAppend(repo, t, Steps(0, 2), Steps(1, 2));
    Unchained(repo, Run(repo, t1, Steps(1, 2)), 0);
  }

  /** A call that has seeded the profile and done nothing more. */
  lemma SeededState(repo: Option<Files>, d: Diff, actor: string) returns (es: seq<Event>, s: Race)
    requires Live(d) && SeedWritable(repo)
    ensures es == [Begin(0, d, actor)] + Steps(0, 5) && s == Run(repo, EMPTY, es)
    ensures s.p == EnsureSeeded(FRESH, repo, INITIAL_VERSION).0 && s.p.pointer.Some?
    ensures s.writers.Keys == {0} && s.writers[0].pc.ReadCurrent? && NobodyInFlight(s)
    ensures ProfileInv(s.p, repo, []) && Effective(s.p, repo) == SeedFiles(repo)
  {
    hide Run, Next, SeedFiles, ValidComponent, ProfileInv, Effective;
    es := [Begin(0, d, actor)] + Steps(0, 5);
    var s1 := EMPTY.(writers := EMPTY.writers[0 := Fresh(d, actor)]);
    Begins(repo, EMPTY, 0, d, actor, Steps(0, 5));
    ToSeedRename(repo, s1, 0, d, actor);
    var s2 := Run(repo, s1, Steps(0, 2));
    Seeds(repo, s2, 0);
    var s3 := Run(repo, s2, Steps(0, 2));
    s := Run(repo, s3, Steps(0, 1));
    SeedLogs(repo, s3, 0);
    assert Steps(0, 5) == Steps(0, 2) + (Steps(0, 2) + Steps(0, 1));
    RunAppend(repo, s1, Steps(0, 2), Steps(0, 2) + Steps(0, 1));
    RunAppend(repo, s2, Steps(0, 2), Steps(0, 1));
    FreshInv(repo);
    SeedInv(FRESH, repo, []);
    SeedingKeepsRules(FRESH, repo);
  }

  lemma FreshInv(repo: Option<Files>)
    ensures ProfileInv(FRESH, repo, []) && Effective(FRESH, repo) == SeedFiles(repo)
  {
  }

  lemma SeedLogs(repo: Option<Files>, s: Race, w: nat)
    requires WellTyped(s) && w in s.writers && s.writers[w].pc.SeedLog?
    ensures
      var t := Run(repo, s, Steps(w, 1));
      && t.p == s.p.(log := s.p.log + [Row(INITIAL_VERSION, None, SeedNote(repo), None)])
      && t.flips == s.flips && t.writers == s.writers[w := s.writers[w].(pc := ReadCurrent)]
  {
    hide PlanNext, WriteNext, ValidComponent, Writable, SeedFiles;
    assert Steps(w, 1) == [Advance(w)] + [];
    RunOne(repo, s, Advance(w), []);
  }

  // ---- Deleting every seeded file ----

  /** A profile change on a profile with a history, up to the moment before its directory appears. */
  lemma ChangeReady(repo: Option<Files>, s: Race, ds: seq<Diff>, w: nat, d: Diff, actor: string)
    requires WellTyped(s) && w in s.writers && s.writers[w] == Fresh(d, actor)
    requires (forall x :: x in ds ==> x.Declarative()) && ProfileInv(s.p, repo, ds) && s.p.pointer.Some?
    requires Live(d) && d.ProfileChange? && (!d.after.JNull? ==> ValidComponent(d.file))
    ensures
      var t := Run(repo, s, Steps(w, 6));
      && w in t.writers && t == s.(writers := s.writers[w := t.writers[w]])
      && var me := t.writers[w];
         && me.pc.DirRename? && me.diff == d && me.next == VersionAt(|ds| + 1)
         && me.files == Patched(Effective(s.p, repo), PatchOf(d))
  {
    hide Run, Next, ProfileInv, BumpMinor, SortKey, KeyLess, VersionAt, ValidComponent, View, Patched, Effective;
    NextVersionIsFree(s.p, repo, ds);
    VersionIsComponent(|ds| + 1);
    NamesValid(s.p, repo, ds, d);
    ToRename(repo, s, w, d, actor, s.p.pointer.value, VersionAt(|ds| + 1));
  }

  /** Two calls, the first of which deletes the last file, up to the moment before either creates the next
      version's directory. */
  lemma BothReady(repo: Option<Files>, s: Race, ds: seq<Diff>, m: nat, file: string, d: Diff, e: Diff)
    returns (es: seq<Event>, t: Race)
    requires WellTyped(s) && (forall w :: w in s.writers ==> w < m) && (forall x :: x in ds ==> x.Declarative())
    requires ProfileInv(s.p, repo, ds) && s.p.pointer.Some? && Effective(s.p, repo).Keys == {file}
    requires Deletes(d, file) && Live(e) && e.ProfileChange? && (!e.after.JNull? ==> ValidComponent(e.file))
    ensures es == [Begin(m, d, "a")] + ([Begin(m + 1, e, "b")] + (Steps(m, 6) + Steps(m + 1, 6)))
    ensures t == Run(repo, s, es) && t.p == s.p && t.flips == s.flips
    ensures m in t.writers && m + 1 in t.writers
    ensures t.writers == s.writers[m := t.writers[m]][m + 1 := t.writers[m + 1]]
    ensures VersionAt(|ds| + 1) !in t.p.dirs
    ensures
      var a := t.writers[m];
      a.pc.DirRename? && a.diff == d && a.next == VersionAt(|ds| + 1) && a.files == map[]
    ensures
      var b := t.writers[m + 1];
      && b.pc.DirRename? && b.diff == e && b.next == VersionAt(|ds| + 1)
      && b.files == Patched(Effective(s.p, repo), PatchOf(e))
  {
    hide Run, Next, Happen, Steps, SeedFiles, ProfileInv, BumpMinor, SortKey, KeyLess, VersionAt, ValidComponent;
    hide Effective, Patched;
    NextVersionIsFree(s.p, repo, ds);
    AllGone(Effective(s.p, repo), file, d);
    assert m !in s.writers && m + 1 !in s.writers;
    var tail := Steps(m, 6) + Steps(m + 1, 6);
    es := [Begin(m, d, "a")] + ([Begin(m + 1, e, "b")] + tail);
    var s2 := BothBegin(repo, s, m, d, e, tail);
    t := BothPrepare(repo, s2, ds, m, d, e);
    assert t.writers == s.writers[m := t.writers[m]][m + 1 := t.writers[m + 1]];
  }

  lemma BothPrepare(repo: Option<Files>, s: Race, ds: seq<Diff>, m: nat, d: Diff, e: Diff) returns (t: Race)
    requires WellTyped(s) && (forall x :: x in ds ==> x.Declarative())
    requires m in s.writers && s.writers[m] == Fresh(d, "a") && m + 1 in s.writers && s.writers[m + 1] == Fresh(e, "b")
    requires ProfileInv(s.p, repo, ds) && s.p.pointer.Some?
    requires Live(d) && d.ProfileChange? && (!d.after.JNull? ==> ValidComponent(d.file))
    requires Live(e) && e.ProfileChange? && (!e.after.JNull? ==> ValidComponent(e.file))
    ensures t == Run(repo, s, Steps(m, 6) + Steps(m + 1, 6)) && m in t.writers && m + 1 in t.writers
    ensures t == s.(writers := s.writers[m := t.writers[m]][m + 1 := t.writers[m + 1]])
    ensures
      && t.writers[m].pc.DirRename? && t.writers[m].diff == d && t.writers[m].next == VersionAt(|ds| + 1)
      && t.writers[m].files == Patched(Effective(s.p, repo), PatchOf(d))
    ensures
      && t.writers[m + 1].pc.DirRename? && t.writers[m + 1].diff == e && t.writers[m + 1].next == VersionAt(|ds| + 1)
      && t.writers[m + 1].files == Patched(Effective(s.p, repo), PatchOf(e))
  {
    hide Run, Steps, ProfileInv, VersionAt, ValidComponent, Effective, Patched;
    ChangeReady(repo, s, ds, m, d, "a");
    var s1 := Run(repo, s, Steps(m, 6));
    ChangeReady(repo, s1, ds, m + 1, e, "b");
    t := Run(repo, s1, Steps(m + 1, 6));
    RunAppend(repo, s, Steps(m, 6), Steps(m + 1, 6));
  }

  /** Two calls delete the last file: both succeed. The second one's diff need not be a deletion. */
  lemma RaceOnLast(repo: Option<Files>, s: Race, ds: seq<Diff>, m: nat, file: string, d: Diff, e: Diff)
    returns (es: seq<Event>)
    requires WellTyped(s) && (forall w :: w in s.writers ==> w < m) && (forall x :: x in ds ==> x.Declarative())
    requires ProfileInv(s.p, repo, ds) && s.p.pointer.Some? && Effective(s.p, repo).Keys == {file}
    requires Deletes(d, file) && Live(e) && e.ProfileChange? && (!e.after.JNull? ==> ValidComponent(e.file))
    ensures forall x :: x in es && x.Begin? ==> x.diff == d || x.diff == e
    ensures
      var t := Run(repo, s, es);
      && !Chained(repo, t) && m in t.writers && t.writers[m].pc.Done? && t.writers[m].diff == d
      && t.p.pointer == Some(VersionAt(|ds| + 1)) && t.writers[m].next == VersionAt(|ds| + 1)
      && VersionAt(|ds| + 1) in t.p.dirs
      && t.p.dirs[VersionAt(|ds| + 1)] == Patched(Effective(s.p, repo), PatchOf(e))
  {
    hide Run, Chain, Next, ProfileInv, VersionAt, ValidComponent, Patched, Effective, Chained;
    var first, t := BothReady(repo, s, ds, m, file, d, e);
    Overwrites(repo, t, m, m + 1);
    es := first + (Steps(m, 3) + Steps(m + 1, 2));
    RunAppend(repo, s, first, Steps(m, 3) + Steps(m + 1, 2));
  }

  lemma NamesValid(p: Profile, repo: Option<Files>, ds: seq<Diff>, d: Diff)
    requires (forall x :: x in ds ==> x.Declarative()) && ProfileInv(p, repo, ds) && p.pointer.Some?
    requires d.ProfileChange? && (!d.after.JNull? ==> ValidComponent(d.file))
    ensures forall f :: f in Patched(Effective(p, repo), PatchOf(d)) ==> ValidComponent(f)
    ensures Effective(p, repo) == View(p.dirs, p.pointer.value)
  {
    hide ProfileInv, Patched, ValidComponent;
    PatchOfChange(Effective(p, repo), d);
    PatchedNames(p, repo, ds, d, PatchOf(d));
  }

  lemma AllGone(files: Files, file: string, d: Diff)
    requires files.Keys == {file} && d.ProfileChange? && d.file == file && d.after.JNull?
    ensures Patched(files, PatchOf(d)) == map[]
  {
  }

  /** One deletion after the other, alone, until one file is left. */
  lemma {:induction false} ToLast(repo: Option<Files>, diffs: iset<Diff>, s: Race, ds: seq<Diff>, m: nat)
    returns (es: seq<Event>, t: Race, done: seq<Diff>, n: nat, file: string, d: Diff)
    requires WellTyped(s) && (forall w :: w in s.writers ==> w < m) && (forall x :: x in ds ==> x.Declarative())
    requires NobodyInFlight(s)
    requires ProfileInv(s.p, repo, ds) && s.p.pointer.Some? && Effective(s.p, repo) != map[]
    requires forall f :: f in Effective(s.p, repo) ==> exists d :: d in diffs && Deletes(d, f)
    ensures Over(diffs, es) && t == Run(repo, s, es) && NobodyInFlight(t)
    ensures (forall w :: w in t.writers ==> w < n) && (forall x :: x in done ==> x.Declarative())
    ensures ProfileInv(t.p, repo, done) && t.p.pointer.Some? && Effective(t.p, repo).Keys == {file}
    ensures d in diffs && Deletes(d, file)
    decreases |Effective(s.p, repo)|
  {
    hide Run, Chain, Next, ProfileInv, ValidComponent, Effective;
    file :| file in Effective(s.p, repo);
    d :| d in diffs && Deletes(d, file);
    if Effective(s.p, repo).Keys == {file} {
      es, t, done, n := [], s, ds, m;
      NoSteps(repo, s);
    } else {
      var first := [Begin(m, d, "a")] + Steps(m, 14);
      var s1 := DeletesOne(repo, s, ds, m, file, d);
      var rest;
      rest, t, done, n, file, d := ToLast(repo, diffs, s1, ds + [d], m + 1);
      es := first + rest;
      RunAppend(repo, s, first, rest);
    }
  }

  lemma NoSteps(repo: Option<Files>, s: Race)
    requires WellTyped(s)
    ensures Run(repo, s, []) == s
  {
  }

  /** Then two calls at once. */
  lemma Breaks(repo: Option<Files>, diffs: iset<Diff>, s: Race, ds: seq<Diff>, m: nat) returns (es: seq<Event>)
    requires WellTyped(s) && (forall w :: w in s.writers ==> w < m) && (forall x :: x in ds ==> x.Declarative())
    requires NobodyInFlight(s)
    requires ProfileInv(s.p, repo, ds) && s.p.pointer.Some? && Effective(s.p, repo) != map[]
    requires forall f :: f in Effective(s.p, repo) ==> exists d :: d in diffs && Deletes(d, f)
    ensures Over(diffs, es) && !Chained(repo, Run(repo, s, es))
  {
    hide Run, Chained, Next, ProfileInv, ValidComponent, Effective, VersionAt;
    var first, t, done, n, file, d := ToLast(repo, diffs, s, ds, m);
    var rest := RaceOnLast(repo, t, done, n, file, d, d);
    es := first + rest;
    RunAppend(repo, s, first, rest);
  }

  /** One whole deletion with nobody interfering. */
  lemma DeletesOne(repo: Option<Files>, s: Race, ds: seq<Diff>, m: nat, file: string, d: Diff) returns (t: Race)
    requires WellTyped(s) && (forall w :: w in s.writers ==> w < m) && (forall x :: x in ds ==> x.Declarative())
    requires ProfileInv(s.p, repo, ds) && s.p.pointer.Some?
    requires file in Effective(s.p, repo) && Effective(s.p, repo).Keys != {file} && Deletes(d, file)
    ensures t == Run(repo, s, [Begin(m, d, "a")] + Steps(m, 14)) && (forall w :: w in t.writers ==> w < m + 1)
    ensures NobodyInFlight(s) ==> NobodyInFlight(t)
    ensures ProfileInv(t.p, repo, ds + [d]) && t.p.pointer.Some?
    ensures Effective(t.p, repo) != map[] && |Effective(t.p, repo)| < |Effective(s.p, repo)|
    ensures Effective(t.p, repo).Keys <= Effective(s.p, repo).Keys
  {
    hide Run, Chain, Next, ProfileInv, BumpMinor, SortKey, KeyLess, VersionAt, ValidComponent, View, Patched, Folded;
    hide ApplyDeclarative, Effective, Solo;
    var s1 := s.(writers := s.writers[m := Fresh(d, "a")]);
    Begins(repo, s, m, d, "a", Steps(m, 14));
    StepsAreSolo(repo, s1, m);
    SoloRunIsApply(repo, s.p, d, "a");
    t := Run(repo, s1, Steps(m, 14));
    PatchOfChange(Effective(s.p, repo), d);
    ApplyInv(s.p, repo, ds, d, "a");
    DryRunPredictsApply(s.p, repo, d, "a");
    Shrinks(s.p, t.p, repo, ds + [d], file, d);
  }

  lemma Shrinks(p: Profile, q: Profile, repo: Option<Files>, ds: seq<Diff>, file: string, d: Diff)
    requires (forall x :: x in ds ==> x.Declarative()) && ProfileInv(q, repo, ds) && q.pointer.Some?
    requires p.pointer.Some? && q.pointer.value in q.dirs
    requires Deletes(d, file) && q.dirs[q.pointer.value] == DryRunFiles(p, repo, PatchOf(d))
    requires file in Effective(p, repo) && Effective(p, repo).Keys != {file}
    ensures Effective(q, repo).Keys == Effective(p, repo).Keys - {file}
    ensures Effective(q, repo) != map[] && |Effective(q, repo)| < |Effective(p, repo)|
  {
    hide ProfileInv;
    var before, after := Effective(p, repo), Effective(q, repo);
    assert after.Keys == before.Keys - {file};
    assert |before| == |before.Keys| && |after| == |after.Keys|;
    assert before.Keys == {file} + (before.Keys - {file});
  }

  // ---- Exactly ----

  /** What no lost update means for one run and whatever follows it. */
  ghost predicate NothingLost(repo: Option<Files>, es: seq<Event>, later: seq<Event>) {
    var s := Run(repo, EMPTY, es);
    && Chained(repo, s)
    && (forall w :: w in s.writers ==> Recorded(s.flips, s.writers[w]))
    && ExtendsState(s, Run(repo, s, later))
  }

  /** Over every interleaving and every crash of approvals whose diffs are drawn from `diffs`: the visible
      versions are one chain, every call that reports success is in it, and what is visible never changes, if
      and only if none of these diffs is ever applied or one seeded file is deleted by none of them. */
  lemma SafeIffOneFileKept(repo: Option<Files>, diffs: iset<Diff>)
    ensures (forall es, later :: Over(diffs, es) && Over(diffs, later) ==> NothingLost(repo, es, later))
            <==> Harmless(repo, diffs)
  {
    hide Run, Chain, SeedFiles, ValidComponent, Next, NothingLost;
    if Harmless(repo, diffs) {
      forall es, later | Over(diffs, es) && Over(diffs, later)
        ensures NothingLost(repo, es, later)
      {
        HarmlessIsSafe(repo, diffs, es, later);
      }
    } else {
      var es := HarmfulBreaks(repo, diffs);
      assert Over(diffs, []);
      assert !NothingLost(repo, es, []) by { Broken(repo, es); }
    }
  }

  lemma Broken(repo: Option<Files>, es: seq<Event>)
    requires !Chained(repo, Run(repo, EMPTY, es))
    ensures !NothingLost(repo, es, [])
  {
    hide Run, Chain;
  }

  lemma HarmlessIsSafe(repo: Option<Files>, diffs: iset<Diff>, es: seq<Event>, later: seq<Event>)
    requires Harmless(repo, diffs) && Over(diffs, es) && Over(diffs, later)
    ensures NothingLost(repo, es, later)
  {
    hide Run, Chain, SeedFiles, ValidComponent, Next;
    if keep :| keep in SeedFiles(repo) && forall d :: d in diffs ==> Keeps(keep, d) {
      assert Anchored(repo, keep, es) && Anchored(repo, keep, later);
      NoLostUpdate(repo, keep, es, later);
    } else {
      var s := Run(repo, EMPTY, es);
      RunStaysIdle(repo, diffs, EMPTY, es);
      RunStaysIdle(repo, diffs, s, later);
      IdleIsChained(repo, diffs, s);
    }
  }

  lemma HarmfulBreaks(repo: Option<Files>, diffs: iset<Diff>) returns (es: seq<Event>)
    requires !Harmless(repo, diffs)
    ensures Over(diffs, es) && !Chained(repo, Run(repo, EMPTY, es))
  {
    hide Run, Chain, SeedFiles, ValidComponent, Next, ProfileInv, Effective;
    var d :| d in diffs && Live(d);
    if SeedFiles(repo) == map[] {
      es := BothSeed(repo, diffs, d);
    } else {
      var first, s := SeededState(repo, d, "a");
      forall f | f in Effective(s.p, repo)
        ensures exists e :: e in diffs && Deletes(e, f)
      {
        var e :| e in diffs && !Keeps(f, e);
        assert Deletes(e, f);
      }
      var rest := Breaks(repo, diffs, s, [], 1);
      es := first + rest;
      RunAppend(repo, EMPTY, first, rest);
    }
  }

  const DELETE := ProfileChange("p", "a.json", JNull)
  const ADD := ProfileChange("p", "b.json", JBool(true))

  /** The deleting run: the seed holds one file; one call deletes it and reports success; the other, which
      was about to create the same version, renames over the empty directory, and the file is back. */
  lemma DeletionIsUndone(repo: Option<Files>) returns (es: seq<Event>)
    requires SeedFiles(repo).Keys == {"a.json"}
    ensures
      var s := Run(repo, EMPTY, es);
      && 1 in s.writers && s.writers[1].diff == DELETE && s.writers[1].pc == Done && s.writers[1].next == "0.2"
      && s.p.pointer == Some("0.2") && "0.2" in s.p.dirs && "a.json" in s.p.dirs["0.2"]
      && !Chained(repo, s)
  {
    hide Run, Chain, Next, ProfileInv, Effective, SeedFiles, VersionAt;
    NamesOfExample();
    hide ValidComponent;
    var first, s := SeededState(repo, DELETE, "c");
    var rest := RaceOnLast(repo, s, [], 1, "a.json", DELETE, ADD);
    es := first + rest;
    RunAppend(repo, EMPTY, first, rest);
    TwoPrints();
    assert "a.json" in Patched(SeedFiles(repo), PatchOf(ADD));
  }
}
