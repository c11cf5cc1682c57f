/** What the interleaved model says beyond safety: alone it is the whole call; an empty seed breaks it. */
module RegistryRaceLimits {
  import opened Wrappers
  import opened Versions
  import opened RegistrySpec
  import opened RegistryRace

  /** One call run to its end with nobody else stepping. */
  function Solo(repo: Option<Files>, p: Profile, w: Writer): (Profile, Writer)
    requires w.diff.Declarative()
    decreases Rank(w.pc)
  {
    if w.pc.Done? || w.pc.Failed? then (p, w)
    else
      var (q, after) := Next(repo, p, w);
      Solo(repo, q, after)
  }

  function Outcome(w: Writer): Result<string, Error> {
    if w.pc.Failed? then Err(w.pc.error) else Ok(w.next)
  }

  lemma SoloFlips(repo: Option<Files>, p: Profile, w: Writer)
    requires w.diff.Declarative() && w.pc.Flip?
    ensures Solo(repo, p, w) ==
            (p.(pointer := Some(w.next), log := p.log + [Row(w.next, Some(w.base), ApplyNote(w.diff), Some(w.actor))]),
             w.(pc := Done))
  {
    hide SeedNext, PlanNext, BumpMinor, SortKey, KeyLess, Patched, ChangedFiles, ValidComponent, View, ApplyNote;
    hide Rename, Writable;
    var (p1, w1) := Next(repo, p, w);
    assert w1 == w.(pc := Log) && p1 == p.(pointer := Some(w.next));
    assert Solo(repo, p, w) == Solo(repo, p1, w1);
    var (p2, w2) := Next(repo, p1, w1);
    assert Solo(repo, p1, w1) == Solo(repo, p2, w2) == (p2, w2);
  }

  lemma SoloPublishes(repo: Option<Files>, p: Profile, w: Writer)
    requires w.diff.Declarative() && w.pc.DirCheck?
    ensures
      match RegistrySpec.WriteVersionDir(p, w.next, w.files)
      case Err(_) => Solo(repo, p, w) == (p, w.(pc := Failed(ApplyError)))
      case Ok(r) =>
        Solo(repo, p, w) ==
          (r.(pointer := Some(w.next),
              log := r.log + [Row(w.next, Some(w.base), ApplyNote(w.diff), Some(w.actor))]),
           w.(pc := Done))
  {
    hide ValidComponent, ApplyNote;
    var w1 := Next(repo, p, w).1;
    assert Solo(repo, p, w) == Solo(repo, p, w1);
    if w1.pc.DirRename? {
      var (p2, w2) := Next(repo, p, w1);
      assert p2 == p.(dirs := p.dirs[w.next := w.files]) && w2 == w.(pc := Flip);
      assert Solo(repo, p, w1) == Solo(repo, p2, w2);
      SoloFlips(repo, p2, w2);
    }
  }

  /** From the computed patch on: `bump_version` of a seeded profile. */
  lemma SoloBumps(repo: Option<Files>, p: Profile, w: Writer)
    requires w.diff.Declarative() && w.pc.Compare? && p.pointer == Some(w.current)
    ensures
      var (q, after) := Solo(repo, p, w);
      match BumpMinor(w.current)
      case None => q == p && after.pc == Failed(ApplyError)
      case Some(next) =>
        var (r, bumped) := RegistrySpec.BumpVersion(p, repo, next, w.patch, ApplyNote(w.diff), Some(w.actor));
        && q == r
        && (bumped.Ok? ==> after.pc == Done && after.next == bumped.value)
        && (bumped.Err? ==> after.pc == Failed(ApplyError))
  {
    hide BumpMinor, SortKey, KeyLess, Patched, ValidComponent, View;
    var w1 := Next(repo, p, w).1;
    assert Solo(repo, p, w) == Solo(repo, p, w1);
    if w1.pc.ReadBase? {
      var w2 := Next(repo, p, w1).1;
      assert Solo(repo, p, w1) == Solo(repo, p, w2);
      SoloPublishes(repo, p, w2);
    }
  }

  lemma SoloMerges(repo: Option<Files>, p: Profile, w: Writer)
    requires w.diff.Declarative() && w.pc.Merge? && p.pointer == Some(w.current) && w.at == w.current
    ensures
      var (q, after) := Solo(repo, p, w);
      && (q, Outcome(after)) == ApplySeeded(p, repo, w.current, w.diff, w.actor)
      && (after.pc.Done? || after.pc.Failed?)
  {
    hide EnsureSeeded, RegistrySpec.BumpVersion, View, Effective, ApplyNote;
    hide BumpMinor, SortKey, KeyLess, Patched, ValidComponent, ChangedFiles, Next;
    var w1 := Next(repo, p, w).1;
    MergeStep(repo, p, w);
    if w1.pc.Compare? {
      SoloBumps(repo, p, w1);
    }
  }

  lemma MergeStep(repo: Option<Files>, p: Profile, w: Writer)
    requires w.diff.Declarative() && w.pc.Merge? && p.pointer == Some(w.current) && w.at == w.current
    ensures
      var (q, w1) := Next(repo, p, w);
      && q == p && Solo(repo, p, w) == Solo(repo, p, w1)
      && w1 == (match ChangedFiles(Effective(p, repo), w.diff)
                case Err(e) => w.(pc := Failed(e))
                case Ok(patch) => w.(patch := patch, pc := Compare))
      && (w1.pc.Failed? ==> Solo(repo, p, w) == (p, w1))
  {
    hide SeedNext, WriteNext, BumpMinor, SortKey, KeyLess, Patched, ValidComponent, ChangedFiles;
  }

  lemma SoloApplies(repo: Option<Files>, p: Profile, w: Writer)
    requires w.diff.Declarative() && w.pc.ReadCurrent? && p.pointer.Some? && ValidComponent(w.diff.profile)
    ensures
      var (q, after) := Solo(repo, p, w);
      (q, Outcome(after)) == ApplyDeclarative(p, repo, w.diff, w.actor) && (after.pc.Done? || after.pc.Failed?)
  {
    hide ApplyDeclarative, BumpMinor, SortKey, KeyLess, Patched, ValidComponent, ChangedFiles, View;
    var w1 := Next(repo, p, w).1;
    assert Solo(repo, p, w) == Solo(repo, p, w1);
    var w2 := if w1.pc.ReadCodes? then Next(repo, p, w1).1 else w1;
    assert Solo(repo, p, w1) == Solo(repo, p, w2);
    SoloMerges(repo, p, w2);
    AlreadySeeded(p, repo, w.diff, w.actor);
  }

  lemma AlreadySeeded(p: Profile, repo: Option<Files>, diff: Diff, actor: string)
    requires diff.Declarative() && p.pointer.Some? && ValidComponent(diff.profile)
    ensures ApplyDeclarative(p, repo, diff, actor) == ApplySeeded(p, repo, p.pointer.value, diff, actor)
  {
  }

  /** A call that nobody interferes with does exactly what the whole-call function says, success or
      failure, seeded or not. */
  lemma SoloRunIsApply(repo: Option<Files>, p: Profile, diff: Diff, actor: string)
    requires diff.Declarative()
    ensures
      var (q, after) := Solo(repo, p, Fresh(diff, actor));
      (q, Outcome(after)) == ApplyDeclarative(p, repo, diff, actor) && (after.pc.Done? || after.pc.Failed?)
  {
    hide BumpMinor, SortKey, KeyLess, Patched, ValidComponent, ChangedFiles;
    var w := Fresh(diff, actor);
    var w1 := Next(repo, p, w).1;
    assert Solo(repo, p, w) == Solo(repo, p, w1);
    if w1.pc.ReadCurrent? {
      SoloApplies(repo, p, w1);
    } else if w1.pc.SeedCheck? {
      var w2 := Next(repo, p, w1).1;
      assert Solo(repo, p, w1) == Solo(repo, p, w2);
      if w2.pc.SeedRename? {
        SoloSeeds(repo, p, w2);
        SoloApplies(repo, EnsureSeeded(p, repo, INITIAL_VERSION).0, w2.(pc := ReadCurrent));
        SeededFirst(repo, p, diff, actor);
      }
    }
  }

  lemma SoloSeeds(repo: Option<Files>, p: Profile, w: Writer)
    requires w.diff.Declarative() && w.pc.SeedRename? && p.pointer.None?
    requires Writable(INITIAL_VERSION, SeedFiles(repo)) && INITIAL_VERSION !in p.dirs
    ensures
      var (q, seeded) := EnsureSeeded(p, repo, INITIAL_VERSION);
      seeded.Ok? && q.pointer.Some? && Solo(repo, p, w) == Solo(repo, q, w.(pc := ReadCurrent))
  {
    hide ApplyDeclarative, BumpMinor, SortKey, KeyLess, Patched, ValidComponent, ChangedFiles;
    var (p3, w3) := Next(repo, p, w);
    var (p4, w4) := Next(repo, p3, w3);
    var (p5, w5) := Next(repo, p4, w4);
    assert Solo(repo, p, w) == Solo(repo, p3, w3) == Solo(repo, p4, w4) == Solo(repo, p5, w5);
  }

  /** Applying to a profile or to the profile already seeded comes to the same. */
  lemma SeededFirst(repo: Option<Files>, p: Profile, diff: Diff, actor: string)
    requires diff.Declarative() && ValidComponent(diff.profile) && EnsureSeeded(p, repo, INITIAL_VERSION).1.Ok?
    ensures ApplyDeclarative(p, repo, diff, actor) ==
            ApplyDeclarative(EnsureSeeded(p, repo, INITIAL_VERSION).0, repo, diff, actor)
  {
  }

  // ---- An empty seed ----

  predicate NeverDeletes(es: seq<Event>) {
    forall e :: e in es && e.Begin? && e.diff.ProfileChange? ==> !e.diff.after.JNull?
  }

  lemma {:induction false} RunAppend(repo: Option<Files>, s: Race, es: seq<Event>, more: seq<Event>)
    requires WellTyped(s)
    ensures Run(repo, s, es + more) == Run(repo, Run(repo, s, es), more)
    decreases |es|
  {
    hide Happen;
    if es == [] {
      assert es + more == more;
    } else {
      assert (es + more)[0] == es[0] && (es + more)[1..] == es[1..] + more;
      RunAppend(repo, Happen(repo, s, es[0]), es[1..], more);
    }
  }

  function Steps(w: nat, n: nat): seq<Event> {
    seq(n, _ => Advance(w))
  }

  /** Enough steps of one writer, and of nobody else, are its solo run. */
  lemma {:induction false} StepsAreSolo(repo: Option<Files>, s: Race, w: nat)
    requires WellTyped(s) && w in s.writers
    ensures
      var me := s.writers[w];
      var t := Run(repo, s, Steps(w, Rank(me.pc)));
      var (q, after) := Solo(repo, s.p, me);
      && t.p == q && t.writers == s.writers[w := after]
      && |s.flips| <= |t.flips| && (t.flips == s.flips ==> t.p.pointer == s.p.pointer)
    decreases Rank(s.writers[w].pc)
  {
    hide Next, Happen, FlipOf;
    var me := s.writers[w];
    var es := Steps(w, Rank(me.pc));
    if me.pc.Done? || me.pc.Failed? {
      assert es == [];
      assert s.writers[w := me] == s.writers;
    } else {
      var t := Happen(repo, s, Advance(w));
      OneStep(repo, s, w);
      StepsAreSolo(repo, t, w);
      if FlipOf(me) == [] {
        NoFlipNoMove(repo, s.p, me);
      }
      assert es == [Advance(w)] + Steps(w, Rank(me.pc) - 1);
      FewerSteps(repo, t, w, Rank(me.pc) - 1);
      assert Run(repo, s, es) == Run(repo, t, es[1..]);
      assert es[1..] == Steps(w, Rank(me.pc) - 1);
    }
  }

  lemma NoFlipNoMove(repo: Option<Files>, p: Profile, w: Writer)
    requires w.diff.Declarative() && FlipOf(w) == []
    ensures Next(repo, p, w).0.pointer == p.pointer
  {
  }

  lemma OneStep(repo: Option<Files>, s: Race, w: nat)
    requires WellTyped(s) && w in s.writers && !s.writers[w].pc.Done? && !s.writers[w].pc.Failed?
    ensures
      var t := Happen(repo, s, Advance(w));
      var (p, after) := Next(repo, s.p, s.writers[w]);
      && t.p == p && t.writers == s.writers[w := after] && t.flips == s.flips + FlipOf(s.writers[w])
      && Rank(after.pc) < Rank(s.writers[w].pc)
  {
  }

  /** Steps of a finished call change nothing. */
  lemma {:induction false} FewerSteps(repo: Option<Files>, s: Race, w: nat, n: nat)
    requires WellTyped(s) && w in s.writers && Rank(s.writers[w].pc) <= n
    ensures Run(repo, s, Steps(w, n)) == Run(repo, s, Steps(w, Rank(s.writers[w].pc)))
    decreases n
  {
    hide Next, Happen;
    if n > Rank(s.writers[w].pc) {
      if s.writers[w].pc.Done? || s.writers[w].pc.Failed? {
        Finished(repo, s, w);
        assert Steps(w, n)[1..] == Steps(w, n - 1);
        FewerSteps(repo, s, w, n - 1);
      } else {
        var t := Happen(repo, s, Advance(w));
        OneStep(repo, s, w);
        var r := Rank(s.writers[w].pc);
        assert Steps(w, n)[1..] == Steps(w, n - 1) && Steps(w, r)[1..] == Steps(w, r - 1);
        FewerSteps(repo, t, w, n - 1);
        FewerSteps(repo, t, w, r - 1);
      }
    }
  }

  lemma Finished(repo: Option<Files>, s: Race, w: nat)
    requires WellTyped(s) && w in s.writers && (s.writers[w].pc.Done? || s.writers[w].pc.Failed?)
    ensures Happen(repo, s, Advance(w)) == s
  {
  }

  const LOST := ProfileChange("p", "a.json", JBool(true))

  /** The losing run: call 1 passes the exists check on the initial directory, call 0 seeds, applies
      and reports success, then call 1 seeds over the still empty directory and points back at it. */
  function LosingRun(): seq<Event> {
    [Begin(0, LOST, "a"), Begin(1, LOST, "b"), Advance(1), Advance(1)] + Steps(0, 14) + [Advance(1), Advance(1)]
  }

  lemma SecondVersion()
    ensures BumpMinor(INITIAL_VERSION) == Some("0.2")
    ensures KeyLess(SortKey(INITIAL_VERSION), SortKey("0.2"))
  {
    hide VersionAt, BumpMinor, SortKey, KeyLess;
    TwoPrints();
    VersionAtBumps(0);
    BumpIncreases("0.1");
  }

  lemma TwoPrints()
    ensures VersionAt(1) == "0.2"
  {
  }

  lemma ApplyOnEmptySeed(repo: Option<Files>)
    requires SeedFiles(repo) == map[]
    ensures
      var (q, applied) := ApplyDeclarative(FRESH, repo, LOST, "a");
      && applied == Ok("0.2") && q.pointer == Some("0.2")
      && INITIAL_VERSION in q.dirs && q.dirs[INITIAL_VERSION] == map[]
  {
    SecondVersion();
    hide BumpMinor, SortKey, KeyLess;
    var (q, seeded) := EnsureSeeded(FRESH, repo, INITIAL_VERSION);
    assert seeded == Ok(INITIAL_VERSION) && q.pointer == Some(INITIAL_VERSION);
    assert q.dirs == map[INITIAL_VERSION := map[]];
    var patch := map["a.json" := Some(JBool(true))];
    assert ChangedFiles(Effective(q, repo), LOST) == Ok(patch);
    assert ValidComponent(LOST.profile);
    BumpOfEmpty(repo, q, patch);
    hide EnsureSeeded, ChangedFiles, Effective, RegistrySpec.BumpVersion;
  }

  lemma NamesOfExample()
    ensures ValidComponent("p") && ValidComponent("a.json") && ValidComponent("b.json")
    ensures ValidComponent("0.1") && ValidComponent("0.2")
  {
  }

  lemma BumpOfEmpty(repo: Option<Files>, p: Profile, patch: Patch)
    requires p.pointer == Some(INITIAL_VERSION) && p.dirs == map[INITIAL_VERSION := map[]]
    requires patch == map["a.json" := Some(JBool(true))]
    ensures
      var (q, bumped) := RegistrySpec.BumpVersion(p, repo, "0.2", patch, ApplyNote(LOST), Some("a"));
      && bumped == Ok("0.2") && q.pointer == Some("0.2")
      && INITIAL_VERSION in q.dirs && q.dirs[INITIAL_VERSION] == map[]
  {
    hide BumpMinor, SortKey, KeyLess, ValidComponent;
    SecondVersion();
    NamesOfExample();
    assert View(p.dirs, INITIAL_VERSION) == map[];
    assert Patched(map[], patch) == map["a.json" := JBool(true)];
  }

  lemma EmptySeedLosesAnUpdate(repo: Option<Files>)
    requires SeedFiles(repo) == map[]
    ensures
      var s := Run(repo, EMPTY, LosingRun());
      && 0 in s.writers && s.writers[0].pc == Done && s.writers[0].next == "0.2"
      && s.p.pointer == Some(INITIAL_VERSION) && !Chained(repo, s)
  {
    var w0, w1 := Fresh(LOST, "a"), Fresh(LOST, "b");
    var start := [Begin(0, LOST, "a"), Begin(1, LOST, "b"), Advance(1), Advance(1)];
    var s0 := Race(FRESH, map[0 := w0, 1 := w1.(pc := SeedRename)], []);
    LosingStart(repo);
    StepsAreSolo(repo, s0, 0);
    SoloRunIsApply(repo, FRESH, LOST, "a");
    ApplyOnEmptySeed(repo);
    var s1 := Run(repo, s0, Steps(0, 14));
    assert s1.writers[1] == w1.(pc := SeedRename) && s1.flips != [];
    LosingEnd(repo, s1);
    RunAppend(repo, EMPTY, start, Steps(0, 14));
    RunAppend(repo, EMPTY, start + Steps(0, 14), [Advance(1), Advance(1)]);
  }

  lemma LosingStart(repo: Option<Files>)
    requires SeedFiles(repo) == map[]
    ensures Run(repo, EMPTY, [Begin(0, LOST, "a"), Begin(1, LOST, "b"), Advance(1), Advance(1)]) ==
            Race(FRESH, map[0 := Fresh(LOST, "a"), 1 := Fresh(LOST, "b").(pc := SeedRename)], [])
  {
    hide Happen;
    var w0, w1 := Fresh(LOST, "a"), Fresh(LOST, "b");
    var t1 := Race(FRESH, map[0 := w0], []);
    var t2 := Race(FRESH, map[0 := w0, 1 := w1], []);
    var t3 := t2.(writers := t2.writers[1 := w1.(pc := SeedCheck)]);
    var t4 := t2.(writers := t2.writers[1 := w1.(pc := SeedRename)]);
    BeginHappens(repo, EMPTY, 0, "a");
    BeginHappens(repo, t1, 1, "b");
    FirstChecks(repo, t2, w1);
    var last := [Advance(1)] + [];
    var both := [Advance(1)] + last;
    RunOne(repo, t3, Advance(1), []);
    RunOne(repo, t2, Advance(1), last);
    RunOne(repo, t1, Begin(1, LOST, "b"), both);
    RunOne(repo, EMPTY, Begin(0, LOST, "a"), [Begin(1, LOST, "b")] + both);
    assert t4.writers == map[0 := w0, 1 := w1.(pc := SeedRename)];
    assert [Begin(0, LOST, "a"), Begin(1, LOST, "b"), Advance(1), Advance(1)] ==
           [Begin(0, LOST, "a")] + ([Begin(1, LOST, "b")] + both);
  }

  lemma RunOne(repo: Option<Files>, s: Race, e: Event, rest: seq<Event>)
    requires WellTyped(s)
    ensures Run(repo, s, [e] + rest) == Run(repo, Happen(repo, s, e), rest)
  {
  }

  lemma BeginHappens(repo: Option<Files>, s: Race, w: nat, actor: string)
    requires WellTyped(s) && w !in s.writers
    ensures Happen(repo, s, Begin(w, LOST, actor)) == s.(writers := s.writers[w := Fresh(LOST, actor)])
  {
  }

  lemma FirstChecks(repo: Option<Files>, s: Race, w1: Writer)
    requires SeedFiles(repo) == map[] && WellTyped(s) && s.p == FRESH
    requires 1 in s.writers && s.writers[1] == w1 == Fresh(LOST, "b")
    ensures
      var t := s.(writers := s.writers[1 := w1.(pc := SeedCheck)]);
      && Happen(repo, s, Advance(1)) == t
      && Happen(repo, t, Advance(1)) == s.(writers := s.writers[1 := w1.(pc := SeedRename)])
  {
  }

  lemma LosingEnd(repo: Option<Files>, s: Race)
    requires SeedFiles(repo) == map[] && WellTyped(s)
    requires 0 in s.writers && 1 in s.writers && s.writers[1].pc.SeedRename?
    requires INITIAL_VERSION in s.p.dirs && s.p.dirs[INITIAL_VERSION] == map[] && s.flips != []
    ensures
      var t := Run(repo, s, [Advance(1), Advance(1)]);
      && t.p.pointer == Some(INITIAL_VERSION) && t.writers[0] == s.writers[0]
      && t.flips == s.flips + [Step(INITIAL_VERSION, None)] && !Chained(repo, t)
  {
  }

  /** Approvals that delete nothing are safe against each other exactly on the profiles the repository
      seeds with at least one file. */
  lemma SafeIffSeeded(repo: Option<Files>)
    ensures (forall es :: NeverDeletes(es) ==> Chained(repo, Run(repo, EMPTY, es))) <==> SeedFiles(repo) != map[]
  {
    hide Run, Chain, SeedFiles;
    if SeedFiles(repo) == map[] {
      EmptySeedLosesAnUpdate(repo);
      assert NeverDeletes(LosingRun());
    } else {
      var keep :| keep in SeedFiles(repo);
      forall es | NeverDeletes(es)
        ensures Chained(repo, Run(repo, EMPTY, es))
      {
        assert Anchored(repo, keep, es);
        NoLostUpdate(repo, keep, es, []);
      }
    }
  }
}
