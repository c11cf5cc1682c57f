/** Overlapping decisions: a call nobody interferes with is the whole decision, and only calls the policy allows
    decide anything, one for each proposal. */
module DecideWinners {
  import opened Wrappers
  import opened Text
  import opened Identity
  import opened RegistrySpec
  import opened ProposalSpec
  import opened Decisions
  import opened DecideRace
  import RegistryRace
  import RegistryRaceLimits

  // ---- The policy, over every interleaving ----

  /** The policy held for this call when it read the row. */
  predicate Cleared(env: Env, g: Gov, c: Decider) {
    c.id in g.rows && Entitled(env, g.rows[c.id], c.to, c.actor, c.reason, c.edited)
  }

  /** The call is past its checks. */
  predicate Past(c: Decider) {
    c.phase.Applying? || c.phase.Swapping? || c.phase.Won? || c.phase.Lost?
  }

  /** The row carries the call's decision. */
  predicate Carries(row: Proposal, c: Decider) {
    && row.status == c.to && row.edited == c.edited && (c.to != Withdrawn ==> row.decidedBy == Some(c.actor.id))
    && (c.reason.Some? ==> row.reason == c.reason)
  }

  predicate Undecided(row: Proposal) {
    row.status == PendingHitl && row.edited == None && row.decidedBy == None && row.reason == None
  }

  predicate WonBy(s: Site, id: string, n: nat) {
    n in s.calls && s.calls[n].phase.Won? && s.calls[n].id == id
  }

  ghost predicate Watched(env: Env, s: Site) {
    && (forall n :: n in s.calls && Past(s.calls[n]) ==> Cleared(env, s.g, s.calls[n]))
    && (forall id, n :: WonBy(s, id, n) ==> id in s.g.rows && Carries(s.g.rows[id], s.calls[n]))
    && (forall id, m, n :: WonBy(s, id, m) && WonBy(s, id, n) ==> m == n)
    && (forall id :: id in s.g.rows && !Undecided(s.g.rows[id]) ==> exists n :: n in s.calls && WonBy(s, id, n))
  }

  /** Rows keep their diff and, once there, a dry run. */
  predicate RowsKept(g: Gov, h: Gov) {
    forall id :: id in g.rows ==>
      id in h.rows && h.rows[id].diff == g.rows[id].diff && (g.rows[id].dryRun.Some? ==> h.rows[id].dryRun.Some?)
  }

  lemma ClearedStays(env: Env, g: Gov, h: Gov, c: Decider)
    requires Cleared(env, g, c) && RowsKept(g, h)
    ensures Cleared(env, h, c)
  {
    hide Speaks, Complete;
  }

  /** A step that decides nothing: rows keep their decisions, new ones have none, and no call wins. */
  lemma NothingDecided(env: Env, s: Site, t: Site)
    requires Watched(env, s) && RowsKept(s.g, t.g)
    requires forall n :: n in t.calls && t.calls[n].phase.Won? ==> n in s.calls && t.calls[n] == s.calls[n]
    requires forall n :: n in s.calls && s.calls[n].phase.Won? ==> n in t.calls && t.calls[n] == s.calls[n]
    requires forall n :: n in t.calls && Past(t.calls[n]) ==>
               Cleared(env, t.g, t.calls[n])
               || (n in s.calls && Past(s.calls[n])
                   && t.calls[n] == s.calls[n].(phase := t.calls[n].phase, wrote := t.calls[n].wrote))
    requires forall id :: id in t.g.rows ==>
               if id in s.g.rows then t.g.rows[id] == s.g.rows[id].(dryRun := t.g.rows[id].dryRun) else Undecided(t.g.rows[id])
    ensures Watched(env, t)
  {
    hide Cleared;
    forall n | n in t.calls && Past(t.calls[n])
      ensures Cleared(env, t.g, t.calls[n])
    {
      if !Cleared(env, t.g, t.calls[n]) {
        SameCall(env, s.g, s.calls[n], t.calls[n]);
        ClearedStays(env, s.g, t.g, t.calls[n]);
      }
    }
    forall id | id in t.g.rows && !Undecided(t.g.rows[id])
      ensures exists n :: n in t.calls && WonBy(t, id, n)
    {
      var n :| n in s.calls && WonBy(s, id, n);
      assert WonBy(t, id, n);
    }
    forall id, n | WonBy(t, id, n)
      ensures WonBy(s, id, n)
    {
    }
  }

  lemma SameCall(env: Env, g: Gov, c: Decider, d: Decider)
    requires Cleared(env, g, c) && d == c.(phase := d.phase, wrote := d.wrote)
    ensures Cleared(env, g, d)
  {
    hide Speaks, Complete;
  }

  lemma ReadClears(env: Env, g: Gov, c: Decider)
    requires Refusal(env, g, c.id, c.to, c.actor, c.reason, c.edited).None?
    ensures Cleared(env, g, c)
  {
    hide Refusal, Speaks, Complete;
    RefusedIff(env, g, c.id, c.to, c.actor, c.reason, c.edited);
  }

  lemma ReadWatched(env: Env, s: Site, n: nat)
    requires Watched(env, s) && n in s.calls && s.calls[n].phase.Reading?
    ensures Watched(env, Read(env, s, n))
  {
    hide Refusal, Cleared, Watched;
    var t := Read(env, s, n);
    var c := s.calls[n];
    if Refusal(env, s.g, c.id, c.to, c.actor, c.reason, c.edited).None? {
      ReadClears(env, s.g, c);
      var after := t.calls[n];
      SameDecision(env, s.g, c, after);
      ClearedStays(env, s.g, t.g, after);
    }
    OthersCleared(env, s, t, n);
    NothingDecided(env, s, t);
  }

  lemma SameDecision(env: Env, g: Gov, c: Decider, d: Decider)
    requires Cleared(env, g, c) && d == c.(phase := d.phase, diff := d.diff)
    ensures Cleared(env, g, d)
  {
    hide Speaks, Complete;
  }

  /** Calls other than `n` are as they were. */
  lemma OthersCleared(env: Env, s: Site, t: Site, n: nat)
    requires n in s.calls && n in t.calls && t.calls == s.calls[n := t.calls[n]]
    ensures forall m :: m in t.calls && m != n && Past(t.calls[m]) ==> m in s.calls && t.calls[m] == s.calls[m]
  {
  }

  lemma ApplyWatched(env: Env, s: Site, n: nat)
    requires Watched(env, s) && n in s.calls && Writing(s.calls[n])
    ensures Watched(env, DecideRace.Apply(env, s, n))
  {
    hide RegistryRace.Happen, RegistryRace.WellTyped, Watched;
    NothingDecided(env, s, DecideRace.Apply(env, s, n));
  }

  lemma SwapWatched(env: Env, s: Site, n: nat)
    requires Watched(env, s) && n in s.calls && s.calls[n].phase.Swapping?
    ensures Watched(env, Swap(s, n))
  {
    hide Cleared;
    var c, t := s.calls[n], Swap(s, n);
    if t.calls[n].phase.Lost? {
      hide Watched;
      NothingDecided(env, s, t);
    } else {
      assert RowsKept(s.g, t.g);
      SameCall(env, s.g, c, t.calls[n]);
      forall m | m in t.calls && Past(t.calls[m])
        ensures Cleared(env, t.g, t.calls[m])
      {
        ClearedStays(env, s.g, t.g, t.calls[m]);
      }
      assert WonBy(t, c.id, n);
      NobodyWonYet(env, s, c.id);
      assert forall id, m :: WonBy(t, id, m) && m != n ==> WonBy(s, id, m);
      WinnerCarries(env, s, n);
      forall id | id in t.g.rows && !Undecided(t.g.rows[id])
        ensures exists m :: m in t.calls && WonBy(t, id, m)
      {
        if id != c.id {
          var m :| m in s.calls && WonBy(s, id, m);
          assert WonBy(t, id, m);
        }
      }
    }
  }

  lemma NobodyWonYet(env: Env, s: Site, id: string)
    requires Watched(env, s) && id in s.g.rows && s.g.rows[id].status == PendingHitl
    ensures forall n :: !WonBy(s, id, n)
    ensures Undecided(s.g.rows[id])
  {
    forall n
      ensures !WonBy(s, id, n)
    {
      if WonBy(s, id, n) { assert s.calls[n].to == PendingHitl && Past(s.calls[n]); }
    }
  }

  lemma WinnerCarries(env: Env, s: Site, n: nat)
    requires n in s.calls && s.calls[n].phase.Swapping? && Cleared(env, s.g, s.calls[n])
    requires s.calls[n].id in s.g.rows && Undecided(s.g.rows[s.calls[n].id])
    ensures
      var t := Swap(s, n);
      s.calls[n].id in t.g.rows && Carries(t.g.rows[s.calls[n].id], t.calls[n])
  {
    hide Speaks, Complete;
  }

  lemma ActWatched(env: Env, s: Site, n: nat)
    requires Watched(env, s) && n in s.calls
    ensures Watched(env, DecideRace.Happen(env, s, Acts(n)))
  {
    hide Watched, Read, DecideRace.Apply, Swap;
    if s.calls[n].phase.Reading? { ReadWatched(env, s, n); }
    if Writing(s.calls[n]) { ApplyWatched(env, s, n); }
    if s.calls[n].phase.Swapping? { SwapWatched(env, s, n); }
  }

  lemma HappenWatched(env: Env, s: Site, e: DecideRace.Event)
    requires Watched(env, s)
    ensures Watched(env, DecideRace.Happen(env, s, e))
  {
    hide Watched, Read, DecideRace.Apply, Swap, Create;
    match e
    case Creates(id, kind, summary, rationale, diff, creator) =>
      CreatedUndecided(s.g, id, kind, summary, rationale, diff, creator);
      NothingDecided(env, s, DecideRace.Happen(env, s, e));
    case NotesDryRun(_, _) => NothingDecided(env, s, DecideRace.Happen(env, s, e));
    case Begins(_, _, _, _, _, _) => NothingDecided(env, s, DecideRace.Happen(env, s, e));
    case Acts(n) => if n in s.calls { ActWatched(env, s, n); }
    case Crashes(_) => NothingDecided(env, s, DecideRace.Happen(env, s, e));
  }

  lemma CreatedUndecided(g: Gov, id: string, kind: Kind, summary: string, rationale: string, diff: Diff, creator: string)
    ensures
      var h := Create(g, id, kind, summary, rationale, diff, creator).0;
      && (forall k :: k in g.rows ==> k in h.rows && h.rows[k] == g.rows[k])
      && forall k :: k in h.rows && k !in g.rows ==> Undecided(h.rows[k])
  {
    hide ValidDiff, Blank;
  }

  lemma {:induction false} RunWatched(env: Env, s: Site, es: seq<DecideRace.Event>)
    requires Watched(env, s)
    ensures Watched(env, DecideRace.Run(env, s, es))
    decreases |es|
  {
    hide Watched, DecideRace.Happen;
    if es != [] {
      HappenWatched(env, s, es[0]);
      RunWatched(env, DecideRace.Happen(env, s, es[0]), es[1..]);
    }
  }

  /** Under every interleaving of decisions, with crashes: each proposal that is not pending was decided by
      exactly one call, which the policy allowed and whose decider, edit and reason the row carries. */
  lemma OneAllowedWinner(env: Env, es: seq<DecideRace.Event>)
    ensures
      var s := DecideRace.Run(env, START, es);
      && (forall n :: n in s.calls && s.calls[n].phase.Won? ==>
            && Cleared(env, s.g, s.calls[n]) && s.calls[n].id in s.g.rows
            && s.g.rows[s.calls[n].id].status == s.calls[n].to && Carries(s.g.rows[s.calls[n].id], s.calls[n]))
      && (forall m, n :: m in s.calls && n in s.calls && m != n && s.calls[m].phase.Won? && s.calls[n].phase.Won? ==>
            s.calls[m].id != s.calls[n].id)
      && (forall id :: id in s.g.rows && s.g.rows[id].status != PendingHitl ==> exists n :: n in s.calls && WonBy(s, id, n))
  {
    hide DecideRace.Run, Cleared;
    RunWatched(env, START, es);
    var s := DecideRace.Run(env, START, es);
    forall n | n in s.calls && s.calls[n].phase.Won?
      ensures WonBy(s, s.calls[n].id, n)
    {
    }
  }

  // ---- A call that nobody interferes with ----

  /** The stores as a whole call sees them. */
  function Seen(s: Site): Gov {
    s.g.(profiles := map name | name in s.races :: s.races[name].p)
  }

  /** The same rows, audit and specs, and the same profile under every name. */
  ghost predicate SameStores(g: Gov, h: Gov) {
    g.rows == h.rows && g.audit == h.audit && g.specs == h.specs && forall name :: ProfileOf(g, name) == ProfileOf(h, name)
  }

  predicate Free(s: Site, n: nat) {
    forall name :: name in s.races ==> RegistryRace.WellTyped(s.races[name]) && n !in s.races[name].writers
  }

  lemma OneEvent(env: Env, s: Site, e: DecideRace.Event)
    ensures DecideRace.Run(env, s, [e]) == DecideRace.Happen(env, s, e)
  {
    hide DecideRace.Happen;
    assert [e][1..] == [];
  }

  /** The read step of a whole call. */
  lemma SoloReads(env: Env, s: Site, n: nat)
    requires Free(s, n) && n in s.calls && s.calls[n].phase.Reading? && s.calls[n].wrote == None && s.calls[n].diff == None
    ensures
      var c, t := s.calls[n], DecideRace.Happen(env, s, Acts(n));
      && n in t.calls && t.calls == s.calls[n := t.calls[n]]
      && (if Refusal(env, s.g, c.id, c.to, c.actor, c.reason, c.edited).Some? then
            t == s.(calls := s.calls[n := c.(phase := Stopped)])
          else
            && c.id in s.g.rows
            && var diff := c.edited.GetOr(s.g.rows[c.id].diff);
               if c.to == Approved && s.g.rows[c.id].Kind().Declarative() then
                 && t.g == s.g && t.calls[n] == c.(phase := Applying, diff := Some(diff))
                 && diff.Declarative() && diff.profile in t.races && t.races == s.races[diff.profile := t.races[diff.profile]]
                 && t.races[diff.profile].p == ProfileOf(Seen(s), diff.profile)
                 && RegistryRace.WellTyped(t.races[diff.profile])
                 && n in t.races[diff.profile].writers
                 && t.races[diff.profile].writers[n] == RegistryRace.Fresh(diff, c.actor.id)
               else
                 t == s.(g := if c.to == Approved then s.g.(specs := s.g.specs[c.id := diff]) else s.g,
                         calls := s.calls[n := c.(phase := Swapping)]))
  {
    hide Refusal;
    var c := s.calls[n];
    if Refusal(env, s.g, c.id, c.to, c.actor, c.reason, c.edited).None? {
      hide Speaks, Complete;
      RefusedIff(env, s.g, c.id, c.to, c.actor, c.reason, c.edited);
      KindOfDiff(s.g, c.id, c.edited);
    }
  }

  lemma SeenRefusal(env: Env, s: Site, c: Decider)
    ensures Refusal(env, Seen(s), c.id, c.to, c.actor, c.reason, c.edited) ==
            Refusal(env, s.g, c.id, c.to, c.actor, c.reason, c.edited)
  {
    hide HasReason, ValidDiff;
  }

  /** The steps of a call that nobody interferes with add up to the whole decision, refused, failed or done. */
  lemma SoloIsDecide(env: Env, s: Site, n: nat, id: string, to: Status, actor: Identity, reason: Option<string>,
                     edited: Option<Diff>)
    returns (es: seq<DecideRace.Event>)
    requires n !in s.calls && Free(s, n)
    ensures es != [] && es[0] == Begins(n, id, to, actor, reason, edited) && forall e :: e in es[1..] ==> e == Acts(n)
    ensures
      var t := DecideRace.Run(env, s, es);
      var (h, r) := Decide(env, Seen(s), id, to, actor, reason, edited);
      && n in t.calls && SameStores(Seen(t), h) && (t.calls[n].phase.Won? <==> r.Ok?)
      && (r.Err? ==> t.calls[n].phase.Stopped? || t.calls[n].phase.Lost?)
  {
    hide Refusal, DecideRace.Happen, DecideRace.Run, Decide, SameStores, Seen;
    var c := Decider(id, to, actor, reason, edited, Reading, None, None);
    var first := Begins(n, id, to, actor, reason, edited);
    var s1 := s.(calls := s.calls[n := c]);
    assert DecideRace.Happen(env, s, first) == s1 by { BeginsNow(env, s, first); }
    OneEvent(env, s, first);
    var rest := SoloActs(env, s1, n);
    es := [first] + rest;
    RunTwice(env, s, [first], rest);
    assert es[1..] == rest;
    assert Seen(s1) == Seen(s) by { SeenSame(s, s1); }
  }

  lemma SeenSame(s: Site, t: Site)
    requires s.g == t.g && s.races == t.races
    ensures Seen(s) == Seen(t)
  {
  }

  lemma BeginsNow(env: Env, s: Site, e: DecideRace.Event)
    requires e.Begins? && e.n !in s.calls
    ensures DecideRace.Happen(env, s, e) ==
            s.(calls := s.calls[e.n := Decider(e.id, e.to, e.actor, e.reason, e.edited, Reading, None, None)])
  {
  }

  lemma SoloActs(env: Env, s: Site, n: nat) returns (es: seq<DecideRace.Event>)
    requires Free(s, n) && n in s.calls && s.calls[n].phase.Reading? && s.calls[n].wrote == None && s.calls[n].diff == None
    ensures forall e :: e in es ==> e == Acts(n)
    ensures
      var c, t := s.calls[n], DecideRace.Run(env, s, es);
      var (h, r) := Decide(env, Seen(s), c.id, c.to, c.actor, c.reason, c.edited);
      && n in t.calls && SameStores(Seen(t), h) && (t.calls[n].phase.Won? <==> r.Ok?)
      && (r.Err? ==> t.calls[n].phase.Stopped? || t.calls[n].phase.Lost?)
  {
    hide Refusal, DecideRace.Happen, DecideRace.Run, Decide, SameStores, Seen, Free;
    var c := s.calls[n];
    var s1 := DecideRace.Happen(env, s, Acts(n));
    OneEvent(env, s, Acts(n));
    SoloReads(env, s, n);
    SeenRefusal(env, s, c);
    if Refusal(env, s.g, c.id, c.to, c.actor, c.reason, c.edited).Some? {
      es := [Acts(n)];
      RefusedDecide(env, s, c);
      SeenSame(s, s1);
      Reflexive(Seen(s));
    } else if c.to == Approved && s.g.rows[c.id].Kind().Declarative() {
      var diff := c.edited.GetOr(s.g.rows[c.id].diff);
      var more, s2 := Finishes(env, s1, n, diff.profile);
      RegistryRaceLimits.SoloRunIsApply(RepoOf(env, diff.profile), ProfileOf(Seen(s), diff.profile), diff, c.actor.id);
      es := [Acts(n)] + more;
      RunTwice(env, s, [Acts(n)], more);
      AppliedDecide(env, s, s2, c, n, diff);
      if s2.calls[n].phase.Swapping? {
        OneEvent(env, s2, Acts(n));
        RunTwice(env, s, es, [Acts(n)]);
        es := es + [Acts(n)];
      }
    } else {
      es := [Acts(n)] + [Acts(n)];
      RunTwice(env, s, [Acts(n)], [Acts(n)]);
      OneEvent(env, s1, Acts(n));
      PlainDecide(env, s, s1, c, n);
    }
  }

  lemma Reflexive(g: Gov)
    ensures SameStores(g, g)
  {
  }

  lemma RefusedDecide(env: Env, s: Site, c: Decider)
    requires Refusal(env, Seen(s), c.id, c.to, c.actor, c.reason, c.edited).Some?
    ensures
      var (h, r) := Decide(env, Seen(s), c.id, c.to, c.actor, c.reason, c.edited);
      h == Seen(s) && r.Err?
  {
    hide Refusal;
  }

  lemma PlainDecide(env: Env, s: Site, t: Site, c: Decider, n: nat)
    requires c.id in s.g.rows && Refusal(env, Seen(s), c.id, c.to, c.actor, c.reason, c.edited).None?
    requires !(c.to == Approved && s.g.rows[c.id].Kind().Declarative()) && c.diff == None && c.wrote == None
    requires
      var diff := c.edited.GetOr(s.g.rows[c.id].diff);
      n in t.calls && t.calls[n] == c.(phase := Swapping) && t.races == s.races
      && t.g == if c.to == Approved then s.g.(specs := s.g.specs[c.id := diff]) else s.g
    ensures
      var u := DecideRace.Happen(env, t, Acts(n));
      var (h, r) := Decide(env, Seen(s), c.id, c.to, c.actor, c.reason, c.edited);
      n in u.calls && SameStores(Seen(u), h) && (u.calls[n].phase.Won? <==> r.Ok?) && (r.Err? ==> u.calls[n].phase.Lost?)
  {
    hide HasReason, ValidDiff;
  }

  lemma AppliedDecide(env: Env, s: Site, t: Site, c: Decider, n: nat, diff: Diff)
    requires c.id in s.g.rows && Refusal(env, Seen(s), c.id, c.to, c.actor, c.reason, c.edited).None?
    requires c.to == Approved && s.g.rows[c.id].Kind().Declarative() && diff == c.edited.GetOr(s.g.rows[c.id].diff)
    requires diff.Declarative() && n in t.calls && t.g == s.g && diff.profile in t.races
    requires t.races == s.races[diff.profile := t.races[diff.profile]]
    requires t.calls[n].(phase := Swapping, wrote := None) == c.(phase := Swapping, diff := Some(diff), wrote := None)
    requires
      var (q, applied) := ApplyDeclarative(ProfileOf(Seen(s), diff.profile), RepoOf(env, diff.profile), diff, c.actor.id);
      && t.races[diff.profile].p == q
      && (applied.Ok? ==> t.calls[n].phase == Swapping && t.calls[n].wrote == Some(applied.value))
      && (applied.Err? ==> t.calls[n].phase == Stopped)
    ensures
      var u := if t.calls[n].phase.Swapping? then DecideRace.Happen(env, t, Acts(n)) else t;
      var (h, r) := Decide(env, Seen(s), c.id, c.to, c.actor, c.reason, c.edited);
      && n in u.calls && SameStores(Seen(u), h) && (u.calls[n].phase.Won? <==> r.Ok?)
      && (r.Err? ==> u.calls[n].phase.Stopped? || u.calls[n].phase.Lost?)
  {
    hide Refusal, ApplyDeclarative, Decide, SetStatus, Seen;
    var g := Seen(s);
    var (q, applied) := ApplyDeclarative(ProfileOf(g, diff.profile), RepoOf(env, diff.profile), diff, c.actor.id);
    var h := g.(profiles := g.profiles[diff.profile := q]);
    OneProfile(s, t, diff.profile, q);
    DecideApplies(env, g, c, diff);
    if applied.Ok? {
      SameSwap(t.g, h, c, applied.value);
      var u := DecideRace.Happen(env, t, Acts(n));
      SeenAfter(t, u);
      var d := t.calls[n];
      assert d == c.(phase := Swapping, diff := Some(diff), wrote := Some(applied.value));
      var (g1, r1) := SetStatus(t.g, c.id, PendingHitl, c.to, c.actor.id, c.reason, c.edited, d.wrote, None);
      assert u == t.(g := g1, calls := t.calls[n := d.(phase := if r1.Ok? then Won else Lost)]);
      var (h1, r2) := Decide(env, g, c.id, c.to, c.actor, c.reason, c.edited);
      assert r2 == r1;
      forall name
        ensures ProfileOf(Seen(u), name) == ProfileOf(h1, name)
      {
        assert ProfileOf(Seen(t), name) == ProfileOf(h, name);
      }
    }
  }

  lemma OneProfile(s: Site, t: Site, name: string, q: Profile)
    requires t.g == s.g && name in t.races && t.races == s.races[name := t.races[name]] && t.races[name].p == q
    ensures SameStores(Seen(t), Seen(s).(profiles := Seen(s).profiles[name := q]))
    ensures Seen(s).rows == s.g.rows && Seen(s).audit == s.g.audit && Seen(s).specs == s.g.specs
  {
  }

  lemma SeenAfter(t: Site, u: Site)
    requires u.races == t.races
    ensures Seen(u) == Seen(t).(rows := u.g.rows, audit := u.g.audit, specs := u.g.specs)
  {
  }

  /** The swap looks at the proposals alone. */
  lemma SameSwap(g: Gov, h: Gov, c: Decider, version: string)
    requires g.rows == h.rows && g.audit == h.audit && g.specs == h.specs
    ensures
      var (g1, r1) := SetStatus(g, c.id, PendingHitl, c.to, c.actor.id, c.reason, c.edited, Some(version), None);
      var (h1, r2) := SetStatus(h, c.id, PendingHitl, c.to, c.actor.id, c.reason, c.edited, Some(version), None);
      r1 == r2 && g1.rows == h1.rows && g1.audit == h1.audit && g1.specs == h1.specs && h1.profiles == h.profiles
  {
  }

  lemma DecideApplies(env: Env, g: Gov, c: Decider, diff: Diff)
    requires c.id in g.rows && Refusal(env, g, c.id, c.to, c.actor, c.reason, c.edited).None?
    requires c.to == Approved && g.rows[c.id].Kind().Declarative() && diff == c.edited.GetOr(g.rows[c.id].diff)
    requires diff.Declarative()
    ensures
      var (q, applied) := ApplyDeclarative(ProfileOf(g, diff.profile), RepoOf(env, diff.profile), diff, c.actor.id);
      var h := g.(profiles := g.profiles[diff.profile := q]);
      Decide(env, g, c.id, c.to, c.actor, c.reason, c.edited) ==
        if applied.Err? then (h, Err(applied.error))
        else SetStatus(h, c.id, PendingHitl, c.to, c.actor.id, c.reason, c.edited, Some(applied.value), None)
  {
    hide Refusal, Speaks, Complete, ApplyDeclarative;
    RefusedIff(env, g, c.id, c.to, c.actor, c.reason, c.edited);
    assert g.rows[c.id].status == PendingHitl;
    var (q, applied) := ApplyDeclarative(ProfileOf(g, diff.profile), RepoOf(env, diff.profile), diff, c.actor.id);
    var h := g.(profiles := g.profiles[diff.profile := q]);
    assert applied.Err? ==> Decide(env, g, c.id, c.to, c.actor, c.reason, c.edited) == (h, Err(applied.error));
    assert applied.Ok? ==>
      Decide(env, g, c.id, c.to, c.actor, c.reason, c.edited) ==
        SetStatus(h, c.id, PendingHitl, c.to, c.actor.id, c.reason, c.edited, Some(applied.value), None);
  }
}
