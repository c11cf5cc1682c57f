/** Overlapping decisions: each reads its row, applies its diff step by step, and then swaps the status. What
    the registry holds beyond the approvals, and whose it is. */
module DecideRace {
  import opened Wrappers
  import opened Text
  import opened Versions
  import opened Identity
  import opened RegistrySpec
  import opened ProposalSpec
  import RegistryRace
  import RegistryRaceLimits
  import ProposalRuns

  type Race = RegistryRace.Race

  /** Where a decision stands. A call that crashes never acts again. */
  datatype Phase = Reading | Applying | Swapping | Won | Lost | Stopped | Crashed

  /** One `decide` call; `diff` is its effective diff once read, `wrote` the version it made visible. */
  datatype Decider = Decider(id: string, to: Status, actor: Identity, reason: Option<string>, edited: Option<Diff>,
                             phase: Phase, diff: Option<Diff>, wrote: Option<string>)

  /** The proposal store, each profile's directory with the calls writing to it, and the decisions. */
  datatype Site = Site(g: Gov, races: map<string, Race>, calls: map<nat, Decider>)

  datatype Event =
    | Creates(id: string, kind: Kind, summary: string, rationale: string, diff: Diff, creator: string)
    | NotesDryRun(id: string, record: DryRunRecord)
    | Begins(n: nat, id: string, to: Status, actor: Identity, reason: Option<string>, edited: Option<Diff>)
    | Acts(n: nat)
    | Crashes(n: nat)

  function RaceOf(s: Site, name: string): Race {
    if name in s.races then s.races[name] else RegistryRace.EMPTY
  }

  /** What a call is doing to a profile. */
  predicate Writing(c: Decider) {
    c.phase.Applying? && c.diff.Some? && c.diff.value.Declarative()
  }

  /** The row is read and the policy checked; an approval of a declarative proposal starts its apply. */
  function Read(env: Env, s: Site, n: nat): Site
    requires n in s.calls
  {
    var c := s.calls[n];
    if Refusal(env, s.g, c.id, c.to, c.actor, c.reason, c.edited).Some? then
      s.(calls := s.calls[n := c.(phase := Stopped)])
    else
      var diff := c.edited.GetOr(s.g.rows[c.id].diff);
      if c.to == Approved && s.g.rows[c.id].Kind().Declarative() then
        var race := RaceOf(s, diff.profile);
        var writers := race.writers[n := RegistryRace.Fresh(diff, c.actor.id)];
        s.(races := s.races[diff.profile := race.(writers := writers)],
           calls := s.calls[n := c.(phase := Applying, diff := Some(diff))])
      else
        s.(g := if c.to == Approved then s.g.(specs := s.g.specs[c.id := diff]) else s.g,
           calls := s.calls[n := c.(phase := Swapping)])
  }

  /** One step of the apply. */
  function Apply(env: Env, s: Site, n: nat): Site
    requires n in s.calls && Writing(s.calls[n])
  {
    var c := s.calls[n];
    var name := c.diff.value.profile;
    var race := RaceOf(s, name);
    if n !in race.writers || !RegistryRace.WellTyped(race) then s
    else
      var me := race.writers[n];
      var after := RegistryRace.Happen(RepoOf(env, name), race, RegistryRace.Advance(n));
      var pc := after.writers[n].pc;
      s.(races := s.races[name := after],
         calls := s.calls[n := c.(phase := if pc.Done? then Swapping else if pc.Failed? then Stopped else Applying,
                                  wrote := if me.pc.Flip? then Some(me.next) else c.wrote)])
  }

  /** The compare-and-swap on the status. */
  function Swap(s: Site, n: nat): Site
    requires n in s.calls
  {
    var c := s.calls[n];
    var spec := if c.to == Approved && c.diff.None? then Some(SpecPath(c.id)) else None;
    var (g, r) := SetStatus(s.g, c.id, PendingHitl, c.to, c.actor.id, c.reason, c.edited, c.wrote, spec);
    s.(g := g, calls := s.calls[n := c.(phase := if r.Ok? then Won else Lost)])
  }

  function Happen(env: Env, s: Site, e: Event): Site {
    match e
    case Creates(id, kind, summary, rationale, diff, creator) =>
      s.(g := Create(s.g, id, kind, summary, rationale, diff, creator).0)
    case NotesDryRun(id, record) =>
      if id !in s.g.rows then s
      else s.(g := s.g.(rows := s.g.rows[id := s.g.rows[id].(dryRun := Some(record))]))
    case Begins(n, id, to, actor, reason, edited) =>
      if n in s.calls then s
      else s.(calls := s.calls[n := Decider(id, to, actor, reason, edited, Reading, None, None)])
    case Acts(n) =>
      if n !in s.calls then s
      else
        (match s.calls[n].phase
         case Reading => Read(env, s, n)
         case Applying => if Writing(s.calls[n]) then Apply(env, s, n) else s
         case Swapping => Swap(s, n)
         case _ => s)
    case Crashes(n) =>
      if n !in s.calls || !(s.calls[n].phase.Reading? || s.calls[n].phase.Applying? || s.calls[n].phase.Swapping?) then s
      else s.(calls := s.calls[n := s.calls[n].(phase := Crashed)])
  }

  const START := Site(NOTHING, map[], map[])

  function Run(env: Env, s: Site, es: seq<Event>): Site
    decreases |es|
  {
    if es == [] then s else Run(env, Happen(env, s, es[0]), es[1..])
  }

  // ---- What must hold ----

  /** One seeded file of each profile is deleted by no proposal and no edit. */
  ghost predicate Kept(env: Env, keeps: string -> string, d: Diff) {
    d.Declarative() && ValidComponent(d.profile) ==>
      keeps(d.profile) in SeedFiles(RepoOf(env, d.profile)) && RegistryRace.Keeps(keeps(d.profile), d)
  }

  ghost predicate Anchored(env: Env, keeps: string -> string, es: seq<Event>) {
    forall e :: e in es ==>
      && (e.Creates? ==> Kept(env, keeps, e.diff))
      && (e.Begins? && e.edited.Some? ==> Kept(env, keeps, e.edited.value))
  }

  /** The entry of profile `name`'s chain that call `n` wrote. */
  predicate Wrote(s: Site, n: nat, name: string, step: RegistryRace.Step) {
    && n in s.calls && s.calls[n].diff.Some? && s.calls[n].diff.value.Declarative()
    && s.calls[n].diff.value.profile == name
    && s.calls[n].wrote == Some(step.version) && step.cause == s.calls[n].diff
  }

  /** An approved declarative proposal and the call that approved it. */
  predicate ApprovedBy(s: Site, id: string, n: nat) {
    && id in s.g.rows && n in s.calls && s.calls[n].id == id && s.calls[n].phase.Won? && s.calls[n].to == Approved
    && s.calls[n].wrote.Some? && s.g.rows[id].appliedVersion == s.calls[n].wrote
    && s.calls[n].diff == Some(ProposalRuns.EffectiveDiff(s.g.rows[id]))
  }

  // ---- The invariant ----

  /** A profile whose name no call gets past. */
  predicate Untouched(race: Race) {
    && race.p == FRESH && race.flips == []
    && forall w :: w in race.writers ==>
         race.writers[w].diff.Declarative() && (race.writers[w].pc.Start? || race.writers[w].pc.Failed?)
  }

  ghost predicate RaceOk(env: Env, keeps: string -> string, name: string, race: Race) {
    if ValidComponent(name) then RegistryRace.Inv(RepoOf(env, name), keeps(name), race) else Untouched(race)
  }

  /** Each writer in a profile's race is the call of that number, with its diff. */
  predicate WritersAreCalls(s: Site) {
    forall name, n :: name in s.races && n in s.races[name].writers ==>
      n in s.calls && s.calls[n].diff == Some(s.races[name].writers[n].diff)
      && s.calls[n].diff.value.Declarative() && s.calls[n].diff.value.profile == name
  }

  ghost predicate RowsOk(env: Env, keeps: string -> string, g: Gov) {
    forall id :: id in g.rows ==>
      && Kept(env, keeps, g.rows[id].diff)
      && (g.rows[id].status == PendingHitl ==> g.rows[id].edited == None && g.rows[id].appliedVersion == None)
  }

  /** An applying call's writer is under way, and has been past its pointer write or not as the call says. */
  predicate WriterFits(race: Race, n: nat, c: Decider) {
    && n in race.writers && !race.writers[n].pc.Done? && !race.writers[n].pc.Failed?
    && (if race.writers[n].pc.Log? then c.wrote == Some(race.writers[n].next) else c.wrote == None)
  }

  ghost predicate CallOk(env: Env, keeps: string -> string, s: Site, n: nat)
    requires n in s.calls
  {
    var c := s.calls[n];
    && (c.edited.Some? ==> Kept(env, keeps, c.edited.value))
    && (c.phase.Reading? ==> c.diff == None)
    && (c.diff.Some? ==>
          && c.to == Approved && c.diff.value.Declarative() && Kept(env, keeps, c.diff.value)
          && c.id in s.g.rows && c.diff.value == c.edited.GetOr(s.g.rows[c.id].diff)
          && c.diff.value.profile in s.races)
    && (c.diff.None? ==> c.wrote == None && !c.phase.Applying?)
    && (c.phase.Applying? ==> WriterFits(RaceOf(s, c.diff.value.profile), n, c))
    && (c.wrote.Some? ==> RegistryRace.Step(c.wrote.value, c.diff) in RaceOf(s, c.diff.value.profile).flips)
    && (c.diff.Some? && (c.phase.Swapping? || c.phase.Won? || c.phase.Lost?) ==> c.wrote.Some?)
    && (c.phase.Stopped? ==> c.wrote == None)
    && (c.diff.None? && c.to == Approved && (c.phase.Swapping? || c.phase.Won?) ==>
          c.id in s.g.rows && !s.g.rows[c.id].Kind().Declarative())
    && (c.diff.Some? && c.phase.Won? ==> ApprovedBy(s, c.id, n) && s.g.rows[c.id].status == Approved)
  }

  ghost predicate CallsOk(env: Env, keeps: string -> string, s: Site) {
    forall n :: n in s.calls ==> CallOk(env, keeps, s, n)
  }

  /** A call that wrote a version of profile `name`. */
  predicate WroteTo(c: Decider, name: string) {
    c.wrote.Some? && c.diff.Some? && c.diff.value.Declarative() && c.diff.value.profile == name
  }

  /** No two calls wrote the same version of one profile. */
  ghost predicate AuthorsDiffer(calls: map<nat, Decider>) {
    forall name, m, n :: m in calls && n in calls && m != n && WroteTo(calls[m], name) && WroteTo(calls[n], name) ==>
      calls[m].wrote != calls[n].wrote
  }

  predicate HasAuthor(s: Site, name: string, step: RegistryRace.Step) {
    exists n :: n in s.calls && Wrote(s, n, name, step)
  }

  predicate FlipsHaveAuthors(s: Site) {
    forall name, i :: name in s.races && 0 <= i < |s.races[name].flips| && s.races[name].flips[i].cause.Some? ==>
      HasAuthor(s, name, s.races[name].flips[i])
  }

  predicate HasApprover(s: Site, id: string) {
    exists n :: n in s.calls && ApprovedBy(s, id, n)
  }

  predicate ApprovalsHaveCalls(s: Site) {
    forall id :: id in s.g.rows && s.g.rows[id].status == Approved && s.g.rows[id].Kind().Declarative() ==>
      HasApprover(s, id)
  }

  ghost predicate Inv(env: Env, keeps: string -> string, s: Site) {
    && (forall name :: name in s.races ==> RaceOk(env, keeps, name, s.races[name]))
    && WritersAreCalls(s) && RowsOk(env, keeps, s.g) && CallsOk(env, keeps, s)
    && AuthorsDiffer(s.calls) && FlipsHaveAuthors(s) && ApprovalsHaveCalls(s)
  }

  // ---- Steps on the rows ----

  /** What a change of one pending row must leave alone. */
  predicate RowsGrow(g: Gov, h: Gov) {
    forall id :: id in g.rows ==>
      && id in h.rows && h.rows[id].diff == g.rows[id].diff
      && (g.rows[id].status == Approved ==>
            h.rows[id].status == Approved && h.rows[id].edited == g.rows[id].edited
            && h.rows[id].appliedVersion == g.rows[id].appliedVersion)
  }

  /** A change of rows that approves nothing. */
  lemma RowsChange(env: Env, keeps: string -> string, s: Site, h: Gov)
    requires Inv(env, keeps, s) && RowsGrow(s.g, h) && RowsOk(env, keeps, h)
    requires forall id :: id in h.rows && h.rows[id].status == Approved ==> id in s.g.rows && s.g.rows[id].status == Approved
    ensures Inv(env, keeps, s.(g := h))
  {
    hide RaceOk, Kept, WriterFits;
    var t := s.(g := h);
    forall id, n | id in s.g.rows && s.g.rows[id].status == Approved && ApprovedBy(s, id, n)
      ensures ApprovedBy(t, id, n)
    {
    }
    forall id | id in h.rows && h.rows[id].status == Approved && h.rows[id].Kind().Declarative()
      ensures HasApprover(t, id)
    {
      assert HasApprover(s, id);
      var n :| n in s.calls && ApprovedBy(s, id, n);
      assert ApprovedBy(t, id, n);
    }
    SameAuthors(s, t);
  }

  lemma SameAuthors(s: Site, t: Site)
    requires FlipsHaveAuthors(s) && t.races == s.races
    requires forall n :: n in s.calls ==> n in t.calls && t.calls[n].diff == s.calls[n].diff && t.calls[n].wrote == s.calls[n].wrote
    ensures FlipsHaveAuthors(t)
  {
    forall name, i | name in t.races && 0 <= i < |t.races[name].flips| && t.races[name].flips[i].cause.Some?
      ensures HasAuthor(t, name, t.races[name].flips[i])
    {
      assert HasAuthor(s, name, s.races[name].flips[i]);
      var n :| n in s.calls && Wrote(s, n, name, s.races[name].flips[i]);
      assert Wrote(t, n, name, t.races[name].flips[i]);
    }
  }

  lemma ApproversStay(s: Site, t: Site)
    requires ApprovalsHaveCalls(s) && t.g.rows == s.g.rows
    requires forall n :: n in s.calls && s.calls[n].phase.Won? ==> n in t.calls && t.calls[n] == s.calls[n]
    ensures ApprovalsHaveCalls(t)
  {
    forall id | id in t.g.rows && t.g.rows[id].status == Approved && t.g.rows[id].Kind().Declarative()
      ensures HasApprover(t, id)
    {
      assert HasApprover(s, id);
      var m :| m in s.calls && ApprovedBy(s, id, m);
      assert ApprovedBy(t, id, m);
    }
  }

  /** A call is as well as before while others act: profiles only grow, its own writer stays. */
  lemma CallStays(env: Env, keeps: string -> string, s: Site, t: Site, m: nat)
    requires m in s.calls && m in t.calls && t.calls[m] == s.calls[m] && CallOk(env, keeps, s, m)
    requires RowsGrow(s.g, t.g)
    requires forall name :: name in s.races ==> name in t.races
    requires forall name :: Grows(RaceOf(s, name), RaceOf(t, name), m)
    ensures CallOk(env, keeps, t, m)
  {
    hide Kept;
  }

  /** A profile's chain grows, and writer `m` stays as it is. */
  predicate Grows(before: Race, after: Race, m: nat) {
    && |before.flips| <= |after.flips| && after.flips[..|before.flips|] == before.flips
    && (m in before.writers ==> m in after.writers && after.writers[m] == before.writers[m])
  }

  lemma SameGrows(s: Site, t: Site)
    requires t.races == s.races
    ensures forall name, m: nat :: Grows(RaceOf(s, name), RaceOf(t, name), m)
    ensures forall name :: name in s.races ==> name in t.races
  {
  }

  lemma SameRows(g: Gov, h: Gov)
    requires h.rows == g.rows
    ensures RowsGrow(g, h)
  {
  }

  lemma RowsOkStays(env: Env, keeps: string -> string, g: Gov, h: Gov)
    requires RowsOk(env, keeps, g) && h.rows == g.rows
    ensures RowsOk(env, keeps, h)
  {
    hide Kept;
  }

  /** A call whose phase changes, or a new one, and nothing else. */
  lemma CallChanges(env: Env, keeps: string -> string, s: Site, t: Site, n: nat)
    requires Inv(env, keeps, s) && t.races == s.races && n in t.calls && t.calls == s.calls[n := t.calls[n]]
    requires n in s.calls ==>
               t.calls[n].diff == s.calls[n].diff && t.calls[n].wrote == s.calls[n].wrote && !s.calls[n].phase.Won?
    requires n !in s.calls ==> t.calls[n].wrote == None
    requires t.g.rows == s.g.rows && CallOk(env, keeps, t, n)
    ensures Inv(env, keeps, t)
  {
    hide RaceOk, CallOk, Grows, HasAuthor, HasApprover, RowsOk, FlipsHaveAuthors, ApprovalsHaveCalls, RowsGrow;
    SameGrows(s, t);
    SameRows(s.g, t.g);
    RowsOkStays(env, keeps, s.g, t.g);
    ApproversStay(s, t);
    SameAuthors(s, t);
    forall m | m in t.calls
      ensures CallOk(env, keeps, t, m)
    {
      if m != n { CallStays(env, keeps, s, t, m); }
    }
  }

  // ---- Creating, noting a dry run, beginning, crashing ----

  lemma CreateKeeps(env: Env, keeps: string -> string, s: Site, e: Event)
    requires Inv(env, keeps, s) && e.Creates? && Kept(env, keeps, e.diff)
    ensures Inv(env, keeps, Happen(env, s, e))
  {
    hide RaceOk, Kept, WriterFits, CallsOk, AuthorsDiffer, FlipsHaveAuthors, ApprovalsHaveCalls, WritersAreCalls, Inv;
    assert RowsOk(env, keeps, s.g) by { Parts(env, keeps, s); }
    RowsChange(env, keeps, s, Create(s.g, e.id, e.kind, e.summary, e.rationale, e.diff, e.creator).0);
  }

  lemma Parts(env: Env, keeps: string -> string, s: Site)
    requires Inv(env, keeps, s)
    ensures RowsOk(env, keeps, s.g) && CallsOk(env, keeps, s)
  {
  }

  lemma NoteKeeps(env: Env, keeps: string -> string, s: Site, e: Event)
    requires Inv(env, keeps, s) && e.NotesDryRun?
    ensures Inv(env, keeps, Happen(env, s, e))
  {
    hide RaceOk, Kept, WriterFits, CallsOk, AuthorsDiffer, FlipsHaveAuthors, ApprovalsHaveCalls, WritersAreCalls, Inv;
    Parts(env, keeps, s);
    if e.id in s.g.rows {
      RowsChange(env, keeps, s, s.g.(rows := s.g.rows[e.id := s.g.rows[e.id].(dryRun := Some(e.record))]));
    }
  }

  lemma BeginKeeps(env: Env, keeps: string -> string, s: Site, e: Event)
    requires Inv(env, keeps, s) && e.Begins? && (e.edited.Some? ==> Kept(env, keeps, e.edited.value))
    ensures Inv(env, keeps, Happen(env, s, e))
  {
    hide RaceOk, Kept, WriterFits, AuthorsDiffer, FlipsHaveAuthors, ApprovalsHaveCalls, WritersAreCalls, RowsOk, Inv;
    var t := Happen(env, s, e);
    if e.n !in s.calls { CallChanges(env, keeps, s, t, e.n); }
  }

  lemma CrashKeeps(env: Env, keeps: string -> string, s: Site, n: nat)
    requires Inv(env, keeps, s)
    ensures Inv(env, keeps, Happen(env, s, Crashes(n)))
  {
    hide RaceOk, Kept, WriterFits, AuthorsDiffer, FlipsHaveAuthors, ApprovalsHaveCalls, WritersAreCalls, RowsOk;
    var t := Happen(env, s, Crashes(n));
    if t != s { CallChanges(env, keeps, s, t, n); }
  }

  // ---- Reading ----

  lemma RefusedMeans(env: Env, g: Gov, c: Decider)
    ensures Refusal(env, g, c.id, c.to, c.actor, c.reason, c.edited).None? ==>
              && c.id in g.rows && g.rows[c.id].status == PendingHitl
              && (g.rows[c.id].Kind().Declarative() ==> c.edited.GetOr(g.rows[c.id].diff).Declarative())
  {
  }

  lemma FreshRace(env: Env, keeps: string -> string, name: string, diff: Diff)
    requires diff.Declarative() && diff.profile == name && Kept(env, keeps, diff)
    ensures RaceOk(env, keeps, name, RegistryRace.EMPTY)
  {
  }

  lemma StartsWriting(env: Env, keeps: string -> string, name: string, race: Race, n: nat, diff: Diff, actor: string)
    requires RaceOk(env, keeps, name, race) && n !in race.writers && diff.Declarative() && diff.profile == name
    requires Kept(env, keeps, diff)
    ensures RaceOk(env, keeps, name, race.(writers := race.writers[n := RegistryRace.Fresh(diff, actor)]))
  {
    hide RegistryRace.Inv, SeedFiles;
    if ValidComponent(name) {
      assert RegistryRace.WellTyped(race) by { InvTyped(RepoOf(env, name), keeps(name), race); }
      RegistryRace.HappenKeepsInv(RepoOf(env, name), keeps(name), race, RegistryRace.Begin(n, diff, actor));
    }
  }

  lemma InvTyped(repo: Option<Files>, keep: string, race: Race)
    requires RegistryRace.Inv(repo, keep, race)
    ensures RegistryRace.WellTyped(race)
  {
  }

  /** An approval whose apply begins. */
  lemma StartKeeps(env: Env, keeps: string -> string, s: Site, n: nat)
    requires Inv(env, keeps, s) && n in s.calls && s.calls[n].phase.Reading?
    requires Refusal(env, s.g, s.calls[n].id, s.calls[n].to, s.calls[n].actor, s.calls[n].reason, s.calls[n].edited).None?
    requires s.calls[n].to == Approved && s.g.rows[s.calls[n].id].Kind().Declarative()
    ensures Inv(env, keeps, Read(env, s, n))
  {
    hide RaceOk, Kept, Grows, HasAuthor, HasApprover, RowsOk, Refusal, CallOk, FlipsHaveAuthors, ApprovalsHaveCalls;
    hide CallsOk, AuthorsDiffer, WritersAreCalls;
    var c := s.calls[n];
    assert CallOk(env, keeps, s, n) by { OneCallOk(env, keeps, s, n); }
    RefusedMeans(env, s.g, c);
    NotYetWriting(env, keeps, s, n);
    var diff := c.edited.GetOr(s.g.rows[c.id].diff);
    var name := diff.profile;
    assert Kept(env, keeps, diff) by { DiffKept(env, keeps, s, n); }
    FreshRace(env, keeps, name, diff);
    StartsWriting(env, keeps, name, RaceOf(s, name), n, diff, c.actor.id);
    var t := Read(env, s, n);
    SameRows(s.g, t.g);
    ApproversStay(s, t);
    StartKeepsCalls(env, keeps, s, n);
    StartKeepsWriters(env, s, n);
    FlipsStay(s, t);
  }

  lemma StartKeepsWriters(env: Env, s: Site, n: nat)
    requires WritersAreCalls(s) && AuthorsDiffer(s.calls) && n in s.calls && s.calls[n].phase.Reading?
    requires s.calls[n].wrote == None && s.calls[n].id in s.g.rows
    requires forall name :: n !in RaceOf(s, name).writers
    requires Refusal(env, s.g, s.calls[n].id, s.calls[n].to, s.calls[n].actor, s.calls[n].reason, s.calls[n].edited).None?
    requires s.calls[n].to == Approved && s.g.rows[s.calls[n].id].Kind().Declarative()
    requires s.calls[n].edited.GetOr(s.g.rows[s.calls[n].id].diff).Declarative()
    ensures WritersAreCalls(Read(env, s, n)) && AuthorsDiffer(Read(env, s, n).calls)
  {
    hide Refusal;
    var t := Read(env, s, n);
    assert forall m :: m in t.calls && m != n ==> t.calls[m] == s.calls[m];
    forall name | name in s.races
      ensures n !in s.races[name].writers
    {
      assert n !in RaceOf(s, name).writers;
    }
  }

  lemma StartKeepsCalls(env: Env, keeps: string -> string, s: Site, n: nat)
    requires Inv(env, keeps, s) && n in s.calls && s.calls[n].phase.Reading?
    requires Refusal(env, s.g, s.calls[n].id, s.calls[n].to, s.calls[n].actor, s.calls[n].reason, s.calls[n].edited).None?
    requires s.calls[n].to == Approved && s.g.rows[s.calls[n].id].Kind().Declarative()
    ensures CallsOk(env, keeps, Read(env, s, n))
  {
    hide RaceOk, Kept, Grows, HasAuthor, HasApprover, RowsOk, Refusal, CallOk, FlipsHaveAuthors, ApprovalsHaveCalls;
    var c := s.calls[n];
    RefusedMeans(env, s.g, c);
    NotYetWriting(env, keeps, s, n);
    DiffKept(env, keeps, s, n);
    var t := Read(env, s, n);
    SameRows(s.g, t.g);
    forall m | m in t.calls
      ensures CallOk(env, keeps, t, m)
    {
      if m != n {
        GrowsBy(s, t, c.edited.GetOr(s.g.rows[c.id].diff).profile, n, m);
        CallStays(env, keeps, s, t, m);
      } else {
        StartedOk(env, keeps, s, n);
      }
    }
  }

  lemma OneCallOk(env: Env, keeps: string -> string, s: Site, n: nat)
    requires CallsOk(env, keeps, s) && n in s.calls
    ensures CallOk(env, keeps, s, n)
  {
  }

  lemma DiffKept(env: Env, keeps: string -> string, s: Site, n: nat)
    requires RowsOk(env, keeps, s.g) && n in s.calls && CallOk(env, keeps, s, n) && s.calls[n].id in s.g.rows
    ensures Kept(env, keeps, s.calls[n].edited.GetOr(s.g.rows[s.calls[n].id].diff))
  {
    hide Kept;
  }

  lemma NotYetWriting(env: Env, keeps: string -> string, s: Site, n: nat)
    requires WritersAreCalls(s) && n in s.calls && CallOk(env, keeps, s, n) && s.calls[n].phase.Reading?
    ensures forall name :: n !in RaceOf(s, name).writers
    ensures s.calls[n].diff == None && s.calls[n].wrote == None
  {
    hide Kept;
  }

  lemma StartedOk(env: Env, keeps: string -> string, s: Site, n: nat)
    requires n in s.calls && s.calls[n].phase.Reading? && CallOk(env, keeps, s, n)
    requires Refusal(env, s.g, s.calls[n].id, s.calls[n].to, s.calls[n].actor, s.calls[n].reason, s.calls[n].edited).None?
    requires s.calls[n].to == Approved && s.calls[n].id in s.g.rows && s.g.rows[s.calls[n].id].Kind().Declarative()
    requires var diff := s.calls[n].edited.GetOr(s.g.rows[s.calls[n].id].diff);
             diff.Declarative() && Kept(env, keeps, diff)
    ensures n in Read(env, s, n).calls && CallOk(env, keeps, Read(env, s, n), n)
  {
    hide Kept, Refusal;
  }

  lemma GrowsBy(s: Site, t: Site, name: string, n: nat, m: nat)
    requires m != n && t.races == s.races[name := RaceOf(t, name)]
    requires RaceOf(t, name).flips == RaceOf(s, name).flips
    requires n in RaceOf(t, name).writers
    requires RaceOf(t, name).writers == RaceOf(s, name).writers[n := RaceOf(t, name).writers[n]]
    ensures forall x :: Grows(RaceOf(s, x), RaceOf(t, x), m)
  {
  }

  /** Chains that are the same, or new and empty, keep their authors. */
  lemma FlipsStay(s: Site, t: Site)
    requires FlipsHaveAuthors(s) && forall x :: RaceOf(t, x).flips == RaceOf(s, x).flips
    requires forall n :: n in s.calls ==>
               n in t.calls && (s.calls[n].wrote.Some? ==> t.calls[n].diff == s.calls[n].diff && t.calls[n].wrote == s.calls[n].wrote)
    ensures FlipsHaveAuthors(t)
  {
    forall name, i | name in t.races && 0 <= i < |t.races[name].flips| && t.races[name].flips[i].cause.Some?
      ensures HasAuthor(t, name, t.races[name].flips[i])
    {
      assert RaceOf(t, name).flips == RaceOf(s, name).flips;
      assert name in s.races && HasAuthor(s, name, s.races[name].flips[i]);
      var n :| n in s.calls && Wrote(s, n, name, s.races[name].flips[i]);
      assert Wrote(t, n, name, t.races[name].flips[i]);
    }
  }

  lemma ReadKeeps(env: Env, keeps: string -> string, s: Site, n: nat)
    requires Inv(env, keeps, s) && n in s.calls && s.calls[n].phase.Reading?
    ensures Inv(env, keeps, Read(env, s, n))
  {
    hide RaceOk, Kept, AuthorsDiffer, FlipsHaveAuthors, ApprovalsHaveCalls, WritersAreCalls, RowsOk, Refusal, Inv;
    var c := s.calls[n];
    Parts(env, keeps, s);
    RefusedMeans(env, s.g, c);
    if Refusal(env, s.g, c.id, c.to, c.actor, c.reason, c.edited).None? && c.to == Approved
       && s.g.rows[c.id].Kind().Declarative() {
      StartKeeps(env, keeps, s, n);
    } else {
      CallChanges(env, keeps, s, Read(env, s, n), n);
    }
  }

  // ---- One step of an apply ----

  /** What a writer's step does to its own place in the chain. */
  lemma StepFacts(repo: Option<Files>, race: Race, n: nat)
    requires RegistryRace.WellTyped(race) && n in race.writers
    requires !race.writers[n].pc.Done? && !race.writers[n].pc.Failed?
    ensures
      var me, t := race.writers[n], RegistryRace.Happen(repo, race, RegistryRace.Advance(n));
      && n in t.writers && t.writers == race.writers[n := t.writers[n]] && t.writers[n].diff == me.diff
      && t.flips == race.flips + RegistryRace.FlipOf(me)
      && (t.writers[n].pc.Log? <==> me.pc.Flip?) && (t.writers[n].pc.Done? <==> me.pc.Log?)
      && (me.pc.Log? ==> !t.writers[n].pc.Failed?)
      && (me.pc.Flip? || me.pc.Log? ==> t.writers[n].next == me.next)
  {
    hide SeedFiles, View, Patched, RegistryRace.Writable, RegistryRace.Rename;
  }

  lemma RaceStep(env: Env, keeps: string -> string, name: string, race: Race, n: nat)
    requires RaceOk(env, keeps, name, race) && n in race.writers && race.writers[n].diff.Declarative()
    requires race.writers[n].diff.profile == name
    ensures RegistryRace.WellTyped(race)
    ensures RaceOk(env, keeps, name, RegistryRace.Happen(RepoOf(env, name), race, RegistryRace.Advance(n)))
    ensures race.writers[n].pc.Flip? ==> !RegistryRace.Visible(race.flips, race.writers[n].next)
    ensures RegistryRace.FlipOf(race.writers[n]) != [] ==> ValidComponent(name)
  {
    hide RegistryRace.Inv, SeedFiles, RegistryRace.PlanNext, RegistryRace.WriteNext;
    if ValidComponent(name) {
      InvTyped(RepoOf(env, name), keeps(name), race);
      RegistryRace.HappenKeepsInv(RepoOf(env, name), keeps(name), race, RegistryRace.Advance(n));
      NewVersion(RepoOf(env, name), keeps(name), race, n);
    }
  }

  lemma NewVersion(repo: Option<Files>, keep: string, race: Race, n: nat)
    requires RegistryRace.Inv(repo, keep, race) && n in race.writers
    ensures race.writers[n].pc.Flip? ==> !RegistryRace.Visible(race.flips, race.writers[n].next)
  {
  }

  lemma ApplyKeeps(env: Env, keeps: string -> string, s: Site, n: nat)
    requires Inv(env, keeps, s) && n in s.calls && Writing(s.calls[n])
    ensures Inv(env, keeps, Apply(env, s, n))
  {
    hide RaceOk, Kept, Grows, HasAuthor, HasApprover, RowsOk, CallOk, FlipsHaveAuthors, ApprovalsHaveCalls, WriterFits;
    hide RegistryRace.WellTyped, RegistryRace.Happen, RegistryRace.FlipOf, AuthorsDiffer;
    ApplyingFits(env, keeps, s, n);
    var c := s.calls[n];
    var name := c.diff.value.profile;
    var race := RaceOf(s, name);
    RaceStep(env, keeps, name, race, n);
    WriterUnderWay(race, n, c);
    StepFacts(RepoOf(env, name), race, n);
    var t := Apply(env, s, n);
    ApproversStay(s, t);
    ApplyKeepsCalls(env, keeps, s, n);
    AuthorsStay(env, keeps, s, n);
  }

  lemma ApplyKeepsCalls(env: Env, keeps: string -> string, s: Site, n: nat)
    requires Inv(env, keeps, s) && n in s.calls && Writing(s.calls[n])
    ensures CallsOk(env, keeps, Apply(env, s, n))
  {
    hide RaceOk, Kept, Grows, HasAuthor, HasApprover, RowsOk, CallOk, FlipsHaveAuthors, ApprovalsHaveCalls, WriterFits;
    hide RegistryRace.WellTyped, RegistryRace.Happen, RegistryRace.FlipOf, AuthorsDiffer;
    ApplyingFits(env, keeps, s, n);
    var name := s.calls[n].diff.value.profile;
    var race := RaceOf(s, name);
    RaceStep(env, keeps, name, race, n);
    WriterUnderWay(race, n, s.calls[n]);
    StepFacts(RepoOf(env, name), race, n);
    var t := Apply(env, s, n);
    SameRows(s.g, t.g);
    forall m | m in t.calls
      ensures CallOk(env, keeps, t, m)
    {
      if m != n {
        GrowsFrom(s, t, name, n, m, RegistryRace.FlipOf(race.writers[n]));
        CallStays(env, keeps, s, t, m);
      } else {
        AppliedOk(env, keeps, s, n);
      }
    }
  }

  lemma ApplyingFits(env: Env, keeps: string -> string, s: Site, n: nat)
    requires WritersAreCalls(s) && n in s.calls && CallOk(env, keeps, s, n) && Writing(s.calls[n])
    ensures
      var c := s.calls[n];
      && WriterFits(RaceOf(s, c.diff.value.profile), n, c) && c.diff.value.profile in s.races
      && n in RaceOf(s, c.diff.value.profile).writers
      && RaceOf(s, c.diff.value.profile).writers[n].diff == c.diff.value
  {
    hide Kept;
  }

  lemma WriterUnderWay(race: Race, n: nat, c: Decider)
    requires WriterFits(race, n, c)
    ensures !race.writers[n].pc.Done? && !race.writers[n].pc.Failed?
  {
  }

  lemma GrowsFrom(s: Site, t: Site, name: string, n: nat, m: nat, more: seq<RegistryRace.Step>)
    requires m != n && t.races == s.races[name := RaceOf(t, name)]
    requires RaceOf(t, name).flips == RaceOf(s, name).flips + more
    requires n in RaceOf(t, name).writers
    requires RaceOf(t, name).writers == RaceOf(s, name).writers[n := RaceOf(t, name).writers[n]]
    ensures forall x :: Grows(RaceOf(s, x), RaceOf(t, x), m)
  {
  }

  lemma AppliedOk(env: Env, keeps: string -> string, s: Site, n: nat)
    requires WritersAreCalls(s) && n in s.calls && CallOk(env, keeps, s, n) && Writing(s.calls[n])
    requires RegistryRace.WellTyped(RaceOf(s, s.calls[n].diff.value.profile))
    ensures n in Apply(env, s, n).calls && CallOk(env, keeps, Apply(env, s, n), n)
  {
    hide Kept, RegistryRace.Happen, ApprovedBy;
    var c := s.calls[n];
    var race := RaceOf(s, c.diff.value.profile);
    StepFacts(RepoOf(env, c.diff.value.profile), race, n);
    var after := RegistryRace.Happen(RepoOf(env, c.diff.value.profile), race, RegistryRace.Advance(n));
    if race.writers[n].pc.Flip? {
      assert after.flips[|race.flips|] == RegistryRace.Step(race.writers[n].next, c.diff);
    }
    if c.wrote.Some? {
      assert RegistryRace.Step(c.wrote.value, c.diff) in race.flips;
    }
  }

  /** A new entry has its writer for author, and no other. */
  lemma AuthorsStay(env: Env, keeps: string -> string, s: Site, n: nat)
    requires Inv(env, keeps, s) && n in s.calls && Writing(s.calls[n])
    ensures FlipsHaveAuthors(Apply(env, s, n)) && AuthorsDiffer(Apply(env, s, n).calls)
  {
    hide RaceOk, Kept, Grows, HasApprover, RowsOk, CallOk, ApprovalsHaveCalls, WriterFits, RegistryRace.Happen;
    hide RegistryRace.WellTyped;
    ApplyingFits(env, keeps, s, n);
    var c := s.calls[n];
    var name := c.diff.value.profile;
    var race := RaceOf(s, name);
    var me := race.writers[n];
    RaceStep(env, keeps, name, race, n);
    WriterUnderWay(race, n, c);
    StepFacts(RepoOf(env, name), race, n);
    var t := Apply(env, s, n);
    assert !me.pc.Log? ==> c.wrote == None by { FitsWrote(race, n, c); }
    forall x, i | x in t.races && 0 <= i < |t.races[x].flips| && t.races[x].flips[i].cause.Some?
      ensures HasAuthor(t, x, t.races[x].flips[i])
    {
      if x == name && i >= |race.flips| {
        assert me.pc.Flip? && Wrote(t, n, name, t.races[x].flips[i]);
      } else {
        assert HasAuthor(s, x, s.races[x].flips[i]);
        var m :| m in s.calls && Wrote(s, m, x, s.races[x].flips[i]);
        assert m == n ==> c.wrote.Some? && !me.pc.Flip?;
        assert Wrote(t, m, x, t.races[x].flips[i]);
      }
    }
    if me.pc.Flip? {
      forall m | m in s.calls && m != n && WroteTo(s.calls[m], name)
        ensures s.calls[m].wrote != Some(me.next)
      {
        WroteIsVisible(env, keeps, s, m);
      }
    }
  }

  lemma FitsWrote(race: Race, n: nat, c: Decider)
    requires WriterFits(race, n, c)
    ensures !race.writers[n].pc.Log? ==> c.wrote == None
  {
  }

  lemma WroteIsVisible(env: Env, keeps: string -> string, s: Site, m: nat)
    requires m in s.calls && CallOk(env, keeps, s, m) && s.calls[m].wrote.Some? && s.calls[m].diff.Some?
    requires s.calls[m].diff.value.Declarative()
    ensures RegistryRace.Visible(RaceOf(s, s.calls[m].diff.value.profile).flips, s.calls[m].wrote.value)
  {
    hide Kept, WriterFits;
    var flips := RaceOf(s, s.calls[m].diff.value.profile).flips;
    var i :| 0 <= i < |flips| && flips[i] == RegistryRace.Step(s.calls[m].wrote.value, s.calls[m].diff);
    assert flips[i].version == s.calls[m].wrote.value;
  }

  // ---- The swap ----

  lemma SwapKeeps(env: Env, keeps: string -> string, s: Site, n: nat)
    requires Inv(env, keeps, s) && n in s.calls && s.calls[n].phase.Swapping? && s.calls[n].to != PendingHitl
    ensures Inv(env, keeps, Swap(s, n))
  {
    hide RaceOk, Kept, Grows, HasAuthor, HasApprover, CallOk, FlipsHaveAuthors, ApprovalsHaveCalls, WriterFits;
    hide AuthorsDiffer, SpecPath, RowsGrow, RowsOk;
    var c := s.calls[n];
    var t := Swap(s, n);
    if c.id in s.g.rows && s.g.rows[c.id].status == PendingHitl {
      SwapRows(env, keeps, s, n);
      WinnerOk(env, keeps, s, n);
      SameGrows(s, t);
      SameAuthors(s, t);
      forall m | m in t.calls
        ensures CallOk(env, keeps, t, m)
      {
        if m != n { CallStays(env, keeps, s, t, m); }
      }
      WinnerApproves(env, keeps, s, n);
      AuthorsSame(s.calls, t.calls);
    } else {
      LoserOk(env, keeps, s, n);
      CallChanges(env, keeps, s, t, n);
    }
  }

  lemma AuthorsSame(before: map<nat, Decider>, after: map<nat, Decider>)
    requires AuthorsDiffer(before) && after.Keys == before.Keys
    requires forall n :: n in before ==> after[n].diff == before[n].diff && after[n].wrote == before[n].wrote
    ensures AuthorsDiffer(after)
  {
    forall name, m, n | m in after && n in after && m != n && WroteTo(after[m], name) && WroteTo(after[n], name)
      ensures after[m].wrote != after[n].wrote
    {
      assert WroteTo(before[m], name) && WroteTo(before[n], name);
    }
  }

  lemma SwapRows(env: Env, keeps: string -> string, s: Site, n: nat)
    requires RowsOk(env, keeps, s.g) && n in s.calls && s.calls[n].id in s.g.rows
    requires s.g.rows[s.calls[n].id].status == PendingHitl && CallOk(env, keeps, s, n) && s.calls[n].phase.Swapping?
    requires s.calls[n].to != PendingHitl
    ensures RowsGrow(s.g, Swap(s, n).g) && RowsOk(env, keeps, Swap(s, n).g)
  {
    hide Kept, WriterFits, SpecPath;
  }

  lemma WinnerOk(env: Env, keeps: string -> string, s: Site, n: nat)
    requires RowsOk(env, keeps, s.g) && n in s.calls && s.calls[n].id in s.g.rows
    requires s.g.rows[s.calls[n].id].status == PendingHitl && CallOk(env, keeps, s, n) && s.calls[n].phase.Swapping?
    ensures CallOk(env, keeps, Swap(s, n), n)
    ensures s.calls[n].to == Approved && s.g.rows[s.calls[n].id].Kind().Declarative() ==>
              ApprovedBy(Swap(s, n), s.calls[n].id, n)
  {
    hide Kept, WriterFits, SpecPath;
  }

  lemma LoserOk(env: Env, keeps: string -> string, s: Site, n: nat)
    requires n in s.calls && CallOk(env, keeps, s, n) && s.calls[n].phase.Swapping?
    requires s.calls[n].id in s.g.rows ==> s.g.rows[s.calls[n].id].status != PendingHitl
    ensures CallOk(env, keeps, Swap(s, n), n) && Swap(s, n).g == s.g && Swap(s, n).calls[n].phase.Lost?
  {
    hide Kept, WriterFits, SpecPath;
  }

  lemma WinnerApproves(env: Env, keeps: string -> string, s: Site, n: nat)
    requires ApprovalsHaveCalls(s) && n in s.calls && s.calls[n].phase.Swapping? && CallsOk(env, keeps, s)
    requires s.calls[n].id in s.g.rows && s.g.rows[s.calls[n].id].status == PendingHitl
    requires RowsGrow(s.g, Swap(s, n).g)
    requires s.calls[n].to == Approved && s.g.rows[s.calls[n].id].Kind().Declarative() ==>
               ApprovedBy(Swap(s, n), s.calls[n].id, n)
    ensures ApprovalsHaveCalls(Swap(s, n))
  {
    hide CallsOk, SpecPath;
    var t, mine := Swap(s, n), s.calls[n].id;
    forall id | id in t.g.rows && t.g.rows[id].status == Approved && t.g.rows[id].Kind().Declarative()
      ensures HasApprover(t, id)
    {
      if id == mine {
        assert ApprovedBy(t, id, n);
      } else {
        assert t.g.rows[id] == s.g.rows[id] && HasApprover(s, id);
        var m :| m in s.calls && ApprovedBy(s, id, m);
        assert ApprovedBy(t, id, m);
      }
    }
  }

  // ---- Every run ----

  /** A swap never aims at the pending status: the transition was checked when the row was read. */
  predicate Aimed(s: Site) {
    forall n :: n in s.calls && s.calls[n].phase.Swapping? ==> s.calls[n].to != PendingHitl
  }

  lemma AimStays(env: Env, s: Site, e: Event)
    requires Aimed(s) && forall n :: n in s.calls && s.calls[n].phase.Applying? ==> s.calls[n].to == Approved
    ensures Aimed(Happen(env, s, e))
  {
    hide RegistryRace.Happen, RegistryRace.WellTyped, ValidDiff;
  }

  lemma ApplyingApproves(env: Env, keeps: string -> string, s: Site)
    requires CallsOk(env, keeps, s)
    ensures forall n :: n in s.calls && s.calls[n].phase.Applying? ==> s.calls[n].to == Approved
  {
    hide Kept, WriterFits;
    forall n | n in s.calls && s.calls[n].phase.Applying?
      ensures s.calls[n].to == Approved
    {
      assert CallOk(env, keeps, s, n);
    }
  }

  lemma HappenKeeps(env: Env, keeps: string -> string, s: Site, e: Event)
    requires Inv(env, keeps, s) && Aimed(s)
    requires (e.Creates? ==> Kept(env, keeps, e.diff)) && (e.Begins? && e.edited.Some? ==> Kept(env, keeps, e.edited.value))
    ensures Inv(env, keeps, Happen(env, s, e)) && Aimed(Happen(env, s, e))
  {
    hide Inv, Kept, Read, Apply, Swap;
    Parts(env, keeps, s);
    ApplyingApproves(env, keeps, s);
    AimStays(env, s, e);
    match e
    case Creates(_, _, _, _, _, _) => CreateKeeps(env, keeps, s, e);
    case NotesDryRun(_, _) => NoteKeeps(env, keeps, s, e);
    case Begins(_, _, _, _, _, _) => BeginKeeps(env, keeps, s, e);
    case Crashes(n) => CrashKeeps(env, keeps, s, n);
    case Acts(n) =>
      if n in s.calls {
        if s.calls[n].phase.Reading? { ReadKeeps(env, keeps, s, n); }
        else if s.calls[n].phase.Swapping? { SwapKeeps(env, keeps, s, n); }
        else if Writing(s.calls[n]) { ApplyKeeps(env, keeps, s, n); }
      }
  }

  lemma {:induction false} RunKeeps(env: Env, keeps: string -> string, s: Site, es: seq<Event>)
    requires Inv(env, keeps, s) && Aimed(s) && Anchored(env, keeps, es)
    ensures Inv(env, keeps, Run(env, s, es))
    decreases |es|
  {
    hide Inv, Happen, Kept, Aimed;
    if es != [] {
      assert es[0] in es;
      HappenKeeps(env, keeps, s, es[0]);
      RunKeeps(env, keeps, Happen(env, s, es[0]), es[1..]);
    }
  }

  // ---- Main result ----

  /** An approved declarative proposal's effective diff stands in its profile's chain under its version. */
  predicate InChain(s: Site, id: string)
    requires id in s.g.rows
  {
    var row := s.g.rows[id];
    var diff := ProposalRuns.EffectiveDiff(row);
    && diff.Declarative() && row.appliedVersion.Some?
    && RegistryRace.Step(row.appliedVersion.value, Some(diff)) in RaceOf(s, diff.profile).flips
  }

  predicate ApprovedFor(row: Proposal, name: string) {
    && row.status == Approved && row.Kind().Declarative()
    && ProposalRuns.EffectiveDiff(row).Declarative() && ProposalRuns.EffectiveDiff(row).profile == name
  }

  /** A chain entry's author: it won, and the entry is its proposal's; or it is still on the way, crashed, or
      lost the swap, and the entry is nobody's. */
  predicate Accounted(s: Site, name: string, step: RegistryRace.Step, n: nat) {
    && n in s.calls && Wrote(s, n, name, step)
    && if s.calls[n].phase.Won? then ApprovedBy(s, s.calls[n].id, n)
       else
         && (s.calls[n].phase.Applying? || s.calls[n].phase.Swapping? || s.calls[n].phase.Lost? || s.calls[n].phase.Crashed?)
         && forall id :: id in s.g.rows && ApprovedFor(s.g.rows[id], name) ==>
              s.g.rows[id].appliedVersion != Some(step.version)
  }

  /** Under every interleaving of decisions and their apply steps, with crashes: each profile's visible versions
      are one chain; every approved declarative proposal is in it under its applied version; and every other
      entry belongs to a call that lost the swap, crashed, or has not reached it. */
  lemma OverlappedDecisions(env: Env, keeps: string -> string, es: seq<Event>)
    requires Anchored(env, keeps, es)
    ensures
      var s := Run(env, START, es);
      && (forall name :: name in s.races && ValidComponent(name) ==>
            RegistryRace.Chained(RepoOf(env, name), s.races[name]))
      && (forall id :: id in s.g.rows && s.g.rows[id].status == Approved && s.g.rows[id].Kind().Declarative() ==>
            InChain(s, id))
      && (forall name, i :: name in s.races && 0 <= i < |s.races[name].flips| && s.races[name].flips[i].cause.Some? ==>
            exists n :: Accounted(s, name, s.races[name].flips[i], n))
  {
    hide Run, RegistryRace.Chained;
    StartKept(env, keeps);
    RunKeeps(env, keeps, START, es);
    Concludes(env, keeps, Run(env, START, es));
  }

  lemma StartKept(env: Env, keeps: string -> string)
    ensures Inv(env, keeps, START) && Aimed(START)
  {
  }

  lemma Concludes(env: Env, keeps: string -> string, s: Site)
    requires Inv(env, keeps, s)
    ensures forall name :: name in s.races && ValidComponent(name) ==>
              RegistryRace.Chained(RepoOf(env, name), s.races[name])
    ensures forall id :: id in s.g.rows && s.g.rows[id].status == Approved && s.g.rows[id].Kind().Declarative() ==>
              InChain(s, id)
    ensures forall name, i :: name in s.races && 0 <= i < |s.races[name].flips| && s.races[name].flips[i].cause.Some? ==>
              exists n :: Accounted(s, name, s.races[name].flips[i], n)
  {
    hide Kept, CallOk, WriterFits, WritersAreCalls, RowsOk;
    assert forall name :: name in s.races && ValidComponent(name) ==> RaceOk(env, keeps, name, s.races[name]);
    forall id | id in s.g.rows && s.g.rows[id].status == Approved && s.g.rows[id].Kind().Declarative()
      ensures InChain(s, id)
    {
      assert HasApprover(s, id);
      var n :| n in s.calls && ApprovedBy(s, id, n);
      AuthorsInChain(env, keeps, s, n);
    }
    forall name, i | name in s.races && 0 <= i < |s.races[name].flips| && s.races[name].flips[i].cause.Some?
      ensures exists n :: Accounted(s, name, s.races[name].flips[i], n)
    {
      var step := s.races[name].flips[i];
      assert HasAuthor(s, name, step);
      var n :| n in s.calls && Wrote(s, n, name, step);
      AccountedFor(env, keeps, s, name, step, n);
    }
  }

  lemma AuthorsInChain(env: Env, keeps: string -> string, s: Site, n: nat)
    requires n in s.calls && CallOk(env, keeps, s, n) && s.calls[n].wrote.Some?
    ensures s.calls[n].diff.Some? && s.calls[n].diff.value.Declarative()
    ensures RegistryRace.Step(s.calls[n].wrote.value, s.calls[n].diff) in RaceOf(s, s.calls[n].diff.value.profile).flips
  {
    hide Kept, WriterFits;
  }

  lemma AccountedFor(env: Env, keeps: string -> string, s: Site, name: string, step: RegistryRace.Step, n: nat)
    requires Inv(env, keeps, s) && n in s.calls && Wrote(s, n, name, step)
    ensures Accounted(s, name, step, n)
  {
    hide Kept, CallOk, WriterFits, WritersAreCalls, RowsOk, RaceOk, FlipsHaveAuthors;
    PhaseOfAuthor(env, keeps, s, n);
    if !s.calls[n].phase.Won? {
      forall id | id in s.g.rows && ApprovedFor(s.g.rows[id], name)
        ensures s.g.rows[id].appliedVersion != Some(step.version)
      {
        assert HasApprover(s, id);
        var m :| m in s.calls && ApprovedBy(s, id, m);
        assert WroteTo(s.calls[m], name) && WroteTo(s.calls[n], name);
      }
    }
  }

  lemma PhaseOfAuthor(env: Env, keeps: string -> string, s: Site, n: nat)
    requires n in s.calls && CallOk(env, keeps, s, n) && s.calls[n].wrote.Some?
    ensures s.calls[n].phase.Won? ==> ApprovedBy(s, s.calls[n].id, n)
    ensures !s.calls[n].phase.Reading? && !s.calls[n].phase.Stopped?
  {
    hide Kept, WriterFits;
  }

  // ---- Where the plain fold fails ----

  /** Nobody else acting, a call's apply runs to its end. */
  lemma {:induction false} Finishes(env: Env, s: Site, n: nat, name: string) returns (es: seq<Event>, t: Site)
    requires n in s.calls && Writing(s.calls[n]) && s.calls[n].diff.value.profile == name && name in s.races
    requires RegistryRace.WellTyped(s.races[name]) && WriterFits(s.races[name], n, s.calls[n])
    ensures forall e :: e in es ==> e == Acts(n)
    ensures t == Run(env, s, es) && t.g == s.g && n in t.calls && t.calls == s.calls[n := t.calls[n]]
    ensures name in t.races && t.races == s.races[name := t.races[name]] && RegistryRace.WellTyped(t.races[name])
    ensures
      var (q, after) := RegistryRaceLimits.Solo(RepoOf(env, name), s.races[name].p, s.races[name].writers[n]);
      && t.races[name].p == q && t.races[name].writers == s.races[name].writers[n := after]
      && (after.pc.Done? || after.pc.Failed?)
      && (after.pc.Done? ==> t.calls[n].phase == Swapping && t.calls[n].wrote == Some(after.next))
      && (after.pc.Failed? ==> t.calls[n].phase == Stopped)
    ensures t.calls[n].(phase := Swapping, wrote := None) == s.calls[n].(phase := Swapping, wrote := None)
    decreases RegistryRace.Rank(s.races[name].writers[n].pc)
  {
    hide RegistryRace.Happen, RegistryRace.Next, RegistryRace.FlipOf;
    var race := s.races[name];
    RegistryRaceLimits.OneStep(RepoOf(env, name), race, n);
    StepFacts(RepoOf(env, name), race, n);
    var s1 := Happen(env, s, Acts(n));
    var after := s1.races[name].writers[n];
    assert s1.races[name] == RegistryRace.Happen(RepoOf(env, name), race, RegistryRace.Advance(n));
    if after.pc.Done? || after.pc.Failed? {
      es, t := [Acts(n)], s1;
      assert es[1..] == [];
    } else {
      var rest;
      rest, t := Finishes(env, s1, n, name);
      es := [Acts(n)] + rest;
      assert es[1..] == rest;
    }
  }

  lemma {:induction false} RunTwice(env: Env, s: Site, es: seq<Event>, more: seq<Event>)
    ensures Run(env, s, es + more) == Run(env, Run(env, s, es), more)
    decreases |es|
  {
    hide Happen;
    if es == [] {
      assert es + more == more;
    } else {
      assert (es + more)[0] == es[0] && (es + more)[1..] == es[1..] + more;
      RunTwice(env, Happen(env, s, es[0]), es[1..], more);
    }
  }

  const BOSS := Identity("boss", {Admin})
  const CHANGE := ProfileChange("p", "a.json", JBool(true))
  const ENV := Env(map["p" := map["k.json" := JBool(true)]], false)

  /** One proposal, and two decisions that have read it. */
  function Opening(): seq<Event> {
    [Creates("x", ProfileChangeKind, "s", "r", CHANGE, "c"), Begins(0, "x", Approved, BOSS, None, None),
     Begins(1, "x", Approved, BOSS, None, None), Acts(0), Acts(1)]
  }

  function Approving(phase: Phase): Decider {
    Decider("x", Approved, BOSS, None, None, phase, if phase.Reading? then None else Some(CHANGE), None)
  }

  lemma Opens(s: Site)
    requires s == Run(ENV, START, Opening())
    ensures s.calls == map[0 := Approving(Applying), 1 := Approving(Applying)]
    ensures "x" in s.g.rows && s.g.rows["x"].status == PendingHitl && s.g.rows["x"].diff == CHANGE
    ensures s.g.rows["x"].edited == None && s.g.audit == [Audit("x", None, PendingHitl, "c", Some("created"))]
    ensures s.races == map["p" := RegistryRace.Race(
              FRESH, map[0 := RegistryRace.Fresh(CHANGE, "boss"), 1 := RegistryRace.Fresh(CHANGE, "boss")], [])]
  {
    var es := Opening();
    var s1 := Created();
    var d := Approving(Reading);
    var s2 := s1.(calls := map[0 := d]);
    var s3 := s1.(calls := map[0 := d, 1 := d]);
    assert es == [es[0]] + ([es[1]] + ([es[2]] + ([es[3]] + ([es[4]] + []))));
    RunOneEvent(START, es[0], [es[1]] + ([es[2]] + ([es[3]] + ([es[4]] + []))));
    RunOneEvent(s1, es[1], [es[2]] + ([es[3]] + ([es[4]] + [])));
    RunOneEvent(s2, es[2], [es[3]] + ([es[4]] + []));
    RunOneEvent(s3, es[3], [es[4]] + []);
    hide Refusal, Create;
    ProposalCreated();
    assert Happen(ENV, START, es[0]) == s1;
    assert Happen(ENV, s1, es[1]) == s2 && Happen(ENV, s2, es[2]) == s3;
    Reads(s3, 0);
    var s4 := Happen(ENV, s3, es[3]);
    Reads(s4, 1);
    RunOneEvent(s4, es[4], []);
  }

  lemma ProposalCreated()
    ensures
      var g := Created().g;
      && "x" in g.rows && g.rows["x"] == Proposal(CHANGE, PendingHitl, None, None, None, None, None, None)
      && g.audit == [Audit("x", None, PendingHitl, "c", Some("created"))]
  {
    NotBlank();
  }

  lemma NotBlank()
    ensures !Blank("s") && !Blank("r")
  {
    StripKeeps("s", 's');
    StripKeeps("r", 'r');
  }

  lemma Reads(s: Site, n: nat)
    requires n in s.calls && s.calls[n] == Approving(Reading)
    requires "x" in s.g.rows && s.g.rows["x"].status == PendingHitl && s.g.rows["x"].diff == CHANGE
    ensures
      var race := RaceOf(s, "p");
      Happen(ENV, s, Acts(n)) ==
        s.(races := s.races["p" := race.(writers := race.writers[n := RegistryRace.Fresh(CHANGE, "boss")])],
           calls := s.calls[n := Approving(Applying)])
  {
  }

  function Created(): Site {
    START.(g := Create(NOTHING, "x", ProfileChangeKind, "s", "r", CHANGE, "c").0)
  }

  lemma RunOneEvent(s: Site, e: Event, rest: seq<Event>)
    ensures Run(ENV, s, [e] + rest) == Run(ENV, Happen(ENV, s, e), rest)
  {
    assert ([e] + rest)[1..] == rest;
  }

  /** From nothing, one proposal decided twice at once: both calls apply it, one of them wins. The profile has
      two new versions, one approval behind them: the chain accounts for both, the fold only for one. */
  lemma TwiceApplied() returns (es: seq<Event>)
    ensures Anchored(ENV, (name: string) => "k.json", es)
    ensures
      var s := Run(ENV, START, es);
      && 0 in s.calls && 1 in s.calls && s.calls[0].phase.Won? && s.calls[1].phase.Lost?
      && "p" in s.races && s.races["p"].p.pointer == Some(VersionAt(2))
      && ProposalRuns.ApprovedDiffs(s.g.audit, s.g.rows, "p") == [CHANGE]
  {
    hide Run, RegistryRace.Happen, RegistryRaceLimits.Solo, ApplyDeclarative, VersionAt, Happen, Opening;
    hide ProposalRuns.ProfileInv, ProposalRuns.CanApply, ProposalRuns.ApprovedDiffs, RegistryRace.Next;
    var s0 := Run(ENV, START, Opening());
    Opens(s0);
    var repo := RepoOf(ENV, "p");
    ChangeApplies(repo);
    var e0, t0 := Finishes(ENV, s0, 0, "p");
    RegistryRaceLimits.SoloRunIsApply(repo, FRESH, CHANGE, "boss");
    var q := t0.races["p"].p;
    AppliesAgain(repo, q);
    var e1, t1 := Finishes(ENV, t0, 1, "p");
    RegistryRaceLimits.SoloRunIsApply(repo, q, CHANGE, "boss");
    var last := [Acts(0)] + ([Acts(1)] + []);
    BothSwap(t1);
    RunOneEvent(t1, Acts(0), [Acts(1)] + []);
    RunOneEvent(Happen(ENV, t1, Acts(0)), Acts(1), []);
    NoMoreEvents(Happen(ENV, Happen(ENV, t1, Acts(0)), Acts(1)));
    es := Opening() + (e0 + (e1 + last));
    RunTwice(ENV, START, Opening(), e0 + (e1 + last));
    RunTwice(ENV, s0, e0, e1 + last);
    RunTwice(ENV, t0, e1, last);
    OnlyActs(e0, e1, last);
  }

  lemma NoMoreEvents(s: Site)
    ensures Run(ENV, s, []) == s
  {
  }

  lemma OnlyActs(e0: seq<Event>, e1: seq<Event>, last: seq<Event>)
    requires (forall e :: e in e0 ==> e == Acts(0)) && (forall e :: e in e1 ==> e == Acts(1))
    requires last == [Acts(0)] + ([Acts(1)] + [])
    ensures Anchored(ENV, (name: string) => "k.json", Opening() + (e0 + (e1 + last)))
  {
    var keeps := (name: string) => "k.json";
    assert "k.json" in SeedFiles(RepoOf(ENV, "p"));
    assert Kept(ENV, keeps, CHANGE);
  }

  lemma ChangeApplies(repo: Option<Files>)
    requires repo == RepoOf(ENV, "p")
    ensures
      var (q, applied) := ApplyDeclarative(FRESH, repo, CHANGE, "boss");
      applied.Ok? && ProposalRuns.ProfileInv(q, repo, [CHANGE])
  {
    hide ApplyDeclarative, ProposalRuns.ProfileInv;
    assert ValidComponent("p") && ValidComponent("a.json") && ValidComponent("k.json");
    assert ProposalRuns.ProfileInv(FRESH, repo, []) by { FreshProfile(repo); }
    ProposalRuns.ApplyInv(FRESH, repo, [], CHANGE, "boss");
    assert [] + [CHANGE] == [CHANGE];
  }

  lemma FreshProfile(repo: Option<Files>)
    ensures ProposalRuns.ProfileInv(FRESH, repo, [])
  {
  }

  lemma AppliesAgain(repo: Option<Files>, q: Profile)
    requires ProposalRuns.ProfileInv(q, repo, [CHANGE])
    ensures
      var (r, applied) := ApplyDeclarative(q, repo, CHANGE, "boss");
      applied.Ok? && r.pointer == Some(VersionAt(2))
  {
    hide ApplyDeclarative, VersionAt;
    assert ValidComponent("p") && ValidComponent("a.json");
    ProposalRuns.ApplyInv(q, repo, [CHANGE], CHANGE, "boss");
    HasPointer(q, repo, [CHANGE]);
    var r := ApplyDeclarative(q, repo, CHANGE, "boss").0;
    HasPointer(r, repo, [CHANGE] + [CHANGE]);
  }

  lemma HasPointer(p: Profile, repo: Option<Files>, ds: seq<Diff>)
    requires (forall d :: d in ds ==> d.Declarative()) && ProposalRuns.ProfileInv(p, repo, ds) && ds != []
    ensures p.pointer == Some(VersionAt(|ds|))
  {
  }

  /** The first swap wins, the second loses. */
  lemma BothSwap(s: Site)
    requires 0 in s.calls && 1 in s.calls && "x" in s.g.rows
    requires s.calls[0].(phase := Swapping, wrote := None) == s.calls[1].(phase := Swapping, wrote := None) == Approving(Swapping)
    requires s.calls[0].phase.Swapping? && s.calls[1].phase.Swapping?
    requires s.g.rows["x"].status == PendingHitl && s.g.rows["x"].diff == CHANGE && s.g.rows["x"].edited == None
    requires s.g.audit == [Audit("x", None, PendingHitl, "c", Some("created"))]
    ensures
      var t := Happen(ENV, Happen(ENV, s, Acts(0)), Acts(1));
      && t.races == s.races && 0 in t.calls && 1 in t.calls && t.calls[0].phase.Won? && t.calls[1].phase.Lost?
      && ProposalRuns.ApprovedDiffs(t.g.audit, t.g.rows, "p") == [CHANGE]
  {
    hide SpecPath;
    var t := Happen(ENV, Happen(ENV, s, Acts(0)), Acts(1));
    var created := Audit("x", None, PendingHitl, "c", Some("created"));
    var approved := Audit("x", Some(PendingHitl), Approved, "boss", None);
    assert t.g.audit == [created] + [approved];
    ProposalRuns.ApprovalsAppend([created], approved, t.g.rows, "p");
    ProposalRuns.ApprovalsAppend([], created, t.g.rows, "p");
    assert [] + [created] == [created];
  }
}
