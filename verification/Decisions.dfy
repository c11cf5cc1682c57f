/** Who may decide a proposal, when a decision goes through, and what it leaves: for every run. */
module Decisions {
  import opened Wrappers
  import opened Text
  import opened Versions
  import opened Identity
  import opened RegistrySpec
  import opened ProposalSpec
  import opened ProposalRuns

  /** A diff with its required fields filled. */
  predicate Complete(d: Diff) {
    match d
    case ProfileChange(profile, file, _) => profile != "" && file != ""
    case ReasonCodeAdd(profile, code, description) => profile != "" && code != "" && description != ""
    case StandardChange(target, description, _) => target != "" && description != ""
    case CheckAdd(checkId, severity, description) =>
      checkId != "" && description != "" && (severity == "required" || severity == "advisory")
  }

  predicate SameKind(d: Diff, e: Diff) {
    && (d.ProfileChange? <==> e.ProfileChange?) && (d.ReasonCodeAdd? <==> e.ReasonCodeAdd?)
    && (d.StandardChange? <==> e.StandardChange?)
  }

  predicate Speaks(reason: Option<string>) {
    reason.Some? && exists c :: c in reason.value && !IsSpace(c)
  }

  /** The policy on a row: approval and rejection by a standard approver or an admin; a reason for a rejection; an
      edit only on approval, complete and of the proposal's kind; where required, a dry run on record. */
  predicate Entitled(env: Env, row: Proposal, to: Status, actor: Identity, reason: Option<string>, edited: Option<Diff>) {
    && to != PendingHitl
    && (to == Approved || to == Rejected ==> StandardApprover in actor.roles || Admin in actor.roles)
    && (to == Rejected ==> Speaks(reason))
    && (edited.Some? ==> to == Approved && Complete(edited.value) && SameKind(edited.value, row.diff))
    && (to == Approved && row.diff.Declarative() && env.requireDryRun ==> row.dryRun.Some?)
  }

  /** So may a pending proposal be decided. */
  predicate MayDecide(env: Env, g: Gov, id: string, to: Status, actor: Identity, reason: Option<string>,
                      edited: Option<Diff>)
  {
    id in g.rows && g.rows[id].status == PendingHitl && Entitled(env, g.rows[id], to, actor, reason, edited)
  }

  lemma RefusedIff(env: Env, g: Gov, id: string, to: Status, actor: Identity, reason: Option<string>, edited: Option<Diff>)
    ensures Refusal(env, g, id, to, actor, reason, edited).None? <==> MayDecide(env, g, id, to, actor, reason, edited)
  {
    hide HasReason;
    HasReasonIff(reason);
  }

  /** What a decision that went through leaves, the registry aside. */
  predicate Decided(g: Gov, h: Gov, id: string, to: Status, actor: Identity, reason: Option<string>, edited: Option<Diff>)
    requires id in g.rows && id in h.rows
  {
    var before, after := g.rows[id], h.rows[id];
    && h.rows == g.rows[id := after] && h.audit == g.audit + [Audit(id, Some(PendingHitl), to, actor.id, reason)]
    && after.status == to && after.diff == before.diff && after.dryRun == before.dryRun
    && after.edited == (if edited.Some? then edited else before.edited)
    && after.reason == (if reason.Some? then reason else before.reason)
    && after.decidedBy == (if to == Withdrawn then before.decidedBy else Some(actor.id))
    && (to == Approved && !before.diff.Declarative() ==>
          h.specs == g.specs[id := edited.GetOr(before.diff)] && after.specPath == Some("proposal_specs/" + id + ".md"))
    && (to != Approved || before.diff.Declarative() ==> h.specs == g.specs && after.specPath == before.specPath)
  }

  predicate Applies(g: Gov, id: string, to: Status)
    requires id in g.rows
  {
    to == Approved && g.rows[id].diff.Declarative()
  }

  lemma KindOfDiff(g: Gov, id: string, edited: Option<Diff>)
    requires id in g.rows && (edited.Some? ==> SameKind(edited.value, g.rows[id].diff))
    ensures g.rows[id].Kind().Declarative() <==> g.rows[id].diff.Declarative()
    ensures edited.GetOr(g.rows[id].diff).Declarative() <==> g.rows[id].diff.Declarative()
  {
  }

  lemma PlainDecision(env: Env, g: Gov, id: string, to: Status, actor: Identity, reason: Option<string>, edited: Option<Diff>)
    requires MayDecide(env, g, id, to, actor, reason, edited) && !Applies(g, id, to)
    ensures
      var (h, r) := Decide(env, g, id, to, actor, reason, edited);
      && r.Ok? && h.profiles == g.profiles && id in h.rows && r.value == h.rows[id]
      && Decided(g, h, id, to, actor, reason, edited)
  {
    hide Speaks, Complete, Refusal;
    RefusedIff(env, g, id, to, actor, reason, edited);
    KindOfDiff(g, id, edited);
  }

  lemma ApplyingDecision(env: Env, g: Gov, id: string, actor: Identity, reason: Option<string>, edited: Option<Diff>)
    requires MayDecide(env, g, id, Approved, actor, reason, edited) && Applies(g, id, Approved)
    ensures
      var diff := edited.GetOr(g.rows[id].diff);
      var (h, r) := Decide(env, g, id, Approved, actor, reason, edited);
      && diff.Declarative()
      && var (p, applied) := ApplyDeclarative(ProfileOf(g, diff.profile), RepoOf(env, diff.profile), diff, actor.id);
         && h.profiles == g.profiles[diff.profile := p] && (r.Ok? <==> applied.Ok?)
         && (r.Err? ==> r.error == applied.error && h.rows == g.rows && h.audit == g.audit && h.specs == g.specs)
         && (r.Ok? ==> id in h.rows && r.value == h.rows[id] && r.value.appliedVersion == Some(applied.value)
                       && Decided(g, h, id, Approved, actor, reason, edited))
  {
    hide Speaks, Complete, Refusal, ApplyDeclarative;
    RefusedIff(env, g, id, Approved, actor, reason, edited);
    KindOfDiff(g, id, edited);
  }

  /** In every reachable state an approval of a declarative proposal goes through exactly if the policy allows
      it and the diff can be applied; the version it reports is the profile's new one. */
  lemma ApprovalSucceedsIff(
    env: Env, es: seq<Event>, id: string, actor: Identity, reason: Option<string>, edited: Option<Diff>)
    requires var g := Run(env, NOTHING, es); id in g.rows && g.rows[id].diff.Declarative()
    ensures
      var g := Run(env, NOTHING, es);
      var diff := edited.GetOr(g.rows[id].diff);
      var (h, r) := Decide(env, g, id, Approved, actor, reason, edited);
      && (r.Ok? <==>
            && MayDecide(env, g, id, Approved, actor, reason, edited)
            && diff.Declarative() && CanApply(ProfileOf(g, diff.profile), RepoOf(env, diff.profile), diff))
      && (r.Ok? ==> EffectiveDiff(r.value) == diff && r.value.appliedVersion == ProfileOf(h, diff.profile).pointer
                    && forall other :: other != diff.profile ==> ProfileOf(h, other) == ProfileOf(g, other))
  {
    hide ApplyDeclarative, CanApply, VersionAt, Folded, ApprovedDiffs, Run, ProfileInv, Speaks, Complete, Decide;
    var g := Run(env, NOTHING, es);
    if MayDecide(env, g, id, Approved, actor, reason, edited) {
      StartInv(env);
      RunInv(env, NOTHING, es);
      ApplyingDecision(env, g, id, actor, reason, edited);
      var diff := edited.GetOr(g.rows[id].diff);
      PointsAtApplied(env, g, diff, actor.id);
      NeverEdited(env, g, id);
    } else {
      NotAllowed(env, g, id, Approved, actor, reason, edited);
    }
  }

  lemma NeverEdited(env: Env, g: Gov, id: string)
    requires ProposalRuns.Inv(env, g) && id in g.rows && g.rows[id].status == PendingHitl
    ensures g.rows[id].edited == None
  {
  }

  lemma PointsAtApplied(env: Env, g: Gov, diff: Diff, actor: string)
    requires ProposalRuns.Inv(env, g) && diff.Declarative()
    ensures
      var p, repo := ProfileOf(g, diff.profile), RepoOf(env, diff.profile);
      var (q, applied) := ApplyDeclarative(p, repo, diff, actor);
      && (applied.Ok? <==> CanApply(p, repo, diff))
      && (applied.Ok? ==> q.pointer == Some(applied.value))
  {
    hide ApplyDeclarative, CanApply, VersionAt, Folded, ApprovedDiffs, ProfileInv;
    var p, repo := ProfileOf(g, diff.profile), RepoOf(env, diff.profile);
    var ds := ApprovedDiffs(g.audit, g.rows, diff.profile);
    ApplyInv(p, repo, ds, diff, actor);
    var (q, applied) := ApplyDeclarative(p, repo, diff, actor);
    if applied.Ok? { PointsAtLast(q, repo, ds, diff); }
  }

  lemma NotAllowed(env: Env, g: Gov, id: string, to: Status, actor: Identity, reason: Option<string>, edited: Option<Diff>)
    requires !MayDecide(env, g, id, to, actor, reason, edited)
    ensures Decide(env, g, id, to, actor, reason, edited).1.Err? && Decide(env, g, id, to, actor, reason, edited).0 == g
    ensures
      var e := Decide(env, g, id, to, actor, reason, edited).1.error;
      && (e == StoreError <==> id !in g.rows)
      && (e == ValidationError <==>
            && id in g.rows && g.rows[id].status == PendingHitl && to == Approved && edited.Some?
            && !(Complete(edited.value) && SameKind(edited.value, g.rows[id].diff)))
      && (e == StoreError || e == ValidationError || e == PolicyError)
  {
    hide Speaks, MayDecide, HasReason;
    RefusedIff(env, g, id, to, actor, reason, edited);
  }

  /** Every decision, in every reachable state: it goes through if and only if the policy allows it and, where
      it approves a declarative proposal, the diff can be applied. It then leaves the decision on the row and
      one audit entry; otherwise rows, audit and specs are as before. */
  lemma DecisionSucceedsIff(env: Env, es: seq<Event>, id: string, to: Status, actor: Identity, reason: Option<string>,
                            edited: Option<Diff>)
    ensures
      var g := Run(env, NOTHING, es);
      var (h, r) := Decide(env, g, id, to, actor, reason, edited);
      && (r.Ok? <==>
            && MayDecide(env, g, id, to, actor, reason, edited)
            && (Applies(g, id, to) ==>
                  var diff := edited.GetOr(g.rows[id].diff);
                  diff.Declarative() && CanApply(ProfileOf(g, diff.profile), RepoOf(env, diff.profile), diff)))
      && (r.Ok? ==> id in h.rows && r.value == h.rows[id] && Decided(g, h, id, to, actor, reason, edited))
      && (r.Ok? && !Applies(g, id, to) ==> h.profiles == g.profiles)
      && (r.Err? ==> h.rows == g.rows && h.audit == g.audit && h.specs == g.specs)
  {
    hide ApplyDeclarative, CanApply, Run, Speaks, Complete, Decide, Decided;
    var g := Run(env, NOTHING, es);
    if !MayDecide(env, g, id, to, actor, reason, edited) {
      NotAllowed(env, g, id, to, actor, reason, edited);
    } else if Applies(g, id, to) {
      ApplyingDecision(env, g, id, actor, reason, edited);
      ApprovalSucceedsIff(env, es, id, actor, reason, edited);
    } else {
      PlainDecision(env, g, id, to, actor, reason, edited);
    }
  }

  // ---- Where decisions come from, over whole runs ----

  /** The event decides the row as it now stands, and the policy allowed it. */
  predicate Behind(env: Env, g: Gov, e: Event, id: string, row: Proposal) {
    && e.DecideCall? && e.id == id && e.to == row.status && MayDecide(env, g, id, e.to, e.actor, e.reason, e.edited)
    && row.diff == g.rows[id].diff && row.edited == e.edited
    && (row.status != Withdrawn ==> row.decidedBy == Some(e.actor.id))
    && (e.reason.Some? ==> row.reason == e.reason)
  }

  /** The event created the row's proposal, complete, of its kind and with a summary and a rationale. */
  predicate Creates(e: Event, id: string, row: Proposal) {
    && e.CreateCall? && e.id == id && e.diff == row.diff && e.kind == KindOf(row.diff) && Complete(row.diff)
    && Speaks(Some(e.summary)) && Speaks(Some(e.rationale))
  }

  /** Where a row comes from: it was created by an event of the run and, unless pending, decided by a later
      one that the policy allowed. */
  ghost predicate Explained(env: Env, es: seq<Event>, id: string, row: Proposal) {
    && (exists i :: 0 <= i < |es| && Creates(es[i], id, row))
    && (row.status != PendingHitl ==>
          exists k :: 0 <= k < |es| && Behind(env, Run(env, NOTHING, es[..k]), es[k], id, row))
    && (row.status == PendingHitl ==> row.edited == None && row.decidedBy == None && row.reason == None)
  }

  lemma {:induction false} RunLast(env: Env, g: Gov, es: seq<Event>)
    requires es != []
    ensures Run(env, g, es) == Call(env, Run(env, g, es[..|es| - 1]), es[|es| - 1]).0
    decreases |es|
  {
    hide Call;
    if |es| > 1 {
      RunLast(env, Call(env, g, es[0]).0, es[1..]);
      assert es[1..][..|es| - 2] == es[..|es| - 1][1..];
    }
  }

  lemma ExplainedLater(env: Env, es: seq<Event>, e: Event, id: string, row: Proposal, after: Proposal)
    requires Explained(env, es, id, row) && after == row.(dryRun := after.dryRun)
    ensures Explained(env, es + [e], id, after)
  {
    hide MayDecide, Complete, Speaks, Run;
    var longer := es + [e];
    var i :| 0 <= i < |es| && Creates(es[i], id, row);
    assert Creates(longer[i], id, after);
    if row.status != PendingHitl {
      var k :| 0 <= k < |es| && Behind(env, Run(env, NOTHING, es[..k]), es[k], id, row);
      assert longer[..k] == es[..k] && longer[k] == es[k];
      assert Behind(env, Run(env, NOTHING, longer[..k]), longer[k], id, after);
    }
  }

  lemma CreateEffect(g: Gov, e: Event)
    requires e.CreateCall?
    ensures
      var (h, r) := Create(g, e.id, e.kind, e.summary, e.rationale, e.diff, e.creator);
      && (r.Ok? <==> Complete(e.diff) && KindOf(e.diff) == e.kind && Speaks(Some(e.summary)) && Speaks(Some(e.rationale))
                     && e.id !in g.rows)
      && (r.Err? ==> h == g)
      && (r.Ok? ==> r.value == Proposal(e.diff, PendingHitl, None, None, None, None, None, None)
                    && h == g.(rows := g.rows[e.id := r.value],
                               audit := g.audit + [Audit(e.id, None, PendingHitl, e.creator, Some("created"))]))
  {
    hide Blank;
    HasReasonIff(Some(e.summary));
    HasReasonIff(Some(e.rationale));
  }

  lemma DecideEffect(env: Env, g: Gov, e: Event)
    requires e.DecideCall?
    ensures
      var (h, r) := Decide(env, g, e.id, e.to, e.actor, e.reason, e.edited);
      && (r.Ok? ==> MayDecide(env, g, e.id, e.to, e.actor, e.reason, e.edited) && e.id in h.rows
                    && Decided(g, h, e.id, e.to, e.actor, e.reason, e.edited))
      && (r.Err? ==> h.rows == g.rows && h.audit == g.audit)
  {
    hide Decide, MayDecide, Decided;
    if !MayDecide(env, g, e.id, e.to, e.actor, e.reason, e.edited) {
      NotAllowed(env, g, e.id, e.to, e.actor, e.reason, e.edited);
    } else {
      assert e.id in g.rows by { AllowedKnown(env, g, e); }
      if Applies(g, e.id, e.to) {
        ApplyingDecision(env, g, e.id, e.actor, e.reason, e.edited);
      } else {
        PlainDecision(env, g, e.id, e.to, e.actor, e.reason, e.edited);
      }
    }
  }

  lemma AllowedKnown(env: Env, g: Gov, e: Event)
    requires e.DecideCall? && MayDecide(env, g, e.id, e.to, e.actor, e.reason, e.edited)
    ensures e.id in g.rows
  {
  }

  lemma DryRunEffect(env: Env, g: Gov, id: string, edited: Option<Diff>)
    ensures
      var (h, r) := RecordDryRun(env, g, id, edited);
      && h.profiles == g.profiles && h.audit == g.audit && h.specs == g.specs && h.rows.Keys == g.rows.Keys
      && forall k :: k in g.rows ==> h.rows[k] == g.rows[k].(dryRun := h.rows[k].dryRun)
                                     && (k != id ==> h.rows[k] == g.rows[k])
  {
    hide DryRunOf;
  }

  /** Over every run: each proposal was created complete and of its kind; each that is not pending was decided
      by a call the policy allowed, and carries that decider, that edit and that reason. */
  lemma {:induction false} EveryDecisionWasAllowed(env: Env, es: seq<Event>)
    ensures var g := Run(env, NOTHING, es); forall id :: id in g.rows ==> Explained(env, es, id, g.rows[id])
  {
    hide Run, Call, Explained;
    if es == [] {
      NothingYet(env);
    } else {
      var before, e := es[..|es| - 1], es[|es| - 1];
      assert es == before + [e];
      EveryDecisionWasAllowed(env, before);
      RunLast(env, NOTHING, es);
      var g, h := Run(env, NOTHING, before), Run(env, NOTHING, es);
      forall id | id in h.rows
        ensures Explained(env, es, id, h.rows[id])
      {
        OneMoreExplained(env, before, e, id);
      }
    }
  }

  lemma NothingYet(env: Env)
    ensures Run(env, NOTHING, []).rows == map[]
  {
  }

  lemma OneMoreExplained(env: Env, es: seq<Event>, e: Event, id: string)
    requires var g := Run(env, NOTHING, es); forall k :: k in g.rows ==> Explained(env, es, k, g.rows[k])
    requires id in Call(env, Run(env, NOTHING, es), e).0.rows
    ensures Explained(env, es + [e], id, Call(env, Run(env, NOTHING, es), e).0.rows[id])
  {
    hide Run, Decide, Create, RecordDryRun, Explained, MayDecide, Complete, Speaks;
    var g := Run(env, NOTHING, es);
    var row := Call(env, g, e).0.rows[id];
    if e.CreateCall? {
      CreateEffect(g, e);
    } else if e.DryRunCall? {
      DryRunEffect(env, g, e.id, e.edited);
    } else {
      DecideEffect(env, g, e);
    }
    if id in g.rows && row == g.rows[id].(dryRun := row.dryRun) {
      ExplainedLater(env, es, e, id, g.rows[id], row);
    } else if e.CreateCall? {
      JustCreated(env, es, e, row);
    } else {
      AllowedKnown(env, g, e);
      JustDecided(env, es, e, row);
    }
  }

  lemma JustCreated(env: Env, es: seq<Event>, e: Event, row: Proposal)
    requires e.CreateCall? && row == Proposal(e.diff, PendingHitl, None, None, None, None, None, None)
    requires Creates(e, e.id, row)
    ensures Explained(env, es + [e], e.id, row)
  {
    hide Run, Complete, Speaks;
    assert (es + [e])[|es|] == e;
  }

  lemma JustDecided(env: Env, es: seq<Event>, e: Event, row: Proposal)
    requires var g := Run(env, NOTHING, es);
             && e.DecideCall? && MayDecide(env, g, e.id, e.to, e.actor, e.reason, e.edited) && e.id in g.rows
             && Explained(env, es, e.id, g.rows[e.id])
             && var h := Decide(env, g, e.id, e.to, e.actor, e.reason, e.edited).0;
                e.id in h.rows && row == h.rows[e.id] && Decided(g, h, e.id, e.to, e.actor, e.reason, e.edited)
    ensures Explained(env, es + [e], e.id, row)
  {
    hide Run, Complete, Speaks, Decide;
    var g, longer := Run(env, NOTHING, es), es + [e];
    var i :| 0 <= i < |es| && Creates(es[i], e.id, g.rows[e.id]);
    assert Creates(longer[i], e.id, row);
    assert longer[..|es|] == es && longer[|es|] == e;
    assert Behind(env, Run(env, NOTHING, longer[..|es|]), longer[|es|], e.id, row);
  }

  // ---- The dry run an approval needs ----

  /** A recorded dry run shows the files that approving the same diff right afterwards writes. */
  lemma DryRunForecasts(env: Env, g: Gov, id: string, edited: Option<Diff>, actor: Identity, reason: Option<string>)
    requires RecordDryRun(env, g, id, edited).1.Ok?
    requires Decide(env, RecordDryRun(env, g, id, edited).0, id, Approved, actor, reason, edited).1.Ok?
    ensures
      var (h, r) := RecordDryRun(env, g, id, edited);
      var diff := edited.GetOr(g.rows[id].diff);
      && id in g.rows && id in h.rows && r.value == h.rows[id] && h.rows[id].dryRun.Some? && diff.Declarative()
      && h.rows[id].dryRun.value.evaluatedVersion == ProfileOf(g, diff.profile).pointer.GetOr("0.1")
      && Wrote(Decide(env, h, id, Approved, actor, reason, edited).0, diff.profile, h.rows[id].dryRun.value.overlay)
  {
    hide ApplyDeclarative, Effective, MayDecide, DryRunFiles, Decide, Decided, WriteVersionDir, Wrote;
    var h := RecordDryRun(env, g, id, edited).0;
    var diff := edited.GetOr(g.rows[id].diff);
    var e := DecideCall(id, Approved, actor, reason, edited);
    DecideEffect(env, h, e);
    ApplyWrites(env, h, id, actor, reason, edited);
  }

  /** The profile's current version holds just these files. */
  predicate Wrote(g: Gov, name: string, files: Files) {
    var p := ProfileOf(g, name);
    p.pointer.Some? && p.pointer.value in p.dirs && p.dirs[p.pointer.value] == files
  }

  lemma ApplyWrites(env: Env, g: Gov, id: string, actor: Identity, reason: Option<string>, edited: Option<Diff>)
    requires MayDecide(env, g, id, Approved, actor, reason, edited) && id in g.rows && Applies(g, id, Approved)
    requires Decide(env, g, id, Approved, actor, reason, edited).1.Ok?
    ensures
      var diff := edited.GetOr(g.rows[id].diff);
      && diff.Declarative()
      && var p, repo := ProfileOf(g, diff.profile), RepoOf(env, diff.profile);
         && ValidComponent(diff.profile) && ChangedFiles(Effective(p, repo), diff).Ok?
         && Wrote(Decide(env, g, id, Approved, actor, reason, edited).0, diff.profile,
                  DryRunFiles(p, repo, ChangedFiles(Effective(p, repo), diff).value))
  {
    hide ApplyDeclarative, Effective, MayDecide, Decide, Decided, DryRunFiles, ChangedFiles, ValidComponent;
    ApplyingDecision(env, g, id, actor, reason, edited);
    var diff := edited.GetOr(g.rows[id].diff);
    var p, repo := ProfileOf(g, diff.profile), RepoOf(env, diff.profile);
    DryRunPredictsApply(p, repo, diff, actor.id);
    AppliedIsValid(p, repo, diff, actor.id);
  }

  lemma AppliedIsValid(p: Profile, repo: Option<Files>, diff: Diff, actor: string)
    requires diff.Declarative() && ApplyDeclarative(p, repo, diff, actor).1.Ok?
    ensures ValidComponent(diff.profile)
  {
    hide EnsureSeeded, ApplySeeded;
  }

  lemma AppliesShows(env: Env, g: Gov, diff: Diff)
    requires ProposalRuns.Inv(env, g) && diff.Declarative()
    requires CanApply(ProfileOf(g, diff.profile), RepoOf(env, diff.profile), diff)
    ensures KindOf(diff).Declarative() && DryRunOf(env, g, diff).Ok?
    ensures
      var p, repo := ProfileOf(g, diff.profile), RepoOf(env, diff.profile);
      && ChangedFiles(Effective(p, repo), diff).Ok?
      && DryRunOf(env, g, diff).value.overlay == DryRunFiles(p, repo, ChangedFiles(Effective(p, repo), diff).value)
  {
    hide VersionAt, Folded, ApprovedDiffs, ChangedFiles, Patched, Merged, InOrder, ProfileInv;
    var p, repo := ProfileOf(g, diff.profile), RepoOf(env, diff.profile);
    var ds := ApprovedDiffs(g.audit, g.rows, diff.profile);
    EffectiveNames(p, repo, ds);
    PatchNames(Effective(p, repo), diff);
    assert ValidComponent(INITIAL_VERSION);
    if p.pointer.Some? {
      NextVersionIsFree(p, repo, ds);
    }
  }

  lemma EffectiveNames(p: Profile, repo: Option<Files>, ds: seq<Diff>)
    requires (forall d :: d in ds ==> d.Declarative()) && ProfileInv(p, repo, ds)
    requires p.pointer.None? ==> forall f :: f in SeedFiles(repo) ==> ValidComponent(f)
    ensures forall f :: f in Effective(p, repo) ==> ValidComponent(f)
    ensures p.pointer.Some? ==> ValidComponent(p.pointer.value)
  {
    hide Folded, VersionAt, Merged, InOrder, ValidComponent;
    VersionIsComponent(|ds|);
  }

  /** The record an approval needs may be of another diff, or of older rules. In every reachable state an
      approval writes the files the record shows if and only if a dry run of the diff it applies, taken just
      before, would show the same. */
  lemma ShownIsWrittenIff(env: Env, es: seq<Event>, id: string, actor: Identity, reason: Option<string>,
                          edited: Option<Diff>)
    requires var g := Run(env, NOTHING, es);
             && id in g.rows && Applies(g, id, Approved) && g.rows[id].dryRun.Some?
             && Decide(env, g, id, Approved, actor, reason, edited).1.Ok?
    ensures
      var g := Run(env, NOTHING, es);
      var again := RecordDryRun(env, g, id, edited).1;
      && again.Ok? && again.value.dryRun.Some?
      && (Wrote(Decide(env, g, id, Approved, actor, reason, edited).0, edited.GetOr(g.rows[id].diff).profile,
                g.rows[id].dryRun.value.overlay)
          <==> again.value.dryRun.value.overlay == g.rows[id].dryRun.value.overlay)
  {
    hide Run, Decide, MayDecide, CanApply, DryRunOf, Decided, DryRunFiles, ChangedFiles, Effective;
    var g := Run(env, NOTHING, es);
    StartInv(env);
    RunInv(env, NOTHING, es);
    ApprovalSucceedsIff(env, es, id, actor, reason, edited);
    ApplyWrites(env, g, id, actor, reason, edited);
    var diff := edited.GetOr(g.rows[id].diff);
    AppliesShows(env, g, diff);
    assert KindOf(diff) == g.rows[id].Kind() by { SameKinds(env, g, id, actor, reason, edited); }
  }

  lemma SameKinds(env: Env, g: Gov, id: string, actor: Identity, reason: Option<string>, edited: Option<Diff>)
    requires MayDecide(env, g, id, Approved, actor, reason, edited)
    ensures KindOf(edited.GetOr(g.rows[id].diff)) == g.rows[id].Kind()
  {
    hide Complete;
  }

  const STRICT := Env(map[], true)
  const SHOWN := ProfileChange("p", "a.json", JBool(true))
  const EDIT := ProfileChange("q", "b.json", JBool(true))
  const BOSS := Identity("boss", {StandardApprover})

  function ShowOne(): seq<Event> {
    [CreateCall("x", ProfileChangeKind, "s", "r", SHOWN, "bot"), DryRunCall("x", None)]
  }

  /** From nothing, with dry runs required: one diff is dry-run, and an edit of another profile is approved. */
  lemma AnotherDiffIsApproved()
    ensures
      var g := Run(STRICT, NOTHING, ShowOne());
      var (h, r) := Decide(STRICT, g, "x", Approved, BOSS, None, Some(EDIT));
      && r.Ok? && "x" in g.rows && g.rows["x"].dryRun == Some(DryRunRecord("0.1", map["a.json" := JBool(true)]))
      && Wrote(h, "q", map["b.json" := JBool(true)])
  {
    hide Decide, Run, CanApply, MayDecide, ChangedFiles, DryRunFiles, Wrote;
    var g := Run(STRICT, NOTHING, ShowOne());
    ShowOneState(g);
    BossMayEdit(g);
    EditApplies();
    ApprovalSucceedsIff(STRICT, ShowOne(), "x", BOSS, None, Some(EDIT));
    ApplyWrites(STRICT, g, "x", BOSS, None, Some(EDIT));
  }

  lemma BossMayEdit(g: Gov)
    requires "x" in g.rows && g.rows["x"].diff == SHOWN && g.rows["x"].status == PendingHitl && g.rows["x"].dryRun.Some?
    ensures MayDecide(STRICT, g, "x", Approved, BOSS, None, Some(EDIT))
  {
  }

  lemma EditApplies()
    ensures CanApply(FRESH, None, EDIT) && ChangedFiles(Effective(FRESH, None), EDIT).Ok?
    ensures DryRunFiles(FRESH, None, ChangedFiles(Effective(FRESH, None), EDIT).value) == map["b.json" := JBool(true)]
  {
    assert Patched(map[], map["b.json" := Some(JBool(true))]) == map["b.json" := JBool(true)];
  }

  lemma ShowOneState(g: Gov)
    requires g == Run(STRICT, NOTHING, ShowOne())
    ensures g.profiles == map[] && "x" in g.rows
    ensures g.rows["x"] == Proposal(SHOWN, PendingHitl, None, None, None,
                                    Some(DryRunRecord("0.1", map["a.json" := JBool(true)])), None, None)
  {
    hide Call;
    var es := ShowOne();
    var g1 := Call(STRICT, NOTHING, es[0]).0;
    assert Run(STRICT, NOTHING, es) == Run(STRICT, g1, es[1..]);
    assert es[1..] == [es[1]] && es[1..][1..] == [];
    assert g == Call(STRICT, g1, es[1]).0;
    FirstIsCreated();
    ThenIsShown(g1);
  }

  lemma FirstIsCreated()
    ensures Call(STRICT, NOTHING, ShowOne()[0]).0.profiles == map[]
    ensures Call(STRICT, NOTHING, ShowOne()[0]).0.rows ==
            map["x" := Proposal(SHOWN, PendingHitl, None, None, None, None, None, None)]
  {
  }

  lemma ThenIsShown(g: Gov)
    requires g.profiles == map[] && g.rows == map["x" := Proposal(SHOWN, PendingHitl, None, None, None, None, None, None)]
    ensures
      var h := Call(STRICT, g, ShowOne()[1]).0;
      h.profiles == map[] && "x" in h.rows
      && h.rows["x"] == g.rows["x"].(dryRun := Some(DryRunRecord("0.1", map["a.json" := JBool(true)])))
  {
    assert Patched(map[], map["a.json" := Some(JBool(true))]) == map["a.json" := JBool(true)];
  }
}
