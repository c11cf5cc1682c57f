/** The registry is the audit log's approvals, folded: over every run of whole workflow calls. */
module ProposalRuns {
  import opened Wrappers
  import opened Versions
  import opened Identity
  import opened RegistrySpec
  import opened ProposalSpec

  /** What was applied: the approver's edit if there is one. */
  function EffectiveDiff(row: Proposal): Diff {
    row.edited.GetOr(row.diff)
  }

  predicate Counts(e: Audit, rows: map<string, Proposal>, name: string) {
    && e.to == Approved && e.id in rows
    && EffectiveDiff(rows[e.id]).Declarative() && EffectiveDiff(rows[e.id]).profile == name
  }

  /** The effective diffs of a profile's approved declarative proposals, in decision order. */
  function ApprovedDiffs(audit: seq<Audit>, rows: map<string, Proposal>, name: string): (ds: seq<Diff>)
    ensures forall d :: d in ds ==> d.Declarative()
  {
    if audit == [] then []
    else
      var last := audit[|audit| - 1];
      ApprovedDiffs(audit[..|audit| - 1], rows, name) +
        (if Counts(last, rows, name) then [EffectiveDiff(rows[last.id])] else [])
  }

  /** The rules after one more approved diff. */
  function AfterDiff(rules: Files, diff: Diff): Files
    requires diff.Declarative()
  {
    match ChangedFiles(rules, diff)
    case Ok(patch) => JsonOnly(Patched(rules, patch))
    case Err(_) => rules
  }

  function Folded(repo: Option<Files>, ds: seq<Diff>): Files
    requires forall d :: d in ds ==> d.Declarative()
  {
    if ds == [] then SeedFiles(repo) else AfterDiff(Folded(repo, ds[..|ds| - 1]), ds[|ds| - 1])
  }

  /** The same fold for diffs that only name `*.json` files: nothing is filtered. */
  function PlainlyFolded(repo: Option<Files>, ds: seq<Diff>): Files
    requires forall d :: d in ds ==> d.Declarative()
  {
    if ds == [] then SeedFiles(repo)
    else
      var rules := PlainlyFolded(repo, ds[..|ds| - 1]);
      match ChangedFiles(rules, ds[|ds| - 1])
      case Ok(patch) => Patched(rules, patch)
      case Err(_) => rules
  }

  predicate NamesJson(d: Diff) {
    d.ProfileChange? ==> IsJsonName(d.file)
  }

  lemma {:induction false} FoldIsPlain(repo: Option<Files>, ds: seq<Diff>)
    requires forall d :: d in ds ==> d.Declarative() && NamesJson(d)
    ensures Folded(repo, ds) == PlainlyFolded(repo, ds)
    ensures JsonOnly(Folded(repo, ds)) == Folded(repo, ds)
  {
    if ds == [] {
      if repo.Some? { JsonOnlyIdempotent(repo.value); }
    } else {
      var rules, d := Folded(repo, ds[..|ds| - 1]), ds[|ds| - 1];
      FoldIsPlain(repo, ds[..|ds| - 1]);
      var changed := ChangedFiles(rules, d);
      if changed.Ok? {
        assert forall f :: f in changed.value ==> IsJsonName(f);
        assert forall f :: f in rules ==> f in JsonOnly(rules);
        assert JsonOnly(Patched(rules, changed.value)) == Patched(rules, changed.value);
      }
    }
  }

  /** Each diff could be merged into the rules it met. */
  predicate Merged(repo: Option<Files>, ds: seq<Diff>)
    requires forall d :: d in ds ==> d.Declarative()
  {
    ds == [] || (Merged(repo, ds[..|ds| - 1]) && ChangedFiles(Folded(repo, ds[..|ds| - 1]), ds[|ds| - 1]).Ok?)
  }

  lemma MergedMore(repo: Option<Files>, ds: seq<Diff>, diff: Diff)
    requires (forall d :: d in ds ==> d.Declarative()) && Merged(repo, ds)
    requires diff.Declarative() && ChangedFiles(Folded(repo, ds), diff).Ok?
    ensures Merged(repo, ds + [diff])
  {
    hide Folded, ChangedFiles;
    assert (ds + [diff])[..|ds|] == ds;
  }

  /** A profile after `ds` were applied to it, nobody interfering: versions 0.1 to 0.(n+1), one row each. */
  ghost predicate ProfileInv(p: Profile, repo: Option<Files>, ds: seq<Diff>)
    requires forall d :: d in ds ==> d.Declarative()
  {
    if p.pointer.None? then p == FRESH && ds == []
    else
      var n := |ds|;
      && Merged(repo, ds)
      && p.pointer == Some(VersionAt(n))
      && (forall v :: v in p.dirs ==> exists k: nat :: k <= n && v == VersionAt(k))
      && VersionAt(n) in p.dirs
      && View(p.dirs, VersionAt(n)) == Folded(repo, ds)
      && (forall v, f :: v in p.dirs && f in p.dirs[v] ==> ValidComponent(f))
      && |p.log| == n + 1 && InOrder(p.log)
  }

  /** What an approver can check beforehand; nothing else makes an undisturbed apply fail. */
  predicate CanApply(p: Profile, repo: Option<Files>, diff: Diff)
    requires diff.Declarative()
  {
    && ValidComponent(diff.profile)
    && (p.pointer.None? ==> forall f :: f in SeedFiles(repo) ==> ValidComponent(f))
    && ChangedFiles(Effective(p, repo), diff).Ok?
    && (diff.ProfileChange? && !diff.after.JNull? ==> ValidComponent(diff.file))
  }

  lemma SeedInv(p: Profile, repo: Option<Files>, ds: seq<Diff>)
    requires (forall d :: d in ds ==> d.Declarative()) && ProfileInv(p, repo, ds)
    ensures
      var (q, seeded) := EnsureSeeded(p, repo, INITIAL_VERSION);
      && ProfileInv(q, repo, ds)
      && (seeded.Ok? <==> (p.pointer.None? ==> forall f :: f in SeedFiles(repo) ==> ValidComponent(f)))
      && (seeded.Ok? ==> q.pointer == Some(VersionAt(|ds|)) && seeded.value == VersionAt(|ds|))
  {
    hide BumpMinor;
    VersionAtBumps(0);
    assert ValidComponent(INITIAL_VERSION);
    if repo.Some? { JsonOnlyIdempotent(repo.value); }
    assert JsonOnly(SeedFiles(repo)) == SeedFiles(repo);
  }

  lemma VersionIsComponent(k: nat)
    ensures ValidComponent(VersionAt(k))
  {
  }

  lemma NextVersionIsFree(p: Profile, repo: Option<Files>, ds: seq<Diff>)
    requires (forall d :: d in ds ==> d.Declarative()) && ProfileInv(p, repo, ds) && p.pointer.Some?
    ensures BumpMinor(p.pointer.value) == Some(VersionAt(|ds| + 1)) && VersionAt(|ds| + 1) !in p.dirs
    ensures KeyLess(SortKey(p.pointer.value), SortKey(VersionAt(|ds| + 1)))
  {
    hide Folded, View;
    var n := |ds|;
    VersionAtBumps(n);
    BumpIncreases(VersionAt(n));
    if VersionAt(n + 1) in p.dirs {
      var k: nat :| k <= n && VersionAt(n + 1) == VersionAt(k);
      VersionAtInjective(n + 1, k);
    }
  }

  lemma BumpOkIff(p: Profile, repo: Option<Files>, next: string, patch: Patch, note: string, actor: Option<string>)
    requires p.pointer.Some? && KeyLess(SortKey(p.pointer.value), SortKey(next))
    requires ValidComponent(next) && next !in p.dirs
    ensures
      var (q, bumped) := BumpVersion(p, repo, next, patch, note, actor);
      && (bumped.Ok? <==> forall f :: f in Patched(Effective(p, repo), patch) ==> ValidComponent(f))
      && (bumped.Err? ==> q == p)
  {
  }

  lemma ExtendInv(p: Profile, q: Profile, repo: Option<Files>, ds: seq<Diff>, diff: Diff, patch: Patch, row: Row)
    requires (forall d :: d in ds ==> d.Declarative()) && ProfileInv(p, repo, ds) && p.pointer.Some?
    requires diff.Declarative() && ChangedFiles(Effective(p, repo), diff) == Ok(patch)
    requires forall f :: f in Patched(Effective(p, repo), patch) ==> ValidComponent(f)
    requires row.version == VersionAt(|ds| + 1) && row.previous == p.pointer
    requires q.pointer == Some(row.version) && q.log == p.log + [row]
    requires q.dirs == p.dirs[row.version := Patched(Effective(p, repo), patch)]
    ensures ProfileInv(q, repo, ds + [diff])
  {
    hide VersionAt, ChangedFiles, ValidComponent, Patched, JsonOnly, Merged, Folded, InOrder;
    MergedMore(repo, ds, diff);
    FoldedMore(repo, ds, diff, patch);
    OneMoreVersion(p.dirs, q.dirs, |ds|);
    OneMoreRow(p.log, row, |ds|);
    NamesStayValid(p.dirs, q.dirs, row.version);
  }

  lemma NamesStayValid(dirs: map<string, Files>, after: map<string, Files>, version: string)
    requires version in after && after == dirs[version := after[version]]
    requires forall f :: f in after[version] ==> ValidComponent(f)
    requires forall v, f :: v in dirs && f in dirs[v] ==> ValidComponent(f)
    ensures forall v, f :: v in after && f in after[v] ==> ValidComponent(f)
  {
    hide ValidComponent;
  }

  /** The changelog names the versions in order. */
  predicate InOrder(log: seq<Row>) {
    forall k :: 0 <= k < |log| ==>
      && log[k].version == VersionAt(k)
      && log[k].previous == if k == 0 then None else Some(VersionAt(k - 1))
  }

  lemma OneMoreRow(log: seq<Row>, row: Row, n: nat)
    requires InOrder(log) && |log| == n + 1 && row.version == VersionAt(n + 1) && row.previous == Some(VersionAt(n))
    ensures InOrder(log + [row])
  {
    hide VersionAt;
  }

  lemma FoldedMore(repo: Option<Files>, ds: seq<Diff>, diff: Diff, patch: Patch)
    requires (forall d :: d in ds ==> d.Declarative()) && diff.Declarative()
    requires ChangedFiles(Folded(repo, ds), diff) == Ok(patch)
    ensures Folded(repo, ds + [diff]) == JsonOnly(Patched(Folded(repo, ds), patch))
  {
    hide ChangedFiles, Patched, JsonOnly;
    assert (ds + [diff])[..|ds|] == ds;
  }

  lemma OneMoreVersion(dirs: map<string, Files>, after: map<string, Files>, n: nat)
    requires forall v :: v in dirs ==> exists k: nat :: k <= n && v == VersionAt(k)
    requires after.Keys == dirs.Keys + {VersionAt(n + 1)}
    ensures forall v :: v in after ==> exists k: nat :: k <= n + 1 && v == VersionAt(k)
  {
    hide VersionAt;
    forall v | v in after
      ensures exists k: nat :: k <= n + 1 && v == VersionAt(k)
    {
      if v in dirs {
        var k: nat :| k <= n && v == VersionAt(k);
        assert k <= n + 1;
      }
    }
  }

  /** One more version on a seeded profile. */
  lemma BumpInv(p: Profile, repo: Option<Files>, ds: seq<Diff>, diff: Diff, patch: Patch, actor: string)
    requires (forall d :: d in ds ==> d.Declarative()) && ProfileInv(p, repo, ds) && p.pointer.Some?
    requires diff.Declarative() && ChangedFiles(Effective(p, repo), diff) == Ok(patch)
    ensures
      var n := |ds|;
      var (q, bumped) := BumpVersion(p, repo, VersionAt(n + 1), patch, ApplyNote(diff), Some(actor));
      && (bumped.Ok? <==> forall f :: f in Patched(Effective(p, repo), patch) ==> ValidComponent(f))
      && (bumped.Ok? ==> bumped.value == VersionAt(n + 1) && ProfileInv(q, repo, ds + [diff]))
      && (bumped.Err? ==> q == p)
  {
    hide VersionAt, BumpMinor, SortKey, KeyLess, ChangedFiles, ValidComponent, Patched, BumpVersion, Effective,
      ProfileInv, Folded;
    NextVersionIsFree(p, repo, ds);
    VersionIsComponent(|ds| + 1);
    var next := VersionAt(|ds| + 1);
    BumpOkIff(p, repo, next, patch, ApplyNote(diff), Some(actor));
    BumpWrites(p, repo, next, patch, ApplyNote(diff), Some(actor));
    var (q, bumped) := BumpVersion(p, repo, next, patch, ApplyNote(diff), Some(actor));
    if bumped.Ok? {
      ExtendInv(p, q, repo, ds, diff, patch, Row(next, p.pointer, ApplyNote(diff), Some(actor)));
    }
  }

  /** What a version's files are called decides whether a patch can be written over them. */
  lemma PatchNames(files: Files, diff: Diff)
    requires diff.Declarative() && ChangedFiles(files, diff).Ok? && forall f :: f in files ==> ValidComponent(f)
    ensures (forall f :: f in Patched(files, ChangedFiles(files, diff).value) ==> ValidComponent(f)) <==>
            (diff.ProfileChange? && !diff.after.JNull? ==> ValidComponent(diff.file))
  {
    hide WithCode;
    var patch := ChangedFiles(files, diff).value;
    if diff.ProfileChange? {
      assert !diff.after.JNull? ==> diff.file in Patched(files, patch);
    } else {
      assert ValidComponent(REASON_CODES);
    }
  }

  lemma PatchedNames(p: Profile, repo: Option<Files>, ds: seq<Diff>, diff: Diff, patch: Patch)
    requires (forall d :: d in ds ==> d.Declarative()) && ProfileInv(p, repo, ds) && p.pointer.Some?
    requires diff.Declarative() && ChangedFiles(Effective(p, repo), diff) == Ok(patch)
    ensures (forall f :: f in Patched(Effective(p, repo), patch) ==> ValidComponent(f)) <==>
            (diff.ProfileChange? && !diff.after.JNull? ==> ValidComponent(diff.file))
  {
    hide VersionAt, Folded, Patched, ChangedFiles, ValidComponent;
    PatchNames(Effective(p, repo), diff);
  }

  /** An undisturbed apply succeeds exactly when the diff can be merged and its names are valid: never
      does the version check, or a version directory in the way, stop it. */
  lemma ApplyInv(p: Profile, repo: Option<Files>, ds: seq<Diff>, diff: Diff, actor: string)
    requires (forall d :: d in ds ==> d.Declarative()) && ProfileInv(p, repo, ds) && diff.Declarative()
    ensures
      var (q, applied) := ApplyDeclarative(p, repo, diff, actor);
      && (applied.Ok? <==> CanApply(p, repo, diff))
      && (applied.Ok? ==> applied.value == VersionAt(|ds| + 1) && ProfileInv(q, repo, ds + [diff]))
      && (applied.Err? ==> ProfileInv(q, repo, ds) && Effective(q, repo) == Effective(p, repo))
  {
    hide ProfileInv, EnsureSeeded, BumpVersion, ChangedFiles, VersionAt, BumpMinor, Patched, Effective, ValidComponent,
      SeedFiles, KeyLess, SortKey;
    SeedInv(p, repo, ds);
    SeedingKeepsRules(p, repo);
    SeededPointer(p, repo);
    var (q, seeded) := EnsureSeeded(p, repo, INITIAL_VERSION);
    if seeded.Ok? {
      var changed := ChangedFiles(Effective(q, repo), diff);
      NextVersionIsFree(q, repo, ds);
      if changed.Ok? {
        BumpInv(q, repo, ds, diff, changed.value, actor);
        PatchedNames(q, repo, ds, diff, changed.value);
      }
    }
  }

  ghost predicate Inv(env: Env, g: Gov) {
    && (forall i :: 0 <= i < |g.audit| && g.audit[i].to == Approved ==>
          g.audit[i].id in g.rows && g.rows[g.audit[i].id].status == Approved)
    && (forall id :: id in g.rows && g.rows[id].status == PendingHitl ==> g.rows[id].edited == None)
    && (forall name :: ProfileInv(ProfileOf(g, name), RepoOf(env, name), ApprovedDiffs(g.audit, g.rows, name)))
  }

  /** Rows that are not approved do not matter to what was approved. */
  lemma {:induction false} SameApprovals(audit: seq<Audit>, rows: map<string, Proposal>, rows': map<string, Proposal>,
                                         name: string)
    requires forall i :: 0 <= i < |audit| && audit[i].to == Approved ==>
               audit[i].id in rows && audit[i].id in rows'
               && EffectiveDiff(rows[audit[i].id]) == EffectiveDiff(rows'[audit[i].id])
    ensures ApprovedDiffs(audit, rows, name) == ApprovedDiffs(audit, rows', name)
  {
    if audit != [] {
      SameApprovals(audit[..|audit| - 1], rows, rows', name);
    }
  }

  lemma ApprovalsAppend(audit: seq<Audit>, e: Audit, rows: map<string, Proposal>, name: string)
    ensures ApprovedDiffs(audit + [e], rows, name) ==
            ApprovedDiffs(audit, rows, name) + if Counts(e, rows, name) then [EffectiveDiff(rows[e.id])] else []
  {
  }

  /** A status change, or a new row, on top of profiles that already carry its effect. */
  lemma AuditedInv(env: Env, g: Gov, h: Gov, e: Audit)
    requires Inv(env, g)
    requires h.audit == g.audit + [e] && e.id in h.rows && h.rows == g.rows[e.id := h.rows[e.id]]
    requires e.id in g.rows ==> g.rows[e.id].status != Approved
    requires h.rows[e.id].status == e.to && (e.to == PendingHitl ==> h.rows[e.id].edited == None)
    requires forall name :: ProfileInv(ProfileOf(h, name), RepoOf(env, name),
               ApprovedDiffs(g.audit, g.rows, name) +
               if Counts(e, h.rows, name) then [EffectiveDiff(h.rows[e.id])] else [])
    ensures Inv(env, h)
  {
    hide ProfileInv;
    forall name
      ensures ProfileInv(ProfileOf(h, name), RepoOf(env, name), ApprovedDiffs(h.audit, h.rows, name))
    {
      SameApprovals(g.audit, g.rows, h.rows, name);
      ApprovalsAppend(g.audit, e, h.rows, name);
    }
  }

  lemma DryRunInv(env: Env, g: Gov, h: Gov, id: string)
    requires Inv(env, g) && id in g.rows && h.profiles == g.profiles && h.audit == g.audit
    requires id in h.rows && h.rows == g.rows[id := g.rows[id].(dryRun := h.rows[id].dryRun)]
    ensures Inv(env, h)
  {
    hide ProfileInv;
    forall name
      ensures ProfileInv(ProfileOf(h, name), RepoOf(env, name), ApprovedDiffs(h.audit, h.rows, name))
    {
      SameApprovals(g.audit, g.rows, h.rows, name);
    }
  }

  lemma DecideInv(env: Env, g: Gov, id: string, to: Status, actor: Identity, reason: Option<string>, edited: Option<Diff>)
    requires Inv(env, g)
    ensures Inv(env, Decide(env, g, id, to, actor, reason, edited).0)
  {
    if Refusal(env, g, id, to, actor, reason, edited).None? {
      var e := Audit(id, Some(PendingHitl), to, actor.id, reason);
      var diff := edited.GetOr(g.rows[id].diff);
      if to == Approved && g.rows[id].Kind().Declarative() {
        DecideApplyInv(env, g, id, actor, reason, edited, diff);
      } else {
        var h := Decide(env, g, id, to, actor, reason, edited).0;
        assert h.audit == g.audit + [e];
        hide ProfileInv;
        forall name
          ensures !Counts(e, h.rows, name)
          ensures ApprovedDiffs(g.audit, g.rows, name) + [] == ApprovedDiffs(g.audit, g.rows, name)
        {
        }
        AuditedInv(env, g, h, e);
      }
    }
  }

  lemma DecideApplyInv(env: Env, g: Gov, id: string, actor: Identity, reason: Option<string>, edited: Option<Diff>,
                       diff: Diff)
    requires Inv(env, g) && Refusal(env, g, id, Approved, actor, reason, edited).None?
    requires diff == edited.GetOr(g.rows[id].diff) && g.rows[id].Kind().Declarative() && diff.Declarative()
    ensures Inv(env, Decide(env, g, id, Approved, actor, reason, edited).0)
  {
    hide ProfileInv, ApplyDeclarative, CanApply, Effective;
    var name, repo := diff.profile, RepoOf(env, diff.profile);
    var ds := ApprovedDiffs(g.audit, g.rows, name);
    ApplyInv(ProfileOf(g, name), repo, ds, diff, actor.id);
    var (p, applied) := ApplyDeclarative(ProfileOf(g, name), repo, diff, actor.id);
    var h := Decide(env, g, id, Approved, actor, reason, edited).0;
    assert h.profiles == g.profiles[name := p];
    if applied.Ok? {
      var e := Audit(id, Some(PendingHitl), Approved, actor.id, reason);
      assert h.audit == g.audit + [e] && EffectiveDiff(h.rows[id]) == diff;
      forall other
        ensures ProfileInv(ProfileOf(h, other), RepoOf(env, other),
                  ApprovedDiffs(g.audit, g.rows, other) +
                  if Counts(e, h.rows, other) then [EffectiveDiff(h.rows[e.id])] else [])
      {
        assert ApprovedDiffs(g.audit, g.rows, other) + [] == ApprovedDiffs(g.audit, g.rows, other);
      }
      AuditedInv(env, g, h, e);
    } else {
      assert h.rows == g.rows && h.audit == g.audit;
      forall other
        ensures ProfileInv(ProfileOf(h, other), RepoOf(env, other), ApprovedDiffs(h.audit, h.rows, other))
      {
        assert ProfileInv(ProfileOf(g, other), RepoOf(env, other), ApprovedDiffs(g.audit, g.rows, other));
      }
    }
  }

  lemma CallInv(env: Env, g: Gov, e: Event)
    requires Inv(env, g)
    ensures Inv(env, Call(env, g, e).0)
  {
    var h := Call(env, g, e).0;
    match e
    case CreateCall(id, kind, summary, rationale, diff, actor) =>
      if h != g {
        hide ProfileInv;
        var a := Audit(id, None, PendingHitl, actor, Some("created"));
        forall name
          ensures !Counts(a, h.rows, name)
          ensures ApprovedDiffs(g.audit, g.rows, name) + [] == ApprovedDiffs(g.audit, g.rows, name)
        {
        }
        AuditedInv(env, g, h, a);
      }
    case DryRunCall(id, edited) =>
      if h != g {
        DryRunInv(env, g, h, id);
      }
    case DecideCall(id, to, actor, reason, edited) => DecideInv(env, g, id, to, actor, reason, edited);
  }

  lemma StartInv(env: Env)
    ensures Inv(env, NOTHING)
  {
  }

  lemma {:induction false} RunInv(env: Env, g: Gov, es: seq<Event>)
    requires Inv(env, g)
    ensures Inv(env, Run(env, g, es))
    decreases |es|
  {
    hide Inv, Call;
    if es != [] {
      CallInv(env, g, es[0]);
      RunInv(env, Call(env, g, es[0]).0, es[1..]);
    }
  }

  /** After any run of creations, dry runs and decisions: a profile's rules are its repo seed with the
      approved diffs applied in decision order, and its changelog has one row more than those approvals,
      naming the versions in order. */
  lemma RegistryEqualsApprovals(env: Env, es: seq<Event>, name: string)
    ensures
      var g := Run(env, NOTHING, es);
      var p := ProfileOf(g, name);
      var ds := ApprovedDiffs(g.audit, g.rows, name);
      && Rules(env, g, name) == Folded(RepoOf(env, name), ds)
      && (p.pointer.None? ==> ds == [] && p.log == [])
      && (p.pointer.Some? ==> |p.log| == |ds| + 1 && p.pointer == Some(VersionAt(|ds|)))
      && (p.pointer.Some? ==> forall k :: 0 <= k <= |ds| ==>
            p.log[k].version == VersionAt(k) && p.log[k].previous == if k == 0 then None else Some(VersionAt(k - 1)))
  {
    StartInv(env);
    RunInv(env, NOTHING, es);
  }

  /** The same without the `*.json` filter, when every approved diff names a `*.json` file. */
  lemma RegistryEqualsApprovalsPlainly(env: Env, es: seq<Event>, name: string)
    requires var g := Run(env, NOTHING, es);
             forall d :: d in ApprovedDiffs(g.audit, g.rows, name) ==> NamesJson(d)
    ensures var g := Run(env, NOTHING, es);
            Rules(env, g, name) == PlainlyFolded(RepoOf(env, name), ApprovedDiffs(g.audit, g.rows, name))
  {
    var g := Run(env, NOTHING, es);
    RegistryEqualsApprovals(env, es, name);
    FoldIsPlain(RepoOf(env, name), ApprovedDiffs(g.audit, g.rows, name));
  }

  lemma FailedApplyKeepsRules(p: Profile, repo: Option<Files>, diff: Diff, actor: string)
    requires diff.Declarative() && ApplyDeclarative(p, repo, diff, actor).1.Err?
    ensures Effective(ApplyDeclarative(p, repo, diff, actor).0, repo) == Effective(p, repo)
  {
    SeedingKeepsRules(p, repo);
    SeededPointer(p, repo);
    var (q, seeded) := EnsureSeeded(p, repo, INITIAL_VERSION);
    if seeded.Ok? {
      FailedSeededApply(q, repo, seeded.value, diff, actor);
    }
    hide EnsureSeeded, ApplySeeded, Effective;
  }

  lemma FailedSeededApply(p: Profile, repo: Option<Files>, current: string, diff: Diff, actor: string)
    requires diff.Declarative() && p.pointer.Some?
    ensures ApplySeeded(p, repo, current, diff, actor).1.Err? ==> ApplySeeded(p, repo, current, diff, actor).0 == p
  {
  }

  /** A decision that raises, from any state at all, changes no proposal, no audit row and no rule in
      force, even when it seeded a profile on the way. */
  lemma RaisingDecisionChangesNothing(
    env: Env, g: Gov, id: string, to: Status, actor: Identity, reason: Option<string>, edited: Option<Diff>)
    requires Decide(env, g, id, to, actor, reason, edited).1.Err?
    ensures
      var h := Decide(env, g, id, to, actor, reason, edited).0;
      && h.rows == g.rows && h.audit == g.audit && h.specs == g.specs
      && forall name :: Rules(env, h, name) == Rules(env, g, name)
  {
    if Refusal(env, g, id, to, actor, reason, edited).None? {
      var diff := edited.GetOr(g.rows[id].diff);
      if to == Approved && g.rows[id].Kind().Declarative() {
        hide ApplyDeclarative, Effective;
        var p, repo := ProfileOf(g, diff.profile), RepoOf(env, diff.profile);
        if ApplyDeclarative(p, repo, diff, actor.id).1.Err? {
          FailedApplyKeepsRules(p, repo, diff, actor.id);
        }
      }
    }
  }

  lemma PointsAtLast(p: Profile, repo: Option<Files>, ds: seq<Diff>, diff: Diff)
    requires (forall d :: d in ds + [diff] ==> d.Declarative()) && ProfileInv(p, repo, ds + [diff])
    ensures p.pointer == Some(VersionAt(|ds| + 1))
  {
    hide VersionAt, Folded, Effective;
  }
}
