/** Proposals and their decisions: what one whole call of the workflow does to both stores. */
module ProposalSpec {
  import opened Wrappers
  import opened Text
  import opened Identity
  import opened RegistrySpec

  datatype Status = PendingHitl | Approved | Rejected | Withdrawn

  datatype Kind = StandardChangeKind | ProfileChangeKind | ReasonCodeAddKind | CheckAddKind {
    predicate Declarative() { ProfileChangeKind? || ReasonCodeAddKind? }
  }

  /** What a recorded dry run says it evaluated (the corpus comparison is module DryRun). */
  datatype DryRunRecord = DryRunRecord(evaluatedVersion: string, overlay: Files)

  /** A row; its kind is the kind its diff was validated for when it was created. */
  datatype Proposal = Proposal(
    diff: Diff,
    status: Status,
    decidedBy: Option<string>,
    reason: Option<string>,
    edited: Option<Diff>,
    dryRun: Option<DryRunRecord>,
    appliedVersion: Option<string>,
    specPath: Option<string>)
  {
    function Kind(): Kind { KindOf(diff) }
  }

  datatype Audit = Audit(id: string, from: Option<Status>, to: Status, actor: string, reason: Option<string>)

  /** Both stores: the registry's profiles, the proposal rows, their audit, the exported specs. */
  datatype Gov = Gov(profiles: map<string, Profile>, rows: map<string, Proposal>, audit: seq<Audit>,
                     specs: map<string, Diff>)

  datatype Env = Env(repo: map<string, Files>, requireDryRun: bool)

  const NOTHING := Gov(map[], map[], [], map[])

  function KindOf(diff: Diff): Kind {
    match diff
    case ProfileChange(_, _, _) => ProfileChangeKind
    case ReasonCodeAdd(_, _, _) => ReasonCodeAddKind
    case StandardChange(_, _, _) => StandardChangeKind
    case CheckAdd(_, _, _) => CheckAddKind
  }

  /** `validate_diff`: the diff has its kind's shape. */
  predicate ValidDiff(kind: Kind, diff: Diff) {
    && KindOf(diff) == kind
    && match diff
       case ProfileChange(name, file, _) => name != "" && file != ""
       case ReasonCodeAdd(name, code, description) => name != "" && code != "" && description != ""
       case StandardChange(target, description, _) => target != "" && description != ""
       case CheckAdd(checkId, severity, description) =>
         checkId != "" && description != "" && severity in {"required", "advisory"}
  }

  function ProfileOf(g: Gov, name: string): Profile {
    if name in g.profiles then g.profiles[name] else FRESH
  }

  function RepoOf(env: Env, name: string): Option<Files> {
    if name in env.repo then Some(env.repo[name]) else None
  }

  /** The rules in force for a profile. */
  function Rules(env: Env, g: Gov, name: string): Files {
    Effective(ProfileOf(g, name), RepoOf(env, name))
  }

  predicate Allowed(from: Status, to: Status) {
    from == PendingHitl && to != PendingHitl
  }

  function SpecPath(id: string): string {
    "proposal_specs/" + id + ".md"
  }

  function Create(g: Gov, id: string, kind: Kind, summary: string, rationale: string, diff: Diff, actor: string)
    : (Gov, Result<Proposal, Error>)
  {
    if !ValidDiff(kind, diff) then (g, Err(ValidationError))
    else if Blank(summary) || Blank(rationale) then (g, Err(StoreError))
    else if id in g.rows then (g, Err(StoreError))
    else
      var row := Proposal(diff, PendingHitl, None, None, None, None, None, None);
      (g.(rows := g.rows[id := row], audit := g.audit + [Audit(id, None, PendingHitl, actor, Some("created"))]), Ok(row))
  }

  /** `record_dry_run`: any proposal of a declarative kind, whatever its status. */
  function RecordDryRun(env: Env, g: Gov, id: string, edited: Option<Diff>): (Gov, Result<Proposal, Error>) {
    if id !in g.rows then (g, Err(StoreError))
    else
      var row := g.rows[id];
      var diff := edited.GetOr(row.diff);
      if !row.Kind().Declarative() then (g, Err(PolicyError))
      else if KindOf(diff) != row.Kind() then (g, Err(MalformedCodes))
      else
        match DryRunOf(env, g, diff)
        case Err(e) => (g, Err(e))
        case Ok(record) =>
          var after := row.(dryRun := Some(record));
          (g.(rows := g.rows[id := after]), Ok(after))
  }

  /** `run_dry_run`: the overlay it scans the corpus under, or why there is none. */
  function DryRunOf(env: Env, g: Gov, diff: Diff): Result<DryRunRecord, Error>
    requires KindOf(diff).Declarative()
  {
    if !ValidComponent(diff.profile) then Err(ApplyError)
    else
      var p, repo := ProfileOf(g, diff.profile), RepoOf(env, diff.profile);
      match ChangedFiles(Effective(p, repo), diff)
      case Err(e) => Err(e)
      case Ok(patch) =>
        var version := p.pointer.GetOr(INITIAL_VERSION);
        match WriteVersionDir(FRESH, version, DryRunFiles(p, repo, patch))
        case Err(_) => Err(ApplyError)
        case Ok(_) => Ok(DryRunRecord(version, DryRunFiles(p, repo, patch)))
  }

  /** Everything `decide` refuses before it touches a store. */
  function Refusal(env: Env, g: Gov, id: string, to: Status, actor: Identity, reason: Option<string>,
                   edited: Option<Diff>): Option<Error>
  {
    if id !in g.rows then Some(StoreError)
    else
      var row := g.rows[id];
      if !Allowed(row.status, to) then Some(PolicyError)
      else if edited.Some? && to != Approved then Some(PolicyError)
      else if edited.Some? && !ValidDiff(row.Kind(), edited.value) then Some(ValidationError)
      else if to != Withdrawn && !actor.HasRole(StandardApprover) then Some(PolicyError)
      else if to == Rejected && !HasReason(reason) then Some(PolicyError)
      else if to == Approved && row.Kind().Declarative() && env.requireDryRun && row.dryRun.None? then Some(PolicyError)
      else None
  }

  function Coalesce<T>(given: Option<T>, stored: Option<T>): Option<T> {
    if given.Some? then given else stored
  }

  /** `ProposalStore.set_status`: compare-and-swap on the status, decision columns, audit row. */
  function SetStatus(g: Gov, id: string, from: Status, to: Status, actor: string, reason: Option<string>,
                     edited: Option<Diff>, appliedVersion: Option<string>, specPath: Option<string>)
    : (Gov, Result<Proposal, Error>)
  {
    if id !in g.rows || g.rows[id].status != from then (g, Err(StoreError))
    else
      var row := g.rows[id];
      var decidedBy := if to == Approved || to == Rejected then Some(actor) else row.decidedBy;
      var after := row.(
        status := to,
        decidedBy := decidedBy,
        reason := Coalesce(reason, row.reason),
        edited := Coalesce(edited, row.edited),
        appliedVersion := Coalesce(appliedVersion, row.appliedVersion),
        specPath := Coalesce(specPath, row.specPath));
      (g.(rows := g.rows[id := after], audit := g.audit + [Audit(id, Some(from), to, actor, reason)]), Ok(after))
  }

  /** `decide`, with nobody else acting during the call. */
  function Decide(env: Env, g: Gov, id: string, to: Status, actor: Identity, reason: Option<string>,
                  edited: Option<Diff>): (Gov, Result<Proposal, Error>)
  {
    var refused := Refusal(env, g, id, to, actor, reason, edited);
    if refused.Some? then (g, Err(refused.value))
    else if to != Approved then SetStatus(g, id, g.rows[id].status, to, actor.id, reason, edited, None, None)
    else
      var diff := edited.GetOr(g.rows[id].diff);
      if g.rows[id].Kind().Declarative() then
        var (p, applied) := ApplyDeclarative(ProfileOf(g, diff.profile), RepoOf(env, diff.profile), diff, actor.id);
        var h := g.(profiles := g.profiles[diff.profile := p]);
        match applied
        case Err(e) => (h, Err(e))
        case Ok(version) =>
          SetStatus(h, id, g.rows[id].status, to, actor.id, reason, edited, Some(version), None)
      else
        var h := g.(specs := g.specs[id := diff]);
        SetStatus(h, id, g.rows[id].status, to, actor.id, reason, edited, None, Some(SpecPath(id)))
  }

  datatype Event =
    | CreateCall(id: string, kind: Kind, summary: string, rationale: string, diff: Diff, creator: string)
    | DryRunCall(id: string, edited: Option<Diff>)
    | DecideCall(id: string, to: Status, actor: Identity, reason: Option<string>, edited: Option<Diff>)

  function Call(env: Env, g: Gov, e: Event): (Gov, Result<Proposal, Error>) {
    match e
    case CreateCall(id, kind, summary, rationale, diff, actor) => Create(g, id, kind, summary, rationale, diff, actor)
    case DryRunCall(id, edited) => RecordDryRun(env, g, id, edited)
    case DecideCall(id, to, actor, reason, edited) => Decide(env, g, id, to, actor, reason, edited)
  }

  function Run(env: Env, g: Gov, es: seq<Event>): Gov
    decreases |es|
  {
    if es == [] then g else Run(env, Call(env, g, es[0]).0, es[1..])
  }
}

/** The proposal store and workflow as the code updates them in place. */
module Proposals {
  import opened Wrappers
  import opened Text
  import opened Versions
  import opened Identity
  import opened RegistrySpec
  import opened Registry
  import opened ProposalSpec

  class ProposalStore {
    var rows: map<string, Proposal>
    var audit: seq<Audit>
    /** Spec artifacts under the store root, by proposal id. */
    var specs: map<string, Diff>

    constructor ()
      ensures rows == map[] && audit == [] && specs == map[]
    {
      rows, audit, specs := map[], [], map[];
    }

    predicate Holds(g: Gov)
      reads this
    {
      rows == g.rows && audit == g.audit && specs == g.specs
    }

    method Create(ghost g: Gov, id: string, kind: Kind, summary: string, rationale: string, diff: Diff, actor: Identity)
      returns (r: Result<Proposal, Error>)
      requires Holds(g)
      modifies this
      ensures var (h, res) := ProposalSpec.Create(g, id, kind, summary, rationale, diff, actor.id); r == res && Holds(h)
    {
      if !ValidDiff(kind, diff) {
        return Err(ValidationError);
      }
      if Blank(summary) || Blank(rationale) || id in rows {
        return Err(StoreError);
      }
      var row := Proposal(diff, PendingHitl, None, None, None, None, None, None);
      rows := rows[id := row];
      audit := audit + [Audit(id, None, PendingHitl, actor.id, Some("created"))];
      r := Ok(row);
    }

    method SetStatus(ghost g: Gov, id: string, from: Status, to: Status, actor: Identity, reason: Option<string>,
                     edited: Option<Diff>, appliedVersion: Option<string>, specPath: Option<string>)
      returns (r: Result<Proposal, Error>)
      requires Holds(g)
      modifies this
      ensures var (h, res) := ProposalSpec.SetStatus(g, id, from, to, actor.id, reason, edited, appliedVersion, specPath);
              r == res && Holds(h)
    {
      if id !in rows || rows[id].status != from {
        return Err(StoreError);
      }
      var row := rows[id];
      if to == Approved || to == Rejected {
        row := row.(decidedBy := Some(actor.id));
      }
      if reason.Some? {
        row := row.(reason := reason);
      }
      if edited.Some? {
        row := row.(edited := edited);
      }
      if appliedVersion.Some? {
        row := row.(appliedVersion := appliedVersion);
      }
      if specPath.Some? {
        row := row.(specPath := specPath);
      }
      row := row.(status := to);
      rows := rows[id := row];
      audit := audit + [Audit(id, Some(from), to, actor.id, reason)];
      r := Ok(row);
    }
  }

  class ProposalWorkflow {
    const store: ProposalStore
    const registry: ProfileRegistry
    const requireDryRun: bool

    constructor (store: ProposalStore, registry: ProfileRegistry, requireDryRun: bool)
      ensures this.store == store && this.registry == registry && this.requireDryRun == requireDryRun
    {
      this.store, this.registry, this.requireDryRun := store, registry, requireDryRun;
    }

    ghost function Environment(): Env { Env(registry.repo, requireDryRun) }

    /** Both stores together are in state `g`. */
    ghost predicate Shows(g: Gov)
      reads store, registry.disk
    {
      store.Holds(g) && forall n :: registry.Stored(n) == ProfileOf(g, n)
    }

    /** `apply_declarative` against the registry. */
    method ApplyDeclarative(diff: Diff, actor: Identity) returns (r: Result<string, Error>)
      requires diff.Declarative()
      modifies registry.disk, registry.cache
      ensures
        var (p, applied) := RegistrySpec.ApplyDeclarative(
          old(registry.Stored(diff.profile)), registry.Vendored(diff.profile), diff, actor.id);
        r == applied && Updated(registry.disk.roots, old(registry.disk.roots), registry.root, diff.profile, p)
    {
      hide KeyLess, SortKey, Patched, ChangedFiles, ValidComponent, BumpMinor, RegistrySpec.EnsureSeeded,
        RegistrySpec.BumpVersion, Effective;
      var name := diff.profile;
      SeededPointer(registry.Stored(name), registry.Vendored(name));
      var seeded := registry.EnsureSeeded(name, INITIAL_VERSION);
      if seeded.Err? {
        return Err(ApplyError);
      }
      var current := registry.CurrentVersion(name).value;
      var changed := ChangedFiles(Effective(registry.Stored(name), registry.Vendored(name)), diff);
      if changed.Err? {
        return Err(changed.error);
      }
      var next := BumpMinor(current);
      if next.None? {
        return Err(ApplyError);
      }
      var bumped := registry.BumpVersion(name, next.value, changed.value, ApplyNote(diff), Some(actor.id));
      r := if bumped.Err? then Err(ApplyError) else bumped;
    }

    /** The apply step of an approval, seen from both stores. */
    method ApplyTo(ghost g: Gov, diff: Diff, actor: Identity) returns (r: Result<string, Error>)
      requires Shows(g) && diff.Declarative()
      modifies registry.disk, registry.cache
      ensures
        var (p, applied) := RegistrySpec.ApplyDeclarative(
          ProfileOf(g, diff.profile), RepoOf(Environment(), diff.profile), diff, actor.id);
        r == applied && Shows(g.(profiles := g.profiles[diff.profile := p]))
    {
      hide RegistrySpec.ApplyDeclarative;
      r := ApplyDeclarative(diff, actor);
      ghost var h := g.(profiles := g.profiles[diff.profile := registry.Stored(diff.profile)]);
      forall n
        ensures registry.Stored(n) == ProfileOf(h, n)
      {
        assert old(registry.Stored(n)) == ProfileOf(g, n);
      }
    }

    /** What is refused before anything is written. */
    method CheckDecide(ghost g: Gov, id: string, to: Status, actor: Identity, reason: Option<string>,
                       edited: Option<Diff>) returns (r: Option<Error>)
      requires Shows(g)
      ensures r == Refusal(Environment(), g, id, to, actor, reason, edited)
    {
      hide HasReason, ValidDiff;
      if id !in store.rows { return Some(StoreError); }
      var record := store.rows[id];
      if !Allowed(record.status, to) { return Some(PolicyError); }
      if edited.Some? {
        if to != Approved { return Some(PolicyError); }
        if !ValidDiff(record.Kind(), edited.value) { return Some(ValidationError); }
      }
      if to == Approved || to == Rejected {
        if !actor.HasRole(StandardApprover) { return Some(PolicyError); }
        if to == Rejected && !HasReason(reason) { return Some(PolicyError); }
      }
      if to == Approved && record.Kind().Declarative() && requireDryRun && record.dryRun.None? {
        return Some(PolicyError);
      }
      r := None;
    }

    /** `decide`: the apply step first, and only if it succeeds the status. */
    method Decide(ghost g: Gov, id: string, to: Status, actor: Identity, reason: Option<string>, edited: Option<Diff>)
      returns (r: Result<Proposal, Error>)
      requires Shows(g)
      modifies store, registry.disk, registry.cache
      ensures var (h, res) := ProposalSpec.Decide(Environment(), g, id, to, actor, reason, edited); r == res && Shows(h)
    {
      hide RegistrySpec.ApplyDeclarative, Refusal;
      var refused := CheckDecide(g, id, to, actor, reason, edited);
      if refused.Some? { return Err(refused.value); }
      RefusalMeans(Environment(), g, id, to, actor, reason, edited);
      var record := store.rows[id];
      var from := record.status;
      var appliedVersion, specPath := None, None;
      ghost var h := g;
      if to == Approved {
        var diff := edited.GetOr(record.diff);
        if record.Kind().Declarative() {
          var applied := ApplyTo(g, diff, actor);
          h := g.(profiles := g.profiles[diff.profile := RegistrySpec.ApplyDeclarative(
            ProfileOf(g, diff.profile), RepoOf(Environment(), diff.profile), diff, actor.id).0]);
          if applied.Err? {
            return Err(applied.error);
          }
          appliedVersion := Some(applied.value);
        } else {
          store.specs := store.specs[id := diff];
          h := g.(specs := store.specs);
          specPath := Some(SpecPath(id));
        }
      }
      r := store.SetStatus(h, id, from, to, actor, reason, edited, appliedVersion, specPath);
    }
  }

  lemma RefusalMeans(env: Env, g: Gov, id: string, to: Status, actor: Identity, reason: Option<string>,
                     edited: Option<Diff>)
    requires Refusal(env, g, id, to, actor, reason, edited).None?
    ensures id in g.rows
    ensures g.rows[id].Kind().Declarative() ==> edited.GetOr(g.rows[id].diff).Declarative()
  {
  }
}
