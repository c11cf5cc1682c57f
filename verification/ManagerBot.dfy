/** The manager bot's tool loop against an arbitrary model: what a citation can be. */
module ManagerSpec {
  import opened Wrappers
  import opened Text
  import opened Identity
  import opened StoreSpec
  import opened IndexSpec

  // ---- Scoping ----

  /** The confidentiality values a caller may see, sorted. */
  function VisibleTo(identity: Identity): (tiers: seq<string>)
    ensures tiers != [] && "internal" in tiers
    ensures "internal_restricted" in tiers <==>
              || Analyst in identity.roles || Reviewer in identity.roles || StandardApprover in identity.roles
              || Admin in identity.roles
    ensures forall t :: t in tiers ==> t == "internal" || t == "internal_restricted"
  {
    if identity.HasRole(Analyst) || identity.HasRole(Reviewer) || identity.HasRole(StandardApprover) then
      ["internal", "internal_restricted"]
    else ["internal"]
  }

  predicate InScope(identity: Identity, c: Chunk) {
    c.confidentiality in VisibleTo(identity)
  }

  // ---- Conversation ----

  datatype Use =
    | Search(query: Option<string>, packageId: Option<string>, kind: Option<string>, limit: int)
    | Summary(package: string)
    | GateReport(package: string)
    | ProvideAnswer(answer: string, noEvidence: bool, citations: seq<Option<string>>)
    | Unknown(name: string)
    | BadInput(name: string)

  datatype Citation = Citation(ref: string, key: Key, fieldPath: string, kind: string)

  datatype ToolResult = Chunks(chunks: seq<Chunk>) | One(chunk: Chunk) | Gate(ref: string, key: Key, pass: bool) | Failed

  /** What the model answers: tool calls (other blocks do not matter), or a client failure. */
  datatype Response = Content(uses: seq<Use>) | ClientError

  datatype Message = Question(text: string) | Assistant(uses: seq<Use>) | Results(results: seq<ToolResult>)

  /** The model: any function of everything it has been shown. */
  type Model = seq<Message> -> Response

  datatype ChatAnswer = ChatAnswer(answer: string, citations: seq<Citation>, refused: bool, turns: nat)

  datatype ChatError = ModelFailed

  type Citable = map<string, Citation>

  datatype Env = Env(w: World, store: Store, rows: Index, engine: Engine, identity: Identity)

  const NO_EVIDENCE := "No evidence found in the packages you have access to for this question."

  function Refusal(turns: nat): ChatAnswer { ChatAnswer(NO_EVIDENCE, [], true, turns) }

  // ---- Tools ----

  function CitationOf(c: Chunk): Citation { Citation(c.id, c.key, c.fieldPath, c.kind) }

  function Register(citable: Citable, c: Chunk): Citable { citable[c.id := CitationOf(c)] }

  function RegisterAll(citable: Citable, chunks: seq<Chunk>): Citable {
    if chunks == [] then citable
    else Register(RegisterAll(citable, chunks[..|chunks| - 1]), chunks[|chunks| - 1])
  }

  function ScopedOnly(identity: Identity, chunks: seq<Chunk>): (r: seq<Chunk>)
    ensures forall c :: c in r <==> c in chunks && InScope(identity, c)
  {
    if chunks == [] then []
    else
      ScopedOnly(identity, chunks[..|chunks| - 1]) +
        if InScope(identity, chunks[|chunks| - 1]) then [chunks[|chunks| - 1]] else []
  }

  function SummaryFilters(identity: Identity, packageId: string): Filters {
    Filters(Some(packageId), None, Some("manifest_summary"), VisibleTo(identity))
  }

  /** The summary chunk the caller may see for a package id. */
  function SummaryChunk(env: Env, packageId: string): (c: Option<Chunk>)
    ensures c.Some? ==> InScope(env.identity, c.value) && Admits(SummaryFilters(env.identity, packageId), c.value)
    ensures Honest(env.engine) && c.Some? ==> c.value in env.rows
  {
    var found := SearchRows(env.engine, env.rows, None, SummaryFilters(env.identity, packageId), 1);
    if found == [] || !InScope(env.identity, found[0]) then None else Some(found[0])
  }

  function GateCitation(packageId: string, version: string): Citation {
    Citation(packageId + ":gate", Key(packageId, version), "gate_report#overall", "gate_report")
  }

  function RunTool(env: Env, citable: Citable, use: Use): (Citable, ToolResult) {
    match use
    case Search(query, packageId, kind, limit) =>
      var f := Filters(packageId, None, kind, VisibleTo(env.identity));
      var chunks := ScopedOnly(env.identity, SearchRows(env.engine, env.rows, query, f, limit));
      (RegisterAll(citable, chunks), Chunks(chunks))
    case Summary(packageId) =>
      (match SummaryChunk(env, packageId)
       case None => (citable, Failed)
       case Some(c) => (Register(citable, c), One(c)))
    case GateReport(packageId) =>
      (match SummaryChunk(env, packageId)
       case None => (citable, Failed)
       case Some(c) =>
         match Extract(env.store, Key(packageId, c.key.version))
         case Err(_) => (citable, Failed)
         case Ok(bytes) =>
           var cit := GateCitation(packageId, c.key.version);
           (citable[cit.ref := cit], Gate(cit.ref, cit.key, env.w.gate(bytes))))
    case _ => (citable, Failed)
  }

  function RunTools(env: Env, citable: Citable, uses: seq<Use>): (Citable, seq<ToolResult>) {
    if uses == [] then (citable, [])
    else
      var (before, results) := RunTools(env, citable, uses[..|uses| - 1]);
      var (after, result) := RunTool(env, before, uses[|uses| - 1]);
      (after, results + [result])
  }

  // ---- The answer ----

  function Resolve(citable: Citable, ref: Option<string>): Option<Citation> {
    if ref.GetOr("") != "" && ref.value in citable then Some(citable[ref.value]) else None
  }

  function ResolveAll(citable: Citable, refs: seq<Option<string>>): seq<Citation> {
    if refs == [] then []
    else
      ResolveAll(citable, refs[..|refs| - 1]) +
        match Resolve(citable, refs[|refs| - 1])
        case Some(c) => [c]
        case None => []
  }

  /** The first `provide_answer` call. */
  function Provided(uses: seq<Use>): Option<Use> {
    if uses == [] then None else if uses[0].ProvideAnswer? then Some(uses[0]) else Provided(uses[1..])
  }

  function FinalAnswer(uses: seq<Use>, citable: Citable, turn: nat): Option<ChatAnswer> {
    match Provided(uses)
    case Some(ProvideAnswer(answer, noEvidence, refs)) =>
      var resolved := ResolveAll(citable, refs);
      if noEvidence || resolved == [] || Strip(answer) == "" then Some(Refusal(turn))
      else Some(ChatAnswer(Strip(answer), resolved, false, turn))
    case _ => None
  }

  /** One turn of the conversation that went on: what the model asked for and what it was shown. */
  datatype Turn = Turn(uses: seq<Use>, results: seq<ToolResult>)

  /** The messages the model has been shown after `turns`. */
  function Shown(question: string, turns: seq<Turn>): seq<Message> {
    if turns == [] then [Question(question)]
    else
      var last := turns[|turns| - 1];
      Shown(question, turns[..|turns| - 1]) + [Assistant(last.uses), Results(last.results)]
  }

  datatype Outcome = Outcome(answer: Result<ChatAnswer, ChatError>, asked: nat, turns: seq<Turn>)

  /** Store and index as each turn's tools find them: others go on publishing, reviewing and reindexing. */
  type Envs = nat -> Env

  function Frozen(env: Env): Envs { (turn: nat) => env }

  /** The loop from the turn after `turns` on; `asked` counts the calls of the model. */
  function Converse(envs: Envs, model: Model, maxTurns: nat, question: string, turns: seq<Turn>, citable: Citable): Outcome
    decreases maxTurns - |turns|
  {
    var n := |turns|;
    if n >= maxTurns then Outcome(Ok(Refusal(maxTurns)), n, turns)
    else
      match model(Shown(question, turns))
      case ClientError => Outcome(Err(ModelFailed), n + 1, turns)
      case Content(uses) =>
        if uses == [] then Outcome(Ok(Refusal(n + 1)), n + 1, turns)
        else
          match FinalAnswer(uses, citable, n + 1)
          case Some(answer) => Outcome(Ok(answer), n + 1, turns)
          case None =>
            var (after, results) := RunTools(envs(n), citable, uses);
            Converse(envs, model, maxTurns, question, turns + [Turn(uses, results)], after)
  }
}

/** The tools object and the bot. */
module ManagerBots {
  import opened Wrappers
  import opened Text
  import opened Identity
  import opened StoreSpec
  import opened PackageStores
  import opened IndexSpec
  import opened IndexStores
  import opened ManagerSpec

  class ManagerBotTools {
    const index: IndexStore
    const store: PackageStore
    const identity: Identity
    const confidentiality: seq<string>
    var citable: Citable

    constructor (index: IndexStore, store: PackageStore, identity: Identity)
      ensures this.index == index && this.store == store && this.identity == identity
      ensures citable == map[] && confidentiality == VisibleTo(identity)
    {
      this.index := index;
      this.store := store;
      this.identity := identity;
      confidentiality := VisibleTo(identity);
      citable := map[];
    }

    ghost predicate Faces(env: Env)
      reads this, index, store, store.blobStore
    {
      && store.Shows(env.store) && store.w == env.w && index.rows == env.rows && index.engine == env.engine
      && identity == env.identity && confidentiality == VisibleTo(identity)
    }

    method ResolveCitation(ref: string) returns (r: Option<Citation>)
      ensures r == if ref in citable then Some(citable[ref]) else None
    {
      r := if ref in citable then Some(citable[ref]) else None;
    }

    method RegisterChunk(c: Chunk)
      modifies this`citable
      ensures citable == Register(old(citable), c)
    {
      citable := citable[c.id := Citation(c.id, c.key, c.fieldPath, c.kind)];
    }

    method SearchPackages(query: Option<string>, packageId: Option<string>, kind: Option<string>, limit: int,
                          ghost env: Env)
      returns (r: ToolResult)
      requires Faces(env)
      modifies this`citable
      ensures (citable, r) == RunTool(env, old(citable), Search(query, packageId, kind, limit))
    {
      var results := index.Search(query, Filters(packageId, None, kind, confidentiality), limit);
      var chunks: seq<Chunk> := [];
      var n := 0;
      while n < |results|
        invariant n <= |results| && chunks == ScopedOnly(identity, results[..n])
        invariant citable == RegisterAll(old(citable), chunks)
      {
        assert results[..n + 1][..n] == results[..n];
        if InScope(identity, results[n]) {
          RegisterChunk(results[n]);
          ghost var shorter := chunks;
          chunks := chunks + [results[n]];
          assert chunks[..|chunks| - 1] == shorter;
        }
        n := n + 1;
      }
      assert results[..n] == results;
      r := Chunks(chunks);
    }

    method FindSummary(packageId: string, ghost env: Env) returns (r: Option<Chunk>)
      requires Faces(env)
      ensures r == SummaryChunk(env, packageId)
    {
      var results := index.Search(None, Filters(Some(packageId), None, Some("manifest_summary"), confidentiality), 1);
      if |results| == 0 || !InScope(identity, results[0]) { return None; }
      r := Some(results[0]);
    }

    method GetPackageSummary(packageId: string, ghost env: Env) returns (r: ToolResult)
      requires Faces(env)
      modifies this`citable
      ensures (citable, r) == RunTool(env, old(citable), Summary(packageId))
    {
      var found := FindSummary(packageId, env);
      if found.None? { return Failed; }
      RegisterChunk(found.value);
      r := One(found.value);
    }

    method GetGateReport(packageId: string, ghost env: Env) returns (r: ToolResult)
      requires Faces(env)
      modifies this`citable
      ensures (citable, r) == RunTool(env, old(citable), GateReport(packageId))
    {
      var found := FindSummary(packageId, env);
      if found.None? { return Failed; }
      var version := found.value.key.version;
      var bytes := store.Extract(Key(packageId, version), env.store);
      if bytes.Err? { return Failed; }
      var ref := packageId + ":gate";
      citable := citable[ref := Citation(ref, Key(packageId, version), "gate_report#overall", "gate_report")];
      r := Gate(ref, Key(packageId, version), store.w.gate(bytes.value));
    }
  }

  class ManagerBot {
    const index: IndexStore
    const store: PackageStore
    const model: Model
    const maxTurns: nat

    constructor (index: IndexStore, store: PackageStore, model: Model, maxTurns: nat)
      ensures this.index == index && this.store == store && this.model == model && this.maxTurns == maxTurns
    {
      this.index := index;
      this.store := store;
      this.model := model;
      this.maxTurns := maxTurns;
    }

    /** Runs the conversation; changes neither the store nor the index. `asked` counts the model's turns. */
    method Answer(question: string, identity: Identity, ghost g: Store)
      returns (r: Result<ChatAnswer, ChatError>, asked: nat)
      requires store.Shows(g)
      ensures var env := Env(store.w, g, index.rows, index.engine, identity);
              var o := Converse(Frozen(env), model, maxTurns, question, [], map[]);
              r == o.answer && asked == o.asked
    {
      hide FinalAnswer, RunTools;
      ghost var env := Env(store.w, g, index.rows, index.engine, identity);
      var tools := new ManagerBotTools(index, store, identity);
      var messages := [Question(question)];
      ghost var turns: seq<Turn> := [];
      ghost var whole := Converse(Frozen(env), model, maxTurns, question, [], map[]);
      asked := 0;
      var turn := 1;
      while turn <= maxTurns
        invariant turn == |turns| + 1 && (turn > maxTurns ==> |turns| == maxTurns)
        invariant fresh(tools) && tools.Faces(env)
        invariant messages == Shown(question, turns)
        invariant whole == Converse(Frozen(env), model, maxTurns, question, turns, tools.citable)
        invariant asked == |turns|
      {
        var response := model(messages);
        asked := asked + 1;
        if response.ClientError? { return Err(ModelFailed), asked; }
        if |response.uses| == 0 { return Ok(Refusal(turn)), asked; }
        messages := messages + [Assistant(response.uses)];
        var final := FinalAnswerOf(response.uses, tools, turn);
        if final.Some? { return Ok(final.value), asked; }
        var results := RunAll(response.uses, tools, env);
        messages := messages + [Results(results)];
        ghost var longer := turns + [Turn(response.uses, results)];
        assert longer[..|turns|] == turns;
        turns := longer;
        turn := turn + 1;
      }
      r := Ok(Refusal(maxTurns));
    }

    static method RunAll(uses: seq<Use>, tools: ManagerBotTools, ghost env: Env) returns (results: seq<ToolResult>)
      requires tools.Faces(env)
      modifies tools`citable
      ensures (tools.citable, results) == RunTools(env, old(tools.citable), uses)
    {
      hide ManagerSpec.RunTool;
      results := [];
      var n := 0;
      while n < |uses|
        invariant n <= |uses| && tools.Faces(env)
        invariant (tools.citable, results) == RunTools(env, old(tools.citable), uses[..n])
      {
        assert uses[..n + 1][..n] == uses[..n];
        var result := RunTool(uses[n], tools, env);
        results := results + [result];
        n := n + 1;
      }
      assert uses[..n] == uses;
    }

    static method RunTool(use: Use, tools: ManagerBotTools, ghost env: Env) returns (r: ToolResult)
      requires tools.Faces(env)
      modifies tools`citable
      ensures (tools.citable, r) == ManagerSpec.RunTool(env, old(tools.citable), use)
    {
      match use
      case Search(query, packageId, kind, limit) => r := tools.SearchPackages(query, packageId, kind, limit, env);
      case Summary(packageId) => r := tools.GetPackageSummary(packageId, env);
      case GateReport(packageId) => r := tools.GetGateReport(packageId, env);
      case _ => r := Failed;
    }

    static method FinalAnswerOf(uses: seq<Use>, tools: ManagerBotTools, turn: nat) returns (r: Option<ChatAnswer>)
      ensures r == FinalAnswer(uses, tools.citable, turn)
    {
      var provided := Provided(uses);
      if provided.None? { return None; }
      var resolved: seq<Citation> := [];
      if provided.value.ProvideAnswer? {
        var refs := provided.value.citations;
        var n := 0;
        while n < |refs|
          invariant n <= |refs| && resolved == ResolveAll(tools.citable, refs[..n])
        {
          assert refs[..n + 1][..n] == refs[..n];
          if refs[n].Some? && refs[n].value != "" {
            var citation := tools.ResolveCitation(refs[n].value);
            if citation.Some? {
              resolved := resolved + [citation.value];
            }
          }
          n := n + 1;
        }
        assert refs[..n] == refs;
        if provided.value.noEvidence || |resolved| == 0 { return Some(Refusal(turn)); }
        var text := Strip(provided.value.answer);
        if text == "" { return Some(Refusal(turn)); }
        return Some(ChatAnswer(text, resolved, false, turn));
      }
      r := None;
    }
  }
}

/** The citation contract, for every behaviour of the model. */
module CitationContract {
  import opened Wrappers
  import opened Text
  import opened StoreSpec
  import opened IndexSpec
  import opened ManagerSpec

  // ---- What the conversation showed ----

  /** A tool result carries a citation: it shows the chunk, or the gate report, the citation names. */
  predicate Carries(result: ToolResult, cit: Citation) {
    match result
    case Chunks(chunks) => exists c :: c in chunks && cit == Citation(c.id, c.key, c.fieldPath, c.kind)
    case One(c) => cit == Citation(c.id, c.key, c.fieldPath, c.kind)
    case Gate(ref, key, _) => cit == Citation(ref, key, "gate_report#overall", "gate_report")
    case Failed => false
  }

  predicate ShownIn(turns: seq<Turn>, cit: Citation) {
    exists t :: 0 <= t < |turns| && exists r :: r in turns[t].results && Carries(r, cit)
  }

  /** A tool result shows nothing outside the caller's scope, and nothing that is not indexed. A gate
      report belongs to a version whose summary chunk the caller may see. */
  predicate Scoped(env: Env, result: ToolResult) {
    match result
    case Chunks(chunks) => forall c :: c in chunks ==> InScope(env.identity, c) && c in env.rows
    case One(c) => InScope(env.identity, c) && c in env.rows
    case Gate(_, key, pass) =>
      && (exists c :: c in env.rows && c.key == key && c.kind == "manifest_summary" && InScope(env.identity, c))
      && Extract(env.store, key).Ok? && pass == env.w.gate(Extract(env.store, key).value)
    case Failed => true
  }

  predicate AllScoped(envs: Envs, turns: seq<Turn>) {
    forall t :: 0 <= t < |turns| ==> forall r :: r in turns[t].results ==> Scoped(envs(t), r)
  }

  /** What every turn's environment has: the same caller, an honest search, no version without an id. */
  ghost predicate Proper(envs: Envs) {
    forall t :: envs(t).identity == envs(0).identity && Honest(envs(t).engine) && NamedVersions(envs(t).store)
  }

  predicate Grounded(turns: seq<Turn>, citable: Citable) {
    forall ref :: ref in citable ==> citable[ref].ref == ref && ShownIn(turns, citable[ref])
  }

  /** Registered either before, or by this result. */
  predicate From(before: Citable, after: Citable, results: seq<ToolResult>) {
    forall ref :: ref in after ==>
      || (ref in before && after[ref] == before[ref])
      || (after[ref].ref == ref && exists r :: r in results && Carries(r, after[ref]))
  }

  lemma {:induction false} RegisterAllFrom(citable: Citable, chunks: seq<Chunk>)
    ensures forall ref :: ref in RegisterAll(citable, chunks) ==>
              || (ref in citable && RegisterAll(citable, chunks)[ref] == citable[ref])
              || exists c :: c in chunks && c.id == ref && RegisterAll(citable, chunks)[ref] == CitationOf(c)
  {
    if chunks != [] {
      var shorter := chunks[..|chunks| - 1];
      RegisterAllFrom(citable, shorter);
      assert forall c :: c in shorter ==> c in chunks;
      assert chunks[|chunks| - 1] in chunks;
    }
  }

  predicate NamedVersions(s: Store) {
    forall k :: k in s.rows ==> k.id != ""
  }

  lemma ToolIsFrom(env: Env, citable: Citable, use: Use)
    ensures From(citable, RunTool(env, citable, use).0, [RunTool(env, citable, use).1])
  {
    hide SearchRows, ScopedOnly, SummaryChunk, RegisterAll, Extract;
    var (after, result) := RunTool(env, citable, use);
    assert result in [result];
    match use
    case Search(_, _, _, _) =>
      RegisterAllFrom(citable, result.chunks);
      forall ref | ref in after && !(ref in citable && after[ref] == citable[ref])
        ensures after[ref].ref == ref && Carries(result, after[ref])
      {
        var c :| c in result.chunks && c.id == ref && after[ref] == CitationOf(c);
      }
    case _ =>
  }

  lemma ToolIsScoped(env: Env, citable: Citable, use: Use)
    requires Honest(env.engine) && NamedVersions(env.store)
    ensures Scoped(env, RunTool(env, citable, use).1)
  {
  }

  lemma {:induction false} ToolsAreFrom(env: Env, citable: Citable, uses: seq<Use>)
    requires Honest(env.engine) && NamedVersions(env.store)
    ensures
      var (after, results) := RunTools(env, citable, uses);
      From(citable, after, results) && forall r :: r in results ==> Scoped(env, r)
  {
    hide RunTool, Scoped, Carries;
    if uses != [] {
      var shorter, last := uses[..|uses| - 1], uses[|uses| - 1];
      ToolsAreFrom(env, citable, shorter);
      var (before, results) := RunTools(env, citable, shorter);
      var (after, result) := RunTool(env, before, last);
      ToolIsFrom(env, before, last);
      ToolIsScoped(env, before, last);
      assert forall r :: r in results ==> r in results + [result];
      assert forall r :: r in [result] ==> r in results + [result];
    }
  }

  lemma TurnKeepsGrounded(turns: seq<Turn>, citable: Citable, after: Citable, turn: Turn)
    requires Grounded(turns, citable) && From(citable, after, turn.results)
    ensures Grounded(turns + [turn], after)
  {
    hide Carries;
    var longer := turns + [turn];
    forall ref | ref in after
      ensures after[ref].ref == ref && ShownIn(longer, after[ref])
    {
      if ref in citable && after[ref] == citable[ref] {
        var t :| 0 <= t < |turns| && exists r :: r in turns[t].results && Carries(r, citable[ref]);
        assert longer[t] == turns[t];
      } else {
        assert longer[|turns|] == turn;
      }
    }
  }

  // ---- The final answer ----

  lemma {:induction false} ResolveAllIs(citable: Citable, refs: seq<Option<string>>)
    ensures forall c :: c in ResolveAll(citable, refs) <==> exists ref :: ref in refs && Resolve(citable, ref) == Some(c)
  {
    if refs != [] {
      var shorter, last := refs[..|refs| - 1], refs[|refs| - 1];
      ResolveAllIs(citable, shorter);
      assert refs == shorter + [last];
    }
  }

  /** Citations come in the order they are cited; what was never handed out is left out. */
  lemma {:induction false} CitedInOrder(citable: Citable, ref: Option<string>, refs: seq<Option<string>>)
    ensures ResolveAll(citable, [ref] + refs) ==
            (if ref.Some? && ref.value != "" && ref.value in citable then [citable[ref.value]] else []) +
            ResolveAll(citable, refs)
  {
    var all := [ref] + refs;
    if refs == [] {
      assert all == [ref] && all[..0] == [];
    } else {
      var n := |refs| - 1;
      CitedInOrder(citable, ref, refs[..n]);
      assert all[..n + 1] == [ref] + refs[..n] && all[n + 1] == refs[n];
    }
  }

  /** `provide_answer` ends the loop whatever else the turn asks for. It is refused exactly when the
      model found no evidence, or no cited id was handed out before, or the text is blank; otherwise the
      citations are exactly the handed-out ones among those cited. */
  lemma FinalAnswerContract(uses: seq<Use>, citable: Citable, turn: nat)
    ensures
      var final := FinalAnswer(uses, citable, turn);
      && (final.Some? <==> exists u :: u in uses && u.ProvideAnswer?)
      && (final.Some? ==>
            exists i :: 0 <= i < |uses| && uses[i].ProvideAnswer? && (forall j :: 0 <= j < i ==> !uses[j].ProvideAnswer?)
              && (final.value.refused <==>
                    || uses[i].noEvidence || Blank(uses[i].answer)
                    || (forall ref :: ref in uses[i].citations ==> Resolve(citable, ref).None?))
              && (!final.value.refused ==>
                    && Trims(uses[i].answer, final.value.answer)
                    && final.value.citations == ResolveAll(citable, uses[i].citations))
              && (forall c :: c in final.value.citations <==>
                    !final.value.refused && exists ref :: ref in uses[i].citations && Resolve(citable, ref) == Some(c)))
  {
    hide ResolveAll, Resolve, Strip, Trims;
    FirstProvided(uses);
    if exists u :: u in uses && u.ProvideAnswer? {
      var i :| 0 <= i < |uses| && Provided(uses) == Some(uses[i]) && uses[i].ProvideAnswer?
        && forall j :: 0 <= j < i ==> !uses[j].ProvideAnswer?;
      var refs := uses[i].citations;
      ResolveAllIs(citable, refs);
      StripTrims(uses[i].answer);
      var resolved := ResolveAll(citable, refs);
      if resolved != [] { assert resolved[0] in resolved; }
      var final := FinalAnswer(uses, citable, turn);
      assert final.value.refused <==>
        uses[i].noEvidence || Blank(uses[i].answer) || (forall ref :: ref in refs ==> Resolve(citable, ref).None?);
      assert forall c :: c in final.value.citations <==>
        !final.value.refused && exists ref :: ref in refs && Resolve(citable, ref) == Some(c);
    }
  }

  lemma {:induction false} FirstProvided(uses: seq<Use>)
    ensures Provided(uses).None? <==> forall u :: u in uses ==> !u.ProvideAnswer?
    ensures Provided(uses).Some? ==>
              exists i :: 0 <= i < |uses| && Provided(uses) == Some(uses[i]) && uses[i].ProvideAnswer?
                && forall j :: 0 <= j < i ==> !uses[j].ProvideAnswer?
  {
    if uses != [] && !uses[0].ProvideAnswer? {
      FirstProvided(uses[1..]);
      if Provided(uses[1..]).Some? {
        var i :| 0 <= i < |uses[1..]| && Provided(uses[1..]) == Some(uses[1..][i]) && uses[1..][i].ProvideAnswer?
          && forall j :: 0 <= j < i ==> !uses[1..][j].ProvideAnswer?;
        assert uses[i + 1] == uses[1..][i];
        assert forall j :: 0 < j < i + 1 ==> uses[j] == uses[1..][j - 1];
      }
    }
  }

  lemma AnswerIsGrounded(uses: seq<Use>, citable: Citable, turns: seq<Turn>, turn: nat)
    requires Grounded(turns, citable) && FinalAnswer(uses, citable, turn).Some?
    ensures
      var a := FinalAnswer(uses, citable, turn).value;
      && a.turns == turn
      && (!a.refused ==> a.citations != [] && !Blank(a.answer) && forall c :: c in a.citations ==> ShownIn(turns, c))
      && (a.refused ==> a == Refusal(turn))
  {
    hide ShownIn, Strip;
    var provided := Provided(uses).value;
    if provided.ProvideAnswer? {
      ResolveAllIs(citable, provided.citations);
      StripTwice(provided.answer);
    }
  }

  lemma StripTwice(s: string)
    ensures Strip(Strip(s)) == "" ==> Strip(s) == ""
  {
    var i, j := StripIs(s);
    var k, l := StripIs(Strip(s));
    assert i < j ==> !IsSpace(Strip(s)[0]);
  }

  // ---- The conversation ----

  lemma {:induction false} ConverseIsGrounded(envs: Envs, model: Model, maxTurns: nat, question: string,
                                              turns: seq<Turn>, citable: Citable)
    requires Proper(envs)
    requires |turns| <= maxTurns && Grounded(turns, citable) && AllScoped(envs, turns)
    ensures
      var o := Converse(envs, model, maxTurns, question, turns, citable);
      && o.asked <= maxTurns && |o.turns| <= o.asked && AllScoped(envs, o.turns)
      && (o.answer.Ok? ==>
            && o.answer.value.turns == o.asked
            && (o.answer.value.refused ==> o.answer.value == Refusal(o.asked))
            && (!o.answer.value.refused ==>
                  && |o.turns| < o.asked && o.answer.value.citations != [] && !Blank(o.answer.value.answer)
                  && forall c :: c in o.answer.value.citations ==> ShownIn(o.turns, c)))
    decreases maxTurns - |turns|
  {
    hide FinalAnswer, RunTools, Scoped, ShownIn, Blank, Shown, Grounded;
    var n := |turns|;
    if n < maxTurns {
      match model(Shown(question, turns))
      case ClientError =>
      case Content(uses) =>
        if uses != [] {
          if FinalAnswer(uses, citable, n + 1).Some? {
            AnswerIsGrounded(uses, citable, turns, n + 1);
          } else {
            var (after, results) := RunTools(envs(n), citable, uses);
            ToolsAreFrom(envs(n), citable, uses);
            TurnKeepsGrounded(turns, citable, after, Turn(uses, results));
            ConverseIsGrounded(envs, model, maxTurns, question, turns + [Turn(uses, results)], after);
          }
        }
    }
  }

  /** For every model, and whatever happens to store and index between turns: at most `maxTurns` calls of it;
      an answer that is not a refusal has text and at least one citation, and each citation was carried by a
      tool result of an earlier turn; and no tool result shows a chunk, or the gate report of a version, that
      is outside the caller's scope or not in the index at that turn. */
  lemma EveryAnswerIsCited(envs: Envs, model: Model, maxTurns: nat, question: string)
    requires Proper(envs)
    ensures
      var o := Converse(envs, model, maxTurns, question, [], map[]);
      && o.asked <= maxTurns && AllScoped(envs, o.turns)
      && (o.answer.Ok? && !o.answer.value.refused ==>
            && |o.turns| < o.asked && o.answer.value.citations != [] && !Blank(o.answer.value.answer)
            && forall c :: c in o.answer.value.citations ==> ShownIn(o.turns, c))
  {
    ConverseIsGrounded(envs, model, maxTurns, question, [], map[]);
  }
}
