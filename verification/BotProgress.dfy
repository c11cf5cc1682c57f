/** What the manager bot does give: the conversation it has, the reasons it can refuse for, and what its tools
    show. */
module BotProgress {
  import opened Wrappers
  import opened Text
  import opened Identity
  import opened StoreSpec
  import opened IndexSpec
  import opened ManagerSpec
  import opened CitationContract

  // ---- The conversation ----

  /** The model is shown the question and then, turn by turn, what it asked for and what it got. */
  lemma {:induction false} ShownIs(question: string, turns: seq<Turn>)
    ensures
      var messages := Shown(question, turns);
      && |messages| == 1 + 2 * |turns| && messages[0] == Question(question)
      && forall i :: 0 <= i < |turns| ==>
           messages[1 + 2 * i] == Assistant(turns[i].uses) && messages[2 + 2 * i] == Results(turns[i].results)
  {
    if turns != [] { ShownIs(question, turns[..|turns| - 1]); }
  }

  /** What can be cited after these turns. */
  function Citables(envs: Envs, turns: seq<Turn>): Citable {
    if turns == [] then map[]
    else
      var n := |turns| - 1;
      RunTools(envs(n), Citables(envs, turns[..n]), turns[n].uses).0
  }

  predicate Provides(uses: seq<Use>) {
    exists i :: 0 <= i < |uses| && uses[i].ProvideAnswer?
  }

  /** Turn `i` as it went: the model asked for tools and for nothing else, and got what they answer. */
  predicate Went(envs: Envs, model: Model, question: string, turns: seq<Turn>, i: nat)
    requires i < |turns|
  {
    && model(Shown(question, turns[..i])) == Content(turns[i].uses) && turns[i].uses != [] && !Provides(turns[i].uses)
    && turns[i].results == RunTools(envs(i), Citables(envs, turns[..i]), turns[i].uses).1
  }

  predicate AllWent(envs: Envs, model: Model, question: string, turns: seq<Turn>) {
    forall i :: 0 <= i < |turns| ==> Went(envs, model, question, turns, i)
  }

  /** The first answer the model provides, and whether anything in it can be given: it is not flagged as no
      evidence, has text, and cites something handed out before. */
  predicate Given(uses: seq<Use>, citable: Citable) {
    exists i :: 0 <= i < |uses| && uses[i].ProvideAnswer? && !Provides(uses[..i]) && Answerable(uses[i], citable)
  }

  predicate Answerable(use: Use, citable: Citable)
    requires use.ProvideAnswer?
  {
    && !use.noEvidence && (exists c :: c in use.answer && !IsSpace(c))
    && exists ref :: ref in use.citations && ref.Some? && ref.value != "" && ref.value in citable
  }

  lemma FinalAnswerIs(uses: seq<Use>, citable: Citable, turn: nat)
    ensures FinalAnswer(uses, citable, turn).Some? <==> Provides(uses)
    ensures Provides(uses) ==> (!FinalAnswer(uses, citable, turn).value.refused <==> Given(uses, citable))
  {
    hide FinalAnswer, Answerable, Given, Resolve;
    FinalAnswerContract(uses, citable, turn);
    if Provides(uses) {
      var i :| 0 <= i < |uses| && uses[i].ProvideAnswer? && (forall j :: 0 <= j < i ==> !uses[j].ProvideAnswer?)
        && (FinalAnswer(uses, citable, turn).value.refused <==>
              || uses[i].noEvidence || Blank(uses[i].answer)
              || (forall ref :: ref in uses[i].citations ==> Resolve(citable, ref).None?));
      FirstIsGiven(uses, citable, i);
      AnswerableIff(uses[i], citable);
    }
  }

  lemma FirstIsGiven(uses: seq<Use>, citable: Citable, i: nat)
    requires i < |uses| && uses[i].ProvideAnswer? && forall j :: 0 <= j < i ==> !uses[j].ProvideAnswer?
    ensures Given(uses, citable) <==> Answerable(uses[i], citable)
  {
    hide Answerable;
    assert !Provides(uses[..i]);
    forall k | i < k < |uses|
      ensures Provides(uses[..k])
    {
      assert uses[..k][i] == uses[i];
    }
  }

  lemma AnswerableIff(use: Use, citable: Citable)
    requires use.ProvideAnswer?
    ensures Answerable(use, citable) <==>
            !(use.noEvidence || Blank(use.answer) || forall ref :: ref in use.citations ==> Resolve(citable, ref).None?)
  {
    hide Blank;
    HasReasonIff(Some(use.answer));
  }

  /** How a conversation ends. */
  predicate Ended(envs: Envs, model: Model, maxTurns: nat, question: string, o: Outcome) {
    var n := |o.turns|;
    if n == o.asked then n >= maxTurns && o.answer == Ok(Refusal(maxTurns))
    else
      && o.asked == n + 1 <= maxTurns
      && match model(Shown(question, o.turns))
         case ClientError => o.answer == Err(ModelFailed)
         case Content(uses) =>
           && (uses == [] || Provides(uses)) && o.answer.Ok? && o.answer.value.turns == n + 1
           && (!o.answer.value.refused <==> uses != [] && Given(uses, Citables(envs, o.turns)))
           && (Provides(uses) ==> FinalAnswer(uses, Citables(envs, o.turns), n + 1) == Some(o.answer.value))
  }

  lemma OneMoreTurn(envs: Envs, model: Model, question: string, turns: seq<Turn>, turn: Turn)
    requires AllWent(envs, model, question, turns)
    requires model(Shown(question, turns)) == Content(turn.uses) && turn.uses != [] && !Provides(turn.uses)
    requires turn.results == RunTools(envs(|turns|), Citables(envs, turns), turn.uses).1
    ensures AllWent(envs, model, question, turns + [turn])
    ensures Citables(envs, turns + [turn]) == RunTools(envs(|turns|), Citables(envs, turns), turn.uses).0
  {
    hide RunTools, Shown, Provides;
    var longer := turns + [turn];
    assert longer[..|turns|] == turns;
    forall i | 0 <= i < |longer|
      ensures Went(envs, model, question, longer, i)
    {
      assert longer[..i] == turns[..i];
      if i < |turns| { assert Went(envs, model, question, turns, i); }
    }
  }

  lemma {:induction false} ConverseEnds(envs: Envs, model: Model, maxTurns: nat, question: string, turns: seq<Turn>)
    requires |turns| <= maxTurns && AllWent(envs, model, question, turns)
    ensures
      var o := Converse(envs, model, maxTurns, question, turns, Citables(envs, turns));
      AllWent(envs, model, question, o.turns) && |o.turns| <= o.asked <= maxTurns
      && Ended(envs, model, maxTurns, question, o)
    decreases maxTurns - |turns|
  {
    hide FinalAnswer, RunTools, Shown, Provides, Given, Citables, AllWent;
    var n := |turns|;
    var citable := Citables(envs, turns);
    if n < maxTurns && model(Shown(question, turns)).Content? {
      var uses := model(Shown(question, turns)).uses;
      FinalAnswerIs(uses, citable, n + 1);
      assert !Provides([]) by { NothingProvided(); }
      if uses != [] {
        if FinalAnswer(uses, citable, n + 1).None? {
          var turn := Turn(uses, RunTools(envs(n), citable, uses).1);
          OneMoreTurn(envs, model, question, turns, turn);
          ConverseEnds(envs, model, maxTurns, question, turns + [turn]);
        } else {
          TurnsOf(uses, citable, n + 1);
        }
      }
    }
  }

  lemma NothingProvided()
    ensures !Provides([])
  {
  }

  lemma TurnsOf(uses: seq<Use>, citable: Citable, turn: nat)
    ensures FinalAnswer(uses, citable, turn).Some? ==> FinalAnswer(uses, citable, turn).value.turns == turn
  {
  }

  /** For every model: the bot goes on for as long as the model asks for tools and turns are left. It gives an
      answer if and only if the model, before the turns run out, provides one that is not flagged as no
      evidence, has text, and cites something that an earlier turn handed out; so a refusal before the last
      turn has its reason in the model's last response. */
  lemma AnsweredIff(envs: Envs, model: Model, maxTurns: nat, question: string)
    ensures
      var o := Converse(envs, model, maxTurns, question, [], map[]);
      && AllWent(envs, model, question, o.turns) && |o.turns| <= o.asked <= maxTurns
      && (|o.turns| == o.asked <==> |o.turns| == maxTurns)
      && (o.answer.Ok? && !o.answer.value.refused <==>
            && |o.turns| < maxTurns && model(Shown(question, o.turns)).Content?
            && Given(model(Shown(question, o.turns)).uses, Citables(envs, o.turns)))
      && (o.answer.Ok? && !o.answer.value.refused ==>
            FinalAnswer(model(Shown(question, o.turns)).uses, Citables(envs, o.turns), o.asked) == Some(o.answer.value))
      && (|o.turns| < maxTurns && model(Shown(question, o.turns)).Content? ==>
            var uses := model(Shown(question, o.turns)).uses; uses == [] || Provides(uses))
      && (o.answer.Err? <==> |o.turns| < maxTurns && model(Shown(question, o.turns)).ClientError?)
  {
    hide Converse, Shown, Citables, Went, Provides;
    assert AllWent(envs, model, question, []);
    assert Citables(envs, []) == map[] by { NoneYet(envs); }
    ConverseEnds(envs, model, maxTurns, question, []);
  }

  lemma NoneYet(envs: Envs)
    ensures Citables(envs, []) == map[]
  {
  }

  // ---- What is handed out can be cited ----

  lemma {:induction false} RegisterAllIs(citable: Citable, chunks: seq<Chunk>)
    ensures
      var after := RegisterAll(citable, chunks);
      && (forall ref :: ref in citable ==> ref in after)
      && forall c :: c in chunks ==> c.id in after
  {
    if chunks != [] {
      RegisterAllIs(citable, chunks[..|chunks| - 1]);
      assert chunks == chunks[..|chunks| - 1] + [chunks[|chunks| - 1]];
    }
  }

  /** A tool leaves what could be cited, and everything its result carries can be cited too. */
  lemma ToolRegisters(env: Env, citable: Citable, use: Use)
    ensures
      var (after, result) := RunTool(env, citable, use);
      && (forall ref :: ref in citable ==> ref in after)
      && forall cit :: Carries(result, cit) ==> cit.ref in after
  {
    hide SearchRows, ScopedOnly, SummaryChunk, RegisterAll, Extract;
    var (after, result) := RunTool(env, citable, use);
    if use.Search? { RegisterAllIs(citable, result.chunks); }
  }

  lemma {:induction false} ToolsRegister(env: Env, citable: Citable, uses: seq<Use>)
    ensures
      var (after, results) := RunTools(env, citable, uses);
      && (forall ref :: ref in citable ==> ref in after)
      && forall r, cit :: r in results && Carries(r, cit) ==> cit.ref in after
  {
    hide RunTool, Carries;
    if uses != [] {
      var shorter, last := uses[..|uses| - 1], uses[|uses| - 1];
      ToolsRegister(env, citable, shorter);
      ToolRegisters(env, RunTools(env, citable, shorter).0, last);
    }
  }

  /** Whatever a result of an earlier turn carried can be cited. */
  lemma {:induction false} ShownIsCitable(envs: Envs, model: Model, question: string, turns: seq<Turn>, cit: Citation)
    requires AllWent(envs, model, question, turns) && ShownIn(turns, cit)
    ensures cit.ref in Citables(envs, turns)
  {
    hide RunTools, Carries, Shown, Provides;
    var n := |turns| - 1;
    var before := turns[..n];
    forall i | 0 <= i < n
      ensures Went(envs, model, question, before, i)
    {
      assert Went(envs, model, question, turns, i);
      assert before[..i] == turns[..i];
    }
    ToolsRegister(envs(n), Citables(envs, before), turns[n].uses);
    assert Went(envs, model, question, turns, n);
    if ShownIn(before, cit) { ShownIsCitable(envs, model, question, before, cit); }
  }

  /** So an answer with text that cites something a tool result of this conversation carried is given. */
  lemma CitedAnswerIsGiven(envs: Envs, model: Model, maxTurns: nat, question: string, answer: string,
                           citations: seq<Option<string>>, cit: Citation)
    requires
      var o := Converse(envs, model, maxTurns, question, [], map[]);
      && |o.turns| < maxTurns
      && model(Shown(question, o.turns)) == Content([ProvideAnswer(answer, false, citations)])
      && (exists c :: c in answer && !IsSpace(c)) && Some(cit.ref) in citations && cit.ref != "" && ShownIn(o.turns, cit)
    ensures
      var o := Converse(envs, model, maxTurns, question, [], map[]);
      o.answer.Ok? && !o.answer.value.refused
  {
    hide Converse, Shown, Citables, AllWent, ShownIn;
    var o := Converse(envs, model, maxTurns, question, [], map[]);
    AnsweredIff(envs, model, maxTurns, question);
    ShownIsCitable(envs, model, question, o.turns, cit);
    var uses := [ProvideAnswer(answer, false, citations)];
    assert uses[..0] == [];
    assert Answerable(uses[0], Citables(envs, o.turns));
  }

  // ---- What the tools show ----

  /** Whether the caller may see the chunk, and it is of the package and kind asked for. */
  predicate Findable(identity: Identity, packageId: Option<string>, kind: Option<string>, c: Chunk) {
    && (|| c.confidentiality == "internal"
        || (c.confidentiality == "internal_restricted"
            && (Analyst in identity.roles || Reviewer in identity.roles || StandardApprover in identity.roles
                || Admin in identity.roles)))
    && (packageId == None || packageId == Some("") || packageId == Some(c.key.id))
    && (kind == None || kind == Some("") || kind == Some(c.kind))
  }

  /** The findable chunks among `rows`, in order. */
  function Found(identity: Identity, packageId: Option<string>, kind: Option<string>, rows: Index): Index {
    if rows == [] then []
    else
      Found(identity, packageId, kind, rows[..|rows| - 1]) +
        if Findable(identity, packageId, kind, rows[|rows| - 1]) then [rows[|rows| - 1]] else []
  }

  function Cut(rows: Index, limit: int): Index {
    if 0 <= limit < |rows| then rows[..limit] else rows
  }

  lemma {:induction false} AdmittedIsFound(identity: Identity, packageId: Option<string>, kind: Option<string>, rows: Index)
    ensures Admitted(Filters(packageId, None, kind, VisibleTo(identity)), rows) == Found(identity, packageId, kind, rows)
  {
    hide Admitted;
    var f := Filters(packageId, None, kind, VisibleTo(identity));
    if rows == [] {
      assert Admitted(f, []) == [] by { NothingAdmitted(f); }
    } else {
      var before, last := rows[..|rows| - 1], rows[|rows| - 1];
      AdmittedIsFound(identity, packageId, kind, before);
      AdmittedOneMore(f, before, last);
      assert rows == before + [last];
      WantedIff(identity, packageId, kind, last);
    }
  }

  lemma NothingAdmitted(f: Filters)
    ensures Admitted(f, []) == []
  {
  }

  lemma WantedIff(identity: Identity, packageId: Option<string>, kind: Option<string>, c: Chunk)
    ensures Wanted(Filters(packageId, None, kind, VisibleTo(identity)), c) <==> Findable(identity, packageId, kind, c)
  {
    var tiers := VisibleTo(identity);
    assert c.confidentiality in tiers <==> exists i :: 0 <= i < |tiers| && tiers[i] == c.confidentiality;
  }

  lemma {:induction false} AllScopedStay(identity: Identity, chunks: seq<Chunk>)
    requires forall i :: 0 <= i < |chunks| ==> InScope(identity, chunks[i])
    ensures ScopedOnly(identity, chunks) == chunks
  {
    hide InScope, ScopedOnly;
    ScopedStep(identity, chunks);
    if chunks != [] {
      AllScopedStay(identity, chunks[..|chunks| - 1]);
      assert chunks == chunks[..|chunks| - 1] + [chunks[|chunks| - 1]];
    }
  }

  lemma ScopedStep(identity: Identity, chunks: seq<Chunk>)
    ensures chunks == [] ==> ScopedOnly(identity, chunks) == []
    ensures
      var n := |chunks| - 1;
      n >= 0 && InScope(identity, chunks[n]) ==>
        ScopedOnly(identity, chunks) == ScopedOnly(identity, chunks[..n]) + [chunks[n]]
  {
  }

  /** The rows a search looks through. */
  function Searched(env: Env, query: Option<string>): Index {
    if query == None || query == Some("") then env.rows else env.engine(query.value, env.rows)
  }

  /** A search shows, up to the limit, every chunk the caller may see of the package and kind asked for: among
      all rows without a query, among the matching ones with one. */
  lemma SearchShows(env: Env, citable: Citable, query: Option<string>, packageId: Option<string>, kind: Option<string>,
                    limit: int)
    ensures RunTool(env, citable, Search(query, packageId, kind, limit)).1 ==
            Chunks(Cut(Found(env.identity, packageId, kind, Searched(env, query)), limit))
  {
    hide Found, Admitted;
    AdmittedIsFound(env.identity, packageId, kind, Searched(env, query));
    var f := Filters(packageId, None, kind, VisibleTo(env.identity));
    var found := SearchRows(env.engine, env.rows, query, f, limit);
    assert forall i :: 0 <= i < |found| ==> found[i] in found;
    AllScopedStay(env.identity, found);
  }

  /** A summary is shown exactly if the caller may see one; a gate report exactly if besides the version's bytes
      can be read, with their verdict. */
  lemma SummaryShows(env: Env, citable: Citable, packageId: string)
    ensures
      var found := Found(env.identity, Some(packageId), Some("manifest_summary"), env.rows);
      && RunTool(env, citable, Summary(packageId)).1 == (if found == [] then Failed else One(found[0]))
      && RunTool(env, citable, GateReport(packageId)).1 ==
           if found == [] then Failed
           else
             var key := Key(packageId, found[0].key.version);
             match Extract(env.store, key)
             case Err(_) => Failed
             case Ok(bytes) => Gate(packageId + ":gate", key, env.w.gate(bytes))
  {
    hide Found, Admitted, Extract;
    AdmittedIsFound(env.identity, Some(packageId), Some("manifest_summary"), env.rows);
    var f := SummaryFilters(env.identity, packageId);
    var found := SearchRows(env.engine, env.rows, None, f, 1);
    if found != [] { assert found[0] in found; }
  }
}
