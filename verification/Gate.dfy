/** The gate's runner: simple checks, waivers applied in place, the meta check, waivers again. */
module Gate {
  import opened Wrappers

  datatype Verdict = Pass | Fail | Skip
  datatype Severity = Required | Advisory

  /** The fields of one outcome at one moment. */
  datatype Outcome = Outcome(checkId: string, result: Verdict, severity: Severity, waived: bool, message: string) {
    /** `blocks_overall_pass`. */
    predicate Blocks() { result == Fail && severity == Required && !waived }
  }

  /** An entry of `qa.waivers`. */
  datatype RawWaiver = NotADict | Waiver(checkId: Option<string>, reason: string)

  datatype Manifest = Manifest(qaStatus: Option<string>, waivers: seq<RawWaiver>)

  const NO_UNLABELED_DIFF := "no_unlabeled_diff"
  const QA_APPROVED_IMPLIES_PASS := "qa_approved_implies_pass"

  const AGENT_DRAFT_PRESENT := "agent_draft_present"

  /** The simple checks, in the order they run. */
  const SIMPLE_CHECKS: seq<string> := [
    "must_fields", "standard_version", "layout_dirs", "guideline_exists", "output_contract_files", "inputs_pinned",
    "engines_pinned", "labels_paths", "labels_jsonl_parse", "labels_row_shape", "reason_codes_known",
    "qa_status_enum", "training_eligibility_present", AGENT_DRAFT_PRESENT, NO_UNLABELED_DIFF]

  /** Check id to reason; a later entry for the same check wins, unusable entries are skipped. */
  function Waivers(raw: seq<RawWaiver>): map<string, string> {
    if raw == [] then map[]
    else
      var rest, last := Waivers(raw[..|raw| - 1]), raw[|raw| - 1];
      if last.Waiver? && last.checkId.Some? && last.checkId.value != "" then rest[last.checkId.value := last.reason]
      else rest
  }

  function WaivedMessage(message: string, reason: string): string {
    if reason == "" then message
    else if message != "" then message + "\n  (waived: " + reason + ")"
    else "waived: " + reason
  }

  /** One outcome under the waivers. */
  function Waive(o: Outcome, waivers: map<string, string>): Outcome {
    if o.result == Fail && o.checkId in waivers then
      o.(waived := true, result := Pass, message := WaivedMessage(o.message, waivers[o.checkId]))
    else o
  }

  function WaiveAll(outcomes: seq<Outcome>, waivers: map<string, string>): (after: seq<Outcome>)
    ensures |after| == |outcomes|
  {
    seq(|outcomes|, i requires 0 <= i < |outcomes| => Waive(outcomes[i], waivers))
  }

  predicate AnyBlocks(outcomes: seq<Outcome>) {
    exists i :: 0 <= i < |outcomes| && outcomes[i].Blocks()
  }

  /** `build_report`'s overall verdict. */
  function Overall(outcomes: seq<Outcome>): Verdict {
    if AnyBlocks(outcomes) then Fail else Pass
  }

  /** `check_qa_approved_implies_pass`. */
  function MetaCheck(m: Manifest, prior: seq<Outcome>): Outcome {
    if m.qaStatus != Some("approved") then
      Outcome(QA_APPROVED_IMPLIES_PASS, Skip, Required, false, "not applicable")
    else if exists i :: 0 <= i < |prior| && prior[i].checkId != NO_UNLABELED_DIFF && prior[i].Blocks() then
      Outcome(QA_APPROVED_IMPLIES_PASS, Fail, Required, false, "required checks failed")
    else
      Outcome(QA_APPROVED_IMPLIES_PASS, Pass, Required, false, "consistent")
  }

  /** What `run_all` returns, given what the simple checks return. */
  function RunAll(simple: seq<Outcome>, m: Manifest): seq<Outcome> {
    var waivers := Waivers(m.waivers);
    var first := WaiveAll(simple, waivers);
    WaiveAll(first + [MetaCheck(m, first)], waivers)
  }

  class CheckOutcome {
    const checkId: string
    const severity: Severity
    var result: Verdict
    var waived: bool
    var message: string

    constructor (o: Outcome)
      ensures Value() == o
    {
      checkId, severity, result, waived, message := o.checkId, o.severity, o.result, o.waived, o.message;
    }

    function Value(): Outcome
      reads this
    {
      Outcome(checkId, result, severity, waived, message)
    }
  }

  predicate Distinct(outcomes: seq<CheckOutcome>) {
    forall i, j :: 0 <= i < j < |outcomes| ==> outcomes[i] != outcomes[j]
  }

  function Values(outcomes: seq<CheckOutcome>): (vs: seq<Outcome>)
    reads outcomes
    ensures |vs| == |outcomes| && forall i :: 0 <= i < |vs| ==> vs[i] == outcomes[i].Value()
  {
    seq(|outcomes|, i requires 0 <= i < |outcomes| reads outcomes => outcomes[i].Value())
  }

  /** The comprehension that builds the waiver table. */
  method WaiverTable(raw: seq<RawWaiver>) returns (waivers: map<string, string>)
    ensures waivers == Waivers(raw)
  {
    waivers := map[];
    for i := 0 to |raw|
      invariant waivers == Waivers(raw[..i])
    {
      assert raw[..i + 1][..i] == raw[..i];
      if raw[i].Waiver? && raw[i].checkId.Some? && raw[i].checkId.value != "" {
        waivers := waivers[raw[i].checkId.value := raw[i].reason];
      }
    }
    assert raw[..|raw|] == raw;
  }

  /** `_apply_waivers`: failing outcomes that are waived become passes, in place. */
  method ApplyWaivers(outcomes: seq<CheckOutcome>, m: Manifest)
    requires Distinct(outcomes)
    modifies outcomes
    ensures Values(outcomes) == WaiveAll(old(Values(outcomes)), Waivers(m.waivers))
  {
    var waivers := WaiverTable(m.waivers);
    for i := 0 to |outcomes|
      invariant forall j :: 0 <= j < i ==> outcomes[j].Value() == Waive(old(outcomes[j].Value()), waivers)
      invariant forall j :: i <= j < |outcomes| ==> outcomes[j].Value() == old(outcomes[j].Value())
    {
      var o := outcomes[i];
      if o.result == Fail && o.checkId in waivers {
        var reason := waivers[o.checkId];
        o.waived := true;
        o.result := Pass;
        if reason != "" {
          o.message := if o.message != "" then o.message + "\n  (waived: " + reason + ")" else "waived: " + reason;
        }
      }
    }
  }

  /** `run_all`; `simple` is what each simple check returns for this package. */
  method RunChecks(simple: seq<Outcome>, m: Manifest) returns (outcomes: seq<CheckOutcome>)
    ensures Distinct(outcomes) && fresh(outcomes)
    ensures Values(outcomes) == RunAll(simple, m)
  {
    hide Waivers, Waive, MetaCheck;
    outcomes := [];
    for i := 0 to |simple|
      invariant |outcomes| == i && Distinct(outcomes) && fresh(outcomes)
      invariant forall j :: 0 <= j < i ==> outcomes[j].Value() == simple[j]
    {
      var o := new CheckOutcome(simple[i]);
      outcomes := outcomes + [o];
    }
    assert Values(outcomes) == simple;
    ApplyWaivers(outcomes, m);
    ghost var first := Values(outcomes);
    var meta := new CheckOutcome(MetaCheck(m, Values(outcomes)));
    outcomes := outcomes + [meta];
    assert Values(outcomes) == first + [MetaCheck(m, first)];
    ApplyWaivers(outcomes, m);
  }

  /** Entry `j` waives the check. */
  predicate Names(raw: seq<RawWaiver>, j: int, checkId: string) {
    0 <= j < |raw| && raw[j].Waiver? && raw[j].checkId == Some(checkId) && checkId != ""
  }

  /** Some entry of the manifest waives the check. */
  predicate Waived(raw: seq<RawWaiver>, checkId: string) {
    exists j :: 0 <= j < |raw| && Names(raw, j, checkId)
  }

  /** Entry `j` waives the check and no later one does. */
  predicate LastWaiver(raw: seq<RawWaiver>, j: int, checkId: string) {
    Names(raw, j, checkId) && forall k :: j < k < |raw| ==> !Names(raw, k, checkId)
  }

  /** The table holds the checks some entry waives, each with the reason of its last entry. */
  lemma {:induction false} WaiversAre(raw: seq<RawWaiver>, checkId: string)
    ensures checkId in Waivers(raw) <==> Waived(raw, checkId)
    ensures forall j :: LastWaiver(raw, j, checkId) ==> Waivers(raw)[checkId] == raw[j].reason
  {
    if raw != [] {
      var n := |raw| - 1;
      WaiversAre(raw[..n], checkId);
      assert forall j :: 0 <= j < n ==> Names(raw[..n], j, checkId) == Names(raw, j, checkId);
      if Names(raw, n, checkId) { assert Waived(raw, checkId); }
      forall j | LastWaiver(raw, j, checkId)
        ensures Waivers(raw)[checkId] == raw[j].reason
      {
        if j < n { assert !Names(raw, n, checkId) && LastWaiver(raw[..n], j, checkId); }
      }
    }
  }

  lemma {:induction false} SomeLastWaiver(raw: seq<RawWaiver>, checkId: string) returns (j: nat)
    requires Waived(raw, checkId)
    ensures j < |raw| && LastWaiver(raw, j, checkId)
  {
    var n := |raw| - 1;
    j := n;
    if !Names(raw, n, checkId) {
      assert forall k :: 0 <= k < n ==> Names(raw[..n], k, checkId) == Names(raw, k, checkId);
      j := SomeLastWaiver(raw[..n], checkId);
    }
  }

  /** What the gate reports of each simple check: a failing one that the manifest waives as a pass marked
      waived, with the last entry's reason added to its message; any other as it was. */
  lemma GateReports(simple: seq<Outcome>, m: Manifest, i: nat)
    requires i < |simple|
    ensures
      var o, after := simple[i], RunAll(simple, m)[i];
      && (o.result != Fail || !Waived(m.waivers, o.checkId) ==> after == o)
      && (o.result == Fail && Waived(m.waivers, o.checkId) ==>
            exists j :: 0 <= j < |m.waivers| && LastWaiver(m.waivers, j, o.checkId)
              && var reason := m.waivers[j].reason;
                 after == Outcome(o.checkId, Pass, o.severity, true,
                                  if reason == "" then o.message
                                  else if o.message == "" then "waived: " + reason
                                  else o.message + "\n  (waived: " + reason + ")"))
  {
    hide Waivers, LastWaiver;
    WaiversAre(m.waivers, simple[i].checkId);
    if Waived(m.waivers, simple[i].checkId) {
      var j := SomeLastWaiver(m.waivers, simple[i].checkId);
    }
    RunAllShape(simple, m);
  }

  /** What every check constructor guarantees of a fresh outcome. */
  predicate Raw(simple: seq<Outcome>) {
    forall i :: 0 <= i < |simple| ==> !simple[i].waived
  }

  /** The second waiver pass finds nothing left to do among the simple checks, messages included. */
  lemma SecondPassIsIdle(outcomes: seq<Outcome>, waivers: map<string, string>)
    ensures WaiveAll(WaiveAll(outcomes, waivers), waivers) == WaiveAll(outcomes, waivers)
  {
  }

  /** So `run_all` is the waived simple checks and one meta outcome after them. */
  lemma RunAllShape(simple: seq<Outcome>, m: Manifest)
    ensures
      var waivers := Waivers(m.waivers);
      var first := WaiveAll(simple, waivers);
      RunAll(simple, m) == first + [Waive(MetaCheck(m, first), waivers)]
  {
  }

  /** The meta check never decides: the verdict is the simple checks' verdict after waivers. */
  lemma MetaNeverDecides(simple: seq<Outcome>, m: Manifest)
    ensures Overall(RunAll(simple, m)) == Overall(WaiveAll(simple, Waivers(m.waivers)))
  {
    RunAllShape(simple, m);
    var first := WaiveAll(simple, Waivers(m.waivers));
    var all := RunAll(simple, m);
    if AnyBlocks(first) {
      var i :| 0 <= i < |first| && first[i].Blocks();
      assert all[i].Blocks();
    }
  }

  /** The gate passes exactly when every simple check that fails at required severity is waived. */
  lemma PassIff(simple: seq<Outcome>, m: Manifest)
    requires Raw(simple)
    ensures Overall(RunAll(simple, m)) == Pass <==>
            forall i :: 0 <= i < |simple| && simple[i].result == Fail && simple[i].severity == Required ==>
              Waived(m.waivers, simple[i].checkId)
  {
    MetaNeverDecides(simple, m);
    var first := WaiveAll(simple, Waivers(m.waivers));
    forall i | 0 <= i < |simple|
      ensures first[i].Blocks() <==> simple[i].result == Fail && simple[i].severity == Required
                                     && !Waived(m.waivers, simple[i].checkId)
    {
      WaiversAre(m.waivers, simple[i].checkId);
    }
  }

  /** Adding waivers never turns a pass into a fail, whatever the manifest's status. */
  lemma WaiversNeverHurt(simple: seq<Outcome>, m: Manifest, more: seq<RawWaiver>)
    requires Raw(simple) && Overall(RunAll(simple, m)) == Pass
    ensures Overall(RunAll(simple, m.(waivers := m.waivers + more))) == Pass
  {
    hide Waivers, RunAll;
    PassIff(simple, m);
    PassIff(simple, m.(waivers := m.waivers + more));
    forall checkId | Waived(m.waivers, checkId)
      ensures Waived(m.waivers + more, checkId)
    {
      var j :| 0 <= j < |m.waivers| && Names(m.waivers, j, checkId);
      assert Names(m.waivers + more, j, checkId);
    }
  }

  /** A waived outcome reads as a pass. */
  lemma WaivedMeansPass(simple: seq<Outcome>, m: Manifest)
    requires Raw(simple)
    ensures forall o :: o in RunAll(simple, m) && o.waived ==> o.result == Pass
    ensures |RunAll(simple, m)| == |simple| + 1
    ensures forall i :: 0 <= i < |simple| ==> RunAll(simple, m)[i].checkId == simple[i].checkId
    ensures RunAll(simple, m)[|simple|].checkId == QA_APPROVED_IMPLIES_PASS
  {
  }

  /** What the simple checks return: one fresh outcome each, in their order; the engine-replay stub always
      skips. */
  predicate Simple(simple: seq<Outcome>) {
    && Raw(simple)
    && |simple| == |SIMPLE_CHECKS| && (forall i :: 0 <= i < |simple| ==> simple[i].checkId == SIMPLE_CHECKS[i])
    && simple[14].result == Skip
  }

  /** No check id appears twice, the meta check's included. */
  lemma IdsAreDistinct()
    ensures forall i, j :: 0 <= i < j < |SIMPLE_CHECKS| ==> SIMPLE_CHECKS[i] != SIMPLE_CHECKS[j]
    ensures QA_APPROVED_IMPLIES_PASS !in SIMPLE_CHECKS
  {
  }

  /** The meta check fails on an approved package exactly if a required check other than the engine replay failed
      and neither is waived. */
  lemma MetaIff(simple: seq<Outcome>, m: Manifest)
    requires Raw(simple)
    ensures
      var meta := RunAll(simple, m)[|simple|];
      && meta.checkId == "qa_approved_implies_pass" && meta.severity == Required
      && (meta.result == Skip <==> m.qaStatus != Some("approved"))
      && (meta.result == Fail <==>
            && m.qaStatus == Some("approved") && !Waived(m.waivers, "qa_approved_implies_pass")
            && exists i :: 0 <= i < |simple| && Violates(simple[i], m))
  {
    hide Waivers;
    WaiversAre(m.waivers, QA_APPROVED_IMPLIES_PASS);
    var first := WaiveAll(simple, Waivers(m.waivers));
    forall i | 0 <= i < |simple|
      ensures Violates(simple[i], m) <==> first[i].checkId != NO_UNLABELED_DIFF && first[i].Blocks()
    {
      WaiversAre(m.waivers, simple[i].checkId);
    }
  }

  predicate Violates(o: Outcome, m: Manifest) {
    o.checkId != "no_unlabeled_diff" && o.result == Fail && o.severity == Required && !Waived(m.waivers, o.checkId)
  }

  /** On approved packages the meta outcome repeats the verdict, unless it is itself waived. */
  lemma MetaRepeatsVerdict(simple: seq<Outcome>, m: Manifest)
    requires Simple(simple)
    ensures
      var meta := RunAll(simple, m)[|simple|];
      meta.result ==
        if m.qaStatus != Some("approved") then Skip
        else if Waived(m.waivers, QA_APPROVED_IMPLIES_PASS) then Pass
        else Overall(RunAll(simple, m))
  {
    hide Waivers;
    WaiversAre(m.waivers, QA_APPROVED_IMPLIES_PASS);
    IdsAreDistinct();
    MetaNeverDecides(simple, m);
    var first := WaiveAll(simple, Waivers(m.waivers));
    assert forall i :: 0 <= i < |first| && first[i].Blocks() ==> first[i].checkId != NO_UNLABELED_DIFF;
  }
}
