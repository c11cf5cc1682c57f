/** What approved diffs make of a profile's rules, file by file and code by code. */
module RuleChanges {
  import opened Wrappers
  import opened Versions
  import opened RegistrySpec
  import opened ProposalSpec
  import opened ProposalRuns

  // ---- One reason-code addition ----

  /** The patch rewrites reason_codes.json alone, and in it only the list. */
  predicate Rewrites(changed: Result<Patch, Error>, fields: map<string, Json>, codes: seq<Json>) {
    && changed.Ok? && changed.value.Keys == {"reason_codes.json"}
    && changed.value["reason_codes.json"].Some? && changed.value["reason_codes.json"].value.JObj?
    && var after := changed.value["reason_codes.json"].value.fields;
       && after.Keys == fields.Keys + {"reason_codes"} && after["reason_codes"] == JArr(codes)
       && forall k :: k in fields && k != "reason_codes" ==> after[k] == fields[k]
  }

  predicate Empty(j: Json) {
    j == JNull || j == JBool(false) || j == JNum(0.0) || j == JStr("") || j == JArr([]) || j == JObj(map[])
  }

  function OneMore(items: seq<Json>, code: string): seq<Json> {
    if exists i :: 0 <= i < |items| && items[i] == JStr(code) then items else items + [JStr(code)]
  }

  /** What adding a reason code writes over the files in force: the listed codes and this one, every other
      field of the file as it is; a file of its own where there is none or an empty one. It fails on a file
      that is no object, or whose list is none. */
  lemma ReasonCodeAddWrites(inForce: Files, name: string, code: string, description: string)
    ensures
      var changed := ChangedFiles(inForce, ReasonCodeAdd(name, code, description));
      if "reason_codes.json" !in inForce || Empty(inForce["reason_codes.json"]) then
        Rewrites(changed, map["profile" := JStr(name), "other_requires_reason_text" := JBool(false)], [JStr(code)])
      else
        match inForce["reason_codes.json"]
        case JObj(fields) =>
          if "reason_codes" !in fields then Rewrites(changed, fields, [JStr(code)])
          else
            (match fields["reason_codes"]
             case JArr(items) => Rewrites(changed, fields, OneMore(items, code))
             case JStr(s) => Rewrites(changed, fields, OneMore(seq(|s|, i requires 0 <= i < |s| => JStr([s[i]])), code))
             case _ => changed == Err(MalformedCodes))
        case _ => changed == Err(MalformedCodes)
  {
    if "reason_codes.json" in inForce {
      var doc := inForce["reason_codes.json"];
      assert Falsy(doc) <==> Empty(doc);
    }
  }

  // ---- Which diff decides a file ----

  function Touched(d: Diff): string
    requires d.Declarative()
  {
    if d.ProfileChange? then d.file else "reason_codes.json"
  }

  ghost predicate EndsInJson(file: string) {
    exists stem :: file == stem + ".json"
  }

  lemma JsonNameIff(file: string)
    ensures IsJsonName(file) <==> EndsInJson(file)
  {
    if IsJsonName(file) {
      assert file == file[..|file| - 5] + ".json";
    }
  }

  lemma {:induction false} FoldedIsJson(repo: Option<Files>, ds: seq<Diff>)
    requires forall d :: d in ds ==> d.Declarative()
    ensures forall f :: f in Folded(repo, ds) ==> IsJsonName(f)
  {
    if ds != [] { FoldedIsJson(repo, ds[..|ds| - 1]); }
  }

  /** One diff changes one file. */
  lemma OtherFilesStay(rules: Files, d: Diff, file: string)
    requires d.Declarative() && file != Touched(d) && forall f :: f in rules ==> IsJsonName(f)
    ensures Lookup(AfterDiff(rules, d), file) == Lookup(rules, file)
  {
    hide WithCode, IsJsonName;
  }

  lemma ChangeIsWritten(rules: Files, d: Diff)
    requires d.ProfileChange?
    ensures Lookup(AfterDiff(rules, d), d.file) ==
            if d.after == JNull || !EndsInJson(d.file) then None else Some(d.after)
  {
    JsonNameIff(d.file);
  }

  lemma {:induction false} UntouchedStays(repo: Option<Files>, ds: seq<Diff>, i: nat, file: string)
    requires (forall d :: d in ds ==> d.Declarative()) && i <= |ds|
    requires forall j :: i <= j < |ds| ==> Touched(ds[j]) != file
    ensures Lookup(Folded(repo, ds), file) == Lookup(Folded(repo, ds[..i]), file)
  {
    if i == |ds| {
      assert ds[..i] == ds;
    } else {
      var before, last := ds[..|ds| - 1], ds[|ds| - 1];
      assert before[..i] == ds[..i];
      UntouchedStays(repo, before, i, file);
      FoldedIsJson(repo, before);
      OtherFilesStay(Folded(repo, before), last, file);
    }
  }

  // ---- The reason codes ----

  /** The codes a profile's rules list. */
  function Codes(files: Files): Option<seq<Json>> {
    if "reason_codes.json" !in files then None
    else
      match files["reason_codes.json"]
      case JObj(fields) =>
        if "reason_codes" in fields && fields["reason_codes"].JArr? then Some(fields["reason_codes"].items) else None
      case _ => None
  }

  /** A merged addition leaves a list that goes on from the listed codes and holds the new one. */
  lemma AdditionLists(rules: Files, d: Diff)
    requires d.ReasonCodeAdd? && ChangedFiles(rules, d).Ok?
    ensures Codes(AfterDiff(rules, d)).Some? && JStr(d.code) in Codes(AfterDiff(rules, d)).value
    ensures Codes(rules).Some? ==> Codes(AfterDiff(rules, d)).value == OneMore(Codes(rules).value, d.code)
  {
    ReasonCodeAddWrites(rules, d.profile, d.code, d.description);
    assert IsJsonName(REASON_CODES);
    hide ChangedFiles, WithCode;
  }

  lemma SameCodes(rules: Files, after: Files)
    requires Lookup(rules, "reason_codes.json") == Lookup(after, "reason_codes.json")
    ensures Codes(rules) == Codes(after)
  {
  }

  predicate Added(ds: seq<Diff>, i: nat, code: Json) {
    exists j :: i <= j < |ds| && ds[j].ReasonCodeAdd? && code == JStr(ds[j].code)
  }

  /** Until the file is replaced as a whole, additions drop no code, list every new one, and nothing else. */
  lemma {:induction false} CodesStay(repo: Option<Files>, ds: seq<Diff>, i: nat)
    requires (forall d :: d in ds ==> d.Declarative()) && Merged(repo, ds) && i <= |ds|
    requires forall j :: i <= j < |ds| ==> ds[j].ProfileChange? ==> ds[j].file != "reason_codes.json"
    ensures
      var was, now := Codes(Folded(repo, ds[..i])), Codes(Folded(repo, ds));
      && (was.Some? ==> now.Some? && was.value <= now.value
                        && forall c :: c in now.value[|was.value|..] ==> Added(ds, i, c))
      && (forall j :: i <= j < |ds| && ds[j].ReasonCodeAdd? ==> now.Some? && JStr(ds[j].code) in now.value)
  {
    hide ChangedFiles, AfterDiff, Codes;
    if i == |ds| {
      assert ds[..i] == ds;
    } else {
      var n := |ds| - 1;
      var before, last := ds[..n], ds[n];
      assert before[..i] == ds[..i];
      CodesStay(repo, before, i);
      var was, mid, now := Codes(Folded(repo, ds[..i])), Codes(Folded(repo, before)), Codes(Folded(repo, ds));
      if last.ReasonCodeAdd? {
        AdditionLists(Folded(repo, before), last);
        assert Added(ds, i, JStr(last.code));
      } else {
        FoldedIsJson(repo, before);
        OtherFilesStay(Folded(repo, before), last, "reason_codes.json");
        SameCodes(Folded(repo, before), Folded(repo, ds));
      }
      assert forall c :: Added(before, i, c) ==> Added(ds, i, c);
      forall j | i <= j < |ds| && ds[j].ReasonCodeAdd?
        ensures now.Some? && JStr(ds[j].code) in now.value
      {
        if j < n { assert before[j] == ds[j] && JStr(before[j].code) in mid.value; }
      }
    }
  }

  // ---- Over runs ----

  /** The repository's own content of a file. */
  ghost function Shipped(env: Env, name: string, file: string): Option<Json> {
    if name in env.repo && file in env.repo[name] && EndsInJson(file) then Some(env.repo[name][file]) else None
  }

  lemma SeedIsShipped(env: Env, name: string, file: string)
    ensures Lookup(SeedFiles(RepoOf(env, name)), file) == Shipped(env, name, file)
  {
    JsonNameIff(file);
  }

  /** After every run, each file of a profile is what the last approved diff for it says, or as shipped if
      there was none; a profile change is taken as it stands, null deleting the file. */
  lemma LastChangeRules(env: Env, es: seq<Event>, name: string, file: string, i: nat)
    requires
      var g := Run(env, NOTHING, es);
      var ds := ApprovedDiffs(g.audit, g.rows, name);
      && i <= |ds| && (i > 0 ==> Touched(ds[i - 1]) == file)
      && forall j :: i <= j < |ds| ==> Touched(ds[j]) != file
    ensures
      var g := Run(env, NOTHING, es);
      var ds := ApprovedDiffs(g.audit, g.rows, name);
      && (i == 0 ==> Lookup(Rules(env, g, name), file) == Shipped(env, name, file))
      && (i > 0 && ds[i - 1].ProfileChange? ==>
            Lookup(Rules(env, g, name), file) ==
            if ds[i - 1].after == JNull || !EndsInJson(file) then None else Some(ds[i - 1].after))
  {
    hide Run, Rules, ApprovedDiffs, AfterDiff, ChangedFiles;
    var g := Run(env, NOTHING, es);
    var ds := ApprovedDiffs(g.audit, g.rows, name);
    var repo := RepoOf(env, name);
    RegistryEqualsApprovals(env, es, name);
    UntouchedStays(repo, ds, i, file);
    if i == 0 {
      SeedIsShipped(env, name, file);
    } else if ds[i - 1].ProfileChange? {
      assert ds[..i][..i - 1] == ds[..i - 1];
      ChangeIsWritten(Folded(repo, ds[..i - 1]), ds[i - 1]);
    }
  }

  /** After every run, every reason code added by an approval since the file was last replaced as a whole is
      listed, after the codes the file listed then and with no others. */
  lemma ApprovedCodesAreListed(env: Env, es: seq<Event>, name: string, i: nat)
    requires
      var g := Run(env, NOTHING, es);
      var ds := ApprovedDiffs(g.audit, g.rows, name);
      && i <= |ds|
      && forall j :: i <= j < |ds| ==> ds[j].ProfileChange? ==> ds[j].file != "reason_codes.json"
    ensures
      var g := Run(env, NOTHING, es);
      var ds := ApprovedDiffs(g.audit, g.rows, name);
      var was, now := Codes(Folded(RepoOf(env, name), ds[..i])), Codes(Rules(env, g, name));
      && (was.Some? ==> now.Some? && was.value <= now.value
                        && forall c :: c in now.value[|was.value|..] ==> Added(ds, i, c))
      && (forall j :: i <= j < |ds| && ds[j].ReasonCodeAdd? ==> now.Some? && JStr(ds[j].code) in now.value)
  {
    hide Run, Rules, ApprovedDiffs, AfterDiff, ChangedFiles, Codes, Folded, ProfileInv;
    var g := Run(env, NOTHING, es);
    StartInv(env);
    RunInv(env, NOTHING, es);
    var ds, repo := ApprovedDiffs(g.audit, g.rows, name), RepoOf(env, name);
    RegistryEqualsApprovals(env, es, name);
    ApprovedMerged(ProfileOf(g, name), repo, ds);
    CodesStay(repo, ds, i);
  }

  lemma ApprovedMerged(p: Profile, repo: Option<Files>, ds: seq<Diff>)
    requires (forall d :: d in ds ==> d.Declarative()) && ProfileInv(p, repo, ds)
    ensures Merged(repo, ds)
  {
    hide Folded, VersionAt, InOrder;
  }
}
