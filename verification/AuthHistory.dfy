/** Every answer, every password and every audit row, told from the history of calls. */
module AuthHistory {
  import opened Wrappers
  import opened Identity
  import opened AuthSpec
  import opened AuthRuns
  import opened TokenHistory

  // ---- When a call goes through ----

  predicate EnabledAdmin(c: Crypto, calls: seq<Call>, id: string) {
    id in Granted(c, calls) && Admin in Granted(c, calls)[id] && !DisabledNow(c, calls, id)
  }

  ghost predicate OnlyAdmin(c: Crypto, calls: seq<Call>, id: string) {
    EnabledAdmin(c, calls, id) && forall other :: other != id ==> !EnabledAdmin(c, calls, other)
  }

  ghost predicate Issued(c: Crypto, calls: seq<Call>, raw: string) {
    exists i :: 0 <= i < |calls| && Issues(c, calls, i, raw)
  }

  /** What the history must be for a call to go through. */
  ghost predicate GoesThrough(c: Crypto, calls: seq<Call>, call: Call) {
    match call
    case DoCreate(id, roles, _, _) => id != "" && roles != {} && id !in Granted(c, calls)
    case DoPassword(id, _, _) => id in Granted(c, calls)
    case DoDisable(id, disabled, _) => id in Granted(c, calls) && !(disabled && OnlyAdmin(c, calls, id))
    case DoRoles(id, roles, _) => roles != {} && id in Granted(c, calls) && !(Admin !in roles && OnlyAdmin(c, calls, id))
    case DoCheck(id) => id in Granted(c, calls) && !DisabledNow(c, calls, id)
    case DoInsert(_, _, _, raw, _, _, _, _) => !Issued(c, calls, raw)
    case DoRevoke(_) => true
    case DoRevokeByHash(h, _) => exists raw :: h == c.hash(raw) && Issued(c, calls, raw)
  }

  /** Sessions are stored under hashes of issued tokens. */
  lemma {:induction false} HashesAreIssued(c: Crypto, calls: seq<Call>, h: string)
    requires Injective(c) && h in Run(c, NOBODY, calls).sessions
    ensures exists raw :: h == c.hash(raw) && Issued(c, calls, raw)
  {
    hide Apply, Run, Issues;
    if calls == [] {
      StartsEmpty(c);
    } else {
      var before, last := calls[..|calls| - 1], calls[|calls| - 1];
      assert calls == before + [last];
      OneMore(c, before, last, "");
      if h in Run(c, NOBODY, before).sessions {
        HashesAreIssued(c, before, h);
        var raw :| h == c.hash(raw) && Issued(c, before, raw);
        OneMore(c, before, last, raw);
        var i :| 0 <= i < |before| && Issues(c, before, i, raw);
        assert Issues(c, calls, i, raw);
      } else {
        NewHash(c, Run(c, NOBODY, before), last, h);
        RowAppears(c, before, last, last.raw);
        assert Issues(c, calls, |before|, last.raw);
      }
    }
  }

  lemma NewHash(c: Crypto, a: Auth, call: Call, h: string)
    requires h !in a.sessions && h in Apply(c, a, call).0.sessions
    ensures call.DoInsert? && h == c.hash(call.raw)
  {
    hide Csv, DisableGuard, RolesGuard;
  }

  lemma ToldAdmin(c: Crypto, calls: seq<Call>, id: string)
    ensures
      var users := Run(c, NOBODY, calls).users;
      && (id in users <==> id in Granted(c, calls)) && RolesReadable(users)
      && (EnabledAdmin(c, calls, id) <==> id in users && !users[id].disabled && HoldsAdmin(users[id]))
      && (id in users ==> (users[id].disabled <==> DisabledNow(c, calls, id)) && users[id].roles == Csv(Granted(c, calls)[id]))
  {
    hide Run, Granted, DisabledNow, Csv, HoldsAdmin;
    RunTellsUsers(c, calls);
    FlagsTell(c, calls, id);
    if id in Granted(c, calls) { CsvHoldsAdmin(Granted(c, calls)[id], Run(c, NOBODY, calls).users[id]); }
  }

  lemma OnlyAdminIff(c: Crypto, calls: seq<Call>, id: string)
    requires id in Run(c, NOBODY, calls).users
    ensures
      var users := Run(c, NOBODY, calls).users;
      OnlyAdmin(c, calls, id) <==>
        && !users[id].disabled && HoldsAdmin(users[id])
        && forall other :: other in users && other != id && !users[other].disabled ==> !HoldsAdmin(users[other])
  {
    hide Run, EnabledAdmin, HoldsAdmin, RolesReadable;
    forall other
      ensures var users := Run(c, NOBODY, calls).users;
              EnabledAdmin(c, calls, other) <==> other in users && !users[other].disabled && HoldsAdmin(users[other])
    {
      ToldAdmin(c, calls, other);
    }
  }

  /** After every run of calls, any call goes through if and only if the history allows it, and the error of
      one that does not is true of it. */
  lemma CallSucceedsIff(c: Crypto, calls: seq<Call>, call: Call)
    requires Injective(c)
    ensures
      var answer := Apply(c, Run(c, NOBODY, calls), call).1;
      (answer.Ok? <==> GoesThrough(c, calls, call)) && (answer.Err? ==> Apt(c, calls, call, answer.error))
  {
    if Apply(c, Run(c, NOBODY, calls), call).1.Err? { ErrorIsApt(c, calls, call); }
    SucceedsIff(c, calls, call);
  }

  lemma SucceedsIff(c: Crypto, calls: seq<Call>, call: Call)
    requires Injective(c)
    ensures Apply(c, Run(c, NOBODY, calls), call).1.Ok? <==> GoesThrough(c, calls, call)
  {
    var a := Run(c, NOBODY, calls);
    hide Run, Granted, DisabledNow, Csv, HoldsAdmin, OnlyAdmin, Issued, DisableGuard, RolesGuard, RolesReadable;
    match call
    case DoCreate(id, _, _, _) => ToldAdmin(c, calls, id);
    case DoPassword(id, _, _) => ToldAdmin(c, calls, id);
    case DoCheck(id) => ToldAdmin(c, calls, id);
    case DoDisable(id, disabled, actor) => GuardedIff(c, calls, id, {}, actor);
    case DoRoles(id, roles, actor) => GuardedIff(c, calls, id, roles, actor);
    case DoInsert(_, _, _, raw, _, _, _, _) => IssuedIff(c, calls, raw);
    case DoRevoke(_) =>
    case DoRevokeByHash(h, _) =>
      if h in a.sessions { HashesAreIssued(c, calls, h); }
      forall raw | h == c.hash(raw) && Issued(c, calls, raw)
        ensures h in a.sessions
      {
        IssuedIff(c, calls, raw);
      }
  }

  lemma IssuedIff(c: Crypto, calls: seq<Call>, raw: string)
    requires Injective(c)
    ensures c.hash(raw) in Run(c, NOBODY, calls).sessions <==> Issued(c, calls, raw)
  {
    hide Run, Issues, RowTells;
    SessionTells(c, calls, raw);
  }

  lemma GuardedIff(c: Crypto, calls: seq<Call>, id: string, roles: set<Role>, actor: Option<Identity>)
    ensures
      var a := Run(c, NOBODY, calls);
      && (id in a.users <==> id in Granted(c, calls))
      && (id in a.users ==>
            && (SetDisabled(a, id, true, actor).1.Ok? <==> !OnlyAdmin(c, calls, id))
            && (roles != {} ==> (SetRoles(a, id, roles, actor).1.Ok? <==> !(Admin !in roles && OnlyAdmin(c, calls, id)))))
  {
    hide Run, Granted, DisabledNow, Csv, HoldsAdmin, OnlyAdmin, EnabledAdmin, DisableGuard, RolesGuard, RolesReadable;
    var a := Run(c, NOBODY, calls);
    ToldAdmin(c, calls, id);
    if id in a.users {
      OnlyAdminIff(c, calls, id);
      DisableRefusedIff(a, id, actor);
      if roles != {} { RolesRefusedIff(a, id, roles, actor); }
    }
  }

  /** What the error of a refused call says. */
  ghost predicate Apt(c: Crypto, calls: seq<Call>, call: Call, e: Error) {
    match e
    case EmptyId => call.DoCreate? && call.id == ""
    case NoRoles => (call.DoCreate? || call.DoRoles?) && call.roles == {}
    case Exists => call.DoCreate? && call.id in Granted(c, calls)
    case NoSuchUser =>
      && (call.DoPassword? || call.DoDisable? || call.DoRoles? || call.DoCheck?)
      && (call.id !in Granted(c, calls) || (call.DoCheck? && DisabledNow(c, calls, call.id)))
    case LastAdmin =>
      && OnlyAdmin(c, calls, if call.DoDisable? || call.DoRoles? then call.id else "")
      && ((call.DoDisable? && call.disabled) || (call.DoRoles? && Admin !in call.roles))
    case NoSuchSession => call.DoRevokeByHash?
    case TokenTaken => call.DoInsert? && Issued(c, calls, call.raw)
    case MalformedRoles => false
  }

  lemma ErrorIsApt(c: Crypto, calls: seq<Call>, call: Call)
    requires Injective(c) && Apply(c, Run(c, NOBODY, calls), call).1.Err?
    ensures Apt(c, calls, call, Apply(c, Run(c, NOBODY, calls), call).1.error)
  {
    hide Run, Granted, DisabledNow, Csv, HoldsAdmin, OnlyAdmin, EnabledAdmin, Issued, DisableGuard, RolesGuard, RolesReadable;
    var a := Run(c, NOBODY, calls);
    if call.DoInsert? {
      IssuedIff(c, calls, call.raw);
    } else if call.DoDisable? {
      GuardedIff(c, calls, call.id, {}, call.actor);
      if call.id in a.users { OnlyLastAdmin(c, calls, call.id, {}, call.actor); }
    } else if call.DoRoles? {
      GuardedIff(c, calls, call.id, call.roles, call.actor);
      if call.id in a.users { OnlyLastAdmin(c, calls, call.id, call.roles, call.actor); }
    } else if call.DoCreate? || call.DoPassword? || call.DoCheck? {
      ToldAdmin(c, calls, call.id);
    }
  }

  lemma OnlyLastAdmin(c: Crypto, calls: seq<Call>, id: string, roles: set<Role>, actor: Option<Identity>)
    requires id in Run(c, NOBODY, calls).users
    ensures
      var a := Run(c, NOBODY, calls);
      && (SetDisabled(a, id, true, actor).1.Err? ==> SetDisabled(a, id, true, actor).1 == Err(LastAdmin))
      && (roles != {} && SetRoles(a, id, roles, actor).1.Err? ==> SetRoles(a, id, roles, actor).1 == Err(LastAdmin))
  {
    hide Run, Granted, DisabledNow, Csv, HoldsAdmin, EnabledAdmin, DisableGuard, RolesGuard, RolesReadable;
    ToldAdmin(c, calls, id);
    DisableRefusedIff(Run(c, NOBODY, calls), id, actor);
    if roles != {} { RolesRefusedIff(Run(c, NOBODY, calls), id, roles, actor); }
  }

  // ---- Passwords ----

  /** The password last given to the user by a call that succeeded. */
  function LastPassword(c: Crypto, calls: seq<Call>, id: string): Option<string> {
    if calls == [] then None
    else
      var n := |calls| - 1;
      if calls[n].DoCreate? && calls[n].id == id && Succeeds(c, calls, n) then calls[n].password
      else if calls[n].DoPassword? && calls[n].id == id && Succeeds(c, calls, n) then Some(calls[n].encoded)
      else LastPassword(c, calls[..n], id)
  }

  lemma {:induction false} PasswordTells(c: Crypto, calls: seq<Call>, id: string)
    requires id in Run(c, NOBODY, calls).users
    ensures Run(c, NOBODY, calls).users[id].password == LastPassword(c, calls, id)
  {
    hide Run, Apply, Succeeds;
    if calls == [] {
      NobodyYet(c);
    } else {
      var n := |calls| - 1;
      var before := calls[..n];
      assert calls == before + [calls[n]];
      OneMore(c, before, calls[n], "");
      CallAndPassword(c, Run(c, NOBODY, before), calls[n], id);
      if id in Run(c, NOBODY, before).users { PasswordTells(c, before, id); }
    }
  }

  lemma CallAndPassword(c: Crypto, a: Auth, call: Call, id: string)
    requires id in Apply(c, a, call).0.users
    ensures
      var (b, r) := Apply(c, a, call);
      if call.DoCreate? && call.id == id && r.Ok? then b.users[id].password == call.password
      else if call.DoPassword? && call.id == id && r.Ok? then b.users[id].password == Some(call.encoded)
      else id in a.users && b.users[id].password == a.users[id].password
  {
    hide Csv, DisableGuard, RolesGuard;
  }

  // ---- The audit ----

  /** The audit rows a call leaves after `before`: one for each change of a user and each revocation by hash,
      one for an issue that is to be audited, none for a check, a logout or a refusal. */
  function Recorded(c: Crypto, before: seq<Call>, call: Call): seq<Audit> {
    var a := Run(c, NOBODY, before);
    if Apply(c, a, call).1.Err? then []
    else
      match call
      case DoCreate(id, roles, _, actor) => [Audit(actor, id, "created", Some("roles: " + Csv(roles)))]
      case DoPassword(id, _, actor) => [Audit(actor, id, "password_reset", None)]
      case DoDisable(id, disabled, actor) => [Audit(actor, id, if disabled then "disabled" else "enabled", None)]
      case DoRoles(id, roles, actor) =>
        var was := if id in Granted(c, before) then Granted(c, before)[id] else {};
        [Audit(actor, id, "role_change", Some(Csv(was) + " -> " + Csv(roles)))]
      case DoInsert(_, id, _, _, _, _, actor, Some(action)) => [Audit(actor, id, action, None)]
      case DoRevokeByHash(h, actor) => [Audit(actor, if h in a.sessions then a.sessions[h].user else "", "token_revoke", None)]
      case _ => []
  }

  function Told(c: Crypto, calls: seq<Call>): seq<Audit> {
    if calls == [] then []
    else Told(c, calls[..|calls| - 1]) + Recorded(c, calls[..|calls| - 1], calls[|calls| - 1])
  }

  lemma CallRecords(c: Crypto, before: seq<Call>, call: Call)
    ensures Apply(c, Run(c, NOBODY, before), call).0.audit == Run(c, NOBODY, before).audit + Recorded(c, before, call)
  {
    hide Run, Granted, Csv, DisableGuard, RolesGuard, RolesReadable;
    if call.DoRoles? { ToldAdmin(c, before, call.id); }
  }

  /** The audit is what the history of calls says it is, in order. */
  lemma {:induction false} AuditIsHistory(c: Crypto, calls: seq<Call>)
    ensures Run(c, NOBODY, calls).audit == Told(c, calls)
  {
    hide Apply, Recorded;
    if calls != [] {
      AuditIsHistory(c, calls[..|calls| - 1]);
      CallRecords(c, calls[..|calls| - 1], calls[|calls| - 1]);
    }
  }
}
