/** Users, sessions and service tokens. */
module AuthSpec {
  import opened Wrappers
  import opened Identity

  /** `roles` is the stored comma-separated text. */
  datatype User = User(roles: string, disabled: bool, password: Option<string>)

  /** Times are in microseconds. */
  datatype Session = Session(user: string, kind: string, expires: Option<int>, revoked: bool)

  datatype Audit = Audit(actor: Option<Identity>, target: string, action: string, detail: Option<string>)

  datatype Auth = Auth(users: map<string, User>, sessions: map<string, Session>, audit: seq<Audit>)

  const NOBODY := Auth(map[], map[], [])

  datatype Error = EmptyId | NoRoles | Exists | NoSuchUser | LastAdmin | MalformedRoles | NoSuchSession | TokenTaken

  /** The token hash. */
  datatype Crypto = Crypto(hash: string -> string)

  ghost predicate Injective(c: Crypto) {
    forall a, b :: c.hash(a) == c.hash(b) ==> a == b
  }

  type Answer = Result<(), Error>

  predicate HoldsAdmin(u: User) {
    ParseRoles(u.roles).Some? && Admin in ParseRoles(u.roles).value
  }

  predicate Guardian(users: map<string, User>, exclude: string, id: string) {
    id in users && id != exclude && !users[id].disabled && HoldsAdmin(users[id])
  }

  /** A row that makes the count raise. */
  predicate Unreadable(users: map<string, User>, exclude: string, id: string) {
    id in users && id != exclude && !users[id].disabled && ParseRoles(users[id].roles).None?
  }

  function EnabledAdmins(users: map<string, User>, exclude: string): set<string> {
    set id | id in users && Guardian(users, exclude, id)
  }

  function CountEnabledAdmins(users: map<string, User>, exclude: string): Result<nat, Error> {
    if exists id :: id in users && Unreadable(users, exclude, id) then Err(MalformedRoles)
    else Ok(|EnabledAdmins(users, exclude)|)
  }

  lemma OneMoreCounted(users: map<string, User>, exclude: string, done: set<string>, id: string)
    requires id in users && id !in done
    ensures
      var before := set i | i in done && Guardian(users, exclude, i);
      var after := set i | i in done + {id} && Guardian(users, exclude, i);
      |after| == if Guardian(users, exclude, id) then |before| + 1 else |before|
  {
    hide HoldsAdmin;
    var before := set i | i in done && Guardian(users, exclude, i);
    var after := set i | i in done + {id} && Guardian(users, exclude, i);
    assert after == if Guardian(users, exclude, id) then before + {id} else before;
  }

  function CreateUser(a: Auth, id: string, roles: set<Role>, password: Option<string>, actor: Option<Identity>)
    : (Auth, Answer)
  {
    if id == "" then (a, Err(EmptyId))
    else if roles == {} then (a, Err(NoRoles))
    else if id in a.users then (a, Err(Exists))
    else
      (a.(users := a.users[id := User(Csv(roles), false, password)],
          audit := a.audit + [Audit(actor, id, "created", Some("roles: " + Csv(roles)))]), Ok(()))
  }

  function SetPassword(a: Auth, id: string, encoded: string, actor: Option<Identity>): (Auth, Answer) {
    if id !in a.users then (a, Err(NoSuchUser))
    else
      (a.(users := a.users[id := a.users[id].(password := Some(encoded))],
          audit := a.audit + [Audit(actor, id, "password_reset", None)]), Ok(()))
  }

  /** Whether taking admin (or access) from an enabled user is refused. */
  function LastAdminGuard(users: map<string, User>, id: string): Option<Error> {
    match CountEnabledAdmins(users, id)
    case Err(e) => Some(e)
    case Ok(n) => if n == 0 then Some(LastAdmin) else None
  }

  function DisableGuard(users: map<string, User>, id: string): Option<Error>
    requires id in users
  {
    if users[id].disabled then None
    else
      match ParseRoles(users[id].roles)
      case None => Some(MalformedRoles)
      case Some(roles) => if Admin in roles then LastAdminGuard(users, id) else None
  }

  function RolesGuard(users: map<string, User>, id: string, roles: set<Role>): Option<Error>
    requires id in users
  {
    match ParseRoles(users[id].roles)
    case None => Some(MalformedRoles)
    case Some(was) =>
      if !users[id].disabled && Admin in was && Admin !in roles then LastAdminGuard(users, id) else None
  }

  function Revoked(sessions: map<string, Session>, user: string): map<string, Session> {
    map h | h in sessions :: if sessions[h].user == user then sessions[h].(revoked := true) else sessions[h]
  }

  function SetDisabled(a: Auth, id: string, disabled: bool, actor: Option<Identity>): (Auth, Answer) {
    if id !in a.users then (a, Err(NoSuchUser))
    else
      match if disabled then DisableGuard(a.users, id) else None
      case Some(e) => (a, Err(e))
      case None =>
        (Auth(a.users[id := a.users[id].(disabled := disabled)],
              if disabled then Revoked(a.sessions, id) else a.sessions,
              a.audit + [Audit(actor, id, if disabled then "disabled" else "enabled", None)]), Ok(()))
  }

  function SetRoles(a: Auth, id: string, roles: set<Role>, actor: Option<Identity>): (Auth, Answer) {
    if roles == {} then (a, Err(NoRoles))
    else if id !in a.users then (a, Err(NoSuchUser))
    else
      match RolesGuard(a.users, id, roles)
      case Some(e) => (a, Err(e))
      case None =>
        var detail := a.users[id].roles + " -> " + Csv(roles);
        (a.(users := a.users[id := a.users[id].(roles := Csv(roles))],
            audit := a.audit + [Audit(actor, id, "role_change", Some(detail))]), Ok(()))
  }

  /** Stored expiries are cut to whole seconds; a zero lifetime means none at all. */
  function Expiry(now: int, ttl: int): Option<int> {
    if ttl == 0 then None else Some((now + ttl) / 1000000 * 1000000)
  }

  /** The first half of issuing a token: is there such an enabled user? */
  function CheckEnabled(a: Auth, id: string): Answer {
    if id in a.users && !a.users[id].disabled then Ok(()) else Err(NoSuchUser)
  }

  /** The second half, under a second hold of the lock. `auditAction` is None for browser sessions. */
  function InsertToken(c: Crypto, a: Auth, id: string, kind: string, raw: string, now: int, ttl: int,
                       actor: Option<Identity>, auditAction: Option<string>): (Auth, Answer)
  {
    if c.hash(raw) in a.sessions then (a, Err(TokenTaken))
    else
      (a.(sessions := a.sessions[c.hash(raw) := Session(id, kind, Expiry(now, ttl), false)],
          audit := if auditAction.Some? then a.audit + [Audit(actor, id, auditAction.value, None)] else a.audit),
       Ok(()))
  }

  /** Both halves with nothing in between. */
  function IssueToken(c: Crypto, a: Auth, id: string, kind: string, raw: string, now: int, ttl: int,
                      actor: Option<Identity>, auditAction: Option<string>): (Auth, Answer)
  {
    if CheckEnabled(a, id).Err? then (a, CheckEnabled(a, id))
    else InsertToken(c, a, id, kind, raw, now, ttl, actor, auditAction)
  }

  function Struck(sessions: map<string, Session>, h: string): map<string, Session> {
    if h in sessions then sessions[h := sessions[h].(revoked := true)] else sessions
  }

  function RevokeToken(c: Crypto, a: Auth, raw: string): (Auth, Answer) {
    (a.(sessions := Struck(a.sessions, c.hash(raw))), Ok(()))
  }

  function RevokeByHash(a: Auth, h: string, actor: Option<Identity>): (Auth, Answer) {
    if h !in a.sessions then (a, Err(NoSuchSession))
    else
      (a.(sessions := Struck(a.sessions, h),
          audit := a.audit + [Audit(actor, a.sessions[h].user, "token_revoke", None)]), Ok(()))
  }

  predicate Expired(expires: Option<int>, now: int) {
    expires.Some? && now > expires.value
  }

  /** The lifetime given at `now` has passed: its end, cut to the whole second, lies before `later`. */
  predicate Over(now: int, ttl: int, later: int) {
    ttl != 0 && later > (now + ttl) - (now + ttl) % 1000000
  }

  /** A token is expired from the end of its lifetime on, and up to a second earlier; one without a lifetime
      never is. */
  lemma ExpiredIff(now: int, ttl: int, later: int)
    ensures Expired(Expiry(now, ttl), later) <==> Over(now, ttl, later)
    ensures ttl != 0 && later > now + ttl ==> Expired(Expiry(now, ttl), later)
    ensures ttl == 0 || later <= now + ttl - 1000000 ==> !Expired(Expiry(now, ttl), later)
  {
  }

  /** `Identity(id, parse_roles(raw))`: None stands for IdentityError. */
  function IdentityOf(id: string, raw: string): Option<Identity> {
    match ParseRoles(raw)
    case Some(roles) => if id == "" then None else Some(Identity(id, roles))
    case None => None
  }

  function IdentityForToken(c: Crypto, a: Auth, raw: string, now: int): Option<Identity> {
    var h := c.hash(raw);
    if h !in a.sessions || a.sessions[h].user !in a.users then None
    else
      var session := a.sessions[h];
      var user := a.users[session.user];
      if session.revoked || user.disabled || Expired(session.expires, now) then None
      else IdentityOf(session.user, user.roles)
  }
}

/** The store object. */
module AuthStores {
  import opened Wrappers
  import opened Identity
  import opened AuthSpec

  class AuthStore {
    const c: Crypto
    var users: map<string, User>
    var sessions: map<string, Session>
    var audit: seq<Audit>

    function State(): Auth
      reads this
    {
      Auth(users, sessions, audit)
    }

    constructor (c: Crypto)
      ensures State() == NOBODY && this.c == c
    {
      this.c := c;
      users, sessions, audit := map[], map[], [];
    }

    method InsertAudit(actor: Option<Identity>, target: string, action: string, detail: Option<string>)
      modifies this`audit
      ensures audit == old(audit) + [Audit(actor, target, action, detail)]
    {
      audit := audit + [Audit(actor, target, action, detail)];
    }

    method CreateUser(id: string, roles: set<Role>, password: Option<string>, actor: Option<Identity>)
      returns (r: Answer)
      modifies this
      ensures (State(), r) == AuthSpec.CreateUser(old(State()), id, roles, password, actor)
    {
      if id == "" { return Err(EmptyId); }
      if roles == {} { return Err(NoRoles); }
      var csv := Csv(roles);
      if id in users { return Err(Exists); }
      users := users[id := User(csv, false, password)];
      InsertAudit(actor, id, "created", Some("roles: " + csv));
      r := Ok(());
    }

    method SetPassword(id: string, encoded: string, actor: Option<Identity>) returns (r: Answer)
      modifies this
      ensures (State(), r) == AuthSpec.SetPassword(old(State()), id, encoded, actor)
    {
      if id !in users { return Err(NoSuchUser); }
      users := users[id := users[id].(password := Some(encoded))];
      InsertAudit(actor, id, "password_reset", None);
      r := Ok(());
    }

    /** Counts over the enabled rows; a row whose roles do not parse makes the count fail. */
    method CountEnabledAdmins(exclude: string) returns (r: Result<nat, Error>)
      ensures r == AuthSpec.CountEnabledAdmins(users, exclude)
    {
      hide ParseRoles;
      var rest, n := users.Keys, 0;
      ghost var done: set<string> := {};
      while rest != {}
        invariant done <= users.Keys && rest == users.Keys - done
        invariant forall id :: id in done ==> !Unreadable(users, exclude, id)
        invariant n == |set id | id in done && Guardian(users, exclude, id)|
        decreases |rest|
      {
        var id :| id in rest;
        var parsed := ParseRoles(users[id].roles);
        var enabledOther := !users[id].disabled && id != exclude;
        if enabledOther && parsed.None? {
          assert Unreadable(users, exclude, id);
          return Err(MalformedRoles);
        }
        OneMoreCounted(users, exclude, done, id);
        if enabledOther && Admin in parsed.value { n := n + 1; }
        done := done + {id};
        rest := rest - {id};
      }
      assert done == users.Keys;
      assert (set id | id in done && Guardian(users, exclude, id)) == EnabledAdmins(users, exclude);
      r := Ok(n);
    }

    method SetDisabled(id: string, disabled: bool, actor: Option<Identity>) returns (r: Answer)
      modifies this
      ensures (State(), r) == AuthSpec.SetDisabled(old(State()), id, disabled, actor)
    {
      hide ParseRoles, AuthSpec.CountEnabledAdmins;
      if disabled {
        if id !in users { return Err(NoSuchUser); }
        if !users[id].disabled {
          var roles := ParseRoles(users[id].roles);
          if roles.None? { return Err(MalformedRoles); }
          if Admin in roles.value {
            var n := CountEnabledAdmins(id);
            if n.Err? { return Err(n.error); }
            if n.value == 0 { return Err(LastAdmin); }
          }
        }
      }
      if id !in users { return Err(NoSuchUser); }
      users := users[id := users[id].(disabled := disabled)];
      if disabled {
        sessions := map h | h in sessions ::
          if sessions[h].user == id then sessions[h].(revoked := true) else sessions[h];
      }
      InsertAudit(actor, id, if disabled then "disabled" else "enabled", None);
      r := Ok(());
    }

    method SetRoles(id: string, roles: set<Role>, actor: Option<Identity>) returns (r: Answer)
      modifies this
      ensures (State(), r) == AuthSpec.SetRoles(old(State()), id, roles, actor)
    {
      hide ParseRoles, AuthSpec.CountEnabledAdmins, Csv;
      if roles == {} { return Err(NoRoles); }
      if id !in users { return Err(NoSuchUser); }
      var row := users[id];
      var was := ParseRoles(row.roles);
      if was.None? { return Err(MalformedRoles); }
      if !row.disabled && Admin in was.value && Admin !in roles {
        var n := CountEnabledAdmins(id);
        if n.Err? { return Err(n.error); }
        if n.value == 0 { return Err(LastAdmin); }
      }
      users := users[id := row.(roles := Csv(roles))];
      InsertAudit(actor, id, "role_change", Some(row.roles + " -> " + Csv(roles)));
      r := Ok(());
    }

    method CheckEnabled(id: string) returns (r: Answer)
      ensures r == AuthSpec.CheckEnabled(State(), id)
    {
      if id !in users || users[id].disabled { return Err(NoSuchUser); }
      r := Ok(());
    }

    method InsertToken(id: string, kind: string, raw: string, now: int, ttl: int, actor: Option<Identity>,
                       auditAction: Option<string>) returns (r: Answer)
      modifies this
      ensures (State(), r) == AuthSpec.InsertToken(c, old(State()), id, kind, raw, now, ttl, actor, auditAction)
    {
      var h := c.hash(raw);
      if h in sessions { return Err(TokenTaken); }
      sessions := sessions[h := Session(id, kind, Expiry(now, ttl), false)];
      if auditAction.Some? {
        InsertAudit(actor, id, auditAction.value, None);
      }
      r := Ok(());
    }

    method IssueToken(id: string, kind: string, raw: string, now: int, ttl: int, actor: Option<Identity>,
                      auditAction: Option<string>) returns (r: Answer)
      modifies this
      ensures (State(), r) == AuthSpec.IssueToken(c, old(State()), id, kind, raw, now, ttl, actor, auditAction)
    {
      r := CheckEnabled(id);
      if r.Err? { return; }
      r := InsertToken(id, kind, raw, now, ttl, actor, auditAction);
    }

    method Strike(h: string)
      modifies this`sessions
      ensures sessions == Struck(old(sessions), h)
    {
      if h in sessions {
        sessions := sessions[h := sessions[h].(revoked := true)];
      }
    }

    method RevokeToken(raw: string)
      modifies this
      ensures State() == AuthSpec.RevokeToken(c, old(State()), raw).0
    {
      Strike(c.hash(raw));
    }

    method RevokeSessionByHash(h: string, actor: Option<Identity>) returns (r: Answer)
      modifies this
      ensures (State(), r) == RevokeByHash(old(State()), h, actor)
    {
      if h !in sessions { return Err(NoSuchSession); }
      Strike(h);
      InsertAudit(actor, sessions[h].user, "token_revoke", None);
      r := Ok(());
    }

    method IdentityForToken(raw: string, now: int) returns (r: Option<Identity>)
      ensures r == AuthSpec.IdentityForToken(c, State(), raw, now)
    {
      hide ParseRoles;
      var h := c.hash(raw);
      if h !in sessions || sessions[h].user !in users { return None; }
      var session := sessions[h];
      var user := users[session.user];
      if session.revoked || user.disabled { return None; }
      if session.expires.Some? && now > session.expires.value { return None; }
      r := IdentityOf(session.user, user.roles);
    }
  }
}

/** What every run of the store's calls keeps. */
module AuthRuns {
  import opened Wrappers
  import opened Identity
  import opened AuthSpec

  /** One hold of the lock each. Issuing a token takes two; its insert names the position of its check. */
  datatype Call =
    | DoCreate(id: string, roles: set<Role>, password: Option<string>, actor: Option<Identity>)
    | DoPassword(id: string, encoded: string, actor: Option<Identity>)
    | DoDisable(id: string, disabled: bool, actor: Option<Identity>)
    | DoRoles(id: string, roles: set<Role>, actor: Option<Identity>)
    | DoCheck(id: string)
    | DoInsert(check: nat, id: string, kind: string, raw: string, now: int, ttl: int, actor: Option<Identity>,
               auditAction: Option<string>)
    | DoRevoke(raw: string)
    | DoRevokeByHash(h: string, actor: Option<Identity>)

  function Apply(c: Crypto, a: Auth, call: Call): (Auth, Answer) {
    match call
    case DoCreate(id, roles, password, actor) => CreateUser(a, id, roles, password, actor)
    case DoPassword(id, encoded, actor) => SetPassword(a, id, encoded, actor)
    case DoDisable(id, disabled, actor) => SetDisabled(a, id, disabled, actor)
    case DoRoles(id, roles, actor) => SetRoles(a, id, roles, actor)
    case DoCheck(id) => (a, CheckEnabled(a, id))
    case DoInsert(_, id, kind, raw, now, ttl, actor, action) => InsertToken(c, a, id, kind, raw, now, ttl, actor, action)
    case DoRevoke(raw) => RevokeToken(c, a, raw)
    case DoRevokeByHash(h, actor) => RevokeByHash(a, h, actor)
  }

  function Run(c: Crypto, a: Auth, calls: seq<Call>): Auth {
    if calls == [] then a else Apply(c, Run(c, a, calls[..|calls| - 1]), calls[|calls| - 1]).0
  }

  // ---- The last admin ----

  /** Every stored role text is the printed form of a role set that is not empty. */
  ghost predicate RolesReadable(users: map<string, User>) {
    forall id :: id in users ==> id != "" && exists roles: set<Role> :: roles != {} && users[id].roles == Csv(roles)
  }

  ghost predicate AdminExists(users: map<string, User>) {
    exists id :: id in users && !users[id].disabled && HoldsAdmin(users[id])
  }

  lemma ReadableParses(users: map<string, User>, id: string)
    requires RolesReadable(users) && id in users
    ensures ParseRoles(users[id].roles).Some? && Csv(ParseRoles(users[id].roles).value) == users[id].roles
    ensures ParseRoles(users[id].roles).value != {}
  {
    hide ParseRoles, Csv;
    var roles: set<Role> :| roles != {} && users[id].roles == Csv(roles);
    ParseCsv(roles);
  }

  lemma CsvHoldsAdmin(roles: set<Role>, u: User)
    requires roles != {} && u.roles == Csv(roles)
    ensures HoldsAdmin(u) <==> Admin in roles
  {
    hide ParseRoles, Csv;
    ParseCsv(roles);
  }

  lemma CallKeepsReadable(c: Crypto, a: Auth, call: Call)
    requires RolesReadable(a.users)
    ensures RolesReadable(Apply(c, a, call).0.users)
  {
  }

  /** Behind a guard that let the call through there is another enabled admin. */
  lemma GuardLeavesAdmin(users: map<string, User>, id: string)
    requires LastAdminGuard(users, id).None?
    ensures exists other :: Guardian(users, id, other)
  {
  }

  lemma CallKeepsAdmin(c: Crypto, a: Auth, call: Call)
    requires RolesReadable(a.users) && AdminExists(a.users)
    ensures AdminExists(Apply(c, a, call).0.users)
  {
    hide ParseRoles, Csv, LastAdminGuard, RolesReadable;
    var b := Apply(c, a, call).0;
    var boss :| boss in a.users && !a.users[boss].disabled && HoldsAdmin(a.users[boss]);
    if boss in b.users && b.users[boss].roles == a.users[boss].roles && !b.users[boss].disabled {
      assert HoldsAdmin(b.users[boss]);
    } else if call.DoDisable? {
      GuardLeavesAdmin(a.users, boss);
      var other :| Guardian(a.users, boss, other);
      assert b.users[other] == a.users[other];
    } else {
      RolesCallKeepsAdmin(a, boss, call.roles, call.actor);
    }
  }

  lemma RolesCallKeepsAdmin(a: Auth, boss: string, roles: set<Role>, actor: Option<Identity>)
    requires boss in a.users && !a.users[boss].disabled && HoldsAdmin(a.users[boss])
    ensures AdminExists(SetRoles(a, boss, roles, actor).0.users)
  {
    hide ParseRoles, Csv, LastAdminGuard;
    var (b, r) := SetRoles(a, boss, roles, actor);
    if r.Ok? {
      if Admin in roles {
        CsvHoldsAdmin(roles, b.users[boss]);
      } else {
        GuardLeavesAdmin(a.users, boss);
        var other :| Guardian(a.users, boss, other);
        assert b.users[other] == a.users[other];
      }
    } else {
      assert b == a;
    }
  }

  /** With readable roles the guard refuses exactly to disable the only enabled admin, and for no other
      reason. */
  lemma DisableRefusedIff(a: Auth, id: string, actor: Option<Identity>)
    requires RolesReadable(a.users) && id in a.users
    ensures
      var r := SetDisabled(a, id, true, actor).1;
      && (r.Ok? || r == Err(LastAdmin))
      && (r == Err(LastAdmin) <==>
            && !a.users[id].disabled && HoldsAdmin(a.users[id])
            && forall other :: other in a.users && other != id && !a.users[other].disabled ==> !HoldsAdmin(a.users[other]))
  {
    hide ParseRoles, Csv;
    ReadableParses(a.users, id);
    CountReads(a.users, id);
    var others := EnabledAdmins(a.users, id);
    if others != {} {
      var other :| other in others;
      assert Guardian(a.users, id, other);
    }
    forall other | other in a.users && Guardian(a.users, id, other)
      ensures others != {}
    {
      assert other in others;
    }
  }

  /** Likewise for taking roles away. */
  lemma RolesRefusedIff(a: Auth, id: string, roles: set<Role>, actor: Option<Identity>)
    requires RolesReadable(a.users) && id in a.users && roles != {}
    ensures
      var r := SetRoles(a, id, roles, actor).1;
      && (r.Ok? || r == Err(LastAdmin))
      && (r == Err(LastAdmin) <==> Admin !in roles && SetDisabled(a, id, true, actor).1 == Err(LastAdmin))
  {
    hide ParseRoles, Csv;
    ReadableParses(a.users, id);
    CountReads(a.users, id);
  }

  lemma CountReads(users: map<string, User>, exclude: string)
    requires RolesReadable(users)
    ensures CountEnabledAdmins(users, exclude) == Ok(|EnabledAdmins(users, exclude)|)
  {
    hide ParseRoles, Csv, RolesReadable;
    forall id | id in users
      ensures !Unreadable(users, exclude, id)
    {
      ReadableParses(users, id);
    }
  }

  /** Once there is an enabled admin, every run of calls leaves one; and every role text stays readable. */
  lemma {:induction false} AnAdminRemains(c: Crypto, a: Auth, calls: seq<Call>)
    requires RolesReadable(a.users) && AdminExists(a.users)
    ensures RolesReadable(Run(c, a, calls).users) && AdminExists(Run(c, a, calls).users)
  {
    hide Apply, RolesReadable, AdminExists;
    if calls != [] {
      AnAdminRemains(c, a, calls[..|calls| - 1]);
      CallKeepsReadable(c, Run(c, a, calls[..|calls| - 1]), calls[|calls| - 1]);
      CallKeepsAdmin(c, Run(c, a, calls[..|calls| - 1]), calls[|calls| - 1]);
    }
  }
}

/** A token's fate is in the history of calls alone. */
module TokenHistory {
  import opened Wrappers
  import opened Identity
  import opened AuthSpec
  import opened AuthRuns

  function At(c: Crypto, calls: seq<Call>, i: nat): Auth
    requires i <= |calls|
  {
    Run(c, NOBODY, calls[..i])
  }

  predicate Succeeds(c: Crypto, calls: seq<Call>, i: nat) {
    i < |calls| && Apply(c, At(c, calls, i), calls[i]).1.Ok?
  }

  /** Call `i` issued the token. */
  predicate Issues(c: Crypto, calls: seq<Call>, i: nat, raw: string) {
    i < |calls| && calls[i].DoInsert? && calls[i].raw == raw && Succeeds(c, calls, i)
  }

  /** Call `j` ends every token with this hash and owner: it revokes it or disables its owner. */
  predicate Ends(c: Crypto, calls: seq<Call>, j: nat, raw: string, owner: string) {
    && j < |calls|
    && match calls[j]
       case DoRevoke(r) => r == raw
       case DoRevokeByHash(h, _) => h == c.hash(raw)
       case DoDisable(id, disabled, _) => id == owner && disabled && Succeeds(c, calls, j)
       case _ => false
  }

  predicate Ended(c: Crypto, calls: seq<Call>, i: nat, raw: string, owner: string) {
    exists j :: i < j < |calls| && Ends(c, calls, j, raw, owner)
  }

  /** The roles granted once a call answered. */
  function Grant(granted: map<string, set<Role>>, call: Call, ok: bool): map<string, set<Role>> {
    match call
    case DoCreate(id, roles, _, _) => if ok then granted[id := roles] else granted
    case DoRoles(id, roles, _) => if ok then granted[id := roles] else granted
    case _ => granted
  }

  /** The roles last granted to each user by a call that succeeded. */
  function Granted(c: Crypto, calls: seq<Call>): map<string, set<Role>> {
    if calls == [] then map[]
    else
      var n := |calls| - 1;
      Grant(Granted(c, calls[..n]), calls[n], Succeeds(c, calls, n))
  }

  /** The session row of an issued token says what the calls since say. */
  ghost predicate RowTells(c: Crypto, calls: seq<Call>, i: nat, raw: string) {
    var h, a := c.hash(raw), Run(c, NOBODY, calls);
    && i < |calls| && calls[i].DoInsert? && h in a.sessions
    && a.sessions[h].user == calls[i].id && a.sessions[h].kind == calls[i].kind
    && a.sessions[h].expires == Expiry(calls[i].now, calls[i].ttl)
    && (a.sessions[h].revoked <==> Ended(c, calls, i, raw, calls[i].id))
  }

  lemma OneMore(c: Crypto, before: seq<Call>, last: Call, raw: string)
    ensures
      var calls := before + [last];
      && Run(c, NOBODY, calls) == Apply(c, Run(c, NOBODY, before), last).0
      && (forall i :: 0 <= i < |before| ==> (Succeeds(c, calls, i) <==> Succeeds(c, before, i)))
      && (forall i :: 0 <= i < |before| ==> (Issues(c, calls, i, raw) <==> Issues(c, before, i, raw)))
      && (Succeeds(c, calls, |before|) <==> Apply(c, Run(c, NOBODY, before), last).1.Ok?)
  {
    hide Apply;
    var calls := before + [last];
    assert calls[..|before|] == before;
    assert forall i :: 0 <= i < |before| ==> calls[..i] == before[..i];
  }

  lemma EndsOneMore(c: Crypto, before: seq<Call>, last: Call, raw: string, i: nat, owner: string)
    requires i < |before|
    ensures Ended(c, before + [last], i, raw, owner) <==>
            Ended(c, before, i, raw, owner) || Ends(c, before + [last], |before|, raw, owner)
  {
    hide Succeeds;
    OneMore(c, before, last, raw);
    var calls := before + [last];
    forall j | 0 <= j < |before|
      ensures Ends(c, calls, j, raw, owner) <==> Ends(c, before, j, raw, owner)
    {
      assert calls[j] == before[j];
    }
  }

  /** What one call does to a session row. */
  lemma CallAndRow(c: Crypto, a: Auth, call: Call, raw: string)
    requires Injective(c) && c.hash(raw) in a.sessions
    ensures
      var h, b, row := c.hash(raw), Apply(c, a, call).0, a.sessions[c.hash(raw)];
      && h in b.sessions && b.sessions[h].user == row.user && b.sessions[h].kind == row.kind && b.sessions[h].expires == row.expires
      && (b.sessions[h].revoked <==>
            || row.revoked
            || call == DoRevoke(raw)
            || (call.DoRevokeByHash? && call.h == h)
            || (call.DoDisable? && call.id == row.user && call.disabled && Apply(c, a, call).1.Ok?))
  {
  }

  lemma StepTells(c: Crypto, before: seq<Call>, last: Call, raw: string, i: nat)
    requires Injective(c) && RowTells(c, before, i, raw)
    ensures RowTells(c, before + [last], i, raw)
  {
    hide Apply, Succeeds, Ended;
    OneMore(c, before, last, raw);
    EndsOneMore(c, before, last, raw, i, before[i].id);
    CallAndRow(c, Run(c, NOBODY, before), last, raw);
  }

  lemma IssueTells(c: Crypto, before: seq<Call>, last: Call, raw: string)
    requires Issues(c, before + [last], |before|, raw)
    ensures RowTells(c, before + [last], |before|, raw)
  {
  }

  /** A row exists exactly for issued tokens, and tells their story. */
  lemma {:induction false} SessionTells(c: Crypto, calls: seq<Call>, raw: string)
    requires Injective(c)
    ensures c.hash(raw) in Run(c, NOBODY, calls).sessions <==> exists i :: 0 <= i < |calls| && Issues(c, calls, i, raw)
    ensures forall i :: 0 <= i < |calls| && Issues(c, calls, i, raw) ==> RowTells(c, calls, i, raw)
  {
    hide Apply, RowTells, Issues, Run;
    if calls == [] {
      StartsEmpty(c);
    } else {
      var before, last := calls[..|calls| - 1], calls[|calls| - 1];
      assert calls == before + [last];
      SessionTells(c, before, raw);
      OneMore(c, before, last, raw);
      RowAppears(c, before, last, raw);
      forall i | 0 <= i < |calls| && Issues(c, calls, i, raw)
        ensures RowTells(c, calls, i, raw)
      {
        if i < |before| { StepTells(c, before, last, raw, i); } else { IssueTells(c, before, last, raw); }
      }
    }
  }

  lemma StartsEmpty(c: Crypto)
    ensures Run(c, NOBODY, []).sessions == map[]
  {
  }

  lemma RowAppears(c: Crypto, before: seq<Call>, last: Call, raw: string)
    requires Injective(c)
    ensures
      var calls := before + [last];
      c.hash(raw) in Run(c, NOBODY, calls).sessions <==>
        c.hash(raw) in Run(c, NOBODY, before).sessions || Issues(c, calls, |before|, raw)
  {
    hide Csv, DisableGuard, RolesGuard, Run;
    OneMore(c, before, last, raw);
  }

  // ---- The users behind the rows ----

  /** Every insert follows a check of the same user that succeeded. */
  predicate Ticketed(c: Crypto, calls: seq<Call>) {
    forall i :: 0 <= i < |calls| && calls[i].DoInsert? ==>
      calls[i].check < i && calls[calls[i].check] == DoCheck(calls[i].id) && Succeeds(c, calls, calls[i].check)
  }

  /** Whether the last call about it left the user disabled. */
  predicate DisabledNow(c: Crypto, calls: seq<Call>, id: string) {
    if calls == [] then false
    else
      var n := |calls| - 1;
      if calls[n].DoDisable? && calls[n].id == id && Succeeds(c, calls, n) then calls[n].disabled
      else DisabledNow(c, calls[..n], id)
  }

  /** Stored roles are the granted ones. */
  ghost predicate UsersTell(a: Auth, granted: map<string, set<Role>>) {
    && a.users.Keys == granted.Keys
    && (forall id :: id in a.users ==> id != "" && granted[id] != {} && a.users[id].roles == Csv(granted[id]))
  }

  lemma CallKeepsUsers(c: Crypto, a: Auth, granted: map<string, set<Role>>, call: Call)
    requires UsersTell(a, granted)
    ensures UsersTell(Apply(c, a, call).0, Grant(granted, call, Apply(c, a, call).1.Ok?))
  {
    hide Csv, DisableGuard, RolesGuard, Revoked, Struck, UsersTell;
    match call
    case DoCreate(id, roles, password, actor) => UserRowChanges(a, granted, call, c);
    case DoPassword(id, encoded, actor) => UserRowChanges(a, granted, call, c);
    case DoDisable(id, disabled, actor) => DisableKeepsUsers(a, granted, id, disabled, actor);
    case DoRoles(id, roles, actor) => UserRowChanges(a, granted, call, c);
    case DoCheck(_) =>
    case DoInsert(_, id, kind, raw, now, ttl, actor, action) =>
      InsertKeepsUsers(c, a, granted, id, kind, raw, now, ttl, actor, action);
    case DoRevoke(raw) => StrikeKeepsUsers(a, granted, c.hash(raw), Apply(c, a, call).0);
    case DoRevokeByHash(h, actor) =>
      if h in a.sessions { StrikeKeepsUsers(a, granted, h, Apply(c, a, call).0); }
  }

  lemma UserRowChanges(a: Auth, granted: map<string, set<Role>>, call: Call, c: Crypto)
    requires UsersTell(a, granted) && (call.DoCreate? || call.DoPassword? || call.DoRoles?)
    ensures UsersTell(Apply(c, a, call).0, Grant(granted, call, Apply(c, a, call).1.Ok?))
  {
    hide Csv, RolesGuard;
  }

  lemma DisableKeepsUsers(a: Auth, granted: map<string, set<Role>>, id: string, disabled: bool, actor: Option<Identity>)
    requires UsersTell(a, granted)
    ensures UsersTell(SetDisabled(a, id, disabled, actor).0, granted)
  {
    hide Csv, DisableGuard;
  }

  lemma InsertKeepsUsers(c: Crypto, a: Auth, granted: map<string, set<Role>>, id: string, kind: string, raw: string,
                        now: int, ttl: int, actor: Option<Identity>, action: Option<string>)
    requires UsersTell(a, granted)
    ensures UsersTell(InsertToken(c, a, id, kind, raw, now, ttl, actor, action).0, granted)
  {
  }

  lemma StrikeKeepsUsers(a: Auth, granted: map<string, set<Role>>, h: string, b: Auth)
    requires UsersTell(a, granted) && b.users == a.users && b.sessions == Struck(a.sessions, h)
    ensures UsersTell(b, granted)
  {
  }

  lemma {:induction false} RunTellsUsers(c: Crypto, calls: seq<Call>)
    ensures UsersTell(Run(c, NOBODY, calls), Granted(c, calls))
  {
    hide Apply, UsersTell;
    if calls == [] {
      NobodyTells(c);
    } else {
      var before := calls[..|calls| - 1];
      RunTellsUsers(c, before);
      CallKeepsUsers(c, Run(c, NOBODY, before), Granted(c, before), calls[|calls| - 1]);
    }
  }

  lemma NobodyTells(c: Crypto)
    ensures UsersTell(Run(c, NOBODY, []), Granted(c, []))
  {
  }

  /** Users are never removed, and are disabled as the last call about them said. */
  lemma {:induction false} FlagsTell(c: Crypto, calls: seq<Call>, id: string)
    ensures
      var users := Run(c, NOBODY, calls).users;
      && (id in users ==> (users[id].disabled <==> DisabledNow(c, calls, id)))
      && (id !in users ==> !DisabledNow(c, calls, id))
  {
    hide Apply, Run;
    if calls == [] {
      NobodyYet(c);
    } else {
      var n := |calls| - 1;
      var before := calls[..n];
      assert calls == before + [calls[n]];
      FlagsTell(c, before, id);
      OneMore(c, before, calls[n], "");
      CallAndFlag(c, Run(c, NOBODY, before), calls[n], id);
    }
  }

  lemma NobodyYet(c: Crypto)
    ensures Run(c, NOBODY, []).users == map[]
  {
  }

  lemma CallAndFlag(c: Crypto, a: Auth, call: Call, id: string)
    ensures
      var (b, r) := Apply(c, a, call);
      && (id in a.users ==> id in b.users)
      && (id in b.users ==> (b.users[id].disabled <==>
            if call.DoDisable? && call.id == id && r.Ok? then call.disabled else id in a.users && a.users[id].disabled))
      && (call.DoDisable? && call.id == id && r.Ok? ==> id in b.users)
      && (call.DoCheck? && call.id == id && r.Ok? ==> id in a.users && !a.users[id].disabled)
  {
    hide Csv, DisableGuard, RolesGuard;
  }

  /** From a state in which a user is enabled to one in which it was never disabled since. */
  lemma {:induction false} StaysEnabled(c: Crypto, calls: seq<Call>, k: nat, id: string)
    requires k <= |calls| && id in At(c, calls, k).users
    requires !At(c, calls, k).users[id].disabled
    requires forall j :: k <= j < |calls| ==> !(calls[j].DoDisable? && calls[j].id == id && calls[j].disabled && Succeeds(c, calls, j))
    ensures id in Run(c, NOBODY, calls).users && !Run(c, NOBODY, calls).users[id].disabled
    decreases |calls| - k
  {
    hide Apply, Run;
    if k == |calls| {
      assert calls[..k] == calls;
    } else {
      assert calls[..k + 1] == calls[..k] + [calls[k]];
      OneMore(c, calls[..k], calls[k], "");
      CallAndFlag(c, At(c, calls, k), calls[k], id);
      StaysEnabled(c, calls, k + 1, id);
    }
  }

  lemma {:induction false} StaysKnown(c: Crypto, calls: seq<Call>, k: nat, id: string)
    requires k <= |calls| && id in At(c, calls, k).users
    ensures id in Run(c, NOBODY, calls).users
    decreases |calls| - k
  {
    hide Apply, Run;
    if k == |calls| {
      assert calls[..k] == calls;
    } else {
      assert calls[..k + 1] == calls[..k] + [calls[k]];
      OneMore(c, calls[..k], calls[k], "");
      CallAndFlag(c, At(c, calls, k), calls[k], id);
      StaysKnown(c, calls, k + 1, id);
    }
  }

  lemma OwnerWasEnabled(c: Crypto, calls: seq<Call>, i: nat)
    requires Ticketed(c, calls) && i < |calls| && calls[i].DoInsert?
    ensures
      var a := At(c, calls, calls[i].check);
      calls[i].id in a.users && !a.users[calls[i].id].disabled
  {
    hide Run, Apply;
    var k := calls[i].check;
    CallAndFlag(c, At(c, calls, k), calls[k], calls[i].id);
  }

  // ---- Main results ----

  /** A token resolves exactly if some insert issued it, its lifetime is not over, no call since then revoked
      it or disabled its owner, and its owner is not disabled now; it then resolves to the owner with the
      roles last granted. */
  lemma ResolvesIff(c: Crypto, calls: seq<Call>, raw: string, now: int)
    requires Injective(c) && Ticketed(c, calls)
    ensures
      var resolved := IdentityForToken(c, Run(c, NOBODY, calls), raw, now);
      && (resolved.Some? <==>
            exists i :: 0 <= i < |calls| && Issues(c, calls, i, raw)
              && !Over(calls[i].now, calls[i].ttl, now) && !Ended(c, calls, i, raw, calls[i].id)
              && !DisabledNow(c, calls, calls[i].id))
      && (resolved.Some? ==>
            exists i :: 0 <= i < |calls| && Issues(c, calls, i, raw) && calls[i].id in Granted(c, calls)
              && resolved.value == Identity(calls[i].id, Granted(c, calls)[calls[i].id]))
  {
    hide Run, Apply, Ended, Granted, Csv, ParseRoles, Expired, Expiry, Over, Ticketed, Succeeds, DisabledNow;
    SessionTells(c, calls, raw);
    RunTellsUsers(c, calls);
    var a, h := Run(c, NOBODY, calls), c.hash(raw);
    if h in a.sessions {
      var i :| 0 <= i < |calls| && Issues(c, calls, i, raw);
      assert RowTells(c, calls, i, raw);
      var user := a.sessions[h].user;
      OwnerKnown(c, calls, i);
      forall k | 0 <= k < |calls| && calls[k].DoInsert?
        ensures Expired(Expiry(calls[k].now, calls[k].ttl), now) <==> Over(calls[k].now, calls[k].ttl, now)
      {
        ExpiredIff(calls[k].now, calls[k].ttl, now);
      }
      FlagsTell(c, calls, user);
      ParseCsv(Granted(c, calls)[user]);
    }
  }

  lemma OwnerKnown(c: Crypto, calls: seq<Call>, i: nat)
    requires Ticketed(c, calls) && i < |calls| && calls[i].DoInsert?
    ensures calls[i].id in Run(c, NOBODY, calls).users
  {
    hide Run, Apply, Succeeds;
    OwnerWasEnabled(c, calls, i);
    assert calls[i].check < |calls|;
    StaysKnown(c, calls, calls[i].check, calls[i].id);
  }

  /** Nobody disabled the owner between the check and the insert. */
  predicate Unbroken(c: Crypto, calls: seq<Call>, i: nat)
    requires i < |calls| && calls[i].DoInsert?
  {
    forall j :: calls[i].check < j < i ==>
      !(calls[j].DoDisable? && calls[j].id == calls[i].id && calls[j].disabled && Succeeds(c, calls, j))
  }

  /** Issued without a disable in between, a token that was not ended has an enabled owner: its check is
      all it needs. */
  lemma UnbrokenIsEnabled(c: Crypto, calls: seq<Call>, i: nat, raw: string)
    requires Ticketed(c, calls) && i < |calls| && Issues(c, calls, i, raw) && Unbroken(c, calls, i)
    requires !Ended(c, calls, i, raw, calls[i].id)
    ensures !DisabledNow(c, calls, calls[i].id)
  {
    hide Run, Apply, Succeeds, DisabledNow;
    var k, id := calls[i].check, calls[i].id;
    OwnerWasEnabled(c, calls, i);
    forall j | k <= j < |calls|
      ensures !(calls[j].DoDisable? && calls[j].id == id && calls[j].disabled && Succeeds(c, calls, j))
    {
      assert i < j ==> !Ends(c, calls, j, raw, id);
    }
    StaysEnabled(c, calls, k, id);
    FlagsTell(c, calls, id);
  }

  /** Revocation and disabling are for good: whatever calls follow the insert's end, re-enabling included,
      the token does not resolve. */
  lemma RevocationIsPermanent(c: Crypto, calls: seq<Call>, raw: string, i: nat, j: nat, now: int)
    requires Injective(c) && i < j < |calls| && Issues(c, calls, i, raw) && Ends(c, calls, j, raw, calls[i].id)
    ensures IdentityForToken(c, Run(c, NOBODY, calls), raw, now) == None
  {
    hide Run, Apply, Issues, Ends;
    SessionTells(c, calls, raw);
    assert RowTells(c, calls, i, raw);
  }

  // ---- A disable between check and insert ----

  /** The run: created, checked, disabled, inserted, enabled again. The token was checked before the disable
      and resolves after it. */
  function Leak(raw: string): seq<Call> {
    [DoCreate("u", {Analyst}, None, None), DoCheck("u"), DoDisable("u", true, None),
     DoInsert(1, "u", "bearer", raw, 0, 0, None, None), DoDisable("u", false, None)]
  }

  lemma DisableBetweenLeaks(c: Crypto, raw: string)
    requires Injective(c)
    ensures Ticketed(c, Leak(raw)) && Issues(c, Leak(raw), 3, raw) && !Unbroken(c, Leak(raw), 3)
    ensures IdentityForToken(c, Run(c, NOBODY, Leak(raw)), raw, 0) == Some(Identity("u", {Analyst}))
  {
    hide Run, Apply, Succeeds, LeakStates, IdentityForToken;
    LeakSucceeds(c, raw);
    LeakResolves(c, raw);
    var calls := Leak(raw);
    assert calls[1] == DoCheck("u") && calls[2] == DoDisable("u", true, None);
  }

  function LeakStates(c: Crypto, raw: string): (a: seq<Auth>) {
    var a1 := CreateUser(NOBODY, "u", {Analyst}, None, None).0;
    var a3 := SetDisabled(a1, "u", true, None).0;
    var a4 := InsertToken(c, a3, "u", "bearer", raw, 0, 0, None, None).0;
    [a1, a3, a4, SetDisabled(a4, "u", false, None).0]
  }

  lemma LeakResolves(c: Crypto, raw: string)
    ensures IdentityForToken(c, LeakStates(c, raw)[3], raw, 0) == Some(Identity("u", {Analyst}))
  {
    hide Csv, ParseRoles;
    ParseCsv({Analyst});
  }

  lemma LeakSucceeds(c: Crypto, raw: string)
    ensures Run(c, NOBODY, Leak(raw)) == LeakStates(c, raw)[3]
    ensures Succeeds(c, Leak(raw), 1) && Succeeds(c, Leak(raw), 2) && Succeeds(c, Leak(raw), 3)
  {
    hide Csv, ParseRoles;
    ParseCsv({Analyst});
    var calls := Leak(raw);
    assert calls[..0] == [] && calls[..1] == [calls[0]] && calls[..2] == calls[..1] + [calls[1]];
    assert calls[..3] == calls[..2] + [calls[2]] && calls[..4] == calls[..3] + [calls[3]];
    assert calls == calls[..4] + [calls[4]] && [calls[0]] == [] + [calls[0]];
    OneMore(c, [], calls[0], raw);
    OneMore(c, calls[..1], calls[1], raw);
    OneMore(c, calls[..2], calls[2], raw);
    OneMore(c, calls[..3], calls[3], raw);
    OneMore(c, calls[..4], calls[4], raw);
  }

  /** Exactly: an issued token can come to resolve again, by some calls at some time, if and only if no call
      after its insert revoked it or disabled its owner. A disable before the insert does not count. */
  lemma ComesBackIff(c: Crypto, calls: seq<Call>, i: nat, raw: string)
    requires Injective(c) && Ticketed(c, calls) && Issues(c, calls, i, raw)
    ensures
      (exists more, now :: Ticketed(c, calls + more) && IdentityForToken(c, Run(c, NOBODY, calls + more), raw, now).Some?)
      <==> !Ended(c, calls, i, raw, calls[i].id)
  {
    hide Run, Apply, Ticketed, Ends, Expired, Expiry, Ended, Succeeds;
    if Ended(c, calls, i, raw, calls[i].id) {
      forall more, now
        ensures IdentityForToken(c, Run(c, NOBODY, calls + more), raw, now).None?
      {
        EndedStays(c, calls, more, i, raw, now);
      }
    } else {
      EnabledAgain(c, calls, i, raw);
    }
  }

  lemma EndedStays(c: Crypto, calls: seq<Call>, more: seq<Call>, i: nat, raw: string, now: int)
    requires Injective(c) && Issues(c, calls, i, raw) && Ended(c, calls, i, raw, calls[i].id)
    ensures IdentityForToken(c, Run(c, NOBODY, calls + more), raw, now).None?
  {
    hide Run, Apply;
    var longer := calls + more;
    assert forall n :: 0 <= n <= |calls| ==> longer[..n] == calls[..n];
    assert forall n :: 0 <= n < |calls| ==> (Succeeds(c, longer, n) <==> Succeeds(c, calls, n));
    var j :| i < j < |calls| && Ends(c, calls, j, raw, calls[i].id);
    assert Ends(c, longer, j, raw, longer[i].id) && Issues(c, longer, i, raw);
    RevocationIsPermanent(c, longer, raw, i, j, now);
  }

  /** Enabling the owner is all it takes. */
  lemma EnabledAgain(c: Crypto, calls: seq<Call>, i: nat, raw: string)
    requires Injective(c) && Ticketed(c, calls) && Issues(c, calls, i, raw) && !Ended(c, calls, i, raw, calls[i].id)
    ensures exists more, now ::
              Ticketed(c, calls + more) && IdentityForToken(c, Run(c, NOBODY, calls + more), raw, now).Some?
  {
    hide Run, Apply, Ended;
    var last := DoDisable(calls[i].id, false, None);
    var longer := calls + [last];
    var now := Expiry(calls[i].now, calls[i].ttl).GetOr(0);
    OneMore(c, calls, last, raw);
    OwnerKnown(c, calls, i);
    EnableSucceeds(c, Run(c, NOBODY, calls), calls[i].id);
    EndsOneMore(c, calls, last, raw, i, calls[i].id);
    assert longer[|calls|] == last && longer[..|calls|] == calls;
    assert !DisabledNow(c, longer, calls[i].id);
    assert Ticketed(c, longer) by {
      forall n | 0 <= n < |longer| && longer[n].DoInsert?
        ensures longer[n].check < n && longer[longer[n].check] == DoCheck(longer[n].id)
        ensures Succeeds(c, longer, longer[n].check)
      {
        assert calls[n] == longer[n];
      }
    }
    ResolvesIff(c, longer, raw, now);
    assert Issues(c, longer, i, raw);
  }

  lemma EnableSucceeds(c: Crypto, a: Auth, id: string)
    requires id in a.users
    ensures Apply(c, a, DoDisable(id, false, None)).1.Ok?
  {
  }
}
