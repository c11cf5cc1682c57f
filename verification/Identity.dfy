/** Callers and their roles, and the role list as it is stored: one comma-separated string. */
module Identity {
  import opened Wrappers
  import opened Text

  datatype Role = Analyst | Reviewer | TeamReader | CompanyReader | StandardApprover | Admin

  datatype Identity = Identity(id: string, roles: set<Role>) {
    /** Admin passes every role check. */
    predicate HasRole(role: Role) { role in roles || Admin in roles }
  }

  function RoleName(role: Role): string {
    match role
    case Analyst => "analyst"
    case Reviewer => "reviewer"
    case TeamReader => "team_reader"
    case CompanyReader => "company_reader"
    case StandardApprover => "standard_approver"
    case Admin => "admin"
  }

  /** All roles in the order of their names. */
  const SORTED: seq<Role> := [Admin, Analyst, CompanyReader, Reviewer, StandardApprover, TeamReader]

  /** `sorted(r.value for r in roles)`, restricted to `order`. */
  function Names(roles: set<Role>, order: seq<Role>): seq<string> {
    if order == [] then []
    else (if order[0] in roles then [RoleName(order[0])] else []) + Names(roles, order[1..])
  }

  function Csv(roles: set<Role>): string {
    Join(Names(roles, SORTED), ',')
  }

  /** `Role(name)`: None stands for ValueError. */
  function RoleOf(name: string): Option<Role> {
    if name == "analyst" then Some(Analyst)
    else if name == "reviewer" then Some(Reviewer)
    else if name == "team_reader" then Some(TeamReader)
    else if name == "company_reader" then Some(CompanyReader)
    else if name == "standard_approver" then Some(StandardApprover)
    else if name == "admin" then Some(Admin)
    else None
  }

  /** The parts of a comma-separated list, stripped, blank ones dropped. */
  function Stripped(parts: seq<string>): seq<string> {
    if parts == [] then []
    else (if Blank(parts[0]) then [] else [Strip(parts[0])]) + Stripped(parts[1..])
  }

  function RolesOf(names: seq<string>): Option<set<Role>> {
    if names == [] then Some({})
    else
      match (RoleOf(names[0]), RolesOf(names[1..]))
      case (Some(r), Some(rest)) => Some({r} + rest)
      case _ => None
  }

  /** `parse_roles`: None stands for IdentityError (no role, or an unknown one). */
  function ParseRoles(raw: string): Option<set<Role>> {
    var names := Stripped(Split(raw, ','));
    if names == [] then None else RolesOf(names)
  }

  lemma RoleNameIsClean(role: Role)
    ensures RoleOf(RoleName(role)) == Some(role)
    ensures ',' !in RoleName(role) && !Blank(RoleName(role)) && Strip(RoleName(role)) == RoleName(role)
  {
    var s := RoleName(role);
    assert !IsSpace(s[0]) && !IsSpace(s[|s| - 1]);
    assert LStrip(s) == s && RStrip(s) == s;
  }

  lemma {:induction false} NamesAreClean(roles: set<Role>, order: seq<Role>)
    ensures
      var names := Names(roles, order);
      && (forall n :: n in names ==> ',' !in n)
      && Stripped(names) == names
      && RolesOf(names) == Some(set r | r in roles && r in order)
      && (names == [] <==> (set r | r in roles && r in order) == {})
  {
    if order == [] {
      assert (set r | r in roles && r in order) == {};
    } else {
      var first, rest := order[0], order[1..];
      NamesAreClean(roles, rest);
      RoleNameIsClean(first);
      var here := set r | r in roles && r in order;
      var later := set r | r in roles && r in rest;
      assert order == [first] + rest;
      if first in roles {
        assert here == {first} + later;
        assert Names(roles, order)[1..] == Names(roles, rest);
      } else {
        assert here == later;
        assert Names(roles, order) == Names(roles, rest);
      }
    }
  }

  /** What is stored for a role set reads back as that set; no role at all reads back as an error. */
  lemma ParseCsv(roles: set<Role>)
    ensures ParseRoles(Csv(roles)) == if roles == {} then None else Some(roles)
  {
    hide Split, Stripped, Names, RolesOf, Strip;
    NamesAreClean(roles, SORTED);
    AllSorted();
    assert (set r | r in roles && r in SORTED) == roles;
    if roles == {} {
      NothingStored();
    } else {
      SplitJoin(Names(roles, SORTED), ',');
    }
  }

  lemma NothingStored()
    ensures ParseRoles(Join([], ',')) == None
  {
  }

  lemma AllSorted()
    ensures forall r: Role :: r in SORTED
  {
    forall r: Role
      ensures r in SORTED
    {
      match r
      case Admin => assert SORTED[0] == r;
      case Analyst => assert SORTED[1] == r;
      case CompanyReader => assert SORTED[2] == r;
      case Reviewer => assert SORTED[3] == r;
      case StandardApprover => assert SORTED[4] == r;
      case TeamReader => assert SORTED[5] == r;
    }
  }

  predicate NamesRole(name: string) {
    exists r: Role :: name == RoleName(r)
  }

  lemma RoleOfIff(name: string)
    ensures forall r :: RoleOf(name) == Some(r) <==> name == RoleName(r)
    ensures RoleOf(name).Some? <==> NamesRole(name)
  {
    if RoleOf(name).Some? { assert name == RoleName(RoleOf(name).value); }
  }

  lemma {:induction false} StrippedIs(parts: seq<string>)
    ensures Stripped(parts) == [] <==> forall p :: p in parts ==> Blank(p)
    ensures forall n :: n in Stripped(parts) <==> exists p :: p in parts && !Blank(p) && n == Strip(p)
  {
    hide Strip, Blank;
    if parts != [] {
      StrippedIs(parts[1..]);
      assert parts == [parts[0]] + parts[1..];
    }
  }

  lemma {:induction false} RolesOfIs(names: seq<string>)
    ensures RolesOf(names).Some? <==> forall n :: n in names ==> NamesRole(n)
    ensures RolesOf(names).Some? ==> forall r :: r in RolesOf(names).value <==> RoleName(r) in names
  {
    hide RoleName, RoleOf, NamesRole;
    if names != [] {
      RolesOfIs(names[1..]);
      assert names == [names[0]] + names[1..];
      RoleOfIff(names[0]);
      var first, rest := RoleOf(names[0]), RolesOf(names[1..]);
      assert RolesOf(names) == if first.Some? && rest.Some? then Some({first.value} + rest.value) else None;
    }
  }

  /** Reading a comma-separated list of roles: parts are stripped, blank ones do not count, every other must be
      the name of a role and at least one must be there. */
  lemma ParseRolesIff(parts: seq<string>)
    requires parts != [] && forall p :: p in parts ==> ',' !in p
    ensures
      var parsed := ParseRoles(Join(parts, ','));
      && (parsed.Some? <==>
            && (exists p :: p in parts && !Blank(p))
            && forall p :: p in parts && !Blank(p) ==> NamesRole(Strip(p)))
      && (parsed.Some? ==> forall r :: r in parsed.value <==> exists p :: p in parts && Strip(p) == RoleName(r))
  {
    hide Split, Join, Stripped, RolesOf, Strip, RoleName, NamesRole;
    SplitJoin(parts, ',');
    StrippedIs(parts);
    var names := Stripped(parts);
    RolesOfIs(names);
    assert names != [] ==> names[0] in names;
    forall r, p | p in parts && Strip(p) == RoleName(r)
      ensures !Blank(p)
    {
      RoleNameIsClean(r);
      SomeName(r);
    }
  }

  lemma SomeName(role: Role)
    ensures RoleName(role) != ""
  {
  }
}
