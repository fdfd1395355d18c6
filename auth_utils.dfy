/** `AuthUtils`: who is logged in, as the services stamp it on their records, whether a
    user holds a role, and the assignment rows built for a set of role types. The
    security context is a parameter: the current `Authentication`, or none. */
module AuthUtils {
  import opened Common
  import opened Time
  import opened Text
  import opened Roles
  import opened Ledger
  import opened Users
  import opened UserRepository
  import opened RoleRepository

  /** What `Authentication.getPrincipal` holds: a `User` entity, or some other object of
      which only `toString` is observed. */
  datatype Principal = UserPrincipal(user: User) | OtherPrincipal(text: string)

  datatype Authentication = Authentication(isAuthenticated: bool, principal: Option<Principal>)

  /** The fallback name of every actor lookup. */
  const System: string := "SYSTEM"

  /** `getPrincipal()`: nothing without an authenticated authentication, else its
      (possibly null) principal. */
  function GetPrincipal(auth: Option<Authentication>): (r: Option<Principal>)
    ensures auth.None? || !auth.value.isAuthenticated ==> r.None?
    ensures auth.Some? && auth.value.isAuthenticated ==> r == auth.value.principal
  {
    if auth.None? || !auth.value.isAuthenticated then None else auth.value.principal
  }

  /** `getLoggedInUsername()`: the email of a user principal, the text of any other, and
      "SYSTEM" when nobody is logged in. */
  function LoggedInUsername(auth: Option<Authentication>): (r: string)
    ensures GetPrincipal(auth).None? ==> r == System
    ensures var p := GetPrincipal(auth); p.Some? && p.value.UserPrincipal? ==> r == p.value.user.email
    ensures var p := GetPrincipal(auth); p.Some? && p.value.OtherPrincipal? ==> r == p.value.text
  {
    match GetPrincipal(auth)
    case None => System
    case Some(UserPrincipal(u)) => u.email
    case Some(OtherPrincipal(t)) => t
  }

  /** The name the services record for a logged-in user is their email, and under the
      unique e-mail constraint looking that name up finds the same user again. */
  lemma LoggedInUsernameFindsTheUser(users: seq<User>, auth: Option<Authentication>, k: nat)
    requires UniqueEmails(users) && k < |users|
    requires GetPrincipal(auth) == Some(UserPrincipal(users[k]))
    ensures FindByEmail(users, LoggedInUsername(auth)) == Some(users[k])
  {
    FindByEmailIsTheUser(users, k);
  }

  /** One name part: dropped when null or blank, trimmed otherwise. */
  function NamePart(s: Option<string>): (r: seq<string>)
    ensures |r| <= 1
    ensures r == [] <==> s.None? || IsBlank(s.value)
    ensures r != [] ==> r[0] == Trim(s.value)
  {
    if s.Some? && Trim(s.value) != [] then [Trim(s.value)] else []
  }

  /** `Collectors.joining(sep)`. */
  function Join(parts: seq<string>, sep: string): (r: string)
    ensures |parts| == 1 ==> r == parts[0]
    ensures |parts| == 2 ==> r == parts[0] + sep + parts[1]
  {
    if parts == [] then []
    else if |parts| == 1 then parts[0]
    else parts[0] + sep + Join(parts[1..], sep)
  }

  /** The full name `getLoggedInNames` builds: the trimmed first and last names that are
      neither null nor blank, joined by one space. */
  function FullName(first: Option<string>, last: Option<string>): (r: string)
    ensures r == [] <==> (first.None? || IsBlank(first.value)) && (last.None? || IsBlank(last.value))
    ensures first.Some? && !IsBlank(first.value) && last.Some? && !IsBlank(last.value) ==>
              r == Trim(first.value) + " " + Trim(last.value)
    ensures r != [] ==> !IsTrimmed(r[0]) && !IsTrimmed(r[|r| - 1])
  {
    Join(NamePart(first) + NamePart(last), " ")
  }

  /** A string that starts and ends with a character `trim` keeps is its own trim. */
  lemma UntrimmedEndsAreTrimmed(s: string)
    requires s != [] && !IsTrimmed(s[0]) && !IsTrimmed(s[|s| - 1])
    ensures Trim(s) == s
  {
    assert TrimStart(s) == s;
  }

  /** `getLoggedInNames()`: "SYSTEM" when nobody is logged in or the user has no name; the
      full name of a user principal; the text of any other principal. */
  function LoggedInNames(auth: Option<Authentication>): (r: string)
    ensures GetPrincipal(auth).None? ==> r == System
    ensures var p := GetPrincipal(auth);
            p.Some? && p.value.UserPrincipal? ==>
              var name := FullName(p.value.user.firstname, p.value.user.lastname);
              && r != []
              && Trim(r) == r
              && (name == [] ==> r == System)
              && (name != [] ==> r == name)
    ensures var p := GetPrincipal(auth); p.Some? && p.value.OtherPrincipal? ==> r == p.value.text
  {
    match GetPrincipal(auth)
    case None => System
    case Some(UserPrincipal(u)) =>
      var name := FullName(u.firstname, u.lastname);
      if name == [] then
        assert TrimStart(System) == System;
        System
      else
        UntrimmedEndsAreTrimmed(name);
        name
    case Some(OtherPrincipal(t)) => t
  }

  /** `anyMatch(rt -> rt == roleType)` over the role types of the active rows. */
  function AnyActiveOfType(rows: seq<Grant>, roleType: Option<RoleType>): (r: bool)
    ensures r <==> exists i :: 0 <= i < |rows| && rows[i].isActive && rows[i].roleName == roleType
    decreases |rows|
  {
    if rows == [] then false
    else if rows[0].isActive && rows[0].roleName == roleType then true
    else
      var rest := AnyActiveOfType(rows[1..], roleType);
      assert forall i :: 1 <= i < |rows| ==> rows[i] == rows[1..][i - 1];
      rest
  }

  /** `hasRole(user, roleType)`: false for a null user (`None`); otherwise whether an active
      row's role type is `roleType`. A null `roleType` matches the active rows of roles
      without a type, as `==` on references does. */
  function HasRole(user: Option<User>, roleType: Option<RoleType>): (r: bool)
    reads if user.Some? then {user.value} else {}
    reads if user.Some? then set i | 0 <= i < |user.value.userRoles| :: user.value.userRoles[i] else {}
    ensures user.None? ==> !r
    ensures user.Some? && roleType.Some? ==> (r <==> HasRoleNamed(user.value.Rows(), TypeName(roleType.value)))
    ensures user.Some? && roleType.None? ==>
              (r <==> exists i :: 0 <= i < |user.value.Rows()| && user.value.Rows()[i].isActive && user.value.Rows()[i].roleName.None?)
  {
    if user.None? then false
    else
      var rows := user.value.Rows();
      if roleType.Some? then
        HasRoleAgreesWithName(rows, roleType.value);
        AnyActiveOfType(rows, roleType)
      else
        AnyActiveOfType(rows, roleType)
  }

  /** Comparing role types and comparing their names agree. */
  lemma HasRoleAgreesWithName(rows: seq<Grant>, t: RoleType)
    ensures AnyActiveOfType(rows, Some(t)) <==> HasRoleNamed(rows, TypeName(t))
  {
    if HasRoleNamed(rows, TypeName(t)) {
      var i :| 0 <= i < |rows| && rows[i].isActive && rows[i].roleName.Some?
               && TypeName(rows[i].roleName.value) == TypeName(t);
      TypeNameInjective(rows[i].roleName.value, t);
    }
  }

  /** Assigning a role through the ledger makes `hasRole` true for its type. */
  lemma AssignThenHasRole(rows: seq<Grant>, userId: nat, roleId: nat, t: RoleType, assignedBy: Option<string>, now: LocalDateTime)
    requires Assign(rows, userId, roleId, Some(t), assignedBy, now).Ok?
    ensures AnyActiveOfType(Assign(rows, userId, roleId, Some(t), assignedBy, now).value, Some(t))
  {
    AssignGrantsRoleName(rows, userId, roleId, Some(t), assignedBy, now);
    HasRoleAgreesWithName(Assign(rows, userId, roleId, Some(t), assignedBy, now).value, t);
  }

  /** The first role type in `roles` for which the role table has no role. */
  function FirstMissing(rs: seq<RoleRecord>, roles: seq<RoleType>): (r: Option<nat>)
    ensures r.None? <==> forall i :: 0 <= i < |roles| ==> FindByName(rs, Some(roles[i])).Some?
    ensures r.Some? ==> r.value < |roles| && FindByName(rs, Some(roles[r.value])).None?
                        && forall i :: 0 <= i < r.value ==> FindByName(rs, Some(roles[i])).Some?
    decreases |roles|
  {
    if roles == [] then None
    else if FindByName(rs, Some(roles[0])).None? then Some(0)
    else
      var rest := FirstMissing(rs, roles[1..]);
      assert forall i :: 1 <= i < |roles| ==> roles[i] == roles[1..][i - 1];
      if rest.None? then None else Some(rest.value + 1)
  }

  /** The rows `createUserRoles` builds once every role has been found. */
  function GrantsFor(rs: seq<RoleRecord>, userId: nat, roles: seq<RoleType>, assignedBy: string, now: LocalDateTime): (r: seq<Grant>)
    requires forall i :: 0 <= i < |roles| ==> FindByName(rs, Some(roles[i])).Some?
    ensures |r| == |roles|
    ensures forall i :: 0 <= i < |roles| ==>
              r[i] == Assigned(userId, FindByName(rs, Some(roles[i])).value.id, Some(roles[i]), Some(assignedBy), now)
    decreases |roles|
  {
    if roles == [] then []
    else
      assert forall i :: 1 <= i < |roles| ==> roles[i] == roles[1..][i - 1];
      [Assigned(userId, FindByName(rs, Some(roles[0])).value.id, Some(roles[0]), Some(assignedBy), now)]
        + GrantsFor(rs, userId, roles[1..], assignedBy, now)
  }

  /** `createUserRoles(user, roles, assignedBy, roleRepository)`: no rows for a null or empty
      set; an `IllegalArgumentException` naming a role type the table lacks; otherwise one
      active row per role type, for that type's role, stamped with `assignedBy`. */
  function CreateUserRoles(userId: nat, roles: Option<seq<RoleType>>, assignedBy: string, rs: seq<RoleRecord>, now: LocalDateTime)
    : (r: Result<seq<Grant>>)
    ensures roles.None? || roles.value == [] ==> r == Ok([])
    ensures roles.Some? ==> (r.Err? <==> exists i :: 0 <= i < |roles.value| && FindByName(rs, Some(roles.value[i])).None?)
    ensures r.Err? ==> exists i :: 0 <= i < |roles.value| && FindByName(rs, Some(roles.value[i])).None?
                                   && r.error == IllegalArgument("Role not found: " + TypeName(roles.value[i]))
    ensures r.Ok? && roles.Some? ==>
              && |r.value| == |roles.value|
              && forall i :: 0 <= i < |roles.value| ==>
                   var role := FindByName(rs, Some(roles.value[i])).value;
                   && role in rs && role.name == Some(roles.value[i])
                   && r.value[i] == Assigned(userId, role.id, Some(roles.value[i]), Some(assignedBy), now)
  {
    if roles.None? || roles.value == [] then Ok([])
    else
      match FirstMissing(rs, roles.value)
      case Some(k) => Err(IllegalArgument("Role not found: " + TypeName(roles.value[k])))
      case None => Ok(GrantsFor(rs, userId, roles.value, assignedBy, now))
  }

  /** The rows built for a set of distinct role types, from a table whose ids are distinct,
      keep the ledger's invariant and give the user every one of those roles. */
  lemma CreatedRowsKeepInvariant(userId: nat, roles: seq<RoleType>, assignedBy: string, rs: seq<RoleRecord>, now: LocalDateTime)
    requires NoDuplicates(roles)
    requires forall i, j :: 0 <= i < j < |rs| ==> rs[i].id != rs[j].id
    requires CreateUserRoles(userId, Some(roles), assignedBy, rs, now).Ok?
    ensures AtMostOneActivePerRole(CreateUserRoles(userId, Some(roles), assignedBy, rs, now).value)
    ensures forall t :: t in roles ==> AnyActiveOfType(CreateUserRoles(userId, Some(roles), assignedBy, rs, now).value, Some(t))
  {
    var rows := CreateUserRoles(userId, Some(roles), assignedBy, rs, now).value;
    forall i, j | 0 <= i < j < |rows| && rows[i].isActive && rows[j].isActive
      ensures rows[i].roleId != rows[j].roleId
    {
      var a := FindByName(rs, Some(roles[i])).value;
      var b := FindByName(rs, Some(roles[j])).value;
      assert roles[i] != roles[j];
      assert a != b;
      var ia :| 0 <= ia < |rs| && rs[ia] == a;
      var ib :| 0 <= ib < |rs| && rs[ib] == b;
      assert ia != ib;
    }
    forall t | t in roles
      ensures AnyActiveOfType(rows, Some(t))
    {
      var i :| 0 <= i < |roles| && roles[i] == t;
      assert rows[i].isActive && rows[i].roleName == Some(t);
    }
  }
}
