/** `RoleServiceImpl`: creating, updating, deleting and (de)activating roles, and assigning
    roles to users and revoking them. The role operations write no audit entry. */
module RoleService {
  import opened Common
  import opened Time
  import opened Text
  import opened BaseEntities
  import opened Roles
  import opened Ledger
  import opened UserRoles
  import opened Users
  import opened UserRepository
  import opened UserRoleRepository
  import opened RoleRepository

  /** `getCurrentUserEmail()`: the authentication's name, or `SYSTEM` when there is no
      authentication to ask. */
  function CurrentUserEmail(authName: Option<string>): (r: string)
    ensures authName.Some? ==> r == authName.value
    ensures authName.None? ==> r == "SYSTEM"
  {
    if authName.Some? then authName.value else "SYSTEM"
  }

  /** `roleRepository.findById(id)`. */
  function FindRoleById(roles: seq<Role>, id: nat): (r: Option<Role>)
    ensures r.Some? ==> r.value in roles && r.value.base.id == id
    ensures r.None? ==> forall i :: 0 <= i < |roles| ==> roles[i].base.id != id
    decreases |roles|
  {
    if roles == [] then None
    else if roles[0].base.id == id then Some(roles[0])
    else
      var rest := FindRoleById(roles[1..], id);
      assert forall i :: 1 <= i < |roles| ==> roles[i] == roles[1..][i - 1];
      rest
  }

  /** `RoleType.toString()` of a possibly NULL type, as string concatenation prints it. */
  function NameText(name: Option<RoleType>): string {
    if name.Some? then TypeName(name.value) else "null"
  }

  /** The message of the "role in use" refusal. */
  function InUseMessage(count: nat): string {
    "Cannot delete role assigned to " + NatToString(count) + " users"
  }

  function NotFoundMessage(id: nat): string {
    "Role not found with ID: " + NatToString(id)
  }

  class RoleService {
    /** The `roles` table. */
    var roles: seq<Role>
    /** The next generated primary key. */
    var nextId: nat

    /** Ids are distinct and below `nextId`; every stored role has a type, and no two share it. */
    predicate Valid()
      reads this
    {
      && (forall i, j :: 0 <= i < j < |roles| ==> roles[i].base.id != roles[j].base.id && roles[i] != roles[j])
      && (forall i :: 0 <= i < |roles| ==> roles[i].base.id < nextId && roles[i].name.Some?)
      && (forall i, j :: 0 <= i < j < |roles| ==> roles[i].name != roles[j].name)
    }

    /** `existsByName(name)` over the table, deleted roles included. */
    predicate NameTaken(name: Option<RoleType>)
      reads this
    {
      exists i :: 0 <= i < |roles| && roles[i].name == name
    }

    constructor ()
      ensures roles == [] && nextId == 1 && Valid()
    {
      roles := [];
      nextId := 1;
    }

    /** `createRole(request)`: refused when a role of that type exists; otherwise a new,
        non-system role, active unless the request says otherwise, is validated and stored
        with its generated code. A failed validation stores nothing. */
    method CreateRole(name: Option<RoleType>, displayName: Option<string>, description: Option<string>, isActive: Option<bool>)
      returns (r: Result<Role>)
      requires Valid()
      modifies this
      ensures Valid()
      ensures r.Err? <==> old(NameTaken(name)) || Validation(name, displayName).Some?
      ensures old(NameTaken(name)) ==> r == Err(RoleAlreadyExists("Role already exists with name: " + NameText(name)))
      ensures !old(NameTaken(name)) && Validation(name, displayName).Some? ==> r == Err(Validation(name, displayName).value)
      ensures r.Err? ==> roles == old(roles) && nextId == old(nextId)
      ensures r.Ok? ==> roles == old(roles) + [r.value] && fresh(r.value) && fresh(r.value.base)
      ensures r.Ok? ==> r.value.Record() == RoleRecord(old(nextId), name, displayName, description,
                                                      if isActive.Some? then isActive.value else true,
                                                      false, GeneratedCode(None, name), false)
    {
      if exists i :: 0 <= i < |roles| && roles[i].name == name {
        return Err(RoleAlreadyExists("Role already exists with name: " + NameText(name)));
      }
      var role := new Role(nextId, name, displayName, description, if isActive.Some? then isActive.value else true, false);
      var saved := role.OnCreate();
      if saved.Err? {
        return Err(saved.error);
      }
      Store(role);
      return Ok(role);
    }

    /** Inserts a new role under the next id. */
    method Store(role: Role)
      requires Valid() && role !in roles && role.base.id == nextId && role.name.Some? && !NameTaken(role.name)
      modifies this
      ensures Valid() && roles == old(roles) + [role] && nextId == old(nextId) + 1
    {
      roles := roles + [role];
      nextId := nextId + 1;
    }

    /** `updateRole(id, request)`: refused for an unknown or a system role; otherwise the
        display name and description are replaced and the active flag set when given. A
        change that fails validation is rolled back. */
    method UpdateRole(id: nat, displayName: Option<string>, description: Option<string>, isActive: Option<bool>)
      returns (r: Result<Unit>)
      requires Valid()
      modifies roles
      ensures Valid() && roles == old(roles)
      ensures FindRoleById(roles, id).None? ==> r == Err(ResourceNotFound(NotFoundMessage(id)))
      ensures var found := FindRoleById(roles, id);
              found.Some? ==>
                var role := found.value;
                && (role.isSystemRole ==> r == Err(IllegalState("Cannot update system role")))
                && (!role.isSystemRole && Validation(role.name, displayName).Some? ==> r == Err(Validation(role.name, displayName).value))
                && (r.Err? ==> role.Record() == old(role.Record()))
                && (r.Ok? <==> !role.isSystemRole && Validation(role.name, displayName).None?)
                && (r.Ok? ==> role.Record() == old(role.Record()).(displayName := displayName, description := description,
                                                                   isActive := if isActive.Some? then isActive.value else old(role.isActive)))
      ensures forall i :: 0 <= i < |roles| && roles[i].base.id != id ==> roles[i].Record() == old(roles[i].Record())
    {
      var found := FindRoleById(roles, id);
      if found.None? {
        return Err(ResourceNotFound(NotFoundMessage(id)));
      }
      var role := found.value;
      if role.isSystemRole {
        return Err(IllegalState("Cannot update system role"));
      }
      var v := Validation(role.name, displayName);
      if v.Some? {
        return Err(v.value);
      }
      role.Update(displayName, description, isActive);
      return Ok(Unit);
    }

    /** `deleteRole(id)`: refused for an unknown role, a system role, or a role that still
        has active assignments in the `user_roles` table; otherwise soft-deleted by the
        current user. */
    method DeleteRole(id: nat, assignments: seq<Grant>, authName: Option<string>, now: LocalDateTime)
      returns (r: Result<Unit>)
      requires Valid()
      modifies set i | 0 <= i < |roles| :: roles[i].base
      ensures Valid() && roles == old(roles)
      ensures FindRoleById(roles, id).None? ==> r == Err(ResourceNotFound(NotFoundMessage(id)))
      ensures var found := FindRoleById(roles, id);
              found.Some? ==>
                var role := found.value;
                var count := CountActiveUsersByRoleId(assignments, id);
                && (role.isSystemRole ==> r == Err(IllegalState("Cannot delete system role")))
                && (!role.isSystemRole && count > 0 ==> r == Err(IllegalState(InUseMessage(count))))
                && (r.Ok? <==> !role.isSystemRole && count == 0)
                && (r.Err? ==> role.base.State() == old(role.base.State()))
                && (r.Ok? ==> role.base.State() == SoftDeleted(Some(CurrentUserEmail(authName)), now))
      ensures r.Ok? ==> forall i :: 0 <= i < |assignments| ==> !(assignments[i].roleId == id && assignments[i].isActive)
      ensures forall i :: 0 <= i < |roles| && roles[i].base.id != id ==> roles[i].base.State() == old(roles[i].base.State())
    {
      var found := FindRoleById(roles, id);
      if found.None? {
        return Err(ResourceNotFound(NotFoundMessage(id)));
      }
      var role := found.value;
      if role.isSystemRole {
        return Err(IllegalState("Cannot delete system role"));
      }
      var count := CountActiveUsersByRoleId(assignments, id);
      if count > 0 {
        return Err(IllegalState(InUseMessage(count)));
      }
      r := role.SoftDelete(Some(CurrentUserEmail(authName)), now);
    }

    /** `activateRole(id)`: system roles included. */
    method ActivateRole(id: nat) returns (r: Result<Unit>)
      requires Valid()
      modifies roles
      ensures Valid() && roles == old(roles)
      ensures r.Err? <==> FindRoleById(roles, id).None?
      ensures r.Err? ==> r.error == ResourceNotFound(NotFoundMessage(id))
      ensures r.Ok? ==> var role := FindRoleById(roles, id).value; role.Record() == old(role.Record()).(isActive := true)
      ensures forall i :: 0 <= i < |roles| && roles[i].base.id != id ==> roles[i].Record() == old(roles[i].Record())
    {
      var found := FindRoleById(roles, id);
      if found.None? {
        return Err(ResourceNotFound(NotFoundMessage(id)));
      }
      found.value.Activate();
      return Ok(Unit);
    }

    /** `deactivateRole(id)`: refused for a system role by the entity's guard. */
    method DeactivateRole(id: nat) returns (r: Result<Unit>)
      requires Valid()
      modifies roles
      ensures Valid() && roles == old(roles)
      ensures FindRoleById(roles, id).None? ==> r == Err(ResourceNotFound(NotFoundMessage(id)))
      ensures var found := FindRoleById(roles, id);
              found.Some? ==>
                var role := found.value;
                && (r.Err? <==> role.isSystemRole)
                && (r.Err? ==> r.error == IllegalState("Cannot deactivate system role") && role.Record() == old(role.Record()))
                && (r.Ok? ==> role.Record() == old(role.Record()).(isActive := false))
      ensures forall i :: 0 <= i < |roles| && roles[i].base.id != id ==> roles[i].Record() == old(roles[i].Record())
    {
      var found := FindRoleById(roles, id);
      if found.None? {
        return Err(ResourceNotFound(NotFoundMessage(id)));
      }
      r := found.value.Deactivate();
    }

    /** `assignRoleToUser(request)`: the user and the role must exist; the user's
        `assignRole` then decides, stamped with the current user. */
    method AssignRoleToUser(users: seq<User>, userId: nat, roleId: nat, authName: Option<string>, now: LocalDateTime)
      returns (r: Result<Unit>)
      requires forall i :: 0 <= i < |users| ==> users[i].Valid()
      modifies users
      ensures FindById(users, userId).None? ==> r == Err(ResourceNotFound("User not found"))
      ensures FindById(users, userId).Some? && FindRoleById(roles, roleId).None? ==> r == Err(ResourceNotFound("Role not found"))
      ensures var user := FindById(users, userId);
              var role := FindRoleById(roles, roleId);
              user.Some? && role.Some? ==>
                var a := Assign(old(user.value.Rows()), userId, roleId, role.value.name, Some(CurrentUserEmail(authName)), now);
                && user.value.Valid()
                && (r.Ok? <==> a.Ok?) && (r.Err? ==> r.error == a.error)
                && user.value.Rows() == (if a.Ok? then a.value else old(user.value.Rows()))
      ensures r.Err? ==> forall i :: 0 <= i < |users| ==> users[i].Rows() == old(users[i].Rows())
      ensures forall i :: 0 <= i < |users| && users[i].base.id != userId ==> users[i].Rows() == old(users[i].Rows())
      ensures forall i :: 0 <= i < |users| ==> users[i].Account() == old(users[i].Account())
    {
      var user := FindById(users, userId);
      if user.None? {
        return Err(ResourceNotFound("User not found"));
      }
      var role := FindRoleById(roles, roleId);
      if role.None? {
        return Err(ResourceNotFound("Role not found"));
      }
      var u := user.value;
      r := u.AssignRole(role.value, Some(CurrentUserEmail(authName)), now);
      forall i | 0 <= i < |users| && users[i].base.id != userId
        ensures users[i].Rows() == old(users[i].Rows())
      {
        assert users[i] != u;
      }
    }

    /** `revokeRoleFromUser(userId, roleId)`: the user and the role must exist; revoking a
        role the user does not hold succeeds and changes nothing. */
    method RevokeRoleFromUser(users: seq<User>, userId: nat, roleId: nat, authName: Option<string>, now: LocalDateTime)
      returns (r: Result<Unit>)
      requires forall i :: 0 <= i < |users| ==> users[i].Valid()
      modifies set i, j | 0 <= i < |users| && 0 <= j < |users[i].userRoles| :: users[i].userRoles[j]
      ensures FindById(users, userId).None? ==> r == Err(ResourceNotFound("User not found"))
      ensures FindById(users, userId).Some? && FindRoleById(roles, roleId).None? ==> r == Err(ResourceNotFound("Role not found"))
      ensures var user := FindById(users, userId);
              var role := FindRoleById(roles, roleId);
              user.Some? && role.Some? ==>
                && r.Ok?
                && user.value.Valid()
                && user.value.Rows() == Revoke(old(user.value.Rows()), roleId, Some(CurrentUserEmail(authName)), now)
      ensures r.Err? ==> forall i :: 0 <= i < |users| ==> users[i].Rows() == old(users[i].Rows())
      ensures forall i :: 0 <= i < |users| && users[i].base.id != userId ==> users[i].Rows() == old(users[i].Rows())
    {
      var user := FindById(users, userId);
      if user.None? {
        return Err(ResourceNotFound("User not found"));
      }
      var role := FindRoleById(roles, roleId);
      if role.None? {
        return Err(ResourceNotFound("Role not found"));
      }
      var u := user.value;
      var k :| 0 <= k < |users| && users[k] == u;
      forall j | 0 <= j < |u.userRoles|
        ensures u.userRoles[j] in set i, j | 0 <= i < |users| && 0 <= j < |users[i].userRoles| :: users[i].userRoles[j]
      {
        assert u.userRoles[j] == users[k].userRoles[j];
      }
      var touched := u.userRoles;
      u.RevokeRole(role.value, Some(CurrentUserEmail(authName)), now);
      forall i | 0 <= i < |users| && users[i].base.id != userId
        ensures users[i].Rows() == old(users[i].Rows())
      {
        // the rows of another user carry its id, so none of them was revoked
        var v := users[i];
        forall j | 0 <= j < |v.userRoles|
          ensures v.userRoles[j] !in touched
        {
          assert v.userRoles[j].userId == v.base.id;
        }
      }
      return Ok(Unit);
    }

    /** `getUserRoles(userId)`: the user's active rows. */
    method GetUserRoles(users: seq<User>, userId: nat) returns (r: Result<seq<Grant>>)
      ensures r.Err? <==> FindById(users, userId).None?
      ensures r.Err? ==> r.error == ResourceNotFound("User not found")
      ensures r.Ok? ==> var rows := FindById(users, userId).value.Rows();
              && (forall i :: 0 <= i < |r.value| ==> r.value[i] in rows && r.value[i].isActive)
              && (forall i :: 0 <= i < |rows| && rows[i].isActive ==> rows[i] in r.value)
    {
      var user := FindById(users, userId);
      if user.None? {
        return Err(ResourceNotFound("User not found"));
      }
      return Ok(Filter(user.value.Rows(), (g: Grant) => g.isActive));
    }
  }
}
