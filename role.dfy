/** The `Role` entity: a named role with an active flag and a system-role flag that
    protects it from deactivation and deletion. */
module Roles {
  import opened Common
  import opened Time
  import opened Text
  import opened BaseEntities

  /** The role types the application seeds. */
  datatype RoleType = SUPER_ADMIN | TECH_ADMIN | FIN_ADMIN | USER

  /** `RoleType.name()`. */
  function TypeName(t: RoleType): (r: string)
    ensures |r| >= 4
  {
    match t
    case SUPER_ADMIN => "SUPER_ADMIN"
    case TECH_ADMIN => "TECH_ADMIN"
    case FIN_ADMIN => "FIN_ADMIN"
    case USER => "USER"
  }

  /** Distinct role types have distinct names, so comparing names compares types. */
  lemma TypeNameInjective(a: RoleType, b: RoleType)
    requires TypeName(a) == TypeName(b)
    ensures a == b
  {
  }

  /** What persisting a role checks (`validateRole`): `None` when it may be stored. */
  function Validation(name: Option<RoleType>, displayName: Option<string>): (r: Option<Exception>)
    ensures r.None? <==> name.Some? && displayName.Some? && !IsBlank(displayName.value)
    ensures r.Some? ==> r.value.IllegalArgument?
  {
    if name.None? then Some(IllegalArgument("Role name is required"))
    else if displayName.None? || IsBlank(displayName.value) then Some(IllegalArgument("Role display name is required"))
    else None
  }

  /** `generateCodeIfNull`: an existing code is kept; a missing one becomes `ROLE_` and
      the type name when there is a name. */
  function GeneratedCode(code: Option<string>, name: Option<RoleType>): (r: Option<string>)
    ensures code.Some? ==> r == code
    ensures code.None? && name.Some? ==> r.Some? && |r.value| > 5 && r.value[..5] == "ROLE_" && r.value[5..] == TypeName(name.value)
    ensures code.None? && name.None? ==> r.None?
  {
    if code.None? && name.Some? then Some("ROLE_" + TypeName(name.value)) else code
  }

  /** Generating the code a second time changes nothing. */
  lemma GeneratedCodeIdempotent(code: Option<string>, name: Option<RoleType>)
    ensures GeneratedCode(GeneratedCode(code, name), name) == GeneratedCode(code, name)
  {
  }

  /** The role as the queries and the assignment rows see it. */
  datatype RoleRecord = RoleRecord(
    id: nat,
    name: Option<RoleType>,
    displayName: Option<string>,
    description: Option<string>,
    isActive: bool,
    isSystemRole: bool,
    code: Option<string>,
    isDeleted: bool)

  class Role {
    const base: BaseEntity
    /** The role type; no operation of the core changes it. */
    const name: Option<RoleType>
    /** Only the seed data creates system roles; no operation of the core changes the flag. */
    const isSystemRole: bool
    var displayName: Option<string>
    var description: Option<string>
    /** Lombok's `isActive()` reads this field; it shadows `BaseEntity.isActive()`. */
    var isActive: bool
    var code: Option<string>

    function Record(): RoleRecord
      reads this, base
    {
      RoleRecord(base.id, name, displayName, description, isActive, isSystemRole, code, base.isDeleted)
    }

    /** The builder: every field as given, not deleted. */
    constructor (id: nat, name: Option<RoleType>, displayName: Option<string>, description: Option<string>,
                 isActive: bool, isSystemRole: bool)
      ensures fresh(base)
      ensures Record() == RoleRecord(id, name, displayName, description, isActive, isSystemRole, None, false)
      ensures base.State() == NeverDeleted
    {
      base := new BaseEntity(id);
      this.name := name;
      this.displayName := displayName;
      this.description := description;
      this.isActive := isActive;
      this.isSystemRole := isSystemRole;
      code := None;
    }

    /** `@PrePersist onCreate`: validates, then fills in a missing code. A failed
        validation aborts the insert and leaves the role as it was. */
    method OnCreate() returns (r: Result<Unit>)
      modifies this
      ensures r.Err? <==> Validation(name, displayName).Some?
      ensures r.Err? ==> r.error == Validation(name, displayName).value && code == old(code)
      ensures r.Ok? ==> code == GeneratedCode(old(code), name)
      ensures displayName == old(displayName) && description == old(description) && isActive == old(isActive)
    {
      var v := Validation(name, displayName);
      if v.Some? {
        return Err(v.value);
      }
      code := GeneratedCode(code, name);
      return Ok(Unit);
    }

    /** `@PreUpdate onUpdate`: the same validation as on creation; nothing is changed. */
    method OnUpdate() returns (r: Result<Unit>)
      ensures r.Err? <==> Validation(name, displayName).Some?
      ensures r.Err? ==> r.error == Validation(name, displayName).value
    {
      var v := Validation(name, displayName);
      if v.Some? {
        return Err(v.value);
      }
      return Ok(Unit);
    }

    /** The setters `updateRole` calls: display name and description are overwritten, the
        active flag only when a value is given. */
    method Update(displayName: Option<string>, description: Option<string>, isActive: Option<bool>)
      modifies this
      ensures Record() == old(Record()).(displayName := displayName, description := description,
                                         isActive := if isActive.Some? then isActive.value else old(this.isActive))
    {
      this.displayName := displayName;
      this.description := description;
      if isActive.Some? {
        this.isActive := isActive.value;
      }
    }

    /** `activate`: sets the flag, system roles included. */
    method Activate()
      modifies this
      ensures Record() == old(Record()).(isActive := true)
    {
      isActive := true;
    }

    /** `deactivate`: refused for a system role, which stays as it was. */
    method Deactivate() returns (r: Result<Unit>)
      modifies this
      ensures r.Err? <==> isSystemRole
      ensures r.Err? ==> r.error == IllegalState("Cannot deactivate system role") && Record() == old(Record())
      ensures r.Ok? ==> Record() == old(Record()).(isActive := false)
    {
      if isSystemRole {
        return Err(IllegalState("Cannot deactivate system role"));
      }
      isActive := false;
      return Ok(Unit);
    }

    /** The `softDelete` override: refused for a system role with no deletion field
        touched, otherwise the inherited soft delete. */
    method SoftDelete(actor: Option<string>, now: LocalDateTime) returns (r: Result<Unit>)
      modifies base
      ensures r.Err? <==> isSystemRole
      ensures r.Err? ==> r.error == IllegalState("Cannot delete system role") && base.State() == old(base.State())
      ensures r.Ok? ==> base.State() == SoftDeleted(actor, now)
    {
      if isSystemRole {
        return Err(IllegalState("Cannot delete system role"));
      }
      base.SoftDelete(actor, now);
      return Ok(Unit);
    }
  }
}
