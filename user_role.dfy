/** The `UserRole` entity: one row of the user-to-role assignment table. */
module UserRoles {
  import opened Common
  import opened Time
  import opened Roles
  import opened Ledger

  class UserRole {
    /** The `user_id` foreign key; the owning `User` holds the rows, not the reverse. */
    const userId: nat
    const role: Role
    var assignedDate: Option<LocalDateTime>
    var assignedBy: Option<string>
    var revokedDate: Option<LocalDateTime>
    var revokedBy: Option<string>
    /** Lombok's `isActive()` reads this field; it shadows `BaseEntity.isActive()`. */
    var isActive: bool
    var remarks: Option<string>

    /** The row as a value. */
    function Row(): Grant
      reads this
    {
      Grant(userId, role.base.id, role.name, isActive, assignedDate, assignedBy, revokedDate, revokedBy)
    }

    /** `new UserRole()` followed by `setUser` and `setRole`: a new row defaults to active
        and carries no stamps yet. */
    constructor (userId: nat, role: Role)
      ensures this.userId == userId && this.role == role
      ensures isActive && remarks.None?
      ensures assignedDate.None? && assignedBy.None? && revokedDate.None? && revokedBy.None?
    {
      this.userId := userId;
      this.role := role;
      isActive := true;
      assignedDate := None;
      assignedBy := None;
      revokedDate := None;
      revokedBy := None;
      remarks := None;
    }

    /** `@PrePersist onCreate`: stamps the assignment time only when none was set. */
    method OnCreate(now: LocalDateTime)
      modifies this
      ensures old(assignedDate).Some? ==> Row() == old(Row())
      ensures old(assignedDate).None? ==> Row() == old(Row()).(assignedDate := Some(now))
    {
      if assignedDate.None? {
        assignedDate := Some(now);
      }
    }

    /** `revoke(revokedBy)`. */
    method Revoke(revokedBy: Option<string>, now: LocalDateTime)
      modifies this
      ensures Row() == Revoked(old(Row()), revokedBy, now)
      ensures remarks == old(remarks)
    {
      isActive := false;
      revokedDate := Some(now);
      this.revokedBy := revokedBy;
    }

    /** `reactivate(reactivatedBy)`; nothing in the application calls it. */
    method Reactivate(reactivatedBy: Option<string>, now: LocalDateTime)
      modifies this
      ensures Row() == Reactivated(old(Row()), reactivatedBy, now)
      ensures remarks == old(remarks)
    {
      isActive := true;
      revokedDate := None;
      revokedBy := None;
      assignedBy := reactivatedBy;
      assignedDate := Some(now);
    }
  }

  /** The rows of a sequence of `UserRole` objects, as values. */
  function RowsOf(urs: seq<UserRole>): (r: seq<Grant>)
    reads urs
    ensures |r| == |urs|
    ensures forall i :: 0 <= i < |urs| ==> r[i] == urs[i].Row()
    decreases |urs|
  {
    if urs == [] then [] else [urs[0].Row()] + RowsOf(urs[1..])
  }

  lemma RowsOfAppend(urs: seq<UserRole>, ur: UserRole)
    ensures RowsOf(urs + [ur]) == RowsOf(urs) + [ur.Row()]
  {
  }

  /** `User.getActiveRoles()`: the roles of the active rows; the role's own active flag
      is not consulted. */
  function ActiveRolesOf(urs: seq<UserRole>): (r: seq<Role>)
    reads urs
    ensures |r| <= |urs|
    ensures forall i :: 0 <= i < |urs| && urs[i].isActive ==> urs[i].role in r
    decreases |urs|
  {
    if urs == [] then []
    else (if urs[0].isActive then [urs[0].role] else []) + ActiveRolesOf(urs[1..])
  }

  /** Conversely, every listed role is the role of some active row. */
  lemma {:induction false} ActiveRoleComesFromActiveRow(urs: seq<UserRole>, k: nat)
    requires k < |ActiveRolesOf(urs)|
    ensures exists i :: 0 <= i < |urs| && urs[i].isActive && urs[i].role == ActiveRolesOf(urs)[k]
    decreases |urs|
  {
    if urs[0].isActive && k == 0 {
      assert urs[0].role == ActiveRolesOf(urs)[0];
    } else {
      var k' := if urs[0].isActive then k - 1 else k;
      assert ActiveRolesOf(urs)[k] == ActiveRolesOf(urs[1..])[k'];
      ActiveRoleComesFromActiveRow(urs[1..], k');
      var j :| 0 <= j < |urs[1..]| && urs[1..][j].isActive && urs[1..][j].role == ActiveRolesOf(urs[1..])[k'];
      assert urs[j + 1] == urs[1..][j];
    }
  }

  /** The codes of those roles that are themselves active. */
  function CodesOfActive(roles: seq<Role>): (r: seq<Option<string>>)
    reads roles
    ensures |r| <= |roles|
    decreases |roles|
  {
    if roles == [] then []
    else (if roles[0].isActive then [roles[0].code] else []) + CodesOfActive(roles[1..])
  }

  /** `User.getAuthorities()`: the codes of the roles of active rows, provided the role
      itself is active. */
  function AuthoritiesOf(urs: seq<UserRole>): (r: seq<Option<string>>)
    reads urs, set ur | ur in urs :: ur.role
    ensures |r| <= |urs|
    decreases |urs|
  {
    if urs == [] then []
    else (if urs[0].isActive && urs[0].role.isActive then [urs[0].role.code] else []) + AuthoritiesOf(urs[1..])
  }

  /** The authorities are exactly the codes of those active roles that are still active
      themselves: a deactivated role stays among the active roles but grants nothing. */
  lemma {:induction false} AuthoritiesAreCodesOfActiveRoles(urs: seq<UserRole>)
    ensures AuthoritiesOf(urs) == CodesOfActive(ActiveRolesOf(urs))
    decreases |urs|
  {
    if urs != [] {
      AuthoritiesAreCodesOfActiveRoles(urs[1..]);
      var head := if urs[0].isActive then [urs[0].role] else [];
      CodesOfActiveAppend(head, ActiveRolesOf(urs[1..]));
    }
  }

  lemma {:induction false} CodesOfActiveAppend(a: seq<Role>, b: seq<Role>)
    ensures CodesOfActive(a + b) == CodesOfActive(a) + CodesOfActive(b)
    decreases |a|
  {
    if a == [] {
      assert a + b == b;
    } else {
      assert (a + b)[0] == a[0];
      assert (a + b)[1..] == a[1..] + b;
      CodesOfActiveAppend(a[1..], b);
    }
  }
}
