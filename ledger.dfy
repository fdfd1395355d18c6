/** The role-assignment ledger of one user: the `user_roles` rows held in
    `User.userRoles`, seen as values. `User.assignRole` and `User.revokeRole` are specified
    by `Assign` and `Revoke` below; the row-level steps are `UserRole.revoke` and
    `UserRole.reactivate`. */
module Ledger {
  import opened Common
  import opened Time
  import opened Roles

  /** One `user_roles` row: the user's id, the id and type of the role, and the row's
      own fields. */
  datatype Grant = Grant(
    userId: nat,
    roleId: nat,
    roleName: Option<RoleType>,
    isActive: bool,
    assignedDate: Option<LocalDateTime>,
    assignedBy: Option<string>,
    revokedDate: Option<LocalDateTime>,
    revokedBy: Option<string>)

  /** The row `assignRole` builds: active, stamped with the assigner and the time. */
  function Assigned(userId: nat, roleId: nat, roleName: Option<RoleType>, assignedBy: Option<string>, now: LocalDateTime): (g: Grant)
    ensures g.isActive && g.revokedDate.None? && g.revokedBy.None?
    ensures g.userId == userId && g.roleId == roleId && g.roleName == roleName
  {
    Grant(userId, roleId, roleName, true, Some(now), assignedBy, None, None)
  }

  /** `UserRole.revoke`: inactive, with the revocation stamped; assignment stamps kept. */
  function Revoked(g: Grant, revokedBy: Option<string>, now: LocalDateTime): (r: Grant)
    ensures !r.isActive && r.revokedDate == Some(now) && r.revokedBy == revokedBy
    ensures r.userId == g.userId && r.roleId == g.roleId && r.roleName == g.roleName
    ensures r.assignedDate == g.assignedDate && r.assignedBy == g.assignedBy
  {
    g.(isActive := false, revokedDate := Some(now), revokedBy := revokedBy)
  }

  /** `UserRole.reactivate`: active again, revocation cleared, assignment re-stamped. */
  function Reactivated(g: Grant, reactivatedBy: Option<string>, now: LocalDateTime): (r: Grant)
    ensures r.isActive && r.revokedDate.None? && r.revokedBy.None?
    ensures r.userId == g.userId && r.roleId == g.roleId && r.roleName == g.roleName
    ensures r.assignedDate == Some(now) && r.assignedBy == reactivatedBy
  {
    g.(isActive := true, revokedDate := None, revokedBy := None, assignedBy := reactivatedBy, assignedDate := Some(now))
  }

  /** Revoking and then reactivating a row leaves the same row as a fresh assignment
      by the reactivating user at the reactivation time. */
  lemma RevokeThenReactivate(g: Grant, revokedBy: Option<string>, t1: LocalDateTime,
                             reactivatedBy: Option<string>, t2: LocalDateTime)
    ensures Reactivated(Revoked(g, revokedBy, t1), reactivatedBy, t2)
         == Grant(g.userId, g.roleId, g.roleName, true, Some(t2), reactivatedBy, None, None)
  {
  }

  /** The row is an active assignment of the role with that id. */
  predicate ActiveFor(g: Grant, roleId: nat) {
    g.isActive && g.roleId == roleId
  }

  /** `anyMatch(ur -> ur.getRole().getId().equals(roleId) && ur.isActive())`. */
  predicate HasActive(rows: seq<Grant>, roleId: nat) {
    exists i :: 0 <= i < |rows| && ActiveFor(rows[i], roleId)
  }

  function FirstActiveFrom(rows: seq<Grant>, roleId: nat, k: nat): (r: Option<nat>)
    requires k <= |rows|
    ensures r.Some? ==> k <= r.value < |rows| && ActiveFor(rows[r.value], roleId)
    ensures r.Some? ==> forall j :: k <= j < r.value ==> !ActiveFor(rows[j], roleId)
    ensures r.None? ==> forall j :: k <= j < |rows| ==> !ActiveFor(rows[j], roleId)
    decreases |rows| - k
  {
    if k == |rows| then None
    else if ActiveFor(rows[k], roleId) then Some(k)
    else FirstActiveFrom(rows, roleId, k + 1)
  }

  /** `filter(same role id && active).findFirst()`: the position of the first active row
      for the role, if any. */
  function FirstActive(rows: seq<Grant>, roleId: nat): (r: Option<nat>)
    ensures r.Some? <==> HasActive(rows, roleId)
    ensures r.Some? ==> r.value < |rows| && ActiveFor(rows[r.value], roleId)
  {
    FirstActiveFrom(rows, roleId, 0)
  }

  /** The central invariant of the ledger: at most one active row per role. */
  predicate AtMostOneActivePerRole(rows: seq<Grant>) {
    forall i, j :: 0 <= i < j < |rows| && rows[i].isActive && rows[j].isActive ==> rows[i].roleId != rows[j].roleId
  }

  /** The storage constraint `uk_user_role`: at most one row, active or not, per
      (user, role) pair. */
  predicate UniqueUserRolePairs(rows: seq<Grant>) {
    forall i, j :: 0 <= i < j < |rows| ==> rows[i].userId != rows[j].userId || rows[i].roleId != rows[j].roleId
  }

  /** Under the invariant the active row of a role is unique, so `findFirst` finds it
      whatever order the set iterates in. */
  lemma FirstActiveIsTheActiveRow(rows: seq<Grant>, roleId: nat, i: nat)
    requires AtMostOneActivePerRole(rows)
    requires i < |rows| && ActiveFor(rows[i], roleId)
    ensures FirstActive(rows, roleId) == Some(i)
  {
    var k := FirstActive(rows, roleId).value;
    assert ActiveFor(rows[k], roleId);
  }

  /** `User.assignRole` as written: refuse when an active row for the role exists,
      otherwise append a fresh active row (an inactive row is never reused). */
  function Assign(rows: seq<Grant>, userId: nat, roleId: nat, roleName: Option<RoleType>, assignedBy: Option<string>, now: LocalDateTime)
    : (r: Result<seq<Grant>>)
    ensures r.Err? <==> HasActive(rows, roleId)
    ensures r.Err? ==> r.error == IllegalState("Role already assigned to user")
    ensures r.Ok? ==> |r.value| == |rows| + 1 && r.value[..|rows|] == rows
  {
    if HasActive(rows, roleId) then Err(IllegalState("Role already assigned to user"))
    else Ok(rows + [Assigned(userId, roleId, roleName, assignedBy, now)])
  }

  /** `User.revokeRole`: revoke the first active row for the role; with none, nothing
      changes and nothing is thrown. */
  function Revoke(rows: seq<Grant>, roleId: nat, revokedBy: Option<string>, now: LocalDateTime): (r: seq<Grant>)
    ensures |r| == |rows|
    ensures !HasActive(rows, roleId) ==> r == rows
    ensures HasActive(rows, roleId) ==>
      exists i :: 0 <= i < |rows| && ActiveFor(rows[i], roleId) && r == rows[i := Revoked(rows[i], revokedBy, now)]
  {
    match FirstActive(rows, roleId)
    case None => rows
    case Some(i) => rows[i := Revoked(rows[i], revokedBy, now)]
  }

  /** A successful assignment leaves the role active, and keeps the invariant. */
  lemma AssignKeepsInvariant(rows: seq<Grant>, userId: nat, roleId: nat, roleName: Option<RoleType>, assignedBy: Option<string>, now: LocalDateTime)
    requires AtMostOneActivePerRole(rows)
    requires Assign(rows, userId, roleId, roleName, assignedBy, now).Ok?
    ensures AtMostOneActivePerRole(Assign(rows, userId, roleId, roleName, assignedBy, now).value)
    ensures HasActive(Assign(rows, userId, roleId, roleName, assignedBy, now).value, roleId)
  {
    var r := Assign(rows, userId, roleId, roleName, assignedBy, now).value;
    assert ActiveFor(r[|rows|], roleId);
    forall i, j | 0 <= i < j < |r| && r[i].isActive && r[j].isActive
      ensures r[i].roleId != r[j].roleId
    {
      if j == |rows| {
        assert !ActiveFor(rows[i], roleId);
      }
    }
  }

  /** Revocation keeps the invariant and leaves no active row for the role. */
  lemma RevokeKeepsInvariant(rows: seq<Grant>, roleId: nat, revokedBy: Option<string>, now: LocalDateTime)
    requires AtMostOneActivePerRole(rows)
    ensures AtMostOneActivePerRole(Revoke(rows, roleId, revokedBy, now))
    ensures !HasActive(Revoke(rows, roleId, revokedBy, now), roleId)
  {
    var r := Revoke(rows, roleId, revokedBy, now);
    if HasActive(rows, roleId) {
      var i := FirstActive(rows, roleId).value;
      assert r == rows[i := Revoked(rows[i], revokedBy, now)];
      forall j | 0 <= j < |r|
        ensures !ActiveFor(r[j], roleId)
      {
        assert j != i ==> r[j] == rows[j];
      }
    }
  }

  /** Revoking a role nobody holds is a silent no-op. */
  lemma RevokeAbsentIsNoOp(rows: seq<Grant>, roleId: nat, revokedBy: Option<string>, now: LocalDateTime)
    requires !HasActive(rows, roleId)
    ensures Revoke(rows, roleId, revokedBy, now) == rows
  {
  }

  /** As written, the ledger breaks `uk_user_role`: assigning a role, revoking it and
      assigning it again leaves two rows for the same (user, role) pair. */
  lemma ReassignAfterRevokeBreaksUniquePairs(userId: nat, roleId: nat, roleName: Option<RoleType>, actor: Option<string>,
                                              t1: LocalDateTime, t2: LocalDateTime, t3: LocalDateTime)
    ensures var r1 := Assign([], userId, roleId, roleName, actor, t1);
            r1.Ok? &&
            var r2 := Revoke(r1.value, roleId, actor, t2);
            var r3 := Assign(r2, userId, roleId, roleName, actor, t3);
            UniqueUserRolePairs(r1.value) && r3.Ok? && !UniqueUserRolePairs(r3.value)
  {
    var r1 := Assign([], userId, roleId, roleName, actor, t1).value;
    assert ActiveFor(r1[0], roleId);
    var r2 := Revoke(r1, roleId, actor, t2);
    assert r2 == [Revoked(r1[0], actor, t2)];
    assert !HasActive(r2, roleId);
    var r3 := Assign(r2, userId, roleId, roleName, actor, t3).value;
    assert r3[0].userId == r3[1].userId && r3[0].roleId == r3[1].roleId;
  }

  function FirstRowForFrom(rows: seq<Grant>, userId: nat, roleId: nat, k: nat): (r: Option<nat>)
    requires k <= |rows|
    ensures r.Some? ==> k <= r.value < |rows| && rows[r.value].userId == userId && rows[r.value].roleId == roleId
    ensures r.None? ==> forall j :: k <= j < |rows| ==> rows[j].userId != userId || rows[j].roleId != roleId
    decreases |rows| - k
  {
    if k == |rows| then None
    else if rows[k].userId == userId && rows[k].roleId == roleId then Some(k)
    else FirstRowForFrom(rows, userId, roleId, k + 1)
  }

  /** The position of the row for a (user, role) pair, active or not. */
  function FirstRowFor(rows: seq<Grant>, userId: nat, roleId: nat): (r: Option<nat>)
    ensures r.Some? ==> r.value < |rows| && rows[r.value].userId == userId && rows[r.value].roleId == roleId
    ensures r.None? ==> forall j :: 0 <= j < |rows| ==> rows[j].userId != userId || rows[j].roleId != roleId
  {
    FirstRowForFrom(rows, userId, roleId, 0)
  }

  /** The evidently intended assignment: refuse an active duplicate as before, but bring
      back an existing inactive row with `reactivate` instead of adding a second row. */
  function AssignReusingRow(rows: seq<Grant>, userId: nat, roleId: nat, roleName: Option<RoleType>, assignedBy: Option<string>, now: LocalDateTime)
    : (r: Result<seq<Grant>>)
    ensures r.Err? <==> HasActive(rows, roleId)
    ensures r.Err? ==> r.error == IllegalState("Role already assigned to user")
  {
    if HasActive(rows, roleId) then Err(IllegalState("Role already assigned to user"))
    else match FirstRowFor(rows, userId, roleId)
      case Some(i) => Ok(rows[i := Reactivated(rows[i], assignedBy, now)])
      case None => Ok(rows + [Assigned(userId, roleId, roleName, assignedBy, now)])
  }

  /** The corrected assignment keeps the storage constraint and the invariant, and
      leaves the role active. */
  lemma AssignReusingRowKeepsConstraints(rows: seq<Grant>, userId: nat, roleId: nat, roleName: Option<RoleType>,
                                         assignedBy: Option<string>, now: LocalDateTime)
    requires UniqueUserRolePairs(rows) && AtMostOneActivePerRole(rows)
    requires AssignReusingRow(rows, userId, roleId, roleName, assignedBy, now).Ok?
    ensures var r := AssignReusingRow(rows, userId, roleId, roleName, assignedBy, now).value;
            UniqueUserRolePairs(r) && AtMostOneActivePerRole(r) && HasActive(r, roleId)
  {
    var r := AssignReusingRow(rows, userId, roleId, roleName, assignedBy, now).value;
    match FirstRowFor(rows, userId, roleId)
    case Some(k) =>
      assert r == rows[k := Reactivated(rows[k], assignedBy, now)];
      assert ActiveFor(r[k], roleId);
      forall i, j | 0 <= i < j < |r| && r[i].isActive && r[j].isActive
        ensures r[i].roleId != r[j].roleId
      {
        if i == k {
          assert !ActiveFor(rows[j], roleId);
        } else if j == k {
          assert !ActiveFor(rows[i], roleId);
        }
      }
    case None =>
      AssignKeepsInvariant(rows, userId, roleId, roleName, assignedBy, now);
  }

  /** Revoke-then-reassign, the sequence that breaks the constraint as written, keeps it
      with the corrected assignment. */
  lemma ReassignAfterRevokeKeepsUniquePairs(rows: seq<Grant>, userId: nat, roleId: nat, roleName: Option<RoleType>, actor: Option<string>,
                                            t1: LocalDateTime, t2: LocalDateTime)
    requires UniqueUserRolePairs(rows) && AtMostOneActivePerRole(rows)
    ensures var r2 := Revoke(rows, roleId, actor, t1);
            var r3 := AssignReusingRow(r2, userId, roleId, roleName, actor, t2);
            r3.Ok? && UniqueUserRolePairs(r3.value) && HasActive(r3.value, roleId)
  {
    var r2 := Revoke(rows, roleId, actor, t1);
    RevokeKeepsInvariant(rows, roleId, actor, t1);
    assert UniqueUserRolePairs(r2) by {
      forall i, j | 0 <= i < j < |r2|
        ensures r2[i].userId != r2[j].userId || r2[i].roleId != r2[j].roleId
      {
        assert r2[i].userId == rows[i].userId && r2[i].roleId == rows[i].roleId;
        assert r2[j].userId == rows[j].userId && r2[j].roleId == rows[j].roleId;
      }
    }
    AssignReusingRowKeepsConstraints(r2, userId, roleId, roleName, actor, t2);
  }

  /** `User.hasRole(roleName)`: some active row's role type is named `roleName`. */
  predicate HasRoleNamed(rows: seq<Grant>, roleName: string) {
    exists i :: 0 <= i < |rows| && rows[i].isActive && rows[i].roleName.Some?
             && TypeName(rows[i].roleName.value) == roleName
  }

  /** After a successful assignment of a named role the user has that role. */
  lemma AssignGrantsRoleName(rows: seq<Grant>, userId: nat, roleId: nat, roleName: Option<RoleType>, assignedBy: Option<string>, now: LocalDateTime)
    requires roleName.Some?
    requires Assign(rows, userId, roleId, roleName, assignedBy, now).Ok?
    ensures HasRoleNamed(Assign(rows, userId, roleId, roleName, assignedBy, now).value, TypeName(roleName.value))
  {
    var r := Assign(rows, userId, roleId, roleName, assignedBy, now).value;
    assert r[|rows|].isActive && r[|rows|].roleName == roleName;
  }

  /** The role names listed by the user response: the type names of active rows. */
  function ActiveRoleNames(rows: seq<Grant>): (r: seq<string>)
    ensures forall i :: 0 <= i < |rows| && rows[i].isActive && rows[i].roleName.Some?
                        ==> TypeName(rows[i].roleName.value) in r
  {
    Map(Filter(rows, (g: Grant) => g.isActive && g.roleName.Some?), (g: Grant) => if g.roleName.Some? then TypeName(g.roleName.value) else "")
  }

  /** A name is listed exactly when `hasRole` holds for it. */
  lemma ActiveRoleNamesAgreeWithHasRole(rows: seq<Grant>, roleName: string)
    ensures roleName in ActiveRoleNames(rows) <==> HasRoleNamed(rows, roleName)
  {
    var p := (g: Grant) => g.isActive && g.roleName.Some?;
    var active := Filter(rows, p);
    if roleName in ActiveRoleNames(rows) {
      var k :| 0 <= k < |active| && TypeName(active[k].roleName.value) == roleName;
      var i :| 0 <= i < |rows| && rows[i] == active[k];
    }
  }
}
