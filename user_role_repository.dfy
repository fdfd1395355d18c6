/** `UserRoleRepository`: the queries over the user-to-role assignment table, as functions
    over its rows. None of them looks at the role's own active flag or at soft deletion. */
module UserRoleRepository {
  import opened Common
  import opened Ledger

  /** `findByUserIdAndIsActiveTrue(userId)`. */
  function FindByUserIdAndIsActiveTrue(rows: seq<Grant>, userId: nat): (r: seq<Grant>)
    ensures forall i :: 0 <= i < |r| ==> r[i] in rows && r[i].userId == userId && r[i].isActive
    ensures forall i :: 0 <= i < |rows| && rows[i].userId == userId && rows[i].isActive ==> rows[i] in r
  {
    Filter(rows, (g: Grant) => g.userId == userId && g.isActive)
  }

  /** `findByRoleIdAndIsActiveTrue(roleId)`. */
  function FindByRoleIdAndIsActiveTrue(rows: seq<Grant>, roleId: nat): (r: seq<Grant>)
    ensures forall i :: 0 <= i < |r| ==> r[i] in rows && r[i].roleId == roleId && r[i].isActive
    ensures forall i :: 0 <= i < |rows| && rows[i].roleId == roleId && rows[i].isActive ==> rows[i] in r
  {
    Filter(rows, (g: Grant) => g.roleId == roleId && g.isActive)
  }

  /** `findByUserId(userId)`, active or not. */
  function FindByUserId(rows: seq<Grant>, userId: nat): (r: seq<Grant>)
    ensures forall i :: 0 <= i < |r| ==> r[i] in rows && r[i].userId == userId
    ensures forall i :: 0 <= i < |rows| && rows[i].userId == userId ==> rows[i] in r
  {
    Filter(rows, (g: Grant) => g.userId == userId)
  }

  /** `findActiveByUserIdAndRoleId(userId, roleId)`: a row of that user for that role that
      is active, if there is one. */
  function FindActiveByUserIdAndRoleId(rows: seq<Grant>, userId: nat, roleId: nat): (r: Option<Grant>)
    ensures r.Some? ==> r.value in rows && r.value.userId == userId && r.value.roleId == roleId && r.value.isActive
    ensures r.None? ==> forall i :: 0 <= i < |rows| ==> !(rows[i].userId == userId && rows[i].roleId == roleId && rows[i].isActive)
    decreases |rows|
  {
    if rows == [] then None
    else if rows[0].userId == userId && rows[0].roleId == roleId && rows[0].isActive then Some(rows[0])
    else
      var rest := FindActiveByUserIdAndRoleId(rows[1..], userId, roleId);
      assert forall i :: 1 <= i < |rows| ==> rows[i] == rows[1..][i - 1];
      rest
  }

  /** `countActiveUsersByRoleId(roleId)`: `SELECT COUNT` over the active rows of the role. */
  function CountActiveUsersByRoleId(rows: seq<Grant>, roleId: nat): (n: nat)
    ensures n <= |rows|
    ensures n == 0 <==> forall i :: 0 <= i < |rows| ==> !(rows[i].roleId == roleId && rows[i].isActive)
    decreases |rows|
  {
    if rows == [] then 0
    else
      var rest := CountActiveUsersByRoleId(rows[1..], roleId);
      assert forall i :: 1 <= i < |rows| ==> rows[i] == rows[1..][i - 1];
      (if rows[0].roleId == roleId && rows[0].isActive then 1 else 0) + rest
  }

  /** The count is the number of rows `findByRoleIdAndIsActiveTrue` lists. */
  lemma {:induction false} CountIsSizeOfFind(rows: seq<Grant>, roleId: nat)
    ensures CountActiveUsersByRoleId(rows, roleId) == |FindByRoleIdAndIsActiveTrue(rows, roleId)|
    decreases |rows|
  {
    if rows != [] {
      CountIsSizeOfFind(rows[1..], roleId);
    }
  }

  /** The table holds at most one active row per (user, role) pair. */
  predicate AtMostOneActivePerPair(rows: seq<Grant>) {
    forall i, j :: 0 <= i < j < |rows| && rows[i].isActive && rows[j].isActive && rows[i].userId == rows[j].userId
      ==> rows[i].roleId != rows[j].roleId
  }

  /** Under that invariant the active row for a pair is determined, so the lookup returns
      the only candidate. */
  lemma ActiveRowIsUnique(rows: seq<Grant>, userId: nat, roleId: nat, k: nat)
    requires AtMostOneActivePerPair(rows)
    requires k < |rows| && rows[k].userId == userId && rows[k].roleId == roleId && rows[k].isActive
    ensures FindActiveByUserIdAndRoleId(rows, userId, roleId) == Some(rows[k])
  {
    var r := FindActiveByUserIdAndRoleId(rows, userId, roleId);
    var i :| 0 <= i < |rows| && rows[i] == r.value;
    if i != k {
      assert false;
    }
  }

  /** Within a table that keeps that invariant, each user's own rows keep the ledger's
      invariant of at most one active row per role. */
  lemma {:induction false} UserRowsKeepTableInvariant(rows: seq<Grant>, userId: nat)
    requires AtMostOneActivePerPair(rows)
    ensures AtMostOneActivePerRole(FindByUserId(rows, userId))
    decreases |rows|
  {
    if rows != [] {
      assert AtMostOneActivePerPair(rows[1..]) by {
        forall i, j | 0 <= i < j < |rows[1..]|
          ensures !(rows[1..][i].isActive && rows[1..][j].isActive && rows[1..][i].userId == rows[1..][j].userId)
                  || rows[1..][i].roleId != rows[1..][j].roleId
        {
          assert rows[1..][i] == rows[i + 1] && rows[1..][j] == rows[j + 1];
        }
      }
      UserRowsKeepTableInvariant(rows[1..], userId);
      var rest := FindByUserId(rows[1..], userId);
      if rows[0].userId == userId {
        assert FindByUserId(rows, userId) == [rows[0]] + rest;
        forall k | 0 <= k < |rest| && rows[0].isActive && rest[k].isActive
          ensures rows[0].roleId != rest[k].roleId
        {
          var b :| 0 <= b < |rows[1..]| && rows[1..][b] == rest[k];
          assert rows[b + 1] == rest[k];
        }
      } else {
        assert FindByUserId(rows, userId) == rest;
      }
    }
  }
}
