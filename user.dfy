/** The `User` entity: the assignment rows it holds (`userRoles`) and the account
    lockout counter. */
module Users {
  import opened Common
  import opened Time
  import opened BaseEntities
  import opened Roles
  import opened Ledger
  import opened UserRoles

  /** The lockout fields as one value. */
  datatype LockoutState = LockoutState(isAccountNonLocked: bool, failedLoginAttempts: int, accountLockedUntil: Option<LocalDateTime>)

  /** The failed attempt that locks the account. */
  const MaxFailedAttempts: int := 5

  /** A new account, and the state `resetFailedLoginAttempts` returns to. */
  const Unlocked: LockoutState := LockoutState(true, 0, None)

  /** The counter is an `Integer`. */
  predicate CounterInRange(l: LockoutState) {
    MinInt <= l.failedLoginAttempts <= MaxInt
  }

  /** `incrementFailedLoginAttempts()` at time `now`: the `Integer` counter goes up by one,
      wrapping after its greatest value, and the account locks for an hour when the new
      count is five or more. */
  function AfterFailedAttempt(l: LockoutState, now: LocalDateTime): (r: LockoutState)
    requires CounterInRange(l)
    ensures CounterInRange(r)
    ensures l.failedLoginAttempts < MaxInt ==> r.failedLoginAttempts == l.failedLoginAttempts + 1
    ensures l.failedLoginAttempts == MaxInt ==> r.failedLoginAttempts == MinInt
    ensures r.failedLoginAttempts >= MaxFailedAttempts ==> !r.isAccountNonLocked && r.accountLockedUntil == Some(PlusOneHour(now))
    ensures r.failedLoginAttempts < MaxFailedAttempts ==> r.isAccountNonLocked == l.isAccountNonLocked && r.accountLockedUntil == l.accountLockedUntil
  {
    var attempts := IncrementInt32(l.failedLoginAttempts);
    if attempts >= MaxFailedAttempts then LockoutState(false, attempts, Some(PlusOneHour(now)))
    else l.(failedLoginAttempts := attempts)
  }

  /** A failure on a counter at the greatest `Integer` wraps it to the least one, which is
      below five, so the lock fields keep whatever they held and are not renewed. */
  lemma WrappedCounterKeepsLockFields(l: LockoutState, now: LocalDateTime)
    requires l.failedLoginAttempts == MaxInt
    ensures var r := AfterFailedAttempt(l, now);
            r == l.(failedLoginAttempts := MinInt)
  {
  }

  /** `isAccountNonLocked()` at time `now`: locked while `now` is before the lock's end,
      otherwise whatever the stored flag says. */
  predicate NonLocked(l: LockoutState, now: LocalDateTime) {
    if l.accountLockedUntil.Some? && IsBefore(now, l.accountLockedUntil.value) then false
    else l.isAccountNonLocked
  }

  /** A run of failed attempts at the given times. */
  function AfterFailedAttempts(l: LockoutState, times: seq<LocalDateTime>): (r: LockoutState)
    requires CounterInRange(l)
    ensures CounterInRange(r)
    decreases |times|
  {
    if times == [] then l else AfterFailedAttempts(AfterFailedAttempt(l, times[0]), times[1..])
  }

  /** Fewer than five failures leave a fresh account open, merely counted. */
  lemma {:induction false} FewFailuresKeepOpen(k: nat, times: seq<LocalDateTime>)
    requires k + |times| < MaxFailedAttempts
    ensures AfterFailedAttempts(LockoutState(true, k, None), times) == LockoutState(true, k + |times|, None)
    decreases |times|
  {
    if times != [] {
      FewFailuresKeepOpen(k + 1, times[1..]);
    }
  }

  /** The fifth failure on a fresh account locks it until an hour after that failure. */
  lemma FifthFailureLocks(times: seq<LocalDateTime>)
    requires |times| == MaxFailedAttempts
    ensures var l := AfterFailedAttempts(Unlocked, times);
            l == LockoutState(false, MaxFailedAttempts, Some(PlusOneHour(times[4])))
            && !NonLocked(l, times[4])
  {
    FewFailuresKeepOpen(0, times[..4]);
    AfterFailedAttemptsSplit(Unlocked, times[..4], times[4..]);
    assert times[..4] + times[4..] == times;
  }

  lemma {:induction false} AfterFailedAttemptsSplit(l: LockoutState, a: seq<LocalDateTime>, b: seq<LocalDateTime>)
    requires CounterInRange(l)
    ensures AfterFailedAttempts(l, a + b) == AfterFailedAttempts(AfterFailedAttempts(l, a), b)
    decreases |a|
  {
    if a == [] {
      assert a + b == b;
    } else {
      assert (a + b)[0] == a[0];
      assert (a + b)[1..] == a[1..] + b;
      AfterFailedAttemptsSplit(AfterFailedAttempt(l, a[0]), a[1..], b);
    }
  }

  /** Once locked by the counter, the account stays locked after the lock's end has
      passed, at any time, until the counter is reset. */
  lemma LockOutlivesItsExpiry(times: seq<LocalDateTime>, later: LocalDateTime)
    requires |times| == MaxFailedAttempts
    ensures !NonLocked(AfterFailedAttempts(Unlocked, times), later)
    ensures NonLocked(Unlocked, later)
  {
    FifthFailureLocks(times);
  }

  class User {
    const base: BaseEntity
    const firstname: Option<string>
    const lastname: Option<string>
    const email: string
    const userName: string
    var userRoles: seq<UserRole>
    var isEnabled: bool
    var isAccountNonLocked: bool
    var failedLoginAttempts: int
    var accountLockedUntil: Option<LocalDateTime>
    var lastLoginDate: Option<LocalDateTime>
    var lastLoginIp: Option<string>

    /** The assignment rows as values. */
    function Rows(): seq<Grant>
      reads this, userRoles
    {
      RowsOf(userRoles)
    }

    function Lockout(): LockoutState
      reads this
    {
      LockoutState(isAccountNonLocked, failedLoginAttempts, accountLockedUntil)
    }

    /** The account fields outside the assignment rows. */
    function Account(): (bool, LockoutState, Option<LocalDateTime>, Option<string>)
      reads this
    {
      (isEnabled, Lockout(), lastLoginDate, lastLoginIp)
    }

    method AppendRow(row: UserRole)
      requires Valid() && row.userId == base.id && row !in userRoles
      modifies this
      ensures Valid()
      ensures userRoles == old(userRoles) + [row]
      ensures Account() == old(Account())
    {
      userRoles := userRoles + [row];
    }

    /** Each row object is held once, every row belongs to this user, and the failure
        counter is within the `Integer` range. */
    predicate Valid()
      reads this
    {
      && (forall i, j :: 0 <= i < j < |userRoles| ==> userRoles[i] != userRoles[j])
      && (forall i :: 0 <= i < |userRoles| ==> userRoles[i].userId == base.id)
      && CounterInRange(Lockout())
    }

    /** The builder, with the defaults of `@Builder.Default`: enabled, unlocked, no rows. */
    constructor (id: nat, firstname: Option<string>, lastname: Option<string>, email: string, userName: string)
      ensures fresh(base) && base.id == id && base.State() == NeverDeleted
      ensures this.firstname == firstname && this.lastname == lastname
      ensures this.email == email && this.userName == userName
      ensures userRoles == [] && isEnabled && Lockout() == Unlocked
      ensures lastLoginDate.None? && lastLoginIp.None?
      ensures Valid()
    {
      base := new BaseEntity(id);
      this.firstname := firstname;
      this.lastname := lastname;
      this.email := email;
      this.userName := userName;
      userRoles := [];
      isEnabled := true;
      isAccountNonLocked := true;
      failedLoginAttempts := 0;
      accountLockedUntil := None;
      lastLoginDate := None;
      lastLoginIp := None;
    }

    /** `assignRole(role, assignedBy)`: refuses an already active assignment, otherwise
        adds a new active row stamped with `assignedBy` and `now`. */
    method AssignRole(role: Role, assignedBy: Option<string>, now: LocalDateTime) returns (r: Result<Unit>)
      requires Valid()
      modifies this
      ensures Valid()
      ensures var a := Assign(old(Rows()), base.id, role.base.id, role.name, assignedBy, now);
              (r.Ok? <==> a.Ok?) && (r.Err? ==> r.error == a.error)
              && Rows() == (if a.Ok? then a.value else old(Rows()))
      ensures r.Err? ==> userRoles == old(userRoles)
      ensures r.Ok? ==> |userRoles| == |old(userRoles)| + 1 && userRoles[..|old(userRoles)|] == old(userRoles)
                        && fresh(userRoles[|old(userRoles)|]) && userRoles[|old(userRoles)|].role == role
      ensures Account() == old(Account())
    {
      var rows := Rows();
      if HasActive(rows, role.base.id) {
        return Err(IllegalState("Role already assigned to user"));
      }
      AddAssignedRow(role, assignedBy, now);
      return Ok(Unit);
    }

    /** The evidently intended `assignRole`: an inactive row for the role is brought back
        with `reactivate` instead of adding a second row for the same pair. */
    method AssignRoleReusingRow(role: Role, assignedBy: Option<string>, now: LocalDateTime) returns (r: Result<Unit>)
      requires Valid()
      modifies this, userRoles
      ensures Valid()
      ensures var a := AssignReusingRow(old(Rows()), base.id, role.base.id, role.name, assignedBy, now);
              (r.Ok? <==> a.Ok?) && (r.Err? ==> r.error == a.error)
              && Rows() == (if a.Ok? then a.value else old(Rows()))
      ensures Account() == old(Account())
    {
      var rows := Rows();
      if HasActive(rows, role.base.id) {
        return Err(IllegalState("Role already assigned to user"));
      }
      match FirstRowFor(rows, base.id, role.base.id)
      case Some(i) =>
        ReactivateRow(i, assignedBy, now);
        return Ok(Unit);
      case None =>
        AddAssignedRow(role, assignedBy, now);
        return Ok(Unit);
    }

    /** A new row for `role`, stamped as `assignRole` stamps it, appended to the user's rows. */
    method AddAssignedRow(role: Role, assignedBy: Option<string>, now: LocalDateTime)
      requires Valid()
      modifies this
      ensures Valid()
      ensures Rows() == old(Rows()) + [Assigned(base.id, role.base.id, role.name, assignedBy, now)]
      ensures |userRoles| == |old(userRoles)| + 1 && userRoles[..|old(userRoles)|] == old(userRoles)
              && fresh(userRoles[|old(userRoles)|]) && userRoles[|old(userRoles)|].role == role
      ensures Account() == old(Account())
    {
      var row := NewAssignedRow(base.id, role, assignedBy, now);
      var before := userRoles;
      assert RowsOf(before) == old(Rows());
      AppendRow(row);
      RowsOfAppend(before, row);
    }

    /** The row `assignRole` builds: a new active row for `role`, stamped with `assignedBy` and `now`. */
    static method NewAssignedRow(userId: nat, role: Role, assignedBy: Option<string>, now: LocalDateTime) returns (row: UserRole)
      ensures fresh(row) && row.userId == userId && row.role == role
      ensures row.Row() == Assigned(userId, role.base.id, role.name, assignedBy, now)
    {
      row := new UserRole(userId, role);
      row.assignedDate := Some(now);
      row.assignedBy := assignedBy;
    }

    /** `reactivate` on the row at position `i`; the other rows are untouched. */
    method ReactivateRow(i: nat, reactivatedBy: Option<string>, now: LocalDateTime)
      requires Valid() && i < |userRoles|
      modifies userRoles[i]
      ensures Valid()
      ensures Rows() == old(Rows())[i := Reactivated(old(Rows())[i], reactivatedBy, now)]
    {
      var rows := Rows();
      userRoles[i].Reactivate(reactivatedBy, now);
      assert forall j :: 0 <= j < |userRoles| && j != i ==> userRoles[j].Row() == rows[j];
    }

    /** `revokeRole(role, revokedBy)`: revokes the active row for the role; with none it
        changes nothing and does not throw. */
    method RevokeRole(role: Role, revokedBy: Option<string>, now: LocalDateTime)
      requires Valid()
      modifies userRoles
      ensures Valid()
      ensures Rows() == Revoke(old(Rows()), role.base.id, revokedBy, now)
    {
      var rows := Rows();
      match FirstActive(rows, role.base.id)
      case None =>
      case Some(i) =>
        userRoles[i].Revoke(revokedBy, now);
        assert forall j :: 0 <= j < |userRoles| && j != i ==> userRoles[j].Row() == rows[j];
        assert RowsOf(userRoles) == rows[i := Revoked(rows[i], revokedBy, now)];
    }

    /** `isAccountNonLocked()` at time `now`. */
    predicate IsAccountNonLocked(now: LocalDateTime)
      reads this
    {
      NonLocked(Lockout(), now)
    }

    /** `incrementFailedLoginAttempts()` at time `now`. */
    method IncrementFailedLoginAttempts(now: LocalDateTime)
      requires Valid()
      modifies this
      ensures Valid()
      ensures Lockout() == AfterFailedAttempt(old(Lockout()), now)
      ensures userRoles == old(userRoles) && isEnabled == old(isEnabled)
      ensures lastLoginDate == old(lastLoginDate) && lastLoginIp == old(lastLoginIp)
    {
      failedLoginAttempts := IncrementInt32(failedLoginAttempts);
      if failedLoginAttempts >= MaxFailedAttempts {
        isAccountNonLocked := false;
        accountLockedUntil := Some(PlusOneHour(now));
      }
    }

    /** `resetFailedLoginAttempts()`. */
    method ResetFailedLoginAttempts()
      modifies this
      ensures Lockout() == Unlocked
      ensures userRoles == old(userRoles) && isEnabled == old(isEnabled)
      ensures lastLoginDate == old(lastLoginDate) && lastLoginIp == old(lastLoginIp)
    {
      failedLoginAttempts := 0;
      isAccountNonLocked := true;
      accountLockedUntil := None;
    }

    /** `updateLastLogin(ipAddress)` at time `now`: records the login and resets the counter. */
    method UpdateLastLogin(ipAddress: Option<string>, now: LocalDateTime)
      modifies this
      ensures lastLoginDate == Some(now) && lastLoginIp == ipAddress
      ensures Lockout() == Unlocked
      ensures userRoles == old(userRoles) && isEnabled == old(isEnabled)
    {
      lastLoginDate := Some(now);
      lastLoginIp := ipAddress;
      ResetFailedLoginAttempts();
    }

    /** `setEnabled(enabled)`. */
    method SetEnabled(enabled: bool)
      modifies this
      ensures isEnabled == enabled
      ensures userRoles == old(userRoles) && Lockout() == old(Lockout())
      ensures lastLoginDate == old(lastLoginDate) && lastLoginIp == old(lastLoginIp)
    {
      isEnabled := enabled;
    }
  }
}
