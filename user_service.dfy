/** `UserServiceImpl`: enabling and disabling accounts, and the role list of the user
    response. */
module UserService {
  import opened Common
  import opened Time
  import opened Text
  import opened Ledger
  import opened Users
  import opened UserRepository
  import opened AuditService

  function NotFoundMessage(id: nat): string {
    "User not found with ID: " + NatToString(id)
  }

  /** The roles the user response lists (`mapToUserResponse`): the type names of the
      active assignment rows, in row order. */
  function ResponseRoles(u: User): (r: seq<string>)
    reads u, u.userRoles
    ensures forall name :: name in r <==> HasRoleNamed(u.Rows(), name)
  {
    forall name ensures name in ActiveRoleNames(u.Rows()) <==> HasRoleNamed(u.Rows(), name) {
      ActiveRoleNamesAgreeWithHasRole(u.Rows(), name);
    }
    ActiveRoleNames(u.Rows())
  }

  class UserService {
    /** The `users` table. */
    var users: seq<User>
    /** The audit service both operations write to. */
    const audit: AuditService

    constructor (users: seq<User>, audit: AuditService)
      ensures this.users == users && this.audit == audit
    {
      this.users := users;
      this.audit := audit;
    }

    /** `enableUser(id)`: refused for an unknown id; otherwise the account is enabled,
        whatever it was before, and one USER_ENABLED entry is credited to the user. */
    method EnableUser(id: nat, now: LocalDateTime) returns (r: Result<Unit>)
      modifies users, audit
      ensures users == old(users)
      ensures r.Err? <==> FindById(users, id).None?
      ensures r.Err? ==> r == Err(ResourceNotFound(NotFoundMessage(id))) && audit.trail == old(audit.trail)
      ensures r.Ok? ==>
                var u := FindById(users, id).value;
                && u.isEnabled
                && u.Rows() == old(u.Rows()) && u.Lockout() == old(u.Lockout())
                && u.lastLoginDate == old(u.lastLoginDate) && u.lastLoginIp == old(u.lastLoginIp)
                && audit.trail == Logged(old(audit.trail), users, id, "USER_ENABLED", "USERS", "User account enabled: " + u.email, None, None, now)
                && |audit.trail| == |old(audit.trail)| + 1
      ensures forall i :: 0 <= i < |users| && (FindById(users, id).None? || users[i] != FindById(users, id).value) ==>
                users[i].Rows() == old(users[i].Rows()) && users[i].Account() == old(users[i].Account())
    {
      r := SetEnabled(id, true, "USER_ENABLED", "User account enabled: ", now);
    }

    /** `disableUser(id)`: refused for an unknown id; otherwise the account is disabled,
        whatever it was before, and one USER_DISABLED entry is credited to the user. */
    method DisableUser(id: nat, now: LocalDateTime) returns (r: Result<Unit>)
      modifies users, audit
      ensures users == old(users)
      ensures r.Err? <==> FindById(users, id).None?
      ensures r.Err? ==> r == Err(ResourceNotFound(NotFoundMessage(id))) && audit.trail == old(audit.trail)
      ensures r.Ok? ==>
                var u := FindById(users, id).value;
                && !u.isEnabled
                && u.Rows() == old(u.Rows()) && u.Lockout() == old(u.Lockout())
                && u.lastLoginDate == old(u.lastLoginDate) && u.lastLoginIp == old(u.lastLoginIp)
                && audit.trail == Logged(old(audit.trail), users, id, "USER_DISABLED", "USERS", "User account disabled: " + u.email, None, None, now)
                && |audit.trail| == |old(audit.trail)| + 1
      ensures forall i :: 0 <= i < |users| && (FindById(users, id).None? || users[i] != FindById(users, id).value) ==>
                users[i].Rows() == old(users[i].Rows()) && users[i].Account() == old(users[i].Account())
    {
      r := SetEnabled(id, false, "USER_DISABLED", "User account disabled: ", now);
    }

    /** The shared steps of both operations: look the user up, set the flag, save, log. */
    method SetEnabled(id: nat, enabled: bool, action: string, prefix: string, now: LocalDateTime) returns (r: Result<Unit>)
      modifies users, audit
      ensures users == old(users)
      ensures r.Err? <==> FindById(users, id).None?
      ensures r.Err? ==> r == Err(ResourceNotFound(NotFoundMessage(id))) && audit.trail == old(audit.trail)
      ensures r.Ok? ==>
                var u := FindById(users, id).value;
                && u.isEnabled == enabled
                && u.Rows() == old(u.Rows()) && u.Lockout() == old(u.Lockout())
                && u.lastLoginDate == old(u.lastLoginDate) && u.lastLoginIp == old(u.lastLoginIp)
                && audit.trail == Logged(old(audit.trail), users, id, action, "USERS", prefix + u.email, None, None, now)
                && |audit.trail| == |old(audit.trail)| + 1
      ensures forall i :: 0 <= i < |users| && (FindById(users, id).None? || users[i] != FindById(users, id).value) ==>
                users[i].Rows() == old(users[i].Rows()) && users[i].Account() == old(users[i].Account())
    {
      var found := FindById(users, id);
      if found.None? {
        return Err(ResourceNotFound(NotFoundMessage(id)));
      }
      var user := found.value;
      user.SetEnabled(enabled);
      audit.LogAction(users, user.base.id, action, "USERS", prefix + user.email, now);
      return Ok(Unit);
    }
  }
}
