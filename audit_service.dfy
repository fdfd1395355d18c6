/** `AuditServiceImpl`: writing audit entries and reading them back. Writing never fails
    for the caller: a failure, such as an unknown user id, is logged and swallowed, and the
    trail is then left as it was. */
module AuditService {
  import opened Common
  import opened Time
  import opened Users
  import opened UserRepository
  import opened AuditTrails

  /** The trail after `logAction(userId, action, module, description, ipAddress, userAgent)`
      at time `now`: one more entry, stamped with the user's email, when the user exists;
      otherwise the trail unchanged. */
  function Logged(trail: seq<AuditEntry>, users: seq<User>, userId: nat, action: string, moduleName: string,
                  description: string, ipAddress: Option<string>, userAgent: Option<string>, now: LocalDateTime)
    : (r: seq<AuditEntry>)
    ensures |trail| <= |r| <= |trail| + 1 && r[..|trail|] == trail
    ensures |r| == |trail| + 1 <==> FindById(users, userId).Some?
    ensures |r| == |trail| + 1 ==>
              var e := r[|trail|];
              && e.userId == userId && e.action == action && e.moduleName == moduleName && e.description == description
              && e.ipAddress == ipAddress && e.userAgent == userAgent
              && e.createdDate == now && e.updatedDate == now
              && e.createdBy == FindById(users, userId).value.email && e.updatedBy == e.createdBy
  {
    match FindById(users, userId)
    case None => trail
    case Some(u) => trail + [AuditEntry(userId, action, moduleName, description, ipAddress, userAgent, now, now, u.email, u.email)]
  }

  /** Logging keeps the foreign key: an entry is only ever added for an existing user. */
  lemma LoggedKeepsForeignKey(trail: seq<AuditEntry>, users: seq<User>, userId: nat, action: string, moduleName: string,
                              description: string, ipAddress: Option<string>, userAgent: Option<string>, now: LocalDateTime)
    requires RefersToUsers(trail, users)
    ensures RefersToUsers(Logged(trail, users, userId, action, moduleName, description, ipAddress, userAgent, now), users)
  {
  }

  /** An entry that was written is found again by the user's and the module's queries. */
  lemma LoggedEntryIsFound(trail: seq<AuditEntry>, users: seq<User>, userId: nat, action: string, moduleName: string,
                           description: string, now: LocalDateTime)
    requires FindById(users, userId).Some?
    ensures var t := Logged(trail, users, userId, action, moduleName, description, None, None, now);
            t[|trail|] in FindByUserId(t, userId) && t[|trail|] in FindByModule(t, moduleName)
            && t[|trail|] in SearchAuditTrails(t, Some(userId), Some(moduleName), Some(action))
  {
    var t := Logged(trail, users, userId, action, moduleName, description, None, None, now);
    assert t[|trail|].userId == userId && t[|trail|].moduleName == moduleName;
  }

  class AuditService {
    /** The `audit_trails` table, in insertion order. */
    var trail: seq<AuditEntry>

    constructor ()
      ensures trail == []
    {
      trail := [];
    }

    /** `logAction(userId, action, module, description)`: the six-argument form with no IP
        address and no user agent. */
    method LogAction(users: seq<User>, userId: nat, action: string, moduleName: string, description: string, now: LocalDateTime)
      modifies this
      ensures trail == Logged(old(trail), users, userId, action, moduleName, description, None, None, now)
    {
      LogActionFrom(users, userId, action, moduleName, description, None, None, now);
    }

    /** `logAction(userId, action, module, description, ipAddress, userAgent)`. */
    method LogActionFrom(users: seq<User>, userId: nat, action: string, moduleName: string, description: string,
                         ipAddress: Option<string>, userAgent: Option<string>, now: LocalDateTime)
      modifies this
      ensures trail == Logged(old(trail), users, userId, action, moduleName, description, ipAddress, userAgent, now)
    {
      var user := FindById(users, userId);
      if user.None? {
        return;
      }
      var entry := AuditEntry(userId, action, moduleName, description, ipAddress, userAgent, now, now, user.value.email, user.value.email);
      trail := trail + [entry];
    }

    /** `getAuditTrailsByUserId(userId)`: refused for an unknown user. */
    method GetAuditTrailsByUserId(users: seq<User>, userId: nat) returns (r: Result<seq<AuditEntry>>)
      ensures r.Err? <==> FindById(users, userId).None?
      ensures r.Err? ==> r.error == ResourceNotFound("User not found")
      ensures r.Ok? ==> r.value == FindByUserId(trail, userId)
    {
      if FindById(users, userId).None? {
        return Err(ResourceNotFound("User not found"));
      }
      return Ok(FindByUserId(trail, userId));
    }

    /** `getAuditTrailsByModule(module)`: no check on the module name. */
    method GetAuditTrailsByModule(moduleName: string) returns (r: seq<AuditEntry>)
      ensures r == FindByModule(trail, moduleName)
    {
      return FindByModule(trail, moduleName);
    }

    /** `searchAuditTrails(userId, module, action)`: no check on the user. */
    method Search(userId: Option<nat>, moduleName: Option<string>, action: Option<string>) returns (r: seq<AuditEntry>)
      ensures r == SearchAuditTrails(trail, userId, moduleName, action)
    {
      return SearchAuditTrails(trail, userId, moduleName, action);
    }
  }
}
