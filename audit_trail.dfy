/** The `AuditTrail` entity and `AuditTrailRepository`: an append-only log of who did what,
    in which module, and its queries. Every entry belongs to an existing user. */
module AuditTrails {
  import opened Common
  import opened Time
  import opened Users
  import opened UserRepository

  /** One audit row; the user is held by id, and the row is stamped with the user's email. */
  datatype AuditEntry = AuditEntry(
    userId: nat,
    action: string,
    moduleName: string,
    description: string,
    ipAddress: Option<string>,
    userAgent: Option<string>,
    createdDate: LocalDateTime,
    updatedDate: LocalDateTime,
    createdBy: string,
    updatedBy: string)

  /** The `user_id` foreign key: every entry refers to a user of the table. */
  predicate RefersToUsers(trail: seq<AuditEntry>, users: seq<User>) {
    forall i :: 0 <= i < |trail| ==> FindById(users, trail[i].userId).Some?
  }

  /** `findByUserId(userId)`. */
  function FindByUserId(trail: seq<AuditEntry>, userId: nat): (r: seq<AuditEntry>)
    ensures forall i :: 0 <= i < |r| ==> r[i] in trail && r[i].userId == userId
    ensures forall i :: 0 <= i < |trail| && trail[i].userId == userId ==> trail[i] in r
  {
    Filter(trail, (a: AuditEntry) => a.userId == userId)
  }

  /** `findByModule(module)`. */
  function FindByModule(trail: seq<AuditEntry>, moduleName: string): (r: seq<AuditEntry>)
    ensures forall i :: 0 <= i < |r| ==> r[i] in trail && r[i].moduleName == moduleName
    ensures forall i :: 0 <= i < |trail| && trail[i].moduleName == moduleName ==> trail[i] in r
  {
    Filter(trail, (a: AuditEntry) => a.moduleName == moduleName)
  }

  /** `findByAction(action)`. */
  function FindByAction(trail: seq<AuditEntry>, action: string): (r: seq<AuditEntry>)
    ensures forall i :: 0 <= i < |r| ==> r[i] in trail && r[i].action == action
    ensures forall i :: 0 <= i < |trail| && trail[i].action == action ==> trail[i] in r
  {
    Filter(trail, (a: AuditEntry) => a.action == action)
  }

  /** `searchAuditTrails(userId, module, action)`: each given filter must hold; a NULL filter
      admits every entry. */
  predicate SearchMatches(a: AuditEntry, userId: Option<nat>, moduleName: Option<string>, action: Option<string>) {
    && (userId.None? || a.userId == userId.value)
    && (moduleName.None? || a.moduleName == moduleName.value)
    && (action.None? || a.action == action.value)
  }

  function SearchAuditTrails(trail: seq<AuditEntry>, userId: Option<nat>, moduleName: Option<string>, action: Option<string>)
    : (r: seq<AuditEntry>)
    ensures forall i :: 0 <= i < |r| ==> r[i] in trail && SearchMatches(r[i], userId, moduleName, action)
    ensures forall i :: 0 <= i < |trail| && SearchMatches(trail[i], userId, moduleName, action) ==> trail[i] in r
  {
    Filter(trail, (a: AuditEntry) => SearchMatches(a, userId, moduleName, action))
  }

  /** With every filter NULL the search is the whole trail; with one filter set it is the
      corresponding derived query. */
  lemma SearchWildcards(trail: seq<AuditEntry>, userId: nat, moduleName: string, action: string)
    ensures SearchAuditTrails(trail, None, None, None) == trail
    ensures SearchAuditTrails(trail, Some(userId), None, None) == FindByUserId(trail, userId)
    ensures SearchAuditTrails(trail, None, Some(moduleName), None) == FindByModule(trail, moduleName)
    ensures SearchAuditTrails(trail, None, None, Some(action)) == FindByAction(trail, action)
  {
    FilterAll(trail, (a: AuditEntry) => SearchMatches(a, None, None, None));
    FilterExtensional(trail, (a: AuditEntry) => SearchMatches(a, Some(userId), None, None), (a: AuditEntry) => a.userId == userId);
    FilterExtensional(trail, (a: AuditEntry) => SearchMatches(a, None, Some(moduleName), None), (a: AuditEntry) => a.moduleName == moduleName);
    FilterExtensional(trail, (a: AuditEntry) => SearchMatches(a, None, None, Some(action)), (a: AuditEntry) => a.action == action);
  }
}
