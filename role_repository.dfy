/** `RoleRepository`: the role queries as functions over the table's records. "Active" in
    these queries is the role's own `isActive` column, which soft deletion does not clear. */
module RoleRepository {
  import opened Common
  import opened Text
  import opened Roles

  /** `findByName(name)`: the role of that type, if any. A derived query compares a NULL
      argument with `IS NULL`, so `None` looks for a role without a type. */
  function FindByName(rs: seq<RoleRecord>, name: Option<RoleType>): (r: Option<RoleRecord>)
    ensures r.Some? ==> r.value in rs && r.value.name == name
    ensures r.None? ==> forall i :: 0 <= i < |rs| ==> rs[i].name != name
    decreases |rs|
  {
    if rs == [] then None
    else if rs[0].name == name then Some(rs[0])
    else
      var rest := FindByName(rs[1..], name);
      assert forall i :: 1 <= i < |rs| ==> rs[i] == rs[1..][i - 1];
      rest
  }

  /** `existsByName(name)`. */
  predicate ExistsByName(rs: seq<RoleRecord>, name: Option<RoleType>) {
    exists i :: 0 <= i < |rs| && rs[i].name == name
  }

  /** The existence check and the lookup agree, deleted roles included. */
  lemma ExistsIffFound(rs: seq<RoleRecord>, name: Option<RoleType>)
    ensures ExistsByName(rs, name) <==> FindByName(rs, name).Some?
  {
    if FindByName(rs, name).Some? {
      var k :| 0 <= k < |rs| && rs[k] == FindByName(rs, name).value;
    }
  }

  /** `findByIsActiveTrue()`: the flag only, so soft-deleted roles are listed. */
  function FindByIsActiveTrue(rs: seq<RoleRecord>): (r: seq<RoleRecord>)
    ensures forall i :: 0 <= i < |r| ==> r[i] in rs && r[i].isActive
    ensures forall i :: 0 <= i < |rs| && rs[i].isActive ==> rs[i] in r
  {
    Filter(rs, (x: RoleRecord) => x.isActive)
  }

  /** `findByIsDeletedFalse()`. */
  function FindByIsDeletedFalse(rs: seq<RoleRecord>): (r: seq<RoleRecord>)
    ensures forall i :: 0 <= i < |r| ==> r[i] in rs && !r[i].isDeleted
    ensures forall i :: 0 <= i < |rs| && !rs[i].isDeleted ==> rs[i] in r
  {
    Filter(rs, (x: RoleRecord) => !x.isDeleted)
  }

  /** `findAllActiveRoles()`: active and not deleted. */
  function FindAllActiveRoles(rs: seq<RoleRecord>): (r: seq<RoleRecord>)
    ensures forall i :: 0 <= i < |r| ==> r[i] in rs && r[i].isActive && !r[i].isDeleted
    ensures forall i :: 0 <= i < |rs| && rs[i].isActive && !rs[i].isDeleted ==> rs[i] in r
  {
    Filter(rs, (x: RoleRecord) => !x.isDeleted && x.isActive)
  }

  /** `findAllActiveRoles` is `findByIsActiveTrue` restricted to the roles not deleted; the
      two differ exactly on the roles that are deleted but still flagged active. */
  lemma ActiveRolesAreUndeletedActiveFlags(rs: seq<RoleRecord>)
    ensures FindAllActiveRoles(rs) == FindByIsActiveTrue(FindByIsDeletedFalse(rs))
  {
    FilterFilter(rs, (x: RoleRecord) => !x.isDeleted, (x: RoleRecord) => x.isActive, (x: RoleRecord) => !x.isDeleted && x.isActive);
  }

  /** `findSystemRoles()`, deleted ones included. */
  function FindSystemRoles(rs: seq<RoleRecord>): (r: seq<RoleRecord>)
    ensures forall i :: 0 <= i < |r| ==> r[i] in rs && r[i].isSystemRole
    ensures forall i :: 0 <= i < |rs| && rs[i].isSystemRole ==> rs[i] in r
  {
    Filter(rs, (x: RoleRecord) => x.isSystemRole)
  }

  /** `searchRoles(search)`: the term occurs, ignoring case, in the display name or the
      description; a NULL column never matches, and neither does a NULL term. */
  predicate SearchMatches(x: RoleRecord, search: Option<string>) {
    search.Some? && (LikeNullable(x.displayName, search.value) || LikeNullable(x.description, search.value))
  }

  function SearchRoles(rs: seq<RoleRecord>, search: Option<string>): (r: seq<RoleRecord>)
    ensures forall i :: 0 <= i < |r| ==> r[i] in rs && SearchMatches(r[i], search)
    ensures forall i :: 0 <= i < |rs| && SearchMatches(rs[i], search) ==> rs[i] in r
  {
    Filter(rs, (x: RoleRecord) => SearchMatches(x, search))
  }

  /** The empty term lists exactly the roles that have a display name or a description. */
  lemma EmptySearchNeedsSomeText(rs: seq<RoleRecord>, k: nat)
    requires k < |rs|
    ensures rs[k] in SearchRoles(rs, Some("")) <==> rs[k].displayName.Some? || rs[k].description.Some?
  {
    if rs[k].displayName.Some? {
      EmptyTermMatchesAll(rs[k].displayName.value);
    } else if rs[k].description.Some? {
      EmptyTermMatchesAll(rs[k].description.value);
    }
    if rs[k] in SearchRoles(rs, Some("")) {
      var r := SearchRoles(rs, Some(""));
      var j :| 0 <= j < |r| && r[j] == rs[k];
    }
  }
}
