/** `UserRepository`: the user lookups and the user search, over the table of user objects.
    Every condition reads only fields that never change once a user exists (id, names, email
    and user name), so the lookups do not depend on the rest of the heap. */
module UserRepository {
  import opened Common
  import opened Text
  import opened Users

  /** `findById(id)`. */
  function FindById(users: seq<User>, id: nat): (r: Option<User>)
    ensures r.Some? ==> r.value in users && r.value.base.id == id
    ensures r.None? ==> forall i :: 0 <= i < |users| ==> users[i].base.id != id
    decreases |users|
  {
    if users == [] then None
    else if users[0].base.id == id then Some(users[0])
    else
      var rest := FindById(users[1..], id);
      assert forall i :: 1 <= i < |users| ==> users[i] == users[1..][i - 1];
      rest
  }

  /** `findByEmail(email)`. */
  function FindByEmail(users: seq<User>, email: string): (r: Option<User>)
    ensures r.Some? ==> r.value in users && r.value.email == email
    ensures r.None? ==> forall i :: 0 <= i < |users| ==> users[i].email != email
    decreases |users|
  {
    if users == [] then None
    else if users[0].email == email then Some(users[0])
    else
      var rest := FindByEmail(users[1..], email);
      assert forall i :: 1 <= i < |users| ==> users[i] == users[1..][i - 1];
      rest
  }

  /** `findByUserName(userName)`. */
  function FindByUserName(users: seq<User>, userName: string): (r: Option<User>)
    ensures r.Some? ==> r.value in users && r.value.userName == userName
    ensures r.None? ==> forall i :: 0 <= i < |users| ==> users[i].userName != userName
    decreases |users|
  {
    if users == [] then None
    else if users[0].userName == userName then Some(users[0])
    else
      var rest := FindByUserName(users[1..], userName);
      assert forall i :: 1 <= i < |users| ==> users[i] == users[1..][i - 1];
      rest
  }

  /** `existsByEmail(email)`. */
  predicate ExistsByEmail(users: seq<User>, email: string) {
    exists i :: 0 <= i < |users| && users[i].email == email
  }

  /** `existsByUserName(userName)`. */
  predicate ExistsByUserName(users: seq<User>, userName: string) {
    exists i :: 0 <= i < |users| && users[i].userName == userName
  }

  /** The existence checks and the lookups agree. */
  lemma ExistsIffFound(users: seq<User>, email: string, userName: string)
    ensures ExistsByEmail(users, email) <==> FindByEmail(users, email).Some?
    ensures ExistsByUserName(users, userName) <==> FindByUserName(users, userName).Some?
  {
    if FindByEmail(users, email).Some? {
      var k :| 0 <= k < |users| && users[k] == FindByEmail(users, email).value;
    }
    if FindByUserName(users, userName).Some? {
      var k :| 0 <= k < |users| && users[k] == FindByUserName(users, userName).value;
    }
  }

  /** The `email` column is unique. */
  predicate UniqueEmails(users: seq<User>) {
    forall i, j :: 0 <= i < j < |users| ==> users[i].email != users[j].email
  }

  /** Under the unique constraint the lookup by email finds the one user with that email. */
  lemma FindByEmailIsTheUser(users: seq<User>, k: nat)
    requires UniqueEmails(users) && k < |users|
    ensures FindByEmail(users, users[k].email) == Some(users[k])
  {
    var r := FindByEmail(users, users[k].email);
    var i :| 0 <= i < |users| && users[i] == r.value;
    if i != k {
      assert false;
    }
  }

  /** `searchUsers(search)`: the term occurs, ignoring case, in the first name, last name,
      email or user name. A NULL term matches nothing. */
  predicate SearchMatches(u: User, search: Option<string>) {
    && search.Some?
    && (|| LikeNullable(u.firstname, search.value)
        || LikeNullable(u.lastname, search.value)
        || LikeIgnoreCase(u.email, search.value)
        || LikeIgnoreCase(u.userName, search.value))
  }

  function SearchUsers(users: seq<User>, search: Option<string>): (r: seq<User>)
    ensures forall i :: 0 <= i < |r| ==> r[i] in users && SearchMatches(r[i], search)
    ensures forall i :: 0 <= i < |users| && SearchMatches(users[i], search) ==> users[i] in r
  {
    Filter(users, (u: User) => SearchMatches(u, search))
  }

  /** The empty term lists every user, and a user's own email finds that user. */
  lemma SearchFindsByOwnEmail(users: seq<User>, k: nat)
    requires k < |users|
    ensures SearchUsers(users, Some("")) == users
    ensures users[k] in SearchUsers(users, Some(users[k].email))
  {
    forall u: User ensures LikeIgnoreCase(u.email, "") {
      EmptyTermMatchesAll(u.email);
    }
    FilterAll(users, (u: User) => SearchMatches(u, Some("")));
    FieldMatchesItself(users[k].email);
  }
}
