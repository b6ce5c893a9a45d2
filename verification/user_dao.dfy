/**
 * The Room `users` table behind `UserDao`, as a keyed store. Every row lives
 * under its own primary key, so the table can never hold two rows for one id.
 */
module UserDao {
  import opened Wrappers
  import opened UserModel

  /** Every row is stored under its own `id`. */
  predicate WellKeyed(m: map<string, User>) {
    forall id :: id in m ==> m[id].id == id
  }

  /** The table: a map from primary key to row, keyed consistently. */
  type Store = m: map<string, User> | WellKeyed(m) witness map[]

  /** `getUserById`: the row stored under `id`, if any. */
  function GetUserById(s: Store, id: string): (r: Option<User>)
    ensures r.Some? <==> id in s
    ensures r.Some? ==> r.value == s[id] && r.value.id == id
  {
    if id in s then Some(s[id]) else None
  }

  /** `userExists`: whether a row is stored under `id`. */
  function UserExists(s: Store, id: string): (r: bool)
    ensures r <==> GetUserById(s, id).Some?
  {
    id in s
  }

  /** `insertUser`: insert, or replace the row with the same id. */
  function InsertUser(s: Store, u: User): (r: Store)
    ensures GetUserById(r, u.id) == Some(u)
    ensures forall id :: id != u.id ==> GetUserById(r, id) == GetUserById(s, id)
  {
    s[u.id := u]
  }

  /** `updateUser`: overwrite the row with `u`'s id; a missing row is left missing. */
  function UpdateUser(s: Store, u: User): (r: Store)
    ensures UserExists(r, u.id) <==> UserExists(s, u.id)
    ensures UserExists(s, u.id) ==> GetUserById(r, u.id) == Some(u)
    ensures !UserExists(s, u.id) ==> r == s
    ensures forall id :: id != u.id ==> GetUserById(r, id) == GetUserById(s, id)
  {
    if u.id in s then s[u.id := u] else s
  }

  /** `deleteUser`: remove the row whose primary key is `u.id`, whatever its other fields. */
  function DeleteUser(s: Store, u: User): (r: Store)
    ensures !UserExists(r, u.id)
    ensures forall id :: id != u.id ==> GetUserById(r, id) == GetUserById(s, id)
  {
    s - {u.id}
  }

  /** `deleteAllUsers`: remove every row. */
  function DeleteAllUsers(): (r: Store)
    ensures |r| == 0
    ensures forall id :: !UserExists(r, id)
  {
    map[]
  }

  /**
   * One snapshot of `getAllUsers`: every row exactly once, in an
   * unspecified order.
   */
  method GetAllUsers(s: Store) returns (users: seq<User>)
    ensures |users| == |s|
    ensures forall u :: u in users <==> u in s.Values
    ensures forall i, j :: 0 <= i < j < |users| ==> users[i].id != users[j].id
  {
    users := [];
    var rest := s.Keys;
    while rest != {}
      invariant rest <= s.Keys
      invariant |users| + |rest| == |s|
      invariant forall u :: u in users ==> u.id in s && s[u.id] == u && u.id !in rest
      invariant forall id :: id in s && id !in rest ==> s[id] in users
      invariant forall i, j :: 0 <= i < j < |users| ==> users[i].id != users[j].id
      decreases rest
    {
      var id :| id in rest;
      users := users + [s[id]];
      rest := rest - {id};
    }
  }

  /** Inserting the same row twice leaves the table as inserting it once. */
  lemma InsertIdempotent(s: Store, u: User)
    ensures InsertUser(InsertUser(s, u), u) == InsertUser(s, u)
  {
  }

  /** The primary key is unique: two rows with the same id are the same row. */
  lemma AtMostOneRowPerId(s: Store, a: User, b: User)
    requires a in s.Values && b in s.Values
    requires a.id == b.id
    ensures a == b
  {
    var ka :| ka in s && s[ka] == a;
    var kb :| kb in s && s[kb] == b;
  }

  /** After deleting all rows the listing is empty. */
  method DeleteAllThenList() returns (users: seq<User>)
    ensures users == []
  {
    var cleared := DeleteAllUsers();
    users := GetAllUsers(cleared);
  }
}
