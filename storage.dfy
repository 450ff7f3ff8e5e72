/**
 * The in-memory user store `MemStorage`: a map from id to user and a counter
 * that hands out the next id.  Ids are issued 1, 2, 3, … and never reused, so
 * the map's insertion order is ascending id order.
 */
module Storage {
  import opened Options

  datatype InsertUser = InsertUser(username: string, password: string)

  datatype User = User(id: int, username: string, password: string)

  /** The keys are exactly the ids issued so far, `1 .. currentId - 1`, and each user carries its key. */
  ghost predicate ValidTable(users: map<int, User>, currentId: int) {
    && currentId >= 1
    && (forall k :: k in users <==> 1 <= k < currentId)
    && (forall k :: k in users ==> users[k].id == k)
  }

  /** `users.get(id)`. */
  function Lookup(users: map<int, User>, id: int): Option<User> {
    if id in users then Some(users[id]) else None
  }

  /** The first user, scanning ids `lo .. hi - 1` in ascending order, with the given username. */
  function FindByUsername(users: map<int, User>, lo: int, hi: int, username: string): Option<User>
    decreases hi - lo
  {
    if lo >= hi then None
    else if lo in users && users[lo].username == username then Some(users[lo])
    else FindByUsername(users, lo + 1, hi, username)
  }

  /** The table after inserting a new user under the next id. */
  function Inserted(users: map<int, User>, currentId: int, insertUser: InsertUser): map<int, User> {
    users[currentId := User(currentId, insertUser.username, insertUser.password)]
  }

  class MemStorage {
    var users: map<int, User>
    var currentId: int

    ghost predicate Valid()
      reads this
    {
      ValidTable(users, currentId)
    }

    constructor()
      ensures Valid()
      ensures users == map[] && currentId == 1
    {
      users := map[];
      currentId := 1;
    }

    /** `getUser(id)`. */
    function GetUser(id: int): (r: Option<User>)
      reads this
      requires Valid()
      ensures r.Some? ==> r.value.id == id && 1 <= id < currentId
      ensures r.None? <==> !(1 <= id < currentId)
    {
      Lookup(users, id)
    }

    /**
     * `getUserByUsername(username)`: the first of the map's values, in insertion
     * (that is, ascending id) order, with that name.
     */
    method GetUserByUsername(username: string) returns (r: Option<User>)
      requires Valid()
      ensures r == FindByUsername(users, 1, currentId, username)
      ensures r.Some? ==> r.value.username == username && Lookup(users, r.value.id) == r
      ensures r.None? <==> forall k :: k in users ==> users[k].username != username
    {
      FindByUsernameSound(users, 1, currentId, username);
      var id := 1;
      while id < currentId
        invariant 1 <= id <= currentId
        invariant FindByUsername(users, 1, currentId, username) == FindByUsername(users, id, currentId, username)
      {
        if users[id].username == username {
          return Some(users[id]);
        }
        id := id + 1;
      }
      return None;
    }

    /** `createUser(insertUser)`: the new user gets the current counter value as its id. */
    method CreateUser(insertUser: InsertUser) returns (user: User)
      modifies this
      requires Valid()
      ensures Valid()
      ensures user == User(old(currentId), insertUser.username, insertUser.password)
      ensures currentId == old(currentId) + 1
      ensures users == Inserted(old(users), old(currentId), insertUser)
    {
      var id := currentId;
      currentId := currentId + 1;
      user := User(id, insertUser.username, insertUser.password);
      users := users[id := user];
      InsertKeepsValid(old(users), id, insertUser);
    }
  }

  /** The search returns the user with the smallest id in range that has the name, or nothing if none has it. */
  lemma {:induction false} FindByUsernameSound(users: map<int, User>, lo: int, hi: int, username: string)
    requires (forall k :: k in users ==> users[k].id == k)
    decreases hi - lo
    ensures FindByUsername(users, lo, hi, username).Some? ==>
      var u := FindByUsername(users, lo, hi, username).value;
      lo <= u.id < hi && u.id in users && users[u.id] == u && u.username == username &&
      (forall k :: lo <= k < u.id && k in users ==> users[k].username != username)
    ensures FindByUsername(users, lo, hi, username).None? <==>
      (forall k :: lo <= k < hi && k in users ==> users[k].username != username)
  {
    if lo < hi {
      FindByUsernameSound(users, lo + 1, hi, username);
    }
  }

  /** A valid table never holds the next id, and inserting under it keeps the table valid. */
  lemma InsertKeepsValid(users: map<int, User>, currentId: int, insertUser: InsertUser)
    requires ValidTable(users, currentId)
    ensures currentId !in users
    ensures ValidTable(Inserted(users, currentId, insertUser), currentId + 1)
  {
  }

  /** After an insertion the new user is found under its id and every other id reads as before. */
  lemma InsertThenLookup(users: map<int, User>, currentId: int, insertUser: InsertUser, id: int)
    requires ValidTable(users, currentId)
    ensures Lookup(Inserted(users, currentId, insertUser), currentId) ==
      Some(User(currentId, insertUser.username, insertUser.password))
    ensures id != currentId ==> Lookup(Inserted(users, currentId, insertUser), id) == Lookup(users, id)
  {
  }

  /**
   * Creating a user whose name is already taken stores a second user; lookup by
   * name keeps returning the earlier one.
   */
  lemma DuplicateUsernameShadowed(users: map<int, User>, currentId: int, insertUser: InsertUser)
    requires ValidTable(users, currentId)
    requires FindByUsername(users, 1, currentId, insertUser.username).Some?
    ensures var after := Inserted(users, currentId, insertUser);
      && |after.Keys| == |users.Keys| + 1
      && FindByUsername(after, 1, currentId + 1, insertUser.username) ==
         FindByUsername(users, 1, currentId, insertUser.username)
  {
    var after := Inserted(users, currentId, insertUser);
    assert after.Keys == users.Keys + {currentId};
    FindExtend(users, after, 1, currentId, insertUser.username);
  }

  /** A new name is found at the new id. */
  lemma NewUsernameFound(users: map<int, User>, currentId: int, insertUser: InsertUser)
    requires ValidTable(users, currentId)
    requires FindByUsername(users, 1, currentId, insertUser.username).None?
    ensures FindByUsername(Inserted(users, currentId, insertUser), 1, currentId + 1, insertUser.username) ==
      Some(User(currentId, insertUser.username, insertUser.password))
  {
    var after := Inserted(users, currentId, insertUser);
    FindExtend(users, after, 1, currentId, insertUser.username);
  }

  /** Extending the range by the newly inserted id only matters when nothing earlier matched. */
  lemma {:induction false} FindExtend(users: map<int, User>, after: map<int, User>, lo: int, hi: int, username: string)
    requires lo <= hi
    requires hi in after
    requires (forall k :: k < hi ==> (k in after <==> k in users) && (k in users ==> after[k] == users[k]))
    decreases hi - lo
    ensures FindByUsername(after, lo, hi + 1, username) ==
      (if FindByUsername(users, lo, hi, username).Some? then FindByUsername(users, lo, hi, username)
       else if after[hi].username == username then Some(after[hi]) else None)
  {
    if lo < hi {
      FindExtend(users, after, lo + 1, hi, username);
    }
  }
}
