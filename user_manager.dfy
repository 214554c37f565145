/**
 * `UserManager` from js-poor-class-design.js: an in-memory list of user
 * records, a map of login flags, linear-scan lookups and mutators.
 */
module UserManagement {
  import opened Wrappers

  datatype Status = Active | Disabled

  /** A user record; `createdAt` is the creation time, an opaque number here. */
  datatype User = User(id: int, name: string, email: string, role: string, createdAt: int, status: Status)

  /** The position of the first record with the given id, or None when there is none. */
  function IndexOfId(users: seq<User>, id: int): (r: Option<nat>)
    ensures r.Some? ==> r.value < |users| && users[r.value].id == id
    ensures r.Some? ==> forall k :: 0 <= k < r.value ==> users[k].id != id
    ensures r.None? <==> forall k :: 0 <= k < |users| ==> users[k].id != id
  {
    if users == [] then None
    else if users[0].id == id then Some(0)
    else
      match IndexOfId(users[1..], id)
      case None => None
      case Some(k) => Some(k + 1)
  }

  /** The position of the first record with the given email, or None when there is none. */
  function IndexOfEmail(users: seq<User>, email: string): (r: Option<nat>)
    ensures r.Some? ==> r.value < |users| && users[r.value].email == email
    ensures r.Some? ==> forall k :: 0 <= k < r.value ==> users[k].email != email
    ensures r.None? <==> forall k :: 0 <= k < |users| ==> users[k].email != email
  {
    if users == [] then None
    else if users[0].email == email then Some(0)
    else
      match IndexOfEmail(users[1..], email)
      case None => None
      case Some(k) => Some(k + 1)
  }

  /** The record at an optional position: `null` when there is no position. */
  function RecordAt(users: seq<User>, i: Option<nat>): Option<User>
    requires i.Some? ==> i.value < |users|
  {
    if i.Some? then Some(users[i.value]) else None
  }

  /** The list with the element at position `k` spliced out. */
  function RemoveAt<T>(s: seq<T>, k: nat): (r: seq<T>)
    requires k < |s|
    ensures |r| == |s| - 1
    ensures forall j :: 0 <= j < k ==> r[j] == s[j]
    ensures forall j :: k <= j < |r| ==> r[j] == s[j + 1]
  {
    s[..k] + s[k + 1..]
  }

  /** The distinct roles of the records, each once, in order of first appearance. */
  function DistinctRoles(users: seq<User>): (r: seq<string>)
    ensures forall i, j :: 0 <= i < j < |r| ==> r[i] != r[j]
    ensures forall x :: x in r <==> exists k :: 0 <= k < |users| && users[k].role == x
  {
    if users == [] then []
    else
      var init, last := users[..|users| - 1], users[|users| - 1];
      var roles := DistinctRoles(init);
      assert forall k :: 0 <= k < |init| ==> init[k] == users[k];
      if last.role in roles then roles else roles + [last.role]
  }

  /**
   * The roles found in a prefix of the list come first, in the same order:
   * a role is listed before every role that first appears after it.
   */
  lemma {:induction false} DistinctRolesPrefix(users: seq<User>, i: nat)
    requires i <= |users|
    ensures DistinctRoles(users[..i]) <= DistinctRoles(users)
  {
    if i < |users| {
      var init := users[..|users| - 1];
      assert users[..i] == init[..i];
      DistinctRolesPrefix(init, i);
    } else {
      assert users[..i] == users;
    }
  }

  class UserManager {
    var users: seq<User>
    var loggedIn: map<int, bool>

    /** The only flag value the object ever stores is `true`. */
    ghost predicate OnlyTrueFlags()
      reads this
    {
      forall k :: k in loggedIn ==> loggedIn[k]
    }

    constructor ()
      ensures users == [] && loggedIn == map[]
      ensures OnlyTrueFlags()
    {
      users := [];
      loggedIn := map[];
    }

    /** Appends a new active record; `now` stands for `new Date()`. */
    method AddUser(id: int, name: string, email: string, role: string, now: int) returns (u: User)
      modifies this
      ensures u == User(id, name, email, role, now, Active)
      ensures users == old(users) + [u]
      ensures loggedIn == old(loggedIn)
    {
      u := User(id, name, email, role, now, Active);
      users := users + [u];
    }

    /** The first record with the given id, or `null`. */
    method FindUserById(id: int) returns (r: Option<User>)
      ensures r == RecordAt(users, IndexOfId(users, id))
    {
      for i := 0 to |users|
        invariant forall k :: 0 <= k < i ==> users[k].id != id
      {
        if users[i].id == id {
          return Some(users[i]);
        }
      }
      return None;
    }

    /** The first record with the given email, or `null`. */
    method FindUserByEmail(email: string) returns (r: Option<User>)
      ensures r == RecordAt(users, IndexOfEmail(users, email))
    {
      for i := 0 to |users|
        invariant forall k :: 0 <= k < i ==> users[k].email != email
      {
        if users[i].email == email {
          return Some(users[i]);
        }
      }
      return None;
    }

    /**
     * `loggedIn[id] === true`. Since only `true` is ever stored, this agrees
     * with the truthiness test `logout` makes: an id is logged in exactly when
     * it has a flag.
     */
    predicate IsLoggedIn(id: int)
      reads this
      ensures OnlyTrueFlags() ==> (IsLoggedIn(id) <==> id in loggedIn)
    {
      id in loggedIn && loggedIn[id]
    }

    /** Succeeds exactly when a record with `id` exists and the password is the literal "password". */
    method Login(id: int, password: string) returns (ok: bool)
      modifies this
      ensures ok <==> IndexOfId(users, id).Some? && password == "password"
      ensures users == old(users)
      ensures loggedIn == if ok then old(loggedIn)[id := true] else old(loggedIn)
      ensures ok ==> IsLoggedIn(id)
      ensures old(OnlyTrueFlags()) ==> OnlyTrueFlags()
    {
      var user := FindUserById(id);
      if user.Some? && password == "password" {
        loggedIn := loggedIn[id := true];
        return true;
      }
      return false;
    }

    /** Succeeds exactly when `id` was logged in; removes only that entry. */
    method Logout(id: int) returns (ok: bool)
      modifies this
      ensures ok == old(IsLoggedIn(id))
      ensures users == old(users)
      ensures loggedIn == if ok then old(loggedIn) - {id} else old(loggedIn)
      ensures !IsLoggedIn(id)
      ensures old(OnlyTrueFlags()) ==> OnlyTrueFlags()
    {
      if id in loggedIn && loggedIn[id] {
        loggedIn := loggedIn - {id};
        return true;
      }
      return false;
    }

    /**
     * Removes the first record with `id`, keeping the order of the others.
     * The login flag of the removed user is left in place.
     */
    method DeleteUser(id: int) returns (ok: bool)
      modifies this
      ensures ok == IndexOfId(old(users), id).Some?
      ensures ok ==> users == RemoveAt(old(users), IndexOfId(old(users), id).value)
      ensures !ok ==> users == old(users)
      ensures loggedIn == old(loggedIn)
    {
      var user := FindUserById(id);
      if user.None? {
        return false;
      }
      ghost var first := IndexOfId(users, id).value;
      var i := 0;
      while users[i].id != id
        invariant 0 <= i <= first
        decreases first - i
      {
        i := i + 1;
      }
      users := users[..i] + users[i + 1..];
      return true;
    }

    /** The distinct roles, found with a nested scan of the roles collected so far. */
    method GetUserRoles() returns (roles: seq<string>)
      ensures roles == DistinctRoles(users)
    {
      roles := [];
      for i := 0 to |users|
        invariant roles == DistinctRoles(users[..i])
      {
        assert users[..i + 1][..i] == users[..i];
        var role := users[i].role;
        var found := false;
        for j := 0 to |roles|
          invariant !found ==> role !in roles[..j]
          invariant found ==> role in roles
        {
          if roles[j] == role {
            found := true;
            break;
          }
        }
        assert !found ==> roles[..|roles|] == roles;
        if !found {
          roles := roles + [role];
        }
      }
      assert users[..|users|] == users;
    }

    /** Sets every record's status to disabled; nothing else changes. */
    method DisableAllUsers()
      modifies this
      ensures |users| == |old(users)|
      ensures forall k :: 0 <= k < |users| ==> users[k] == old(users)[k].(status := Disabled)
      ensures loggedIn == old(loggedIn)
    {
      for i := 0 to |users|
        invariant |users| == |old(users)|
        invariant forall k :: 0 <= k < i ==> users[k] == old(users)[k].(status := Disabled)
        invariant forall k :: i <= k < |users| ==> users[k] == old(users)[k]
        invariant loggedIn == old(loggedIn)
      {
        users := users[i := users[i].(status := Disabled)];
      }
    }
  }

  /** The usage at the end of the file: two users, a lookup, a login and the role list. */
  method Usage(now: int) returns (found: Option<User>, loggedIn: bool, roles: seq<string>)
    ensures found == Some(User(1, "John", "john@example.com", "admin", now, Active))
    ensures loggedIn
    ensures roles == ["admin", "user"]
  {
    var manager := new UserManager();
    var _ := manager.AddUser(1, "John", "john@example.com", "admin", now);
    var _ := manager.AddUser(2, "Jane", "jane@example.com", "user", now);
    found := manager.FindUserById(1);
    var _ := manager.Login(1, "password");
    loggedIn := manager.IsLoggedIn(1);
    roles := manager.GetUserRoles();
    var u := manager.users;
    assert u[..1] == [u[0]];
    assert DistinctRoles(u[..1]) == ["admin"];
  }

  /** Deleting a logged-in user leaves the stale login flag behind. */
  method StaleLoginAfterDelete(now: int) returns (stillLoggedIn: bool, userGone: bool)
    ensures stillLoggedIn && userGone
  {
    var manager := new UserManager();
    var _ := manager.AddUser(7, "Ann", "ann@example.com", "user", now);
    var _ := manager.Login(7, "password");
    var deleted := manager.DeleteUser(7);
    stillLoggedIn := manager.IsLoggedIn(7);
    var lookup := manager.FindUserById(7);
    userGone := deleted && lookup.None?;
  }
}
