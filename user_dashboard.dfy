/**
 * The view-state logic of the `UserDashboard` React component: the search
 * filter and sort of the user table, the sort-header toggle, the detail
 * modal, the add-user form, deletion and pagination. `setState` is an
 * immediate assignment, and the re-filtering that `componentDidUpdate` or a
 * `setState` callback triggers is an explicit call of `FilterAndSortUsers`.
 */
module Dashboard {
  import opened Wrappers
  import opened Sequences

  /** A row of the user table; `lastLogin` is the login date as a day number. */
  datatype DashUser = DashUser(id: int, name: string, email: string, role: string, lastLogin: int)

  datatype Direction = Asc | Desc

  /** The add-user form's draft, `newUserData`. */
  datatype Draft = Draft(name: string, email: string, role: string)

  /** The `name` attributes of the form's three inputs. */
  datatype DraftField = NameField | EmailField | RoleField

  const EmptyDraft := Draft("", "", "user")

  /** The choices of the page-size select. */
  const PageSizeOptions: seq<int> := [5, 10, 25, 50]

  // ---------------------------------------------------------------------------
  // Search
  // ---------------------------------------------------------------------------

  function LowerChar(c: char): char {
    if 'A' <= c <= 'Z' then (c as int + 32) as char else c
  }

  /** `toLowerCase`, on the ASCII letters. */
  function ToLower(s: string): (r: string)
    ensures |r| == |s|
  {
    MapSeq(s, LowerChar)
  }

  /** `s.includes(t)`: `t` occurs in `s` at some position. */
  predicate Includes(s: string, t: string)
    decreases |s|
  {
    t <= s || (s != [] && Includes(s[1..], t))
  }

  /** The search predicate: the term occurs, ignoring case, in the name, the e-mail or the role. */
  predicate Matches(u: DashUser, term: string) {
    var t := ToLower(term);
    Includes(ToLower(u.name), t) || Includes(ToLower(u.email), t) || Includes(ToLower(u.role), t)
  }

  /** The filter callback of the search. */
  function MatchesTerm(term: string): DashUser -> bool {
    u => Matches(u, term)
  }

  /** The users the search keeps: all of them for the (falsy) empty term, else the matching ones. */
  function Searched(users: seq<DashUser>, term: string): (r: seq<DashUser>)
    ensures |r| <= |users|
  {
    if term == "" then users else Filter(users, MatchesTerm(term))
  }

  /** A user survives the search exactly when it is one of the users and the term is empty or matches it. */
  lemma SearchedMembers(users: seq<DashUser>, term: string, u: DashUser)
    ensures u in Searched(users, term) <==> u in users && (term == "" || Matches(u, term))
  {
    if term != "" {
      FilterMembers(users, MatchesTerm(term), u);
    }
  }

  /** The search keeps the relative order of the users: it distributes over concatenation. */
  lemma SearchedAppend(xs: seq<DashUser>, ys: seq<DashUser>, term: string)
    ensures Searched(xs + ys, term) == Searched(xs, term) + Searched(ys, term)
  {
    if term != "" {
      FilterAppend(xs, ys, MatchesTerm(term));
    }
  }

  // ---------------------------------------------------------------------------
  // Sort
  // ---------------------------------------------------------------------------

  /**
   * The order of the characters' code points in two strings, as -1, 0 or 1
   * (`localeCompare` without the locale's collation rules).
   */
  function StringCompare(a: string, b: string): (c: int)
    ensures -1 <= c <= 1
    ensures c == 0 <==> a == b
  {
    if a == [] && b == [] then 0
    else if a == [] then -1
    else if b == [] then 1
    else if a[0] < b[0] then -1
    else if a[0] > b[0] then 1
    else
      var c := StringCompare(a[1..], b[1..]);
      assert c == 0 ==> a == [a[0]] + a[1..] == [b[0]] + b[1..] == b;
      c
  }

  /** Swapping the operands negates the comparison. */
  lemma {:induction false} StringCompareAntisymmetric(a: string, b: string)
    ensures StringCompare(a, b) == -StringCompare(b, a)
  {
    if a != [] && b != [] && a[0] == b[0] {
      StringCompareAntisymmetric(a[1..], b[1..]);
    }
  }

  /** "Not after" is transitive. */
  lemma {:induction false} StringCompareTransitive(a: string, b: string, c: string)
    requires StringCompare(a, b) <= 0 && StringCompare(b, c) <= 0
    ensures StringCompare(a, c) <= 0
  {
    if a != [] && b != [] && c != [] && a[0] == b[0] && b[0] == c[0] {
      StringCompareTransitive(a[1..], b[1..], c[1..]);
    }
  }

  /** The sort comparator before the direction is applied: by the chosen column; 0 for an unknown one. */
  function Compare(a: DashUser, b: DashUser, sortBy: string): int {
    if sortBy == "name" then StringCompare(a.name, b.name)
    else if sortBy == "email" then StringCompare(a.email, b.email)
    else if sortBy == "role" then StringCompare(a.role, b.role)
    else if sortBy == "lastLogin" then a.lastLogin - b.lastLogin
    else 0
  }

  /** `sortDirection === 'asc' ? comparison : -comparison` */
  function Directed(comparison: int, dir: Direction): int {
    if dir == Asc then comparison else -comparison
  }

  /** The order the comparator induces: `a` may precede `b` when the directed comparison is not positive. */
  function Before(sortBy: string, dir: Direction): (DashUser, DashUser) -> bool {
    (a, b) => Directed(Compare(a, b, sortBy), dir) <= 0
  }

  lemma CompareAntisymmetric(a: DashUser, b: DashUser, sortBy: string)
    ensures Compare(a, b, sortBy) == -Compare(b, a, sortBy)
  {
    StringCompareAntisymmetric(a.name, b.name);
    StringCompareAntisymmetric(a.email, b.email);
    StringCompareAntisymmetric(a.role, b.role);
  }

  lemma CompareTransitive(a: DashUser, b: DashUser, c: DashUser, sortBy: string)
    requires Compare(a, b, sortBy) <= 0 && Compare(b, c, sortBy) <= 0
    ensures Compare(a, c, sortBy) <= 0
  {
    if sortBy == "name" {
      StringCompareTransitive(a.name, b.name, c.name);
    } else if sortBy == "email" {
      StringCompareTransitive(a.email, b.email, c.email);
    } else if sortBy == "role" {
      StringCompareTransitive(a.role, b.role, c.role);
    }
  }

  /** Whatever the column and direction, the comparator is consistent: a total preorder. */
  lemma BeforeIsTotalPreorder(sortBy: string, dir: Direction)
    ensures TotalPreorder(Before(sortBy, dir))
  {
    var leq := Before(sortBy, dir);
    forall a, b ensures leq(a, b) || leq(b, a) {
      CompareAntisymmetric(a, b, sortBy);
    }
    forall a, b, c | leq(a, b) && leq(b, c) ensures leq(a, c) {
      if dir == Asc {
        CompareTransitive(a, b, c, sortBy);
      } else {
        CompareAntisymmetric(a, b, sortBy);
        CompareAntisymmetric(b, c, sortBy);
        CompareAntisymmetric(a, c, sortBy);
        CompareTransitive(c, b, a, sortBy);
      }
    }
  }

  /** What `filterAndSortUsers` stores in `filteredUsers`. */
  function FilterAndSort(users: seq<DashUser>, term: string, sortBy: string, dir: Direction): seq<DashUser> {
    SortBy(Searched(users, term), Before(sortBy, dir))
  }

  /**
   * The table shows exactly the users the search keeps, each as often as in
   * `users`, ordered by the chosen column in the chosen direction.
   */
  lemma FilterAndSortCorrect(users: seq<DashUser>, term: string, sortBy: string, dir: Direction)
    ensures multiset(FilterAndSort(users, term, sortBy, dir)) == multiset(Searched(users, term))
    ensures Sorted(FilterAndSort(users, term, sortBy, dir), Before(sortBy, dir))
    ensures term == "" ==> multiset(FilterAndSort(users, term, sortBy, dir)) == multiset(users)
  {
    BeforeIsTotalPreorder(sortBy, dir);
    SortBySorted(Searched(users, term), Before(sortBy, dir));
  }

  /** A user is in the table exactly when it is one of the users and the search keeps it. */
  lemma FilterAndSortMembers(users: seq<DashUser>, term: string, sortBy: string, dir: Direction, u: DashUser)
    ensures u in FilterAndSort(users, term, sortBy, dir) <==> u in users && (term == "" || Matches(u, term))
  {
    var s := Searched(users, term);
    assert u in SortBy(s, Before(sortBy, dir)) <==> u in multiset(SortBy(s, Before(sortBy, dir)));
    SearchedMembers(users, term, u);
  }

  /** Reversing the direction reverses the comparator. */
  lemma DescendingIsReversed(a: DashUser, b: DashUser, sortBy: string)
    ensures Before(sortBy, Desc)(a, b) == Before(sortBy, Asc)(b, a)
  {
    CompareAntisymmetric(a, b, sortBy);
  }

  /** `handleSortChange(field)`: the same column flips the direction, a new column sorts ascending. */
  function NextSort(sortBy: string, dir: Direction, field: string): (r: (string, Direction))
    ensures r.0 == field
    ensures r != (sortBy, dir)
  {
    if sortBy == field then (sortBy, if dir == Asc then Desc else Asc) else (field, Asc)
  }

  /** Clicking the same header twice restores the direction. */
  lemma SortClickTwice(sortBy: string, dir: Direction, field: string)
    requires sortBy == field
    ensures var once := NextSort(sortBy, dir, field);
            NextSort(once.0, once.1, field) == (sortBy, dir)
  {
  }

  /** Clicking a header different from the current one sorts by it ascending, whatever the direction was. */
  lemma SortClickNewColumn(sortBy: string, dir: Direction, field: string)
    requires sortBy != field
    ensures NextSort(sortBy, dir, field) == (field, Asc)
  {
  }

  // ---------------------------------------------------------------------------
  // The add-user form and deletion
  // ---------------------------------------------------------------------------

  function DraftValue(d: Draft, field: DraftField): string {
    match field
    case NameField => d.name
    case EmailField => d.email
    case RoleField => d.role
  }

  /** `{ ...newUserData, [name]: value }` */
  function WithField(d: Draft, field: DraftField, value: string): (r: Draft)
    ensures DraftValue(r, field) == value
    ensures forall f :: f != field ==> DraftValue(r, f) == DraftValue(d, f)
  {
    match field
    case NameField => d.(name := value)
    case EmailField => d.(email := value)
    case RoleField => d.(role := value)
  }

  /** The user `handleAddUserSubmit` appends: the next id by count, the draft's fields and today's date. */
  function NewUser(users: seq<DashUser>, draft: Draft, today: int): (u: DashUser)
    ensures u.id == |users| + 1
    ensures u.name == draft.name && u.email == draft.email && u.role == draft.role && u.lastLogin == today
  {
    DashUser(|users| + 1, draft.name, draft.email, draft.role, today)
  }

  /** `user => user.id !== userId` */
  function OtherId(id: int): DashUser -> bool {
    (u: DashUser) => u.id != id
  }

  /** `users.filter(user => user.id !== userId)` */
  function WithoutId(users: seq<DashUser>, id: int): (r: seq<DashUser>)
    ensures |r| <= |users|
  {
    Filter(users, OtherId(id))
  }

  /** Deleting removes every user with the id and keeps every other one. */
  lemma WithoutIdMembers(users: seq<DashUser>, id: int, u: DashUser)
    ensures u in WithoutId(users, id) <==> u in users && u.id != id
  {
    FilterMembers(users, OtherId(id), u);
  }

  /** Deleting keeps the order of the remaining users: it distributes over concatenation. */
  lemma WithoutIdAppend(xs: seq<DashUser>, ys: seq<DashUser>, id: int)
    ensures WithoutId(xs + ys, id) == WithoutId(xs, id) + WithoutId(ys, id)
  {
    FilterAppend(xs, ys, OtherId(id));
  }

  /** Deleting an id no user has changes nothing. */
  lemma {:induction false} WithoutAbsentId(users: seq<DashUser>, id: int)
    requires forall i :: 0 <= i < |users| ==> users[i].id != id
    ensures WithoutId(users, id) == users
  {
    if users != [] {
      WithoutAbsentId(users[1..], id);
      assert users == [users[0]] + users[1..];
    }
  }

  /** The added user is in the table after the submit exactly when the search term lets it through. */
  lemma AddedUserShown(users: seq<DashUser>, draft: Draft, today: int, term: string, sortBy: string, dir: Direction)
    ensures var u := NewUser(users, draft, today);
            u in FilterAndSort(users + [u], term, sortBy, dir) <==> term == "" || Matches(u, term)
  {
    var u := NewUser(users, draft, today);
    FilterAndSortMembers(users + [u], term, sortBy, dir, u);
  }

  // ---------------------------------------------------------------------------
  // Pagination
  // ---------------------------------------------------------------------------

  /** The rows `renderUserTable` shows: `slice((page - 1) * size, (page - 1) * size + size)`. */
  function PageSlice(list: seq<DashUser>, page: int, size: int): (r: seq<DashUser>)
    ensures |r| <= |list|
  {
    var start := (page - 1) * size;
    JsSlice(list, start, start + size)
  }

  /** `Math.ceil(count / size)`: exactly enough pages of `size` rows to hold `count` rows. */
  function TotalPages(count: nat, size: int): (n: nat)
    requires size > 0
    ensures n * size >= count
    ensures count > 0 ==> (n - 1) * size < count
    ensures count == 0 <==> n == 0
  {
    CeilingDivision(count, size);
    (count + size - 1) / size
  }

  /** Rounding up by adding `size - 1` before dividing. */
  lemma CeilingDivision(count: nat, size: int)
    requires size > 0
    ensures var n := (count + size - 1) / size;
            n >= 0 && n * size >= count && (count > 0 ==> (n - 1) * size < count) && (count == 0 <==> n == 0)
  {
    var n := (count + size - 1) / size;
    var r := (count + size - 1) % size;
    assert count + size - 1 == n * size + r && 0 <= r < size;
  }

  /** A page of a listed page number holds exactly the rows from `(page - 1) * size` on, at most `size` of them. */
  lemma PageSliceRows(list: seq<DashUser>, page: int, size: int)
    requires size > 0 && page >= 1
    ensures var start := (page - 1) * size;
            PageSlice(list, page, size)
              == if start >= |list| then [] else list[start..if start + size < |list| then start + size else |list|]
    ensures |PageSlice(list, page, size)| <= size
  {
    var start := (page - 1) * size;
    MulMonotonic(0, page - 1, size);
    assert ClampIndex(start, |list|) == if start < |list| then start else |list|;
    assert ClampIndex(start + size, |list|) == if start + size < |list| then start + size else |list|;
  }

  /** Multiplying by a non-negative number keeps the order. */
  lemma MulMonotonic(a: int, b: int, c: int)
    requires a <= b && c >= 0
    ensures a * c <= b * c
  {
    assert b * c - a * c == (b - a) * c;
  }

  /** The pages from 1 to the last are non-empty, and pages past the last are empty. */
  lemma PagesInRange(list: seq<DashUser>, page: int, size: int)
    requires size > 0 && page >= 1
    ensures PageSlice(list, page, size) != [] <==> page <= TotalPages(|list|, size)
  {
    PageSliceRows(list, page, size);
    var n := TotalPages(|list|, size);
    if page <= n {
      MulMonotonic(page - 1, n - 1, size);
    } else {
      MulMonotonic(n, page - 1, size);
    }
  }

  /** The "Next" button as written: disabled only on the page equal to the page count. */
  predicate NextDisabled(currentPage: int, totalPages: int)
    ensures totalPages == 0 ==> (NextDisabled(currentPage, totalPages) <==> currentPage == 0)
  {
    currentPage == totalPages
  }

  /** The "Next" button as intended: disabled from the last page on. */
  predicate NextDisabledIntended(currentPage: int, totalPages: int)
    ensures NextDisabledIntended(currentPage, totalPages) <==> NextDisabled(currentPage, totalPages) || currentPage > totalPages
  {
    currentPage >= totalPages
  }

  /**
   * With the guard as written, an empty table (0 pages) leaves "Next"
   * enabled on page 1, and following it leads to an empty page 2.
   */
  lemma NextEnabledOnEmptyTable(size: int)
    requires size > 0
    ensures !NextDisabled(1, TotalPages(0, size))
    ensures PageSlice([], 2, size) == []
  {
  }

  /**
   * With the guard as written, a page past the end (the search narrowed the
   * table without resetting the page) keeps "Next" enabled, and the next page
   * is empty too.
   */
  lemma NextEnabledPastEnd(list: seq<DashUser>, page: int, size: int)
    requires size > 0 && page > TotalPages(|list|, size) && page >= 1
    ensures !NextDisabled(page, TotalPages(|list|, size))
    ensures PageSlice(list, page + 1, size) == []
  {
    PagesInRange(list, page + 1, size);
  }

  /** With the intended guard, an enabled "Next" always leads to a non-empty page. */
  lemma IntendedNextShowsRows(list: seq<DashUser>, page: int, size: int)
    requires size > 0 && page >= 1
    requires !NextDisabledIntended(page, TotalPages(|list|, size))
    ensures PageSlice(list, page + 1, size) != []
  {
    PagesInRange(list, page + 1, size);
  }

  // ---------------------------------------------------------------------------
  // The component
  // ---------------------------------------------------------------------------

  /** The state the handlers set besides the two user lists. */
  datatype Settings = Settings(
    searchTerm: string, sortBy: string, sortDirection: Direction,
    selectedUser: Option<DashUser>, showUserModal: bool,
    newUserData: Draft, showAddUserForm: bool,
    pageSize: int, currentPage: int)

  class UserDashboard {
    var users: seq<DashUser>
    var filteredUsers: seq<DashUser>
    var searchTerm: string
    var sortBy: string
    var sortDirection: Direction
    var selectedUser: Option<DashUser>
    var showUserModal: bool
    var newUserData: Draft
    var showAddUserForm: bool
    var pageSize: int
    var currentPage: int

    function Current(): Settings
      reads this
    {
      Settings(searchTerm, sortBy, sortDirection, selectedUser, showUserModal,
               newUserData, showAddUserForm, pageSize, currentPage)
    }

    /** The page size is always one of the select's choices. */
    ghost predicate Valid()
      reads this
    {
      pageSize in PageSizeOptions
    }

    /** The initial state. */
    constructor()
      ensures Valid()
      ensures users == [] && filteredUsers == []
      ensures Current() == Settings("", "name", Asc, None, false, EmptyDraft, false, 10, 1)
    {
      users, filteredUsers := [], [];
      searchTerm, sortBy, sortDirection := "", "name", Asc;
      selectedUser, showUserModal := None, false;
      newUserData, showAddUserForm := EmptyDraft, false;
      pageSize, currentPage := 10, 1;
    }

    /** `renderUserModal` shows the modal only when it is open and a user is selected. */
    predicate ModalVisible()
      reads this
      ensures ModalVisible() ==> selectedUser.Some?
    {
      showUserModal && selectedUser.Some?
    }

    /** The rows of the current page. */
    function VisibleRows(): (r: seq<DashUser>)
      reads this
      requires Valid()
      ensures |r| <= pageSize
    {
      PageSliceRows(filteredUsers, if currentPage >= 1 then currentPage else 1, pageSize);
      assert pageSize > 0;
      var r := PageSlice(filteredUsers, currentPage, pageSize);
      assert currentPage < 1 ==> |r| <= pageSize by {
        var start := (currentPage - 1) * pageSize;
        if currentPage < 1 {
          assert start + pageSize <= 0;
        }
      }
      r
    }

    /**
     * `filterAndSortUsers`: search, then sort in place. With an empty term
     * the array sorted is `users` itself, so `users` takes the sorted order too.
     */
    method FilterAndSortUsers()
      modifies this
      ensures filteredUsers == FilterAndSort(old(users), searchTerm, sortBy, sortDirection)
      ensures users == if searchTerm == "" then filteredUsers else old(users)
      ensures Current() == old(Current())
    {
      var filtered := Searched(users, searchTerm);
      filtered := SortBy(filtered, Before(sortBy, sortDirection));
      if searchTerm == "" {
        users := filtered;
      }
      filteredUsers := filtered;
    }

    /** `handleSearchChange`; the table is recomputed only when the term changes. */
    method HandleSearchChange(value: string)
      modifies this
      ensures searchTerm == value
      ensures value != old(searchTerm) ==> filteredUsers == FilterAndSort(old(users), value, sortBy, sortDirection)
      ensures value != old(searchTerm) ==> users == if value == "" then filteredUsers else old(users)
      ensures value == old(searchTerm) ==> users == old(users) && filteredUsers == old(filteredUsers)
      ensures Current() == old(Current()).(searchTerm := value)
    {
      var changed := value != searchTerm;
      searchTerm := value;
      if changed {
        FilterAndSortUsers();
      }
    }

    /** `handleSortChange(field)`, followed by the refresh the changed sort settings trigger. */
    method HandleSortChange(field: string)
      modifies this
      ensures (sortBy, sortDirection) == NextSort(old(sortBy), old(sortDirection), field)
      ensures filteredUsers == FilterAndSort(old(users), searchTerm, sortBy, sortDirection)
      ensures users == if searchTerm == "" then filteredUsers else old(users)
      ensures Current() == old(Current()).(sortBy := sortBy, sortDirection := sortDirection)
    {
      var next := NextSort(sortBy, sortDirection, field);
      sortBy, sortDirection := next.0, next.1;
      FilterAndSortUsers();
    }

    /** `handleUserSelect`: opens the modal on the user. */
    method HandleUserSelect(user: DashUser)
      modifies this
      ensures ModalVisible() && selectedUser == Some(user)
      ensures users == old(users) && filteredUsers == old(filteredUsers)
      ensures Current() == old(Current()).(selectedUser := Some(user), showUserModal := true)
    {
      selectedUser, showUserModal := Some(user), true;
    }

    /** `handleUserModalClose`: closes the modal and forgets the user. */
    method HandleUserModalClose()
      modifies this
      ensures !ModalVisible() && selectedUser == None
      ensures users == old(users) && filteredUsers == old(filteredUsers)
      ensures Current() == old(Current()).(selectedUser := None, showUserModal := false)
    {
      selectedUser, showUserModal := None, false;
    }

    /** `handleAddUserClick`: shows the form. */
    method HandleAddUserClick()
      modifies this
      ensures users == old(users) && filteredUsers == old(filteredUsers)
      ensures Current() == old(Current()).(showAddUserForm := true)
    {
      showAddUserForm := true;
    }

    /** `handleNewUserChange`: one input of the form changed. */
    method HandleNewUserChange(field: DraftField, value: string)
      modifies this
      ensures DraftValue(newUserData, field) == value
      ensures forall f :: f != field ==> DraftValue(newUserData, f) == DraftValue(old(newUserData), f)
      ensures users == old(users) && filteredUsers == old(filteredUsers)
      ensures Current() == old(Current()).(newUserData := WithField(old(newUserData), field, value))
    {
      newUserData := WithField(newUserData, field, value);
    }

    /** `handleAddUserSubmit`: appends the draft as a new user, resets and hides the form, refreshes the table. */
    method HandleAddUserSubmit(today: int)
      modifies this
      ensures var added := old(users) + [NewUser(old(users), old(newUserData), today)];
              filteredUsers == FilterAndSort(added, searchTerm, sortBy, sortDirection)
              && users == (if searchTerm == "" then filteredUsers else added)
      ensures Current() == old(Current()).(newUserData := EmptyDraft, showAddUserForm := false)
    {
      var newUser := DashUser(|users| + 1, newUserData.name, newUserData.email, newUserData.role, today);
      users := users + [newUser];
      showAddUserForm := false;
      newUserData := EmptyDraft;
      FilterAndSortUsers();
    }

    /** `handlePageChange` */
    method HandlePageChange(page: int)
      modifies this
      ensures users == old(users) && filteredUsers == old(filteredUsers)
      ensures Current() == old(Current()).(currentPage := page)
    {
      currentPage := page;
    }

    /** `handlePageSizeChange`: a choice of the select; back to the first page. */
    method HandlePageSizeChange(size: int)
      requires size in PageSizeOptions
      modifies this
      ensures Valid()
      ensures users == old(users) && filteredUsers == old(filteredUsers)
      ensures Current() == old(Current()).(pageSize := size, currentPage := 1)
    {
      pageSize, currentPage := size, 1;
    }

    /** `deleteUser`: drops every user with the id, then refreshes the table. */
    method DeleteUser(userId: int)
      modifies this
      ensures filteredUsers == FilterAndSort(WithoutId(old(users), userId), searchTerm, sortBy, sortDirection)
      ensures users == if searchTerm == "" then filteredUsers else WithoutId(old(users), userId)
      ensures Current() == old(Current())
    {
      users := Filter(users, OtherId(userId));
      FilterAndSortUsers();
    }
  }
}
