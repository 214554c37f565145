# JavaScript refactoring examples, modelled in Dafny

The repository is a set of small JavaScript teaching snippets. Four of them hold
deterministic sequential logic, and this project models each one on its own:

- `UserManager` (js-poor-class-design.js). It keeps an in-memory list of user records and a
  map of login flags. It offers linear-scan lookups, append, delete of the first match,
  login/logout, role de-duplication and a bulk status update. Model: the class
  `UserManagement.UserManager` (user_manager.dfy). The list and the map are `seq` and `map`
  fields that its methods reassign, and the loops stay loops.
- `DataProcessor` (js-to-ts-candidate.js), over the `Json` datatype of JavaScript values
  (data_processor.dfy). It has three operations:
  - `process`: a filter, map, optional sort and optional limit pipeline, stated as a function;
  - `extractValues`: a dotted-path reader, a loop proved against the function `Extracted`;
  - `merge`: a recursive structural merge. It is a recursive method whose `for...in` loop
    assigns into the result map, proved against the function `MergeSpec`.
- `doStuff` (js-complex-function.js). A branchy accumulation over a list of numbers and
  strings. The method `ComplexFunction.DoStuff` keeps the source's loops and is proved equal
  to a closed form, `DoStuffResult` (complex_function.dfy).
- The view-state logic of the React component `UserDashboard` (react-component-refactor.js):
  search, sort, the sort-header toggle, the detail modal, the add-user form, deletion and
  pagination. Model: the class `Dashboard.UserDashboard` plus pure view functions
  (user_dashboard.dfy).
  - `setState` is an immediate field assignment.
  - The re-filtering that `componentDidUpdate` or a `setState` callback triggers is an
    explicit call of `FilterAndSortUsers` at the end of the handler.

Supporting modules:
- sequences.dfy models the runtime's array operations: `filter`, `map`, `slice` with negative
  bounds, and the stable `sort`.
- decimal.dfy models decimal numerals: `String(n)`, array index keys and the digit scan of
  `parseInt`.
- wrappers.dfy holds `Option`.

## Model

| member | source | states |
|---|---|---|
| UserManagement.UserManager.constructor | js-poor-class-design.js:5-8 | A new manager has no users and no login flags, so every stored flag is `true`. |
| UserManagement.UserManager.AddUser | js-poor-class-design.js:11-24 | Exactly one record is appended at the end: the given id, name, email and role, the creation time, status active. It is also returned. Earlier records and the login flags are unchanged. |
| UserManagement.IndexOfId | js-poor-class-design.js:26-33 | The position found holds the id and no earlier record has it. There is no position exactly when no record has the id. |
| UserManagement.UserManager.FindUserById | js-poor-class-design.js:26-33 | Returns the first record with the id, or null exactly when no record has it. The loop is proved against `IndexOfId`. |
| UserManagement.IndexOfEmail | js-poor-class-design.js:35-43 | The position found holds the email and no earlier record has it. There is no position exactly when no record has the email. |
| UserManagement.UserManager.FindUserByEmail | js-poor-class-design.js:35-43 | Returns the first record with the email, or null exactly when none matches. |
| UserManagement.UserManager.Login | js-poor-class-design.js:45-53 | Succeeds exactly when a record with the id exists and the password is the literal "password". On success only that flag is set, and `isLoggedIn(id)` holds. On failure nothing changes. The users never change. Only `true` flags are stored. |
| UserManagement.UserManager.IsLoggedIn | js-poor-class-design.js:55-57 | While only `true` flags are stored, an id is logged in exactly when it has a flag. So `=== true` here agrees with the truthiness test of `logout`. |
| UserManagement.UserManager.Logout | js-poor-class-design.js:59-65 | Succeeds exactly when the id was logged in. Only that entry is removed. Afterwards the id is not logged in, and the users are unchanged. Only `true` flags remain stored. |
| UserManagement.RemoveAt | js-poor-class-design.js:74 | `splice(i, 1)`: one element shorter, the elements before `i` stay in place, and the ones after shift down by one. |
| UserManagement.UserManager.DeleteUser | js-poor-class-design.js:67-80 | Succeeds exactly when some record has the id. It then removes exactly the first such record and keeps the order of the rest. Otherwise the list is unchanged. The login flags are never touched. |
| UserManagement.StaleLoginAfterDelete | js-poor-class-design.js:67-80 | Deleting a logged-in user leaves the user gone from the list and still reported as logged in. |
| UserManagement.DistinctRoles | js-poor-class-design.js:82-99 | The roles listed have no duplicates. A role is listed exactly when some record has it. |
| UserManagement.DistinctRolesPrefix | js-poor-class-design.js:82-99 | The roles of any prefix of the users are a prefix of the role list, so roles appear in order of first appearance. |
| UserManagement.UserManager.GetUserRoles | js-poor-class-design.js:82-99 | The nested-loop scan returns `DistinctRoles(users)`. |
| UserManagement.UserManager.DisableAllUsers | js-poor-class-design.js:102-106 | The list keeps its length. Every record has status disabled and all its other fields unchanged. The login flags are unchanged. |
| UserManagement.Usage | js-poor-class-design.js:110-116 | After the two `addUser` calls, user 1 is found with its given fields, user 1 is logged in after `login`, and the roles are `["admin", "user"]`. |
| ComplexFunction.LeadingInt | js-complex-function.js:23-24 | `parseInt` of a string that starts with a digit is a non-negative number. A string without any digit is NaN. |
| ComplexFunction.LeadingIntDigits | js-complex-function.js:23-24 | A string of digits reads as its value. |
| ComplexFunction.LeadingIntSigned | js-complex-function.js:23-24 | A minus sign followed by digits reads as the negated value. |
| ComplexFunction.LeadingIntOfIntToString | js-complex-function.js:23-26 | The `parseInt` reduction reads back every integer written in decimal. |
| ComplexFunction.PositiveSum | js-complex-function.js:35-39 | The sum of the positive numbers is positive exactly when some item is a positive number. |
| ComplexFunction.NegativeMagnitudeSum | js-complex-function.js:43-47 | The sum of the negative numbers' magnitudes is positive exactly when some item is a negative number. |
| ComplexFunction.PositivesSum | js-complex-function.js:35-39 | The `tmp` list the `a > b` branch collects sums to the positive sum, and it is non-empty exactly when that sum is positive. |
| ComplexFunction.NegativeMagnitudesSum | js-complex-function.js:43-47 | The `tmp` list the `a <= b` branch collects sums to the negative magnitude sum, and it is non-empty exactly when that sum is positive. |
| ComplexFunction.Total | js-complex-function.js:54-57 | The totalling loop computes the sum of `tmp`. |
| ComplexFunction.DoStuff | js-complex-function.js:5-62 | The loops compute `DoStuffResult`, the closed form branch by branch. A missing `items` is the empty list. With `flag` the result is the parsed sum plus `a + b`. Without `flag`, when `a > b`, it is `(a - b)` times the positive sum if there is one, else `a - b`. When `a <= b` it is `(b - a)` times the negative magnitude sum if there is one, else `b - a`. |
| ComplexFunction.NonNegativeWithoutFlag | js-complex-function.js:31-59 | Without `flag` the result is never negative. |
| ComplexFunction.FlagAddsParsedItems | js-complex-function.js:16-31 | With `flag` no multiplication happens: the items add up, so the result over `xs + ys` is the result over `xs` plus the parsed sum of `ys`. |
| ComplexFunction.ExampleWithFlag | js-complex-function.js:65 | `doStuff(5, 10, true, [1, 2, '3', 4])` is 25. |
| ComplexFunction.ExampleWithoutFlag | js-complex-function.js:66 | `doStuff(10, 5, false, [1, -2, 3, -4])` is 20. |
| Sequences.FilterAppend | js-to-ts-candidate.js:22 | `filter` distributes over concatenation, so the kept items stay in input order. |
| Sequences.FilterCounts | js-to-ts-candidate.js:22 | `filter` keeps every occurrence of an element the predicate accepts and no occurrence of the others. |
| Sequences.FilterMembers | js-to-ts-candidate.js:22 | An element is in the filtered list exactly when it is in the input and satisfies the predicate. |
| Sequences.MapSeq | js-to-ts-candidate.js:23 | `map` keeps the length and applies the callback at every position. |
| Sequences.MapSeqAppend | js-to-ts-candidate.js:23 | `map` distributes over concatenation. |
| Sequences.SortBySorted | js-to-ts-candidate.js:28 | With a comparator that is a total preorder, the sort's output is ordered by it. |
| Sequences.SortBy | js-to-ts-candidate.js:28 | The sort's output is a permutation of its input. |
| Sequences.SortByAllEquivalent | js-to-ts-candidate.js:30 | A list whose elements all compare equal comes back unchanged. This is the only case of stability proved. |
| Sequences.SlicePrefix | js-to-ts-candidate.js:35 | `slice(0, n)` with `n > 0` is the prefix of length `n`, or the whole list when it is shorter. |
| Sequences.SliceNegative | js-to-ts-candidate.js:35 | `slice(0, n)` with `n < 0` drops `-n` elements from the end, or everything. |
| DataProcessor.Process | js-to-ts-candidate.js:7-39 | A falsy `data` gives `[]`; line 121, `process(null, { sort: 'name' })`, is such a call. The result is a TypeError exactly when `data` is truthy and not an array. |
| DataProcessor.Ordered | js-to-ts-candidate.js:22-32 | Sorting or not, the items are a permutation of the filtered and transformed items. |
| DataProcessor.UndefinedLastPreorder | js-to-ts-candidate.js:28-30 | The sort places every `undefined` after every other item and ranks the rest. If the ranking is a total preorder, that order is one too. |
| DataProcessor.UndefinedStaysLast | js-to-ts-candidate.js:28-30 | In a list ordered that way, only `undefined` can follow an `undefined`. |
| DataProcessor.SortUndefinedFirst | js-to-ts-candidate.js:28 | Sorting `[undefined, x]` gives `[x, undefined]`, whatever the ranking says. |
| DataProcessor.UndefinedSortedLast | js-to-ts-candidate.js:28 | `process([undefined, x], { sort: cmp })` is `[x, undefined]` for every comparator. |
| DataProcessor.ProcessArray | js-to-ts-candidate.js:19-36 | On an array, the output is the ordered items, cut by `slice(0, limit)` when the limit is a non-zero number. |
| DataProcessor.ProcessInInputOrder | js-to-ts-candidate.js:22-23 | With sorting switched off and no limit, the output is `map(transform, filter(pred, data))` in input order, and processing a concatenation concatenates the outputs. |
| DataProcessor.ProcessSorted | js-to-ts-candidate.js:25-32 | Take sorting on, with a ranking that is a total preorder: a consistent comparator (swapping its arguments flips the sign of its answer) or the default order. The output is a permutation of the filtered and transformed items. Every `undefined` is at the end, and the other items are ordered by the ranking. |
| DataProcessor.ProcessDefaultOrderAllEqual | js-to-ts-candidate.js:30 | The default `sort: true` leaves the items in input order when none is `undefined` and the default order ranks them all equal. |
| DataProcessor.ProcessPositiveLimit | js-to-ts-candidate.js:34-36 | A positive limit `n` keeps at most `n` items. They are a prefix of the unlimited output: exactly `n` items, or all of them. |
| DataProcessor.ProcessZeroLimit | js-to-ts-candidate.js:34 | A limit of 0 is falsy and cuts nothing. |
| DataProcessor.ProcessNegativeLimit | js-to-ts-candidate.js:34-36 | A negative limit drops that many items from the end of the unlimited output. |
| DataProcessor.ActiveUsersExample | js-to-ts-candidate.js:100-103 | The `activeUsers` call gives `[{id: 1, name: 'John'}, {id: 3, name: 'Bob'}]` when the default order ranks plain objects equal. |
| DataProcessor.ActiveUsersKept | js-to-ts-candidate.js:101 | The `activeUsers` filter keeps John and Bob and drops Jane. |
| DataProcessor.SampleUserKept | js-to-ts-candidate.js:101 | The filter keeps a sample user exactly when its `metadata.active` is true. |
| DataProcessor.SampleUserActive | js-to-ts-candidate.js:101 | `extractValues(user, 'metadata.active')` of a sample user gives its flag. |
| DataProcessor.SampleUserIdAndName | js-to-ts-candidate.js:102 | The transform of a sample user is the object of its id and name. |
| DataProcessor.ActivePath | js-to-ts-candidate.js:45 | `'metadata.active'.split('.')` is `['metadata', 'active']`. |
| DataProcessor.Split | js-to-ts-candidate.js:45 | `split` yields at least one piece, and no piece contains the separator. |
| DataProcessor.JoinSplit | js-to-ts-candidate.js:45 | Joining the pieces of a split gives back the string. |
| DataProcessor.SplitJoin | js-to-ts-candidate.js:45 | Splitting a join of separator-free pieces gives back the pieces. |
| DataProcessor.ArrayIndex | js-to-ts-candidate.js:52 | A key reads an array element only if it is the canonical numeral of an index below the length. |
| DataProcessor.ArrayIndexOfKey | js-to-ts-candidate.js:52 | Every index below the length is read through the key that writes it. |
| DataProcessor.ExtractValues | js-to-ts-candidate.js:42-56 | The loop returns `Extracted`. That is null for a falsy object or path. Otherwise it is the value reached by reading the split path key by key, with `undefined` once a value on the way is null or undefined. |
| DataProcessor.FollowAppend | js-to-ts-candidate.js:48-53 | Following a path in two pieces is following the second from where the first ends. |
| DataProcessor.FollowFromNullish | js-to-ts-candidate.js:49-51 | From null or undefined, any remaining key gives `undefined`. |
| DataProcessor.ExtractThroughNullish | js-to-ts-candidate.js:48-53 | Once the value reached along a prefix of the path is null or undefined, the whole extraction is `undefined`. |
| DataProcessor.ExtractDottedAsKeys | js-to-ts-candidate.js:45 | A dotted path and the list of its pieces extract the same value. |
| DataProcessor.Merge | js-to-ts-candidate.js:59-89 | The recursive method computes `MergeSpec`. |
| DataProcessor.MergeObjects | js-to-ts-candidate.js:68-85 | `Object.assign({}, target)` followed by the `for...in` loop over the source's keys builds the fields of `MergeSpec`. |
| DataProcessor.MergeKey | js-to-ts-candidate.js:72-81 | One loop step assigns the recursive merge when both values are object-like, and the source value otherwise. |
| DataProcessor.MergeFalsyOperand | js-to-ts-candidate.js:61-62 | A falsy target gives the source, and otherwise a falsy source gives the target. |
| DataProcessor.MergeArrays | js-to-ts-candidate.js:64-66 | Two arrays merge to their concatenation, whose length is the sum of the lengths. |
| DataProcessor.MergeSpecKeys | js-to-ts-candidate.js:68-84 | Two truthy object-like values, not both arrays, merge to an object over the union of their keys. |
| DataProcessor.MergeSpecField | js-to-ts-candidate.js:68-84 | In that object, a source key holds the merged value and any other key keeps the target's value. |
| DataProcessor.MergeObjectKeys | js-to-ts-candidate.js:68-84 | Two plain objects merge to a plain object over the union of their keys. |
| DataProcessor.MergeKeepsTargetOnlyKeys | js-to-ts-candidate.js:69 | A key only the target has keeps the target's value. |
| DataProcessor.MergeSourceWinsAtLeaves | js-to-ts-candidate.js:71-81 | Along any path through the source's objects to a non-object value, the merge reads the source's value, whatever the target. |
| DataProcessor.MergeDisjointPair | js-to-ts-candidate.js:68-84 | Two objects with disjoint keys merge to their union. |
| DataProcessor.MergeOverlapping | js-to-ts-candidate.js:71-81 | A shared key merges recursively when both values are objects and takes the source value otherwise. Keys on one side only are copied. |
| DataProcessor.MergeFallsBackToSource | js-to-ts-candidate.js:88 | Two truthy values that are not both object-like merge to the source. |
| DataProcessor.MergeArrayIntoObject | js-to-ts-candidate.js:68-84 | An array merged with a plain object becomes an object keyed by `"0"`, `"1"`, ... plus the object's keys, since `typeof` says "object" for both. |
| DataProcessor.MergeExample | js-to-ts-candidate.js:111-114 | Merging `{a: 1, b: {c: 2}}` with `{b: {d: 3}, e: 4}` gives `{a: 1, b: {c: 2, d: 3}, e: 4}`, for any values in place of 1 to 4. |
| DataProcessor.ArrayFieldsFromAt | js-to-ts-candidate.js:69 | `Object.assign` copies every array element under the key that writes its index. |
| Dashboard.UserDashboard.constructor | react-component-refactor.js:10-24 | The initial state: no users, empty search, sorted by name ascending, no selection, closed modal, empty draft with role `user`, hidden form, 10 per page, page 1. |
| Dashboard.ToLower | react-component-refactor.js:79 | Lower-casing keeps the length. |
| Dashboard.Searched | react-component-refactor.js:76-83 | The search never adds users. |
| Dashboard.SearchedMembers | react-component-refactor.js:76-83 | A user survives the search exactly when it is one of the users and the term is empty or occurs, ignoring case, in its name, email or role. |
| Dashboard.SearchedAppend | react-component-refactor.js:76-83 | The search keeps the users' relative order. |
| Dashboard.StringCompare | react-component-refactor.js:90-94 | The comparison is -1, 0 or 1, and it is 0 exactly for equal strings. |
| Dashboard.StringCompareAntisymmetric | react-component-refactor.js:90-94 | Swapping the strings negates the comparison. |
| Dashboard.StringCompareTransitive | react-component-refactor.js:90-94 | "Not after" is transitive. |
| Dashboard.CompareAntisymmetric | react-component-refactor.js:86-99 | The column comparator, for every column, is antisymmetric. |
| Dashboard.CompareTransitive | react-component-refactor.js:86-99 | The column comparator, for every column, is transitive. |
| Dashboard.BeforeIsTotalPreorder | react-component-refactor.js:86-102 | For every column and direction, the comparator is a consistent total preorder. |
| Dashboard.DescendingIsReversed | react-component-refactor.js:101 | Descending order is ascending order with the operands swapped. |
| Dashboard.FilterAndSortCorrect | react-component-refactor.js:72-105 | The table is a permutation of the users the search keeps, of all users for an empty term, and is ordered by the column in the direction. |
| Dashboard.FilterAndSortMembers | react-component-refactor.js:76-102 | A user is in the table exactly when it is one of the users and the search keeps it. |
| Dashboard.UserDashboard.FilterAndSortUsers | react-component-refactor.js:72-105 | `filteredUsers` becomes `FilterAndSort` of the users. With an empty term `users` itself takes the sorted order, because the sort works in place on the same array. No setting changes. |
| Dashboard.UserDashboard.HandleSearchChange | react-component-refactor.js:108-110 | Sets the term. As `componentDidUpdate` (lines 60-69) does, the table is recomputed when the term changed and left alone when it did not. A change to the empty term also re-sorts `users` itself. |
| Dashboard.NextSort | react-component-refactor.js:112-127 | The clicked column becomes the sort column, and the sort setting always changes. |
| Dashboard.SortClickTwice | react-component-refactor.js:115-119 | Two clicks on the current column restore the direction. |
| Dashboard.SortClickNewColumn | react-component-refactor.js:120-126 | A click on another column sorts by it ascending. |
| Dashboard.UserDashboard.HandleSortChange | react-component-refactor.js:112-127 | The sort settings follow `NextSort`, and the table is recomputed with them. With an empty term `users` takes the table's order, and otherwise it is unchanged. No other setting changes. |
| Dashboard.UserDashboard.HandleUserSelect | react-component-refactor.js:129-134 | The modal becomes visible on that user, and nothing else changes. |
| Dashboard.UserDashboard.HandleUserModalClose | react-component-refactor.js:136-141 | The modal is hidden and the selection cleared, and nothing else changes. |
| Dashboard.UserDashboard.ModalVisible | react-component-refactor.js:299-301 | The modal renders only with a selected user, so it never shows fields of `null`. |
| Dashboard.UserDashboard.HandleAddUserClick | react-component-refactor.js:143-145 | Only the form becomes visible. |
| Dashboard.WithField | react-component-refactor.js:147-155 | The named draft field gets the value, and the other fields are unchanged. |
| Dashboard.UserDashboard.HandleNewUserChange | react-component-refactor.js:147-155 | Only the named draft field changes. |
| Dashboard.NewUser | react-component-refactor.js:161-165 | The new user's id is the user count plus one, and its name, email, role and date come from the draft and today. |
| Dashboard.AddedUserShown | react-component-refactor.js:157-177 | After the submit, the added user is in the table exactly when the search keeps it. |
| Dashboard.UserDashboard.HandleAddUserSubmit | react-component-refactor.js:157-178 | Appends `NewUser`, resets the draft, hides the form and recomputes the table. No other setting changes. |
| Dashboard.UserDashboard.HandlePageChange | react-component-refactor.js:180-182 | Only the current page changes. |
| Dashboard.UserDashboard.HandlePageSizeChange | react-component-refactor.js:184-189 | The page size becomes the chosen option, the page goes back to 1, and nothing else changes. |
| Dashboard.WithoutId | react-component-refactor.js:193 | Deleting never adds users. |
| Dashboard.WithoutIdMembers | react-component-refactor.js:193 | Every user with the id is removed and every other user kept. |
| Dashboard.WithoutIdAppend | react-component-refactor.js:193 | Deleting keeps the order of the remaining users. |
| Dashboard.WithoutAbsentId | react-component-refactor.js:193 | Deleting an id no user has changes nothing. |
| Dashboard.UserDashboard.DeleteUser | react-component-refactor.js:191-198 | The users lose every record with the id, the table is recomputed from them, and no setting changes. |
| Dashboard.PageSlice | react-component-refactor.js:204-206 | A page never holds more rows than the list. |
| Dashboard.PageSliceRows | react-component-refactor.js:204-206 | Page `p` holds the rows from `(p - 1) * size` on, at most `size` of them. |
| Dashboard.UserDashboard.VisibleRows | react-component-refactor.js:204-206 | The current page holds at most `pageSize` rows. |
| Dashboard.TotalPages | react-component-refactor.js:261 | `Math.ceil(count / size)`: enough pages for all rows and no spare page. It is 0 exactly for no rows. |
| Dashboard.PagesInRange | react-component-refactor.js:259-261 | Page `p` is non-empty exactly when `p` is at most the page count. |
| Dashboard.NextDisabled | react-component-refactor.js:277 | The guard as written: on an empty table (0 pages) "Next" is disabled only on page 0, which is never shown. |
| Dashboard.NextDisabledIntended | react-component-refactor.js:277 | The intended guard disables "Next" exactly where the guard as written does, plus on every page past the last. |
| Dashboard.NextEnabledOnEmptyTable | react-component-refactor.js:277 | As written, an empty table shows page 1 of 0 with "Next" enabled, and the next page is empty. |
| Dashboard.NextEnabledPastEnd | react-component-refactor.js:277 | As written, a page past the last keeps "Next" enabled, and the next page is empty. |
| Dashboard.IntendedNextShowsRows | react-component-refactor.js:276-280 | With the guard `currentPage >= totalPages`, an enabled "Next" always leads to a non-empty page. |

## Left out

- js-callback-hell.js is not part of this model. Its content is `setTimeout`-deferred
  callbacks and logging, with no sequential logic.
- Dates are plain integers:
  - `createdAt` is the parameter `now` of `AddUser`;
  - `lastLogin` is a day number, and the submit's date is the parameter `today`;
  - the sort on `lastLogin` subtracts them.
- `localeCompare` is the order of the characters' code points. `toLowerCase` lower-cases ASCII
  letters only.
- Characters are Unicode code points, while JavaScript strings are UTF-16 code units. For text
  outside the Basic Multilingual Plane this changes several results:
  - `length` and index reads (`DataProcessor.Get`);
  - the order `Dashboard.StringCompare` gives;
  - `parseInt`'s scan.
- Numbers are integers, so `NaN`, infinities and fractions are not modelled.
- `parseInt` skips JavaScript's white space and line terminators, then reads an optional sign
  and decimal digits. Its hex prefix and other radixes are not modelled.
- `flag == true` is modelled for a boolean `flag` only, not the loose comparison with other
  types.
- ComplexFunction.DoStuff: `items` is missing or a list of numbers and strings.
  - Other item types are not modelled. JavaScript gives them to `parseInt` as `String(x)`, so
    `[7]` adds 7 and `null` adds nothing.
  - Other falsy `items` are not modelled.
  - A truthy `items` that is not an array, such as a string read character by character, is
    not modelled either.
- `Object.assign` and `for...in` see own keys only. Prototypes, inherited keys, getters and
  object key order are not modelled. Arrays expose their index keys.
- `extractValues` with a path that is neither a string nor an array of strings is not modelled.
- Records are values, so aliasing is not modelled:
  - `disableAllUsers` also changes records already handed out by `findUserById`;
  - the dashboard's `users` and `filteredUsers` share an array after an empty-term sort. The
    model reassigns both fields instead.
- `deleteUser`'s final `return false` in js-poor-class-design.js is unreachable after the
  successful lookup, so the model has no such path.
- The filter and map callbacks of `process` receive the index and the array in JavaScript. The
  model passes the item only.
- The runtime's default sort order puts `undefined` last and compares the other items' string
  forms. The model puts `undefined` last itself, and the string comparison is the parameter
  `defaultOrder` of `Process`. Array holes are not modelled.
- JavaScript fixes the sort's result only for a consistent comparator whose ranking is a total
  preorder. Any other comparator gives an order the runtime chooses. One example is
  `(a, b) => a > b`, which returns 0 for one order of a pair and 1 for the other.
  `DataProcessor.Process` still commits to the order of its insertion sort for such comparators.
  `DataProcessor.ProcessSorted` requires a consistent comparator (`DataProcessor.Consistent`)
  whose ranking (`DataProcessor.Ranking`) is a total preorder.
  `DataProcessor.ProcessDefaultOrderAllEqual` requires the default order to rank the items all
  equal.
- An option the caller passes explicitly as `undefined` overrides its default in JavaScript
  (for `filter` and `transform` the call then throws). The model treats a left-out key only.
- React's batching, the lifecycle timer in `componentDidMount`, `isLoading`, `error`, the JSX,
  event objects, `preventDefault` and `stopPropagation` are not modelled.
- The form's cancel button is not modelled.
- Dashboard.UserDashboard.HandleNewUserChange: only the three input names of the form are
  modelled, not an arbitrary `name` attribute.
- Dashboard.UserDashboard.HandlePageSizeChange: takes one of the select's options, not an
  arbitrary string parsed with `parseInt`.
- The hard-coded password is modelled as the literal comparison only.

## Findings

| source | as written | input that shows it | evidently intended | confidence | as-written member | corrected member |
|---|---|---|---|---|---|---|
| react-component-refactor.js:277 | "Next" is disabled only when `currentPage === totalPages` | an empty table (page 1 of 0 pages), or a page left past the end after the search narrows the table (the page is not reset), keeps "Next" enabled, leading to empty pages | disabled when `currentPage >= totalPages` | not executed | Dashboard.NextEnabledOnEmptyTable, Dashboard.NextEnabledPastEnd | Dashboard.IntendedNextShowsRows |
