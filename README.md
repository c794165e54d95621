# User Management Dashboard — a Dafny model

This project models the core of a React user-management dashboard. The
dashboard loads a list of users from a remote service, and lets you create,
edit and delete users. It also offers a free-text search, name/email/company
filters, column sorting and pagination. The model covers the following parts.

- **Data helpers** (`src/utils/helpers.jsx`):
  - `filterData`: search plus three field filters, case-insensitive substring tests;
  - `sortData`: a stable sort by a dotted key path with the source comparator;
  - `paginateData`: `Array.prototype.slice` semantics, negative indices included;
  - `getNestedValue`: split on '.', optional chaining, `|| ''`;
  - `validateUserForm`: required fields and the `\S+@\S+\.\S+` email test.
- **The store** (`src/context/UserContext.jsx`): the state, the tagged
  actions and `userReducer`. The reducer is a total function. A `UserStore`
  class holds the state and replaces it on every dispatch.
- **The data operations** (`src/hooks/useUsers.jsx`): fetch, create, update
  and delete are methods of `UserStore`. Each dispatches a fixed sequence:
  loading on, then the result or the error, then loading off. The service's
  answer is a parameter (`Outcome`), and each request is recorded in a ghost
  log.
- **The dashboard page** (`src/pages/UsersDashboard.jsx`):
  - the `processedUsers` pipeline, filter, then sort, then paginate;
  - which screen is shown;
  - a `Dashboard` class with the dialog state and every handler.
- **The UI rules of three components**:
  - `Pagination.jsx`: page count, shown range, the `getPageNumbers` loop,
    and where each button leads;
  - `FilterPanel.jsx`: a class with the local dialog copy, the
    active-filter test and the badge count;
  - `UserTable.jsx`: the sort toggle, the sort icons, the company cell and
    the table states.

JavaScript behaviour the source relies on is written out explicitly:

- in module `JsText`: ASCII `toLowerCase`, `includes`, `trim` with the
  ECMAScript white-space set, `String(int)`, and `<` on strings as
  character-code order;
- in module `Sorting`: `ToPrimitive`/`ToNumber` for `<` on mixed values;
- in module `NestedValue`: optional chaining and truthiness (`|| ''`).

Two points where the code and its design description disagree; the model
follows the code:

- **No clamping.** Nothing clamps the current page when the filtered count
  shrinks. `SET_PAGINATION` and `SET_FILTERS` only merge or reset.
- **Deletes always decrement.** `DELETE_USER` lowers `totalItems` even when
  the id is absent, so a repeated delete is not a no-op on the count
  (`UserContext.RepeatedDelete`).

## Model

| member | source | states |
|---|---|---|
| JsText.LowerChar | src/utils/helpers.jsx:22 | an ASCII capital moves up by 32, every other character is kept; no capital remains |
| JsText.ToLower | src/utils/helpers.jsx:22 | `toLowerCase` keeps the length and lowers each character independently |
| JsText.ToLowerIdempotent | src/utils/helpers.jsx:22 | lowering twice is lowering once |
| JsText.ContainsIffOccurs | src/utils/helpers.jsx:22 | `includes(t)` holds exactly when `t` occurs at some position |
| JsText.ContainsEmpty | src/utils/helpers.jsx:22 | every string includes the empty string |
| JsText.Contains | src/utils/helpers.jsx:22 | a string includes only texts no longer than itself |
| JsText.TrimStart | src/utils/helpers.jsx:51 | drops exactly the leading white space: a suffix of the input whose first character is not white space |
| JsText.TrimEnd | src/utils/helpers.jsx:51 | drops exactly the trailing white space: a prefix of the input whose last character is not white space |
| JsText.TrimEmptyIffBlank | src/utils/helpers.jsx:51 | `trim()` is empty iff every character is white space |
| JsText.Trim | src/utils/helpers.jsx:51 | `trim()` is no longer than its input, neither starts nor ends with white space, and is empty iff the input is all white space |
| JsText.NatToString | src/utils/helpers.jsx:22 | `String` of a non-negative number is a non-empty run of decimal digits whose value is that number, with no leading zero |
| JsText.IntToString | src/utils/helpers.jsx:22 | `String` of an id: decimal digits spelling its magnitude with no leading zero, preceded by '-' iff it is negative |
| JsText.StrLessIrreflexive | src/utils/helpers.jsx:8 | string `<` is irreflexive |
| JsText.StrLessTransitive | src/utils/helpers.jsx:8-11 | string `<` is transitive |
| JsText.StrLessTrichotomy | src/utils/helpers.jsx:8-11 | of two different strings exactly one is `<` the other |
| NestedValue.Split | src/utils/helpers.jsx:45 | `split('.')` gives at least one part and no part contains '.' |
| NestedValue.SplitJoin | src/utils/helpers.jsx:45 | joining the parts of a path with '.' gives the path back |
| NestedValue.JoinSplit | src/utils/helpers.jsx:45 | splitting a join of dot-free parts gives the parts back |
| NestedValue.Resolve | src/utils/helpers.jsx:45 | a non-empty chain of `?.[key]` steps from a record never yields the record itself |
| NestedValue.GetNestedValue | src/utils/helpers.jsx:44-46 | the result is never `undefined` or the record itself; it is truthy or `''` |
| NestedValue.UndefinedAbsorbs | src/utils/helpers.jsx:45 | optional chaining from `undefined` stays `undefined` |
| NestedValue.ResolveConcat | src/utils/helpers.jsx:45 | the `reduce` over a split path resolves part by part |
| NestedValue.MissingSegmentGivesEmpty | src/utils/helpers.jsx:44-46 | a path with a missing segment yields `''` instead of failing |
| NestedValue.ColumnValue | src/utils/helpers.jsx:44-46 | the value of each sortable column: id 0 becomes `''`, a missing company name `''` |
| Filtering.SearchableValues | src/utils/helpers.jsx:21-22 | `Object.values` as strings: the id's digits first, then name, username, email, phone and website, and "[object Object]" last iff there is a company; exactly these strings occur |
| Filtering.MatchesSearch | src/utils/helpers.jsx:20-23 | an empty search passes every record; a non-empty one passes only if it is no longer than some searchable value |
| Filtering.MatchesName | src/utils/helpers.jsx:25-26 | a passing name filter is no longer than the record's name |
| Filtering.MatchesEmail | src/utils/helpers.jsx:28-29 | a passing email filter is no longer than the record's email |
| Filtering.MatchesCompany | src/utils/helpers.jsx:31-32 | a passing company filter is empty, or the record has a company whose name is at least as long |
| Filtering.Matches | src/utils/helpers.jsx:34 | empty filters pass every record, and a passing record passes each of the four tests |
| Filtering.FilterData | src/utils/helpers.jsx:18-36 | keeps an order-preserving subsequence; each record appears as often as in the input if it passes all tests, otherwise not at all |
| Filtering.KeptIffMatches | src/utils/helpers.jsx:19-34 | a record is in the result iff it is in the input and passes search, name, email and company tests |
| Filtering.EmptyFiltersKeepAll | src/utils/helpers.jsx:20-32 | with all filters empty the input comes back unchanged |
| Filtering.FilterIdempotent | src/utils/helpers.jsx:18-36 | filtering twice with the same filters is filtering once |
| Filtering.CompanyFilterNeedsCompany | src/utils/helpers.jsx:31-32 | a non-empty company filter drops every record without a company name |
| Filtering.SearchIgnoresCompanyName | src/utils/helpers.jsx:20-23 | search sees a company only as "[object Object]", so the company name never affects it |
| Filtering.SearchObjectMatchesAnyCompany | src/utils/helpers.jsx:20-23 | the search text "object" passes every record that has a company |
| Sorting.JsLess | src/utils/helpers.jsx:8-11 | `<` never holds between equal values |
| Sorting.Compare | src/utils/helpers.jsx:4-15 | the comparator answers -1, 0 or 1 |
| Sorting.SortData | src/utils/helpers.jsx:1-16 | the result is a permutation of the input, of the same length |
| Sorting.JsLessIsKeyLess | src/utils/helpers.jsx:5-11 | on each sortable column, `<` on the resolved values is the key order (ids numerically, text by character codes) |
| Sorting.CompareIsByKey | src/utils/helpers.jsx:4-15 | the source comparator equals the key comparator the sort uses, at every input |
| Sorting.CompareByKey | src/utils/helpers.jsx:8-14 | the comparator is 0 iff the keys are equal, negative iff the key order (reversed unless 'asc') puts `a` first, and antisymmetric |
| Sorting.CompareTransitive | src/utils/helpers.jsx:8-14 | "at most equal" under the comparator is transitive |
| Sorting.KeyLessStrictTotal | src/utils/helpers.jsx:8-11 | the key order is a strict total order |
| Sorting.SortedByIsComparatorOrder | src/utils/helpers.jsx:4-15 | sorted by the key comparator is sorted by the source comparator |
| Sorting.Insert | src/utils/helpers.jsx:4-15 | one insertion step adds exactly the inserted record |
| Sorting.InsertSorted | src/utils/helpers.jsx:4-15 | inserting into a sorted list keeps it sorted |
| Sorting.StableSort | src/utils/helpers.jsx:4-15 | the result is a permutation of the input and ordered by the comparator |
| Sorting.StableSortKeepsKeyOrder | src/utils/helpers.jsx:4-15 | records with equal keys keep their input order (stability) |
| Sorting.StablySortedUnique | src/utils/helpers.jsx:4-15 | two sorted lists with the same records per key, in the same order, are equal |
| Sorting.SortDataCharacterized | src/utils/helpers.jsx:1-16 | with a key, `sortData` is a permutation, and a list is stably sorted from the input iff it is the result |
| Sorting.SortDataWithoutKey | src/utils/helpers.jsx:2 | with no key the input comes back as is |
| Sorting.SortedIsFixed | src/utils/helpers.jsx:4-15 | sorting a sorted list changes nothing |
| Sorting.SortDataIdempotent | src/utils/helpers.jsx:1-16 | sorting twice with the same settings is sorting once |
| Sorting.ReversedDirection | src/utils/helpers.jsx:8-13 | without repeated keys, any direction other than 'asc' gives the ascending result reversed |
| Paging.SliceIndex | src/utils/helpers.jsx:41 | `slice` clamps an index into `[0, length]`; a negative index k counts from the end, giving `max(length + k, 0)` |
| Paging.Slice | src/utils/helpers.jsx:41 | the result has `max(0, to - from)` records for the resolved indices, and its k-th record is the list's `from + k`-th |
| Paging.PaginateData | src/utils/helpers.jsx:38-42 | at most one page of records (for a page >= 1), never more than the list holds, all taken from the list |
| Paging.PageWindow | src/utils/helpers.jsx:38-42 | page p of size n is `data[(p-1)n .. pn)` clipped to the list, of length `min(n, max(0, len-(p-1)n))` |
| Paging.PagesArePrefix | src/utils/helpers.jsx:38-42 | the first k pages laid end to end are the first `k*n` records |
| Paging.AllPagesReconstruct | src/utils/helpers.jsx:38-42 | enough consecutive pages give back the whole list |
| Validation.ValidateUserForm | src/utils/helpers.jsx:48-73 | valid iff there are no errors; each required-field message iff the field is missing or white space; for email, "Email is invalid" iff present, not blank and not matching `\S+@\S+\.\S+` |
| Validation.BlankIffWhitespace | src/utils/helpers.jsx:51 | `!field?.trim()` iff the field is absent or all white space |
| Validation.PatternIgnoresSurroundings | src/utils/helpers.jsx:57 | the email pattern is unanchored: text around a matching address still matches |
| Validation.EmailExamples | src/utils/helpers.jsx:57 | "a@b.c" matches; "a@b" and "a@.c" do not |
| UserContext.InitialState | src/context/UserContext.jsx:5-24 | no users, not loading, no error, empty filters, page 1 of 10 with totalItems 0, no sort key, ascending |
| UserContext.UserReducer | src/context/UserContext.jsx:26-75 | an unknown type returns the state; users change only under SET_USERS, ADD_USER, UPDATE_USER or DELETE_USER, loading only under SET_LOADING or SET_ERROR, the error only under SET_ERROR or SET_USERS, filters only under SET_FILTERS, pagination only under ADD_USER, DELETE_USER, SET_FILTERS or SET_PAGINATION, the sort only under SET_SORT |
| UserContext.ReplaceById | src/context/UserContext.jsx:46-48 | same length; each position holds the new record iff its id matches, otherwise the old one |
| UserContext.RemoveById | src/context/UserContext.jsx:53 | an order-preserving subsequence with every record of that id removed and all others kept |
| UserContext.RunConcat | src/context/UserContext.jsx:78 | dispatching two action lists in turn is dispatching their concatenation |
| UserContext.ErrorAndUsersEffects | src/context/UserContext.jsx:28-33 | SET_ERROR records the message and forces loading off; SET_USERS replaces users and clears the error, leaving loading |
| UserContext.AddUserEffect | src/context/UserContext.jsx:34-42 | ADD_USER prepends the record and adds one to totalItems, nothing else changes |
| UserContext.UpdateUserEffect | src/context/UserContext.jsx:43-49 | UPDATE_USER keeps length and order and swaps in the record by id; an absent id changes nothing |
| UserContext.DeleteUserEffect | src/context/UserContext.jsx:50-58 | DELETE_USER keeps exactly the records with other ids, in order, and lowers totalItems by one |
| UserContext.RemoveAbsentId | src/context/UserContext.jsx:53 | removing an id that is not present leaves the list unchanged |
| UserContext.RepeatedDelete | src/context/UserContext.jsx:50-58 | a second delete of the same id leaves users alone but lowers totalItems again |
| UserContext.SetFiltersEffect | src/context/UserContext.jsx:59-64 | SET_FILTERS overlays the payload and resets to page 1, even for a payload that changes nothing |
| UserContext.FilterPatchOverlay | src/context/UserContext.jsx:62 | a filter key absent from the payload keeps its value, a present one takes the payload's |
| UserContext.PaginationAndSortEffects | src/context/UserContext.jsx:65-71 | SET_PAGINATION changes only the keys present; SET_SORT replaces the sort settings |
| UserContext.UnknownActionIgnored | src/context/UserContext.jsx:72-73 | a type outside the nine cases returns the state unchanged |
| UseUsers.FetchActions | src/hooks/useUsers.jsx:8-22 | loading on first and off last, no other loading change between; the second action is SET_ERROR iff the fetch failed |
| UseUsers.CreateActions | src/hooks/useUsers.jsx:24-36 | loading on, ADD_USER with the service's record on success or SET_ERROR iff it failed, loading off |
| UseUsers.UpdateActions | src/hooks/useUsers.jsx:38-50 | loading on, UPDATE_USER with the service's record on success or SET_ERROR iff it failed, loading off |
| UseUsers.DeleteActions | src/hooks/useUsers.jsx:52-63 | loading on, DELETE_USER with the id on success or SET_ERROR iff it failed, loading off |
| UseUsers.FailureEffect | src/hooks/useUsers.jsx:17-20 | a failed fetch, create, update or delete keeps the users, records the message and ends loading |
| UseUsers.FetchSuccessEffect | src/hooks/useUsers.jsx:8-22 | a successful fetch replaces the users, clears the error, sets totalItems to their number and ends loading |
| UseUsers.CreateSuccessEffect | src/hooks/useUsers.jsx:24-36 | a successful create prepends the record, adds one to totalItems and ends loading |
| UseUsers.UpdateSuccessEffect | src/hooks/useUsers.jsx:38-50 | a successful update replaces by id and ends loading |
| UseUsers.DeleteSuccessEffect | src/hooks/useUsers.jsx:52-63 | a successful delete removes the id, lowers totalItems and ends loading |
| UseUsers.UserStore.constructor | src/context/UserContext.jsx:5-24 | the store starts in the initial state, with no actions and no requests |
| UseUsers.UserStore.Dispatch | src/context/UserContext.jsx:78 | the new state is the reducer applied to the old state and the action |
| UseUsers.UserStore.FetchUsers | src/hooks/useUsers.jsx:8-22 | one list request, the exact dispatch sequence; loading is off afterwards; the users are replaced on success and kept on failure |
| UseUsers.UserStore.CreateUser | src/hooks/useUsers.jsx:24-36 | one create request, the exact dispatch sequence, loading off, the service's answer returned or its failure handed back |
| UseUsers.UserStore.UpdateUser | src/hooks/useUsers.jsx:38-50 | one update request for the id, the exact dispatch sequence, loading off, answer returned or failure handed back |
| UseUsers.UserStore.DeleteUser | src/hooks/useUsers.jsx:52-63 | one delete request, the exact dispatch sequence, loading off, the failure message handed back |
| PaginationView.TotalPages | src/components/users/Pagination.jsx:5 | the ceiling of items over page size: `(r-1)n < total <= rn` |
| PaginationView.RenderedIffMoreThanOnePage | src/components/users/Pagination.jsx:5 | more than one page iff more items than one page holds; no pages iff no items |
| PaginationView.RenderedPageList | src/components/users/Pagination.jsx:35 | the bar renders iff the items do not fit on one page, and then its list runs from page 1 to the last page |
| PaginationView.StartIndex | src/components/users/Pagination.jsx:6 | on a page >= 1 with a non-negative size, the first position shown is at least 1 |
| PaginationView.EndIndex | src/components/users/Pagination.jsx:7 | the last position shown is the smaller of the page's end and the item total |
| PaginationView.ShownRange | src/components/users/Pagination.jsx:6-7 | on an existing page, 1 <= start <= end <= total and the range spans at most one page |
| PaginationView.GetPageNumbers | src/components/users/Pagination.jsx:9-33 | the loop-built list equals the list of first page, optional gap, window, optional gap, last page |
| PaginationView.PageNumbers | src/components/users/Pagination.jsx:9-33 | at least two entries, the first page 1 and the last the last page |
| PaginationView.AtMostNineButtons | src/components/users/Pagination.jsx:14-30 | the page list never has more than nine entries |
| PaginationView.ShownMembers | src/components/users/Pagination.jsx:14-31 | a number is listed iff it is page 1, the last page or an existing page within 2 of the current one |
| PaginationView.PageNumbersAreShownWithDots | src/components/users/Pagination.jsx:14-31 | on an existing page the list is the listed numbers in increasing order with '...' in every gap |
| PaginationView.WithDotsPages | src/components/users/Pagination.jsx:24 | the page entries are exactly the listed numbers |
| PaginationView.WithDotsGapsMarked | src/components/users/Pagination.jsx:18-30 | neighbouring page entries are consecutive; '...' is never first, last or doubled, and sits between non-consecutive pages |
| PaginationView.PageListShape | src/components/users/Pagination.jsx:14-31 | starts at 1, ends at the last page, numbers increase, all pages within 2 of the current are present, gaps are marked |
| PaginationView.PreviousTarget | src/components/users/Pagination.jsx:61-62 | Previous is disabled iff on page 1, otherwise goes one page back |
| PaginationView.NextTarget | src/components/users/Pagination.jsx:86-87 | Next is disabled iff on the last page, otherwise goes one page on |
| PaginationView.ItemTarget | src/components/users/Pagination.jsx:71-72 | clicking '...' asks for no page |
| PaginationView.ClickTargetsInRange | src/components/users/Pagination.jsx:59-91 | from an existing page every button leads to an existing page |
| FilterPanelView.HandleSearchChange | src/components/users/FilterPanel.jsx:9-12 | typing sends a patch with the search text only, which changes nothing but the search |
| FilterPanelView.FullPatch | src/components/users/FilterPanel.jsx:22-23 | Apply's payload replaces all four filters with the local copy |
| FilterPanelView.SetField | src/components/users/FilterPanel.jsx:14-20 | a local edit changes only the named field |
| FilterPanelView.HasActiveFilters | src/components/users/FilterPanel.jsx:33 | active iff name, email or company is non-empty; the search text does not count |
| FilterPanelView.BadgeCount | src/components/users/FilterPanel.jsx:64 | the badge reads at most 3, and more than 0 only when a filter is active |
| FilterPanelView.BadgeCountMeaning | src/components/users/FilterPanel.jsx:64 | the badge counts each of name, email and company that is non-empty and differs from the search text; at most 3 |
| FilterPanelView.BadgeAgreesWithoutSearch | src/components/users/FilterPanel.jsx:62-65 | with no search text, the badge shows iff it counts something |
| FilterPanelView.ActiveFilterWithZeroBadge | src/components/users/FilterPanel.jsx:62-65 | a filter equal to the search text is active but uncounted: the badge can read 0 |
| FilterPanelView.FilterPanel.constructor | src/components/users/FilterPanel.jsx:6-7 | the dialog is closed and the local copy is the filters given at creation |
| FilterPanelView.FilterPanel.OpenFilterModal | src/components/users/FilterPanel.jsx:53 | opens the dialog, keeping the local copy |
| FilterPanelView.FilterPanel.CloseFilterModal | src/components/users/FilterPanel.jsx:83 | closes the dialog, keeping edits |
| FilterPanelView.FilterPanel.HandleLocalFilterChange | src/components/users/FilterPanel.jsx:14-20 | the local copy gets the one edited field |
| FilterPanelView.FilterPanel.ApplyFilters | src/components/users/FilterPanel.jsx:22-25 | sends the whole local copy and closes the dialog |
| FilterPanelView.FilterPanel.ClearAllFilters | src/components/users/FilterPanel.jsx:27-31 | empties the local copy and closes the dialog; its `onClearFilters()` call is modelled by `UsersDashboard.Dashboard.ClearAllFromPanel` |
| UserTableView.GetSortIcon | src/components/users/UserTable.jsx:5-12 | both arrows iff the column is not the key; the up arrow iff it is the key and the direction is 'asc' |
| UserTableView.HandleSort | src/components/users/UserTable.jsx:14-17 | sorts by the clicked column; 'desc' iff it was already the ascending key, 'asc' otherwise |
| UserTableView.SortToggleAlternates | src/components/users/UserTable.jsx:14-17 | repeated clicks alternate the direction, and only the clicked column shows an arrow |
| UserTableView.NewColumnStartsAscending | src/components/users/UserTable.jsx:14-17 | a different column always starts ascending |
| UserTableView.CompanyCell | src/components/users/UserTable.jsx:115 | the company name, or "N/A" when there is no company or its name is empty |
| UserTableView.RenderTable | src/components/users/UserTable.jsx:19-40 | a skeleton iff loading, "No users found" iff not loading and no rows, the rows otherwise |
| UsersDashboard.ProcessedUsers | src/pages/UsersDashboard.jsx:33-42 | the page holds no more records than passed the filters, and no more passed than are stored |
| UsersDashboard.ProcessedPageContents | src/pages/UsersDashboard.jsx:33-42 | the page holds at most a page's worth, no more than passed the filters, and only stored records that pass the filters |
| UsersDashboard.TotalFilteredIgnoresSortAndPage | src/pages/UsersDashboard.jsx:33-42 | the filtered count does not depend on sort or page |
| UsersDashboard.ShownPageExists | src/pages/UsersDashboard.jsx:172-177 | whenever the page shown is non-empty, the current page lies within the page count the bar is given |
| UsersDashboard.ClearedFiltersCountEveryone | src/pages/UsersDashboard.jsx:88-93 | with cleared filters every stored record is counted |
| UsersDashboard.AddedUserCounted | src/pages/UsersDashboard.jsx:33-42 | a created record is counted iff it passes the current filters |
| UsersDashboard.DeletedUserGone | src/pages/UsersDashboard.jsx:33-42 | after a delete no record with that id is on the page |
| UsersDashboard.SearchChangeResetsPage | src/components/users/FilterPanel.jsx:9-12 | typing a search changes only the search text and returns to page 1 |
| UsersDashboard.ApplyReplacesSearch | src/components/users/FilterPanel.jsx:22-25 | Apply replaces all filters with the local copy, so a search typed since the panel was created is replaced |
| UsersDashboard.PageSizeChangeShowsFirstPage | src/pages/UsersDashboard.jsx:103-112 | a page-size change shows page 1 of the new size and records the filtered count as totalItems |
| UsersDashboard.CurrentScreen | src/pages/UsersDashboard.jsx:114-172 | the error screen iff there is a non-empty error message; the spinner iff there is none and it is loading with no records; when the table is shown it holds the current page, and pagination shows iff that page is non-empty |
| UsersDashboard.FailedFetchShowsError | src/pages/UsersDashboard.jsx:114-128 | a failed fetch with a message brings up the error screen, and a later successful fetch clears it |
| UsersDashboard.Dashboard.constructor | src/pages/UsersDashboard.jsx:26-30 | all dialogs closed, nothing selected |
| UsersDashboard.Dashboard.OpenAddModal | src/pages/UsersDashboard.jsx:141 | opens the add dialog only |
| UsersDashboard.Dashboard.CloseAddModal | src/pages/UsersDashboard.jsx:189 | closes the add dialog only |
| UsersDashboard.Dashboard.HandleAddUser | src/pages/UsersDashboard.jsx:45-52 | one create request with the form's data; the add dialog closes iff the create succeeds; exactly the create's actions are dispatched |
| UsersDashboard.Dashboard.OpenEditModal | src/pages/UsersDashboard.jsx:74-77 | selects the record and opens the edit dialog |
| UsersDashboard.Dashboard.CloseEditModal | src/pages/UsersDashboard.jsx:202-205 | closes the edit dialog and clears the selection |
| UsersDashboard.Dashboard.HandleEditUser | src/pages/UsersDashboard.jsx:54-62 | the update goes to the selected id with that id forced into the payload; on success the dialog closes; with no selection nothing is sent; exactly the update's actions are dispatched, none without a selection |
| UsersDashboard.Dashboard.OpenDeleteConfirm | src/pages/UsersDashboard.jsx:79-82 | records the id and opens the confirmation |
| UsersDashboard.Dashboard.CloseDeleteConfirm | src/pages/UsersDashboard.jsx:222-225 | closes the confirmation and forgets the id |
| UsersDashboard.Dashboard.HandleDeleteUser | src/pages/UsersDashboard.jsx:64-72 | one delete request for the chosen id; the confirmation closes iff the delete succeeds; exactly the delete's actions are dispatched |
| UsersDashboard.Dashboard.HandleFilterChange | src/pages/UsersDashboard.jsx:84-86 | dispatches SET_FILTERS with the panel's patch; nothing else is dispatched |
| UsersDashboard.Dashboard.HandleClearFilters | src/pages/UsersDashboard.jsx:88-93 | every filter becomes empty and page 1 shows; exactly one SET_FILTERS is dispatched |
| UsersDashboard.Dashboard.HandleSort | src/pages/UsersDashboard.jsx:95-97 | dispatches SET_SORT with the table's choice; nothing else is dispatched |
| UsersDashboard.Dashboard.HandlePageChange | src/pages/UsersDashboard.jsx:99-101 | only the current page changes; one SET_PAGINATION is dispatched |
| UsersDashboard.Dashboard.HandleItemsPerPageChange | src/pages/UsersDashboard.jsx:103-112 | new size, page 1, and the filtered count as totalItems; one SET_PAGINATION is dispatched |
| UsersDashboard.Dashboard.SearchFromPanel | src/components/users/FilterPanel.jsx:9-12 | typing in the panel's search box changes only the search text and shows page 1, with one SET_FILTERS |
| UsersDashboard.Dashboard.ApplyFromPanel | src/components/users/FilterPanel.jsx:22-25 | the store's filters become the dialog's copy, page 1 shows, the dialog closes, with one SET_FILTERS |
| UsersDashboard.Dashboard.ClearAllFromPanel | src/components/users/FilterPanel.jsx:27-31 | the dialog's copy and the store's filters both become empty, page 1 shows, the dialog closes, with one SET_FILTERS |

## Left out

- The user service (`src/services/userService.jsx`) is not modelled. It does HTTP I/O and uses `Date.now()` for new ids. Each operation takes the service's answer as an `Outcome` parameter and logs the request it would send.
- Asynchrony is not modelled. Each operation runs to completion before the next begins, so interleaved completions and stale responses fall outside the model.
- `console.error` in the dashboard handlers is not modelled. It has no effect on state.
- Modelled elsewhere or not at all:
  - `App.jsx` and `Header.jsx` are not part of this model;
  - the JSX markup, styling and icons are not modelled;
  - the `Modal`, `LoadingSpinner` and `UserForm` components are not part of this model;
  - the React hook machinery (`useState`, `useMemo`, `useEffect`, context lookup) is not modelled. The mount-time `fetchUsers()` is `UserStore.FetchUsers`.
- `useUserContext` outside a provider is not modelled. That is the only place it throws.
- User records have the fields `id`, `name`, `username`, `email`, `phone`, `website` and an optional `company` with a `name`. Other fields a service may return are not modelled. Each nested object would add one more "[object Object]" to what the search sees.
- `JsText.ToLower`: lowers ASCII letters only. Unicode case mapping is not modelled.
- `JsText.StrLess`: compares whole characters. JavaScript compares UTF-16 code units; the two orders differ only for characters outside the Basic Multilingual Plane.
- Sorting.ToNumber: treats a non-blank string as NaN. Numeric strings such as "12" are not parsed. On the sortable columns this case never arises: `<` either compares two strings, or compares a number with `''`.
- Filtering.SearchableValues: `String(value)` is modelled for the value types a record holds: integer id, strings, and a company object.
- PaginationView.TotalPages: requires a positive page size, because `Math.ceil` of a division by zero is not an integer. The size selector only offers 10, 25, 50 and 100, and the initial size is 10.
- PaginationView.RenderedPageList: requires a positive page size, for the same reason as `TotalPages`.
- UsersDashboard.Dashboard.HandleDeleteUser: requires a chosen id. Its button exists only inside the confirmation dialog, which is open exactly while an id is chosen (`Dashboard.Valid`). Deleting with a `null` id is not modelled.
- Ids are unbounded integers. JavaScript numbers are doubles, and the model does not capture their precision limits.
