/** The store of the dashboard (src/context/UserContext.jsx): its state, the
    actions it accepts and `userReducer`, a total function from a state and
    an action to the next state. */
module UserContext {
  import opened Wrappers
  import opened UserModel
  import opened Sequences

  datatype Pagination = Pagination(currentPage: int, itemsPerPage: int, totalItems: int)

  datatype State = State(
    users: seq<User>,
    loading: bool,
    error: Option<string>,
    filters: Filters,
    pagination: Pagination,
    sortConfig: SortConfig)

  /** The payload of SET_FILTERS: the keys it carries (`Some`) overwrite
      the current filters. */
  datatype FilterPatch = FilterPatch(search: Option<string>, name: Option<string>, email: Option<string>, company: Option<string>)

  /** The payload of SET_PAGINATION, read the same way. */
  datatype PaginationPatch = PaginationPatch(currentPage: Option<int>, itemsPerPage: Option<int>, totalItems: Option<int>)

  /** The `type` strings the reducer's `switch` has a case for. */
  const ActionTypes: set<string> := {"SET_LOADING", "SET_USERS", "SET_ERROR", "ADD_USER",
    "UPDATE_USER", "DELETE_USER", "SET_FILTERS", "SET_PAGINATION", "SET_SORT"}

  /** The action types the reducer knows, plus any other tag; an
      `UnknownAction` stands for a `type` outside `ActionTypes`. */
  datatype Action =
    | SetLoading(loading: bool)
    | SetUsers(users: seq<User>)
    | SetError(message: string)
    | AddUser(user: User)
    | UpdateUser(user: User)
    | DeleteUser(id: int)
    | SetFilters(filterPatch: FilterPatch)
    | SetPagination(paginationPatch: PaginationPatch)
    | SetSort(sortConfig: SortConfig)
    | UnknownAction(tag: string)

  /** No users, not loading, no error, empty filters, page 1 of 10 with no
      items, and no sort key with direction 'asc'. */
  function InitialState(): (r: State)
    ensures r.users == [] && r.pagination.totalItems == |r.users|
    ensures r.pagination.currentPage == 1 && r.pagination.itemsPerPage == 10
    ensures r.filters == EmptyFilters && r.sortConfig.key.None? && IsAscending(r.sortConfig.direction)
    ensures !r.loading && r.error.None?
  {
    State([], false, None, EmptyFilters, Pagination(1, 10, 0), SortConfig(None, "asc"))
  }

  /** `{ ...current, key: value }` for one optional key. */
  function Overlay<T>(current: T, patch: Option<T>): T
  {
    if patch.Some? then patch.value else current
  }

  function ApplyFilterPatch(f: Filters, p: FilterPatch): Filters
  {
    Filters(Overlay(f.search, p.search), Overlay(f.name, p.name), Overlay(f.email, p.email), Overlay(f.company, p.company))
  }

  function ApplyPaginationPatch(pg: Pagination, p: PaginationPatch): Pagination
  {
    Pagination(Overlay(pg.currentPage, p.currentPage), Overlay(pg.itemsPerPage, p.itemsPerPage), Overlay(pg.totalItems, p.totalItems))
  }

  /** `users.map(user => user.id === u.id ? u : user)`. */
  function ReplaceById(users: seq<User>, u: User): (r: seq<User>)
    ensures |r| == |users|
    ensures forall i :: 0 <= i < |users| ==> r[i] == if users[i].id == u.id then u else users[i]
  {
    if users == [] then []
    else [if users[0].id == u.id then u else users[0]] + ReplaceById(users[1..], u)
  }

  /** `users.filter(user => user.id !== id)`. */
  function RemoveById(users: seq<User>, id: int): (r: seq<User>)
    ensures IsSubsequence(r, users)
    ensures forall u :: multiset(r)[u] == if u.id == id then 0 else multiset(users)[u]
  {
    if users == [] then []
    else
      var rest := RemoveById(users[1..], id);
      assert users == [users[0]] + users[1..];
      if users[0].id != id then
        assert ([users[0]] + rest)[1..] == rest;
        [users[0]] + rest
      else rest
  }

  /** `userReducer`: each part of the state changes only under the actions
      that own it, and an unknown action changes nothing. */
  function UserReducer(state: State, action: Action): (r: State)
    ensures action.UnknownAction? ==> r == state
    ensures r.users == state.users || action.SetUsers? || action.AddUser? || action.UpdateUser? || action.DeleteUser?
    ensures r.loading == state.loading || action.SetLoading? || action.SetError?
    ensures r.error == state.error || action.SetError? || action.SetUsers?
    ensures r.filters == state.filters || action.SetFilters?
    ensures r.pagination == state.pagination || action.AddUser? || action.DeleteUser? || action.SetFilters? || action.SetPagination?
    ensures r.sortConfig == state.sortConfig || action.SetSort?
  {
    match action
    case SetLoading(b) => state.(loading := b)
    case SetUsers(us) => state.(users := us, error := None)
    case SetError(msg) => state.(error := Some(msg), loading := false)
    case AddUser(u) =>
      state.(users := [u] + state.users,
             pagination := state.pagination.(totalItems := state.pagination.totalItems + 1))
    case UpdateUser(u) => state.(users := ReplaceById(state.users, u))
    case DeleteUser(id) =>
      state.(users := RemoveById(state.users, id),
             pagination := state.pagination.(totalItems := state.pagination.totalItems - 1))
    case SetFilters(p) =>
      state.(filters := ApplyFilterPatch(state.filters, p),
             pagination := state.pagination.(currentPage := 1))
    case SetPagination(p) => state.(pagination := ApplyPaginationPatch(state.pagination, p))
    case SetSort(cfg) => state.(sortConfig := cfg)
    case UnknownAction(_) => state
  }

  /** The state after dispatching `actions` in order. */
  function Run(state: State, actions: seq<Action>): State
    decreases |actions|
  {
    if actions == [] then state else Run(UserReducer(state, actions[0]), actions[1..])
  }

  lemma {:induction false} RunConcat(state: State, a: seq<Action>, b: seq<Action>)
    ensures Run(state, a + b) == Run(Run(state, a), b)
    decreases |a|
  {
    if a == [] {
      assert a + b == b;
    } else {
      assert (a + b)[1..] == a[1..] + b;
      RunConcat(UserReducer(state, a[0]), a[1..], b);
    }
  }

  /** Dispatching three actions in a row. */
  lemma RunThree(state: State, a: Action, b: Action, c: Action)
    ensures Run(state, [a, b, c]) == UserReducer(UserReducer(UserReducer(state, a), b), c)
  {
    var s1 := UserReducer(state, a);
    var s2 := UserReducer(s1, b);
    var s3 := UserReducer(s2, c);
    assert Run(s3, []) == s3;
    assert [c][1..] == [];
    assert Run(s2, [c]) == s3;
    assert [b, c][1..] == [c];
    assert Run(s1, [b, c]) == s3;
    assert [a, b, c][1..] == [b, c];
  }

  /** Dispatching four actions in a row. */
  lemma RunFour(state: State, a: Action, b: Action, c: Action, d: Action)
    ensures Run(state, [a, b, c, d]) == UserReducer(UserReducer(UserReducer(UserReducer(state, a), b), c), d)
  {
    var acts := [a, b, c, d];
    assert acts[1..] == [b, c, d];
    RunThree(UserReducer(state, a), b, c, d);
  }

  /** SET_ERROR records the message and always ends loading; SET_USERS
      replaces the users and clears the error but leaves `loading` alone. */
  lemma ErrorAndUsersEffects(s: State, msg: string, us: seq<User>)
    ensures UserReducer(s, SetError(msg)) == s.(error := Some(msg), loading := false)
    ensures var r := UserReducer(s, SetUsers(us)); r.users == us && r.error == None && r.loading == s.loading
  {
  }

  /** ADD_USER puts the user first and counts exactly one more item;
      nothing else changes. */
  lemma AddUserEffect(s: State, u: User)
    ensures var r := UserReducer(s, AddUser(u));
      && r.users == [u] + s.users
      && r.users[0] == u && r.users[1..] == s.users
      && r.pagination.totalItems == s.pagination.totalItems + 1
      && r.(users := s.users, pagination := s.pagination) == s
      && r.pagination.(totalItems := s.pagination.totalItems) == s.pagination
  {
  }

  /** UPDATE_USER keeps length and order and swaps in the new record at
      every position holding its id; with no such position nothing changes. */
  lemma UpdateUserEffect(s: State, u: User)
    ensures var r := UserReducer(s, UpdateUser(u));
      && |r.users| == |s.users|
      && (forall i :: 0 <= i < |s.users| ==> r.users[i] == if s.users[i].id == u.id then u else s.users[i])
      && r.(users := s.users) == s
    ensures (forall v :: v in s.users ==> v.id != u.id) ==> UserReducer(s, UpdateUser(u)) == s
  {
    var r := UserReducer(s, UpdateUser(u));
    if forall v :: v in s.users ==> v.id != u.id {
      assert r.users == s.users;
    }
  }

  /** DELETE_USER drops every record with the id, keeps the others in order,
      and lowers `totalItems` by one whether or not the id was present. */
  lemma DeleteUserEffect(s: State, id: int)
    ensures var r := UserReducer(s, DeleteUser(id));
      && IsSubsequence(r.users, s.users)
      && (forall v :: v in r.users <==> v in s.users && v.id != id)
      && r.pagination.totalItems == s.pagination.totalItems - 1
      && r.(users := s.users, pagination := s.pagination) == s
      && r.pagination.(totalItems := s.pagination.totalItems) == s.pagination
  {
    var r := UserReducer(s, DeleteUser(id));
    forall v ensures v in r.users <==> v in s.users && v.id != id {
      assert v in r.users <==> multiset(r.users)[v] > 0;
      assert v in s.users <==> multiset(s.users)[v] > 0;
    }
  }

  /** Removing an id that is not present leaves the list as it is. */
  lemma {:induction false} RemoveAbsentId(users: seq<User>, id: int)
    requires forall v :: v in users ==> v.id != id
    ensures RemoveById(users, id) == users
  {
    if users != [] {
      RemoveAbsentId(users[1..], id);
      assert users == [users[0]] + users[1..];
    }
  }

  /** A second DELETE_USER of the same id leaves the users alone but lowers
      `totalItems` once more. */
  lemma RepeatedDelete(s: State, id: int)
    ensures var once := UserReducer(s, DeleteUser(id));
      var twice := UserReducer(once, DeleteUser(id));
      && twice.users == once.users
      && twice.pagination.totalItems == s.pagination.totalItems - 2
  {
    var once := UserReducer(s, DeleteUser(id));
    DeleteUserEffect(s, id);
    RemoveAbsentId(once.users, id);
  }

  /** SET_FILTERS overlays the payload and returns to page 1, even when the
      payload changes nothing; page size and item count stay. */
  lemma SetFiltersEffect(s: State, p: FilterPatch)
    ensures var r := UserReducer(s, SetFilters(p));
      && r.filters == ApplyFilterPatch(s.filters, p)
      && r.pagination == s.pagination.(currentPage := 1)
      && r.(filters := s.filters, pagination := s.pagination) == s
    ensures ApplyFilterPatch(s.filters, p) == s.filters ==> UserReducer(s, SetFilters(p)) == s.(pagination := s.pagination.(currentPage := 1))
  {
  }

  /** A filter key absent from the payload keeps its value, a present one
      takes the payload's. */
  lemma FilterPatchOverlay(f: Filters, p: FilterPatch)
    ensures ApplyFilterPatch(f, p).search == (if p.search.Some? then p.search.value else f.search)
    ensures ApplyFilterPatch(f, p).name == (if p.name.Some? then p.name.value else f.name)
    ensures ApplyFilterPatch(f, p).email == (if p.email.Some? then p.email.value else f.email)
    ensures ApplyFilterPatch(f, p).company == (if p.company.Some? then p.company.value else f.company)
  {
  }

  /** SET_PAGINATION changes just the keys its payload carries; SET_SORT
      replaces the sort settings as a whole. */
  lemma PaginationAndSortEffects(s: State, p: PaginationPatch, cfg: SortConfig)
    ensures var r := UserReducer(s, SetPagination(p));
      && r.(pagination := s.pagination) == s
      && (p.currentPage.None? ==> r.pagination.currentPage == s.pagination.currentPage)
      && (p.itemsPerPage.None? ==> r.pagination.itemsPerPage == s.pagination.itemsPerPage)
      && (p.totalItems.None? ==> r.pagination.totalItems == s.pagination.totalItems)
      && (p.currentPage.Some? ==> r.pagination.currentPage == p.currentPage.value)
      && (p.itemsPerPage.Some? ==> r.pagination.itemsPerPage == p.itemsPerPage.value)
      && (p.totalItems.Some? ==> r.pagination.totalItems == p.totalItems.value)
    ensures UserReducer(s, SetSort(cfg)) == s.(sortConfig := cfg)
  {
  }

  /** An action type the reducer does not know returns the state itself. */
  lemma UnknownActionIgnored(s: State, tag: string)
    requires tag !in ActionTypes
    ensures UserReducer(s, UnknownAction(tag)) == s
  {
  }
}
