/** The dashboard page (src/pages/UsersDashboard.jsx): the list it shows,
    computed from the store as filter, then sort, then paginate; which
    screen it shows; and the handlers that turn clicks and form submissions
    into store operations. */
module UsersDashboard {
  import opened Wrappers
  import opened UserModel
  import opened Filtering
  import opened Sorting
  import opened Paging
  import opened UserContext
  import opened UseUsers
  import opened FilterPanelView
  import opened PaginationView
  import opened Sequences

  /** `processedUsers`: the current page and how many records passed the
      filters. */
  datatype Processed = Processed(data: seq<User>, totalFiltered: nat)

  function ProcessedUsers(s: State): (r: Processed)
    ensures |r.data| <= r.totalFiltered <= |s.users|
  {
    var filtered := FilterData(s.users, s.filters);
    SubsequenceNoLonger(filtered, s.users);
    var sorted := SortData(filtered, s.sortConfig);
    Processed(PaginateData(sorted, s.pagination.currentPage, s.pagination.itemsPerPage), |filtered|)
  }

  lemma SliceMembers<T>(s: seq<T>, start: int, end: int)
    ensures forall x :: x in Slice(s, start, end) ==> x in s
  {
    var from := SliceIndex(start, |s|);
    var to := SliceIndex(end, |s|);
    if from < to {
      forall x | x in s[from..to] ensures x in s {
        var k :| from <= k < to && s[k] == x;
      }
    }
  }

  /** Every record on the page is a stored record that passes the filters,
      the page holds at most `itemsPerPage` of them and never more than
      passed the filters. */
  lemma ProcessedPageContents(s: State)
    requires s.pagination.currentPage >= 1 && s.pagination.itemsPerPage >= 0
    ensures var p := ProcessedUsers(s);
      && |p.data| <= s.pagination.itemsPerPage
      && |p.data| <= p.totalFiltered
      && (forall u :: u in p.data ==> u in s.users && Matches(u, s.filters))
  {
    var filtered := FilterData(s.users, s.filters);
    var sorted := SortData(filtered, s.sortConfig);
    PageWindow(sorted, s.pagination.currentPage, s.pagination.itemsPerPage);
    SliceMembers(sorted, (s.pagination.currentPage - 1) * s.pagination.itemsPerPage,
      (s.pagination.currentPage - 1) * s.pagination.itemsPerPage + s.pagination.itemsPerPage);
    forall u | u in ProcessedUsers(s).data ensures u in s.users && Matches(u, s.filters) {
      assert u in sorted;
      assert multiset(sorted)[u] > 0;
      KeptIffMatches(s.users, s.filters, u);
    }
  }

  /** The count of filtered records does not depend on the sort settings or
      on the page being viewed. */
  lemma TotalFilteredIgnoresSortAndPage(s: State, sortConfig: SortConfig, pagination: Pagination)
    ensures ProcessedUsers(s.(sortConfig := sortConfig, pagination := pagination)).totalFiltered
      == ProcessedUsers(s).totalFiltered
  {
  }

  lemma PageBeforeEnd(p: int, n: int, t: nat, r: int)
    requires p >= 1 && n > 0 && r >= 0
    requires (p - 1) * n < t <= r * n
    ensures p <= r
  {
    if p > r {
      MulNonNegative(p - 1 - r, n);
    }
  }

  /** The pagination bar is given the count of filtered records; whenever
      the page being shown is non-empty, the current page is one of the
      pages that count makes. */
  lemma ShownPageExists(s: State)
    requires s.pagination.currentPage >= 1 && s.pagination.itemsPerPage > 0
    requires ProcessedUsers(s).data != []
    ensures 1 <= s.pagination.currentPage <= TotalPages(ProcessedUsers(s).totalFiltered, s.pagination.itemsPerPage)
  {
    var p, n := s.pagination.currentPage, s.pagination.itemsPerPage;
    var filtered := FilterData(s.users, s.filters);
    var sorted := SortData(filtered, s.sortConfig);
    PageWindow(sorted, p, n);
    PageBeforeEnd(p, n, |filtered|, TotalPages(|filtered|, n));
  }

  /** With empty filters every stored record is counted. */
  lemma ClearedFiltersCountEveryone(s: State)
    requires s.filters == EmptyFilters
    ensures ProcessedUsers(s).totalFiltered == |s.users|
  {
    EmptyFiltersKeepAll(s.users);
  }

  /** A created record is counted iff it passes the current filters. */
  lemma AddedUserCounted(s: State, u: User)
    ensures ProcessedUsers(UserReducer(s, AddUser(u))).totalFiltered
      == ProcessedUsers(s).totalFiltered + (if Matches(u, s.filters) then 1 else 0)
  {
    var us := [u] + s.users;
    assert us[0] == u && us[1..] == s.users;
  }

  /** After a delete, no record with that id is on any page. */
  lemma DeletedUserGone(s: State, id: int)
    requires s.pagination.currentPage >= 1 && s.pagination.itemsPerPage >= 0
    ensures forall u :: u in ProcessedUsers(UserReducer(s, DeleteUser(id))).data ==> u.id != id
  {
    var s1 := UserReducer(s, DeleteUser(id));
    ProcessedPageContents(s1);
    DeleteUserEffect(s, id);
  }

  /** Typing in the search box changes the search text only and goes back
      to page 1. */
  lemma SearchChangeResetsPage(s: State, value: string)
    ensures var s1 := UserReducer(s, SetFilters(HandleSearchChange(value)));
      && s1.filters == s.filters.(search := value)
      && s1.pagination == s.pagination.(currentPage := 1)
      && s1.users == s.users && s1.sortConfig == s.sortConfig
  {
  }

  /** Applying the filter dialog replaces all four filters with the
      dialog's copy, the search text included: a search typed after the
      panel was created is replaced by the copy's search text. */
  lemma ApplyReplacesSearch(s: State, local: Filters)
    ensures UserReducer(s, SetFilters(FullPatch(local))).filters == local
    ensures local.search != s.filters.search ==>
      UserReducer(s, SetFilters(FullPatch(local))).filters.search != s.filters.search
  {
  }

  /** Choosing a page size shows the first page of the new size and records
      the filtered count as the item total. */
  lemma PageSizeChangeShowsFirstPage(s: State, n: int)
    requires n >= 0
    ensures var s1 := UserReducer(s, SetPagination(ItemsPerPagePatch(s, n)));
      var sorted := SortData(FilterData(s.users, s.filters), s.sortConfig);
      && s1.pagination == Pagination(1, n, ProcessedUsers(s).totalFiltered)
      && ProcessedUsers(s1).data == sorted[..Min(n, |sorted|)]
  {
    var sorted := SortData(FilterData(s.users, s.filters), s.sortConfig);
    PageWindow(sorted, 1, n);
  }

  /** The payload of a page-size change. */
  function ItemsPerPagePatch(s: State, n: int): PaginationPatch
  {
    PaginationPatch(Some(1), Some(n), Some(ProcessedUsers(s).totalFiltered))
  }

  /** What the page shows. */
  datatype Screen =
    | ErrorScreen(message: string)
    | Spinner
    | Content(rows: seq<User>, paginationShown: bool)

  /** An error with a non-empty message replaces the whole page; while
      loading with no records a spinner shows; otherwise the table and, for
      a non-empty page, the pagination bar. */
  function CurrentScreen(s: State): (r: Screen)
    ensures r.ErrorScreen? <==> s.error.Some? && s.error.value != ""
    ensures r.Spinner? <==> !(s.error.Some? && s.error.value != "") && s.loading && s.users == []
    ensures r.Content? ==> r.rows == ProcessedUsers(s).data && (r.paginationShown <==> r.rows != [])
  {
    if s.error.Some? && s.error.value != "" then ErrorScreen(s.error.value)
    else if s.loading && |s.users| == 0 then Spinner
    else
      var data := ProcessedUsers(s).data;
      Content(data, |data| > 0)
  }

  /** A failed fetch with a message leaves the error screen up until a later
      fetch succeeds. */
  lemma FailedFetchShowsError(s: State, msg: string)
    requires msg != ""
    ensures CurrentScreen(Run(s, FetchActions(Failure(msg)))) == ErrorScreen(msg)
    ensures !CurrentScreen(Run(Run(s, FetchActions(Failure(msg))), FetchActions(Success(s.users)))).ErrorScreen?
  {
    FailureEffect(s, msg, 0);
    FetchSuccessEffect(Run(s, FetchActions(Failure(msg))), s.users);
  }

  /** The dashboard's own state: which dialogs are open and what they act on. */
  class Dashboard {
    const store: UserStore
    var isAddModalOpen: bool
    var isEditModalOpen: bool
    var selectedUser: Option<User>
    var isDeleteConfirmOpen: bool
    var userToDelete: Option<int>

    /** The edit dialog is open exactly when a record is selected, and the
        delete confirmation exactly when an id is chosen. */
    ghost predicate Valid()
      reads this
    {
      && (isEditModalOpen <==> selectedUser.Some?)
      && (isDeleteConfirmOpen <==> userToDelete.Some?)
    }

    constructor (store: UserStore)
      ensures this.store == store && Valid()
      ensures !isAddModalOpen && !isEditModalOpen && !isDeleteConfirmOpen
    {
      this.store := store;
      isAddModalOpen := false;
      isEditModalOpen := false;
      selectedUser := None;
      isDeleteConfirmOpen := false;
      userToDelete := None;
    }

    /** The Add User button. */
    method OpenAddModal()
      modifies this
      requires Valid()
      ensures Valid() && isAddModalOpen
      ensures isEditModalOpen == old(isEditModalOpen) && selectedUser == old(selectedUser)
      ensures isDeleteConfirmOpen == old(isDeleteConfirmOpen) && userToDelete == old(userToDelete)
    {
      isAddModalOpen := true;
    }

    /** The add dialog's close control and its Cancel button. */
    method CloseAddModal()
      modifies this
      requires Valid()
      ensures Valid() && !isAddModalOpen
      ensures isEditModalOpen == old(isEditModalOpen) && selectedUser == old(selectedUser)
      ensures isDeleteConfirmOpen == old(isDeleteConfirmOpen) && userToDelete == old(userToDelete)
    {
      isAddModalOpen := false;
    }

    /** Submitting the add form: the dialog closes only when the create
        succeeds. */
    method HandleAddUser(input: UserInput, outcome: Outcome<User>)
      modifies this, store
      requires Valid()
      ensures Valid()
      ensures store.requests == old(store.requests) + [CreateRequest(input)]
      ensures store.state == Run(old(store.state), CreateActions(outcome))
      ensures store.trace == old(store.trace) + CreateActions(outcome)
      ensures isAddModalOpen == (old(isAddModalOpen) && outcome.Failure?)
      ensures isEditModalOpen == old(isEditModalOpen) && selectedUser == old(selectedUser)
      ensures isDeleteConfirmOpen == old(isDeleteConfirmOpen) && userToDelete == old(userToDelete)
    {
      var result := store.CreateUser(input, outcome);
      if result.Success? {
        isAddModalOpen := false;
      }
    }

    /** The Edit button of a row. */
    method OpenEditModal(user: User)
      modifies this
      requires Valid()
      ensures Valid() && isEditModalOpen && selectedUser == Some(user)
      ensures isAddModalOpen == old(isAddModalOpen)
      ensures isDeleteConfirmOpen == old(isDeleteConfirmOpen) && userToDelete == old(userToDelete)
    {
      selectedUser := Some(user);
      isEditModalOpen := true;
    }

    /** The edit dialog's close control and its Cancel button. */
    method CloseEditModal()
      modifies this
      requires Valid()
      ensures Valid() && !isEditModalOpen && selectedUser.None?
      ensures isAddModalOpen == old(isAddModalOpen)
      ensures isDeleteConfirmOpen == old(isDeleteConfirmOpen) && userToDelete == old(userToDelete)
    {
      isEditModalOpen := false;
      selectedUser := None;
    }

    /** Submitting the edit form: the request goes to the selected record's
        id and its payload carries that id whatever the form sent. With no
        record selected, reading its id fails inside the handler's `try`
        and nothing is sent. */
    method HandleEditUser(input: UserInput, outcome: Outcome<User>)
      modifies this, store
      requires Valid()
      ensures Valid()
      ensures old(selectedUser).None? ==>
        store.requests == old(store.requests) && store.state == old(store.state) && store.trace == old(store.trace)
      ensures old(selectedUser).Some? ==>
        var id := old(selectedUser).value.id;
        && store.requests == old(store.requests) + [UpdateRequest(id, input.(id := Some(id)))]
        && store.state == Run(old(store.state), UpdateActions(outcome))
        && store.trace == old(store.trace) + UpdateActions(outcome)
      ensures old(selectedUser).Some? && outcome.Success? ==> !isEditModalOpen && selectedUser.None?
      ensures old(selectedUser).None? || outcome.Failure? ==>
        isEditModalOpen == old(isEditModalOpen) && selectedUser == old(selectedUser)
      ensures isAddModalOpen == old(isAddModalOpen)
      ensures isDeleteConfirmOpen == old(isDeleteConfirmOpen) && userToDelete == old(userToDelete)
    {
      match selectedUser {
        case None =>
        case Some(sel) =>
          var result := store.UpdateUser(sel.id, input.(id := Some(sel.id)), outcome);
          if result.Success? {
            isEditModalOpen := false;
            selectedUser := None;
          }
      }
    }

    /** The Delete button of a row. */
    method OpenDeleteConfirm(userId: int)
      modifies this
      requires Valid()
      ensures Valid() && isDeleteConfirmOpen && userToDelete == Some(userId)
      ensures isAddModalOpen == old(isAddModalOpen)
      ensures isEditModalOpen == old(isEditModalOpen) && selectedUser == old(selectedUser)
    {
      userToDelete := Some(userId);
      isDeleteConfirmOpen := true;
    }

    /** The confirmation's close control and its Cancel button. */
    method CloseDeleteConfirm()
      modifies this
      requires Valid()
      ensures Valid() && !isDeleteConfirmOpen && userToDelete.None?
      ensures isAddModalOpen == old(isAddModalOpen)
      ensures isEditModalOpen == old(isEditModalOpen) && selectedUser == old(selectedUser)
    {
      isDeleteConfirmOpen := false;
      userToDelete := None;
    }

    /** Confirming the delete; its button exists only inside the open
        confirmation, where an id has been chosen. The confirmation closes
        only when the delete succeeds. */
    method HandleDeleteUser(outcome: Outcome<()>)
      modifies this, store
      requires Valid() && userToDelete.Some?
      ensures Valid()
      ensures store.requests == old(store.requests) + [DeleteRequest(old(userToDelete).value)]
      ensures store.state == Run(old(store.state), DeleteActions(old(userToDelete).value, outcome))
      ensures store.trace == old(store.trace) + DeleteActions(old(userToDelete).value, outcome)
      ensures outcome.Success? ==> !isDeleteConfirmOpen && userToDelete.None?
      ensures outcome.Failure? ==> isDeleteConfirmOpen == old(isDeleteConfirmOpen) && userToDelete == old(userToDelete)
      ensures isAddModalOpen == old(isAddModalOpen)
      ensures isEditModalOpen == old(isEditModalOpen) && selectedUser == old(selectedUser)
    {
      var failure := store.DeleteUser(userToDelete.value, outcome);
      if failure.None? {
        isDeleteConfirmOpen := false;
        userToDelete := None;
      }
    }

    /** A filter change from the panel. */
    method HandleFilterChange(patch: FilterPatch)
      modifies store
      ensures store.state == UserReducer(old(store.state), SetFilters(patch))
      ensures store.trace == old(store.trace) + [SetFilters(patch)]
      ensures store.requests == old(store.requests)
    {
      store.Dispatch(SetFilters(patch));
    }

    /** The panel's Clear buttons: every filter becomes empty and page 1
        shows. */
    method HandleClearFilters()
      modifies store
      ensures store.state == UserReducer(old(store.state), SetFilters(FullPatch(EmptyFilters)))
      ensures store.state.filters == EmptyFilters && store.state.pagination.currentPage == 1
      ensures store.trace == old(store.trace) + [SetFilters(FullPatch(EmptyFilters))]
      ensures store.requests == old(store.requests)
    {
      store.Dispatch(SetFilters(FilterPatch(Some(""), Some(""), Some(""), Some(""))));
    }

    /** A sort change from the table header. */
    method HandleSort(sortConfig: SortConfig)
      modifies store
      ensures store.state == UserReducer(old(store.state), SetSort(sortConfig))
      ensures store.trace == old(store.trace) + [SetSort(sortConfig)]
      ensures store.requests == old(store.requests)
    {
      store.Dispatch(SetSort(sortConfig));
    }

    /** A page button: only the current page changes. */
    method HandlePageChange(page: int)
      modifies store
      ensures store.state == UserReducer(old(store.state), SetPagination(PaginationPatch(Some(page), None, None)))
      ensures store.state.pagination == old(store.state.pagination).(currentPage := page)
      ensures store.trace == old(store.trace) + [SetPagination(PaginationPatch(Some(page), None, None))]
      ensures store.requests == old(store.requests)
    {
      store.Dispatch(SetPagination(PaginationPatch(Some(page), None, None)));
    }

    /** The page-size selector: new size, page 1, and the filtered count as
        the item total. */
    method HandleItemsPerPageChange(itemsPerPage: int)
      modifies store
      ensures store.state == UserReducer(old(store.state), SetPagination(ItemsPerPagePatch(old(store.state), itemsPerPage)))
      ensures store.state.pagination == Pagination(1, itemsPerPage, ProcessedUsers(old(store.state)).totalFiltered)
      ensures store.trace == old(store.trace) + [SetPagination(ItemsPerPagePatch(old(store.state), itemsPerPage))]
      ensures store.requests == old(store.requests)
    {
      var processed := ProcessedUsers(store.state);
      store.Dispatch(SetPagination(PaginationPatch(Some(1), Some(itemsPerPage), Some(processed.totalFiltered))));
    }

    // The filter panel's callbacks, `onFilterChange={handleFilterChange}`
    // and `onClearFilters={handleClearFilters}`.

    /** Typing in the panel's search box. */
    method SearchFromPanel(value: string)
      modifies store
      ensures store.state == UserReducer(old(store.state), SetFilters(HandleSearchChange(value)))
      ensures store.state.filters == old(store.state.filters).(search := value)
      ensures store.state.pagination.currentPage == 1
      ensures store.trace == old(store.trace) + [SetFilters(HandleSearchChange(value))]
      ensures store.requests == old(store.requests)
    {
      HandleFilterChange(HandleSearchChange(value));
    }

    /** The dialog's Apply: the store takes the dialog's copy, the search
        text included, and page 1 shows. */
    method ApplyFromPanel(panel: FilterPanel)
      modifies panel, store
      ensures panel.localFilters == old(panel.localFilters) && !panel.isFilterModalOpen
      ensures store.state == UserReducer(old(store.state), SetFilters(FullPatch(old(panel.localFilters))))
      ensures store.state.filters == old(panel.localFilters) && store.state.pagination.currentPage == 1
      ensures store.trace == old(store.trace) + [SetFilters(FullPatch(old(panel.localFilters)))]
      ensures store.requests == old(store.requests)
    {
      var patch := panel.ApplyFilters();
      HandleFilterChange(patch);
    }

    /** The dialog's Clear All: the dialog's copy and the store's filters
        both become empty, the dialog closes and page 1 shows. */
    method ClearAllFromPanel(panel: FilterPanel)
      modifies panel, store
      ensures panel.localFilters == EmptyFilters && !panel.isFilterModalOpen
      ensures store.state == UserReducer(old(store.state), SetFilters(FullPatch(EmptyFilters)))
      ensures store.state.filters == EmptyFilters && store.state.pagination.currentPage == 1
      ensures store.trace == old(store.trace) + [SetFilters(FullPatch(EmptyFilters))]
      ensures store.requests == old(store.requests)
    {
      panel.ClearAllFilters();
      HandleClearFilters();
    }
  }
}
