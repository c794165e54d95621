/** The users table (src/components/users/UserTable.jsx): what it renders,
    the header sort icons, the header-click sort toggle and the company
    cell. */
module UserTableView {
  import opened Wrappers
  import opened UserModel

  /** The header icon: both arrows on an unsorted column, one arrow on the
      sorted one. */
  datatype SortIcon = BothArrows | ArrowUp | ArrowDown

  function GetSortIcon(sortConfig: SortConfig, column: Column): (r: SortIcon)
    ensures r == BothArrows <==> sortConfig.key != Some(column)
    ensures r == ArrowUp <==> sortConfig.key == Some(column) && IsAscending(sortConfig.direction)
  {
    if sortConfig.key != Some(column) then BothArrows
    else if IsAscending(sortConfig.direction) then ArrowUp
    else ArrowDown
  }

  /** Clicking a header sorts by that column: descending when it is already
      the ascending key, ascending otherwise. */
  function HandleSort(sortConfig: SortConfig, column: Column): (r: SortConfig)
    ensures r.key == Some(column)
    ensures r.direction == "asc" || r.direction == "desc"
    ensures r.direction == "desc" <==> sortConfig.key == Some(column) && IsAscending(sortConfig.direction)
  {
    var direction := if sortConfig.key == Some(column) && sortConfig.direction == "asc" then "desc" else "asc";
    SortConfig(Some(column), direction)
  }

  /** Clicks on one column alternate between ascending and descending:
      after the first click, every second click restores the order, and the
      icon always shows an arrow on that column only. */
  lemma SortToggleAlternates(sortConfig: SortConfig, column: Column, other: Column)
    requires other != column
    ensures var once := HandleSort(sortConfig, column);
      var twice := HandleSort(once, column);
      && twice.direction != once.direction
      && HandleSort(twice, column) == once
      && GetSortIcon(once, column) != BothArrows
      && GetSortIcon(once, other) == BothArrows
  {
  }

  /** A different column always starts ascending, whatever the direction
      was. */
  lemma NewColumnStartsAscending(sortConfig: SortConfig, column: Column)
    requires sortConfig.key != Some(column)
    ensures HandleSort(sortConfig, column) == SortConfig(Some(column), "asc")
    ensures GetSortIcon(HandleSort(sortConfig, column), column) == ArrowUp
  {
  }

  /** `user.company?.name || 'N/A'`. */
  function CompanyCell(u: User): (r: string)
    ensures u.company.Some? && u.company.value.name != "" ==> r == u.company.value.name
    ensures u.company.None? || u.company.value.name == "" ==> r == "N/A"
  {
    if u.company.Some? && u.company.value.name != "" then u.company.value.name else "N/A"
  }

  /** What the table area shows. */
  datatype TableContent = Skeleton | NoUsersFound | Rows(users: seq<User>)

  /** A loading skeleton while loading, a "No users found" message for an
      empty page, the rows otherwise. */
  function RenderTable(users: seq<User>, isLoading: bool): (r: TableContent)
    ensures r.Skeleton? <==> isLoading
    ensures r.NoUsersFound? <==> !isLoading && users == []
    ensures r.Rows? ==> r.users == users && users != []
  {
    if isLoading then Skeleton
    else if |users| == 0 then NoUsersFound
    else Rows(users)
  }
}
