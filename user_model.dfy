/** The records and view settings the dashboard works on. */
module UserModel {
  import opened Wrappers

  datatype Company = Company(name: string)

  /** A user record as the directory service returns it. `company` is absent
      for records created without one. */
  datatype User = User(
    id: int,
    name: string,
    username: string,
    email: string,
    phone: string,
    website: string,
    company: Option<Company>)

  /** What the user form submits: any field may be missing. The edit handler
      adds the selected record's `id`. */
  datatype UserInput = UserInput(
    id: Option<int>,
    name: Option<string>,
    username: Option<string>,
    email: Option<string>,
    phone: Option<string>,
    website: Option<string>,
    company: Option<Company>)

  /** The sortable columns of the user table. */
  datatype Column = IdColumn | NameColumn | EmailColumn | PhoneColumn | CompanyNameColumn

  /** The key path each column header emits when clicked. */
  function ColumnPath(c: Column): string
  {
    match c
    case IdColumn => "id"
    case NameColumn => "name"
    case EmailColumn => "email"
    case PhoneColumn => "phone"
    case CompanyNameColumn => "company.name"
  }

  /** The store's filter settings: free-text search plus three field filters. */
  datatype Filters = Filters(search: string, name: string, email: string, company: string)

  const EmptyFilters := Filters("", "", "", "")

  /** The store's sort settings; `key == None` stands for `null` (no sorting). */
  datatype SortConfig = SortConfig(key: Option<Column>, direction: string)

  predicate IsAscending(direction: string)
  {
    direction == "asc"
  }
}
