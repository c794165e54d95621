/** The search box and the advanced-filter dialog
    (src/components/users/FilterPanel.jsx). The dialog edits a local copy of
    the filters that is taken from the store once, when the panel is
    created, and is sent back as a whole on Apply. */
module FilterPanelView {
  import opened Wrappers
  import opened UserModel
  import opened UserContext

  /** Typing in the search box sends a patch carrying the search text only. */
  function HandleSearchChange(value: string): (p: FilterPatch)
    ensures p.search == Some(value)
    ensures p.name.None? && p.email.None? && p.company.None?
    ensures forall f :: ApplyFilterPatch(f, p) == f.(search := value)
  {
    FilterPatch(Some(value), None, None, None)
  }

  /** `onFilterChange(localFilters)`: a patch carrying all four keys. */
  function FullPatch(f: Filters): (p: FilterPatch)
    ensures forall g :: ApplyFilterPatch(g, p) == f
  {
    FilterPatch(Some(f.search), Some(f.name), Some(f.email), Some(f.company))
  }

  /** The three text fields of the dialog, by their `name` attribute. */
  datatype FilterField = NameField | EmailField | CompanyField

  /** `{ ...prev, [name]: value }`. */
  function SetField(f: Filters, field: FilterField, value: string): (r: Filters)
    ensures r.search == f.search
    ensures r.name == if field == NameField then value else f.name
    ensures r.email == if field == EmailField then value else f.email
    ensures r.company == if field == CompanyField then value else f.company
  {
    match field
    case NameField => f.(name := value)
    case EmailField => f.(email := value)
    case CompanyField => f.(company := value)
  }

  /** The panel highlights the Filters button (and offers Clear) when a
      name, email or company filter is non-empty; the search text does not
      count. */
  predicate HasActiveFilters(f: Filters)
    ensures HasActiveFilters(f) <==> f.(search := "") != EmptyFilters
  {
    f.name != "" || f.email != "" || f.company != ""
  }

  /** How many of `values` are non-empty and differ from `search`. */
  function CountActive(values: seq<string>, search: string): (r: nat)
    ensures r <= |values|
    ensures (forall i :: 0 <= i < |values| ==> values[i] == "" || values[i] == search) ==> r == 0
  {
    if values == [] then 0
    else (if values[0] != "" && values[0] != search then 1 else 0) + CountActive(values[1..], search)
  }

  /** The number on the badge: the filter values, in the order search, name,
      email, company, that are non-empty and differ from the search text. */
  function BadgeCount(f: Filters): (r: nat)
    ensures r <= 3
    ensures r > 0 ==> HasActiveFilters(f)
  {
    var vs := [f.search, f.name, f.email, f.company];
    assert vs[1..] == [f.name, f.email, f.company];
    CountActive(vs, f.search)
  }

  function Indicator(b: bool): nat { if b then 1 else 0 }

  /** The badge counts each of name, email and company that is non-empty and
      not equal to the search text; the search value itself is never
      counted, so the badge shows at most 3. */
  lemma BadgeCountMeaning(f: Filters)
    ensures BadgeCount(f)
      == Indicator(f.name != "" && f.name != f.search)
       + Indicator(f.email != "" && f.email != f.search)
       + Indicator(f.company != "" && f.company != f.search)
    ensures BadgeCount(f) <= 3
  {
    var s := f.search;
    var vs := [s, f.name, f.email, f.company];
    assert vs[1..] == [f.name, f.email, f.company];
    assert [f.name, f.email, f.company][1..] == [f.email, f.company];
    assert [f.email, f.company][1..] == [f.company];
    assert [f.company][1..] == [];
    assert CountActive([f.company], s) == Indicator(f.company != "" && f.company != s);
    assert CountActive([f.email, f.company], s) == Indicator(f.email != "" && f.email != s) + CountActive([f.company], s);
    assert CountActive(vs[1..], s) == Indicator(f.name != "" && f.name != s) + CountActive([f.email, f.company], s);
  }

  /** With an empty search text the badge is shown iff it counts something. */
  lemma BadgeAgreesWithoutSearch(f: Filters)
    requires f.search == ""
    ensures HasActiveFilters(f) <==> BadgeCount(f) > 0
  {
    BadgeCountMeaning(f);
  }

  /** A filter equal to the search text is active but not counted: the
      badge can read 0. */
  lemma ActiveFilterWithZeroBadge()
    ensures var f := Filters("ann", "ann", "", "");
      HasActiveFilters(f) && BadgeCount(f) == 0
  {
    BadgeCountMeaning(Filters("ann", "ann", "", ""));
  }

  /** The panel's own state: the dialog's copy of the filters and whether
      the dialog is open. */
  class FilterPanel {
    var localFilters: Filters
    var isFilterModalOpen: bool

    /** `useState(false)` and `useState(filters)` on first render. */
    constructor (filters: Filters)
      ensures localFilters == filters && !isFilterModalOpen
    {
      localFilters := filters;
      isFilterModalOpen := false;
    }

    /** The Filters button. */
    method OpenFilterModal()
      modifies this
      ensures isFilterModalOpen && localFilters == old(localFilters)
    {
      isFilterModalOpen := true;
    }

    /** The dialog's close control and its Cancel button: edits are kept. */
    method CloseFilterModal()
      modifies this
      ensures !isFilterModalOpen && localFilters == old(localFilters)
    {
      isFilterModalOpen := false;
    }

    /** Editing one field of the dialog. */
    method HandleLocalFilterChange(field: FilterField, value: string)
      modifies this
      ensures localFilters == SetField(old(localFilters), field, value)
      ensures isFilterModalOpen == old(isFilterModalOpen)
    {
      localFilters := SetField(localFilters, field, value);
    }

    /** Apply: sends every local value, the search text included, and closes
        the dialog. */
    method ApplyFilters() returns (patch: FilterPatch)
      modifies this
      ensures patch == FullPatch(localFilters)
      ensures localFilters == old(localFilters) && !isFilterModalOpen
    {
      patch := FullPatch(localFilters);
      isFilterModalOpen := false;
    }

    /** Clear All: empties the local copy and closes the dialog. Its
        `onClearFilters()` call is the page's `HandleClearFilters`; the two
        are put together in `Dashboard.ClearAllFromPanel`. */
    method ClearAllFilters()
      modifies this
      ensures localFilters == EmptyFilters && !isFilterModalOpen
    {
      localFilters := Filters("", "", "", "");
      isFilterModalOpen := false;
    }
  }
}
