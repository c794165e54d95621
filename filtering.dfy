/** `filterData` (src/utils/helpers.jsx:18-36): keep the records that pass
    the free-text search and the name, email and company filters. */
module Filtering {
  import opened Wrappers
  import opened JsText
  import opened UserModel
  import opened Sequences

  /** `Object.values(item).map(String)`: the top-level fields in declaration
      order. The nested company object stringifies to "[object Object]"; an
      absent company contributes no value. */
  function SearchableValues(u: User): (r: seq<string>)
    ensures |r| == if u.company.Some? then 7 else 6
    ensures r[0] == IntToString(u.id)
    ensures u.name in r && u.username in r && u.email in r && u.phone in r && u.website in r
    ensures u.company.Some? ==> r[6] == "[object Object]"
    ensures forall v :: v in r <==>
      v == IntToString(u.id) || v in [u.name, u.username, u.email, u.phone, u.website]
      || (u.company.Some? && v == "[object Object]")
  {
    [IntToString(u.id), u.name, u.username, u.email, u.phone, u.website]
    + (if u.company.Some? then ["[object Object]"] else [])
  }

  /** An empty search passes; otherwise some stringified value, lowercased,
      must include the lowercased search text. */
  predicate MatchesSearch(u: User, search: string)
    ensures search == "" ==> MatchesSearch(u, search)
    ensures MatchesSearch(u, search) ==>
      exists i :: 0 <= i < |SearchableValues(u)| && |search| <= |SearchableValues(u)[i]|
  {
    var values := SearchableValues(u);
    search == "" || exists i | 0 <= i < |values| :: Contains(ToLower(values[i]), ToLower(search))
  }

  predicate MatchesName(u: User, name: string)
    ensures MatchesName(u, name) ==> |name| <= |u.name|
  {
    name == "" || Contains(ToLower(u.name), ToLower(name))
  }

  predicate MatchesEmail(u: User, email: string)
    ensures MatchesEmail(u, email) ==> |email| <= |u.email|
  {
    email == "" || Contains(ToLower(u.email), ToLower(email))
  }

  /** `item.company?.name?.toLowerCase().includes(...)`: a record without a
      company fails every non-empty company filter. */
  predicate MatchesCompany(u: User, company: string)
    ensures MatchesCompany(u, company) ==> company == "" || (u.company.Some? && |company| <= |u.company.value.name|)
  {
    company == "" || (u.company.Some? && Contains(ToLower(u.company.value.name), ToLower(company)))
  }

  /** A record passes when it passes all four tests; empty filters pass
      everyone. */
  predicate Matches(u: User, f: Filters)
    ensures f == EmptyFilters ==> Matches(u, f)
    ensures Matches(u, f) ==> MatchesSearch(u, f.search) && MatchesName(u, f.name) && MatchesEmail(u, f.email) && MatchesCompany(u, f.company)
  {
    MatchesSearch(u, f.search) && MatchesName(u, f.name) && MatchesEmail(u, f.email) && MatchesCompany(u, f.company)
  }

  /** The filtered list is a subsequence of the input that holds every
      matching record as often as the input does, and nothing else. */
  function FilterData(data: seq<User>, f: Filters): (r: seq<User>)
    ensures IsSubsequence(r, data)
    ensures forall u :: multiset(r)[u] == if Matches(u, f) then multiset(data)[u] else 0
  {
    if data == [] then []
    else
      var rest := FilterData(data[1..], f);
      assert data == [data[0]] + data[1..];
      if Matches(data[0], f) then
        assert ([data[0]] + rest)[1..] == rest;
        [data[0]] + rest
      else
        rest
  }

  /** A record is kept exactly when it is in the input and passes all four
      tests. */
  lemma KeptIffMatches(data: seq<User>, f: Filters, u: User)
    ensures u in FilterData(data, f) <==>
      u in data && MatchesSearch(u, f.search) && MatchesName(u, f.name)
      && MatchesEmail(u, f.email) && MatchesCompany(u, f.company)
  {
    assert u in FilterData(data, f) <==> multiset(FilterData(data, f))[u] > 0;
    assert u in data <==> multiset(data)[u] > 0;
  }

  /** With every filter empty, all records are kept in their order. */
  lemma {:induction false} EmptyFiltersKeepAll(data: seq<User>)
    ensures FilterData(data, EmptyFilters) == data
  {
    if data != [] {
      EmptyFiltersKeepAll(data[1..]);
      assert data == [data[0]] + data[1..];
    }
  }

  /** Filtering the filtered list again with the same filters changes nothing. */
  lemma {:induction false} FilterIdempotent(data: seq<User>, f: Filters)
    ensures FilterData(FilterData(data, f), f) == FilterData(data, f)
  {
    if data != [] {
      FilterIdempotent(data[1..], f);
      var rest := FilterData(data[1..], f);
      if Matches(data[0], f) {
        var r := [data[0]] + rest;
        assert r[0] == data[0] && r[1..] == rest;
      }
    }
  }

  /** A non-empty company filter drops every record without a company name. */
  lemma CompanyFilterNeedsCompany(data: seq<User>, f: Filters, u: User)
    requires f.company != ""
    requires u.company == None || u.company.value.name == ""
    ensures u !in FilterData(data, f)
  {
    KeptIffMatches(data, f, u);
  }

  /** The search sees the company only as "[object Object]": whether a record
      passes it does not depend on the company's name. */
  lemma SearchIgnoresCompanyName(u: User, c1: Company, c2: Company, search: string)
    ensures MatchesSearch(u.(company := Some(c1)), search) == MatchesSearch(u.(company := Some(c2)), search)
  {
    assert SearchableValues(u.(company := Some(c1))) == SearchableValues(u.(company := Some(c2)));
  }

  /** ... so the search text "object" passes every record that has a company. */
  lemma SearchObjectMatchesAnyCompany(u: User)
    requires u.company.Some?
    ensures MatchesSearch(u, "object")
  {
    var values := SearchableValues(u);
    var lowered := ToLower("[object Object]");
    assert values[6] == "[object Object]";
    assert lowered == "[object object]";
    assert ToLower("object") == "object";
    assert lowered[1..] == "object object]";
    assert StartsWith(lowered[1..], "object");
  }
}
