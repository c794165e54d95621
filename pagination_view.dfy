/** The pagination bar (src/components/users/Pagination.jsx): page count,
    the "Showing X to Y of Z" range, the list of page buttons with '...'
    gaps, and where each button leads. */
module PaginationView {
  import opened Wrappers
  import opened Paging

  /** The page sizes the size selector offers. */
  const PageSizeOptions: seq<int> := [10, 25, 50, 100]

  /** `Math.ceil(totalItems / itemsPerPage)`. */
  function TotalPages(totalItems: nat, itemsPerPage: int): (r: nat)
    requires itemsPerPage > 0
    ensures (r - 1) * itemsPerPage < totalItems <= r * itemsPerPage
  {
    var q := (totalItems + itemsPerPage - 1) / itemsPerPage;
    CeilBounds(totalItems, itemsPerPage, q, (totalItems + itemsPerPage - 1) % itemsPerPage);
    q
  }

  lemma CeilBounds(t: nat, n: int, q: int, m: int)
    requires n > 0
    requires q == (t + n - 1) / n && m == (t + n - 1) % n
    ensures q >= 0
    ensures (q - 1) * n < t <= q * n
  {
    assert t + n - 1 == q * n + m;
    assert 0 <= m < n;
    MulStep(q - 1, n);
    if q < 0 {
      MulNonNegative(-q, n);
    }
  }

  /** The bar appears exactly when there is more than one page's worth of items. */
  lemma RenderedIffMoreThanOnePage(totalItems: nat, itemsPerPage: int)
    requires itemsPerPage > 0
    ensures TotalPages(totalItems, itemsPerPage) > 1 <==> totalItems > itemsPerPage
    ensures totalItems == 0 <==> TotalPages(totalItems, itemsPerPage) == 0
  {
    var r := TotalPages(totalItems, itemsPerPage);
    if r >= 2 {
      MulNonNegative(r - 2, itemsPerPage);
      MulStep(r - 2, itemsPerPage);
    }
    if r == 0 {
      assert totalItems <= 0;
    }
  }

  /** `(currentPage - 1) * itemsPerPage + 1`, the first position shown. */
  function StartIndex(currentPage: int, itemsPerPage: int): (r: int)
    ensures currentPage >= 1 && itemsPerPage >= 0 ==> r >= 1
  {
    (currentPage - 1) * itemsPerPage + 1
  }

  /** `Math.min(currentPage * itemsPerPage, totalItems)`, the last position shown. */
  function EndIndex(currentPage: int, itemsPerPage: int, totalItems: int): (r: int)
    ensures r <= totalItems && r <= currentPage * itemsPerPage
    ensures r == totalItems || r == currentPage * itemsPerPage
  {
    Min(currentPage * itemsPerPage, totalItems)
  }

  /** On any existing page the "Showing X to Y of Z" range is a non-empty
      part of 1..Z, and it spans at most one page. */
  lemma ShownRange(currentPage: int, itemsPerPage: int, totalItems: nat)
    requires itemsPerPage > 0
    requires 1 <= currentPage <= TotalPages(totalItems, itemsPerPage)
    ensures 1 <= StartIndex(currentPage, itemsPerPage)
    ensures StartIndex(currentPage, itemsPerPage) <= EndIndex(currentPage, itemsPerPage, totalItems) <= totalItems
    ensures EndIndex(currentPage, itemsPerPage, totalItems) - StartIndex(currentPage, itemsPerPage) < itemsPerPage
  {
    var tp := TotalPages(totalItems, itemsPerPage);
    MulNonNegative(currentPage - 1, itemsPerPage);
    MulNonNegative(tp - currentPage, itemsPerPage);
    MulStep(currentPage - 1, itemsPerPage);
    assert (tp - 1) * itemsPerPage == (currentPage - 1) * itemsPerPage + (tp - currentPage) * itemsPerPage;
  }

  /** One button of the page list. */
  datatype PageItem = Page(number: int) | Dots

  /** The integers lo, lo+1, ..., hi. */
  function Range(lo: int, hi: int): (r: seq<int>)
    ensures |r| == if lo <= hi then hi - lo + 1 else 0
    ensures forall k :: 0 <= k < |r| ==> r[k] == lo + k
    decreases hi - lo
  {
    if lo > hi then [] else [lo] + Range(lo + 1, hi)
  }

  lemma RangeSnoc(lo: int, hi: int)
    requires lo <= hi
    ensures Range(lo, hi) == Range(lo, hi - 1) + [hi]
  {
  }

  function AsPages(ns: seq<int>): (r: seq<PageItem>)
    ensures |r| == |ns|
    ensures forall k :: 0 <= k < |ns| ==> r[k] == Page(ns[k])
  {
    seq(|ns|, k requires 0 <= k < |ns| => Page(ns[k]))
  }

  /** `getPageNumbers` as written: first page, an optional gap, the pages
      within two of the current one (never the first or the last), an
      optional gap, last page. */
  function PageNumbers(currentPage: int, totalPages: int): (r: seq<PageItem>)
    ensures |r| >= 2 && r[0] == Page(1) && r[|r| - 1] == Page(totalPages)
  {
    var lo := Max(2, currentPage - 2);
    var hi := Min(totalPages - 1, currentPage + 2);
    (if currentPage - 2 > 2 then [Page(1), Dots] else [Page(1)])
      + AsPages(Range(lo, hi))
      + (if currentPage + 2 < totalPages - 1 then [Dots, Page(totalPages)] else [Page(totalPages)])
  }

  /** `getPageNumbers`, with the `for` loop that collects the middle pages. */
  method GetPageNumbers(currentPage: int, totalPages: int) returns (rangeWithDots: seq<PageItem>)
    ensures rangeWithDots == PageNumbers(currentPage, totalPages)
  {
    var lo := Max(2, currentPage - 2);
    var hi := Min(totalPages - 1, currentPage + 2);
    var range: seq<int> := [];
    var i := lo;
    while i <= hi
      invariant lo <= i <= Max(lo, hi + 1)
      invariant range == Range(lo, i - 1)
      decreases hi - i
    {
      RangeSnoc(lo, i);
      range := range + [i];
      i := i + 1;
    }
    assert range == Range(lo, hi);
    if currentPage - 2 > 2 {
      rangeWithDots := [Page(1), Dots];
    } else {
      rangeWithDots := [Page(1)];
    }
    rangeWithDots := rangeWithDots + AsPages(range);
    if currentPage + 2 < totalPages - 1 {
      rangeWithDots := rangeWithDots + [Dots, Page(totalPages)];
    } else {
      rangeWithDots := rangeWithDots + [Page(totalPages)];
    }
  }

  /** What the component renders: nothing when there is at most one page,
      otherwise the bar with its list of page buttons. */
  function RenderedPageList(currentPage: int, totalItems: nat, itemsPerPage: int): (r: Option<seq<PageItem>>)
    requires itemsPerPage > 0
    ensures r.Some? <==> totalItems > itemsPerPage
    ensures r.Some? ==> |r.value| >= 2 && r.value[0] == Page(1) && r.value[|r.value| - 1] == Page(TotalPages(totalItems, itemsPerPage))
  {
    var totalPages := TotalPages(totalItems, itemsPerPage);
    RenderedIffMoreThanOnePage(totalItems, itemsPerPage);
    if totalPages <= 1 then None else Some(PageNumbers(currentPage, totalPages))
  }

  /** The page list never has more than nine buttons. */
  lemma AtMostNineButtons(currentPage: int, totalPages: int)
    ensures |PageNumbers(currentPage, totalPages)| <= 9
  {
  }

  // ---------------------------------------------------------------------
  // A reference description of the page list: the page numbers to show,
  // in increasing order, with a gap marker wherever numbers are skipped.
  // ---------------------------------------------------------------------

  /** Page 1, the last page, and the pages within two of the current one. */
  function Shown(currentPage: int, totalPages: int): seq<int>
  {
    [1] + Range(Max(2, currentPage - 2), Min(totalPages - 1, currentPage + 2)) + [totalPages]
  }

  ghost predicate Increasing(ns: seq<int>)
  {
    forall i, j :: 0 <= i < j < |ns| ==> ns[i] < ns[j]
  }

  /** The buttons for the numbers `ns`: one per number, with '...' between
      two numbers that are not consecutive. */
  function WithDots(ns: seq<int>): seq<PageItem>
    decreases |ns|
  {
    if ns == [] then []
    else if |ns| == 1 then [Page(ns[0])]
    else [Page(ns[0])] + (if ns[1] > ns[0] + 1 then [Dots] else []) + WithDots(ns[1..])
  }

  lemma WithDotsCons(a: int, rest: seq<int>)
    requires rest != []
    ensures WithDots([a] + rest) == [Page(a)] + (if rest[0] > a + 1 then [Dots] else []) + WithDots(rest)
  {
    assert ([a] + rest)[1..] == rest;
  }

  /** A page number is shown iff it is the first page, the last page, or an
      existing page within two of the current one. */
  lemma ShownMembers(currentPage: int, totalPages: int, p: int)
    ensures p in Shown(currentPage, totalPages)
      <==> p == 1 || p == totalPages || (1 <= p <= totalPages && currentPage - 2 <= p <= currentPage + 2)
  {
    var lo := Max(2, currentPage - 2);
    var hi := Min(totalPages - 1, currentPage + 2);
    var s := Shown(currentPage, totalPages);
    if lo <= p <= hi {
      assert s[1 + (p - lo)] == p;
    }
  }

  lemma ShownIncreasing(currentPage: int, totalPages: int)
    requires totalPages >= 2
    ensures Increasing(Shown(currentPage, totalPages))
  {
  }

  /** The buttons for a numbered window followed by one more number. */
  lemma {:induction false} WithDotsRangeThen(lo: int, hi: int, t: int)
    requires lo <= hi < t
    ensures WithDots(Range(lo, hi) + [t]) == AsPages(Range(lo, hi)) + (if t > hi + 1 then [Dots] else []) + [Page(t)]
    decreases hi - lo
  {
    var tail := Range(lo + 1, hi) + [t];
    assert Range(lo, hi) + [t] == [lo] + tail;
    WithDotsCons(lo, tail);
    if lo == hi {
      assert tail == [t];
    } else {
      WithDotsRangeThen(lo + 1, hi, t);
      assert tail[0] == lo + 1;
      assert AsPages(Range(lo, hi)) == [Page(lo)] + AsPages(Range(lo + 1, hi));
    }
  }

  /** On an existing page of a multi-page list, `getPageNumbers` produces
      exactly the reference list. */
  lemma PageNumbersAreShownWithDots(currentPage: int, totalPages: int)
    requires totalPages >= 2 && 1 <= currentPage <= totalPages
    ensures PageNumbers(currentPage, totalPages) == WithDots(Shown(currentPage, totalPages))
  {
    var lo := Max(2, currentPage - 2);
    var hi := Min(totalPages - 1, currentPage + 2);
    var rest := Range(lo, hi) + [totalPages];
    assert Shown(currentPage, totalPages) == [1] + rest;
    WithDotsCons(1, rest);
    var left: seq<PageItem> := if currentPage - 2 > 2 then [Page(1), Dots] else [Page(1)];
    var right: seq<PageItem> := if currentPage + 2 < totalPages - 1 then [Dots, Page(totalPages)] else [Page(totalPages)];
    assert PageNumbers(currentPage, totalPages) == left + AsPages(Range(lo, hi)) + right;
    if lo <= hi {
      WindowWithDots(lo, hi, totalPages, left, right);
    } else {
      assert totalPages == 2 && lo == 2 && hi == 1;
      assert rest == [2];
      assert left == [Page(1)] && right == [Page(2)];
    }
  }

  lemma WindowWithDots(lo: int, hi: int, t: int, left: seq<PageItem>, right: seq<PageItem>)
    requires 2 <= lo <= hi < t
    requires left == if lo > 2 then [Page(1), Dots] else [Page(1)]
    requires right == if t > hi + 1 then [Dots, Page(t)] else [Page(t)]
    ensures left + AsPages(Range(lo, hi)) + right
      == [Page(1)] + (if lo > 2 then [Dots] else []) + WithDots(Range(lo, hi) + [t])
  {
    WithDotsRangeThen(lo, hi, t);
    var l: seq<PageItem> := if lo > 2 then [Dots] else [];
    var r: seq<PageItem> := if t > hi + 1 then [Dots] else [];
    Regroup(left, AsPages(Range(lo, hi)), right, l, r, t);
  }

  lemma Regroup(left: seq<PageItem>, w: seq<PageItem>, right: seq<PageItem>, l: seq<PageItem>, r: seq<PageItem>, t: int)
    requires left == [Page(1)] + l && right == r + [Page(t)]
    ensures left + w + right == [Page(1)] + l + (w + r + [Page(t)])
  {
  }

  /** The buttons show exactly the given numbers. */
  lemma {:induction false} WithDotsPages(ns: seq<int>, p: int)
    ensures Page(p) in WithDots(ns) <==> p in ns
    decreases |ns|
  {
    if |ns| > 1 {
      WithDotsPages(ns[1..], p);
      assert ns == [ns[0]] + ns[1..];
    }
  }

  /** The buttons start with the first number and end with the last one. */
  lemma {:induction false} WithDotsEnds(ns: seq<int>)
    requires ns != []
    ensures var r := WithDots(ns); r != [] && r[0] == Page(ns[0]) && r[|r| - 1] == Page(ns[|ns| - 1])
    decreases |ns|
  {
    if |ns| > 1 {
      WithDotsEnds(ns[1..]);
    }
  }

  /** Two page buttons side by side hold consecutive numbers, and '...'
      sits strictly between two page buttons whose numbers are not
      consecutive. */
  ghost predicate GapsMarked(r: seq<PageItem>)
  {
    && (forall i :: 0 <= i < |r| - 1 && r[i].Page? && r[i + 1].Page? ==> r[i + 1].number == r[i].number + 1)
    && (forall i :: 0 <= i < |r| && r[i].Dots? ==>
          0 < i < |r| - 1 && r[i - 1].Page? && r[i + 1].Page? && r[i + 1].number > r[i - 1].number + 1)
  }

  /** A page button put in front of marked buttons, with '...' between
      them when their numbers are not consecutive, keeps them marked. */
  lemma GapsMarkedCons(p: int, mid: seq<PageItem>, rest: seq<PageItem>)
    requires GapsMarked(rest) && rest != [] && rest[0].Page? && rest[0].number > p
    requires mid == if rest[0].number > p + 1 then [Dots] else []
    ensures GapsMarked([Page(p)] + mid + rest)
  {
    var r := [Page(p)] + mid + rest;
    forall i | 0 <= i < |r| - 1 && r[i].Page? && r[i + 1].Page?
      ensures r[i + 1].number == r[i].number + 1
    {
      if i >= 1 + |mid| {
        assert r[i] == rest[i - 1 - |mid|] && r[i + 1] == rest[i - |mid|];
      } else {
        assert i == 0 && mid == [] && r[1] == rest[0];
      }
    }
    forall i | 0 <= i < |r| && r[i].Dots?
      ensures 0 < i < |r| - 1 && r[i - 1].Page? && r[i + 1].Page? && r[i + 1].number > r[i - 1].number + 1
    {
      if i > 1 + |mid| {
        assert r[i - 1] == rest[i - 2 - |mid|] && r[i] == rest[i - 1 - |mid|] && r[i + 1] == rest[i - |mid|];
      }
    }
  }

  lemma {:induction false} WithDotsGapsMarked(ns: seq<int>)
    requires Increasing(ns)
    ensures GapsMarked(WithDots(ns))
    decreases |ns|
  {
    if |ns| > 1 {
      assert Increasing(ns[1..]) by {
        forall i, j | 0 <= i < j < |ns[1..]| ensures ns[1..][i] < ns[1..][j] {
          assert ns[1..][i] == ns[i + 1] && ns[1..][j] == ns[j + 1];
        }
      }
      WithDotsGapsMarked(ns[1..]);
      WithDotsEnds(ns[1..]);
      var rest := WithDots(ns[1..]);
      var mid: seq<PageItem> := if ns[1] > ns[0] + 1 then [Dots] else [];
      assert WithDots(ns) == [Page(ns[0])] + mid + rest;
      GapsMarkedCons(ns[0], mid, rest);
    }
  }

  /** For increasing numbers, the page buttons are in increasing order. */
  lemma {:induction false} WithDotsIncreasing(ns: seq<int>)
    requires Increasing(ns)
    ensures var r := WithDots(ns);
      forall i, j :: 0 <= i < j < |r| && r[i].Page? && r[j].Page? ==> r[i].number < r[j].number
    decreases |ns|
  {
    if |ns| > 1 {
      WithDotsIncreasing(ns[1..]);
      var rest := WithDots(ns[1..]);
      var mid: seq<PageItem> := if ns[1] > ns[0] + 1 then [Dots] else [];
      var r := WithDots(ns);
      assert r == [Page(ns[0])] + mid + rest;
      forall i, j | 0 <= i < j < |r| && r[i].Page? && r[j].Page?
        ensures r[i].number < r[j].number
      {
        assert r[j] == rest[j - 1 - |mid|];
        WithDotsPages(ns[1..], r[j].number);
        assert r[j] in rest;
        if i == 0 {
          var k :| 0 <= k < |ns[1..]| && ns[1..][k] == r[j].number;
          assert ns[1 + k] == r[j].number;
        } else {
          assert r[i] == rest[i - 1 - |mid|];
        }
      }
    }
  }

  /** The page list of an existing page of a multi-page list: it begins at
      page 1 and ends at the last page, its numbers increase, every page
      within two of the current one is in it (and no other page but the
      first and the last), and '...' marks exactly the places where pages
      are skipped. */
  lemma PageListShape(currentPage: int, totalPages: int)
    requires totalPages >= 2 && 1 <= currentPage <= totalPages
    ensures var r := PageNumbers(currentPage, totalPages);
      && r != [] && r[0] == Page(1) && r[|r| - 1] == Page(totalPages)
      && (forall i, j :: 0 <= i < j < |r| && r[i].Page? && r[j].Page? ==> r[i].number < r[j].number)
      && (forall p :: Page(p) in r <==> p == 1 || p == totalPages || (1 <= p <= totalPages && currentPage - 2 <= p <= currentPage + 2))
      && GapsMarked(r)
  {
    var ns := Shown(currentPage, totalPages);
    PageNumbersAreShownWithDots(currentPage, totalPages);
    ShownIncreasing(currentPage, totalPages);
    WithDotsEnds(ns);
    WithDotsIncreasing(ns);
    WithDotsGapsMarked(ns);
    forall p ensures Page(p) in WithDots(ns) <==> p == 1 || p == totalPages || (1 <= p <= totalPages && currentPage - 2 <= p <= currentPage + 2) {
      WithDotsPages(ns, p);
      ShownMembers(currentPage, totalPages, p);
    }
  }

  // ---------------------------------------------------------------------
  // Navigation.
  // ---------------------------------------------------------------------

  /** The page the Previous button asks for; it is disabled on page 1. */
  function PreviousTarget(currentPage: int): (r: Option<int>)
    ensures r.None? <==> currentPage == 1
    ensures r.Some? ==> r.value == currentPage - 1
  {
    if currentPage == 1 then None else Some(currentPage - 1)
  }

  /** The page the Next button asks for; it is disabled on the last page. */
  function NextTarget(currentPage: int, totalPages: int): (r: Option<int>)
    ensures r.None? <==> currentPage == totalPages
    ensures r.Some? ==> r.value == currentPage + 1
  {
    if currentPage == totalPages then None else Some(currentPage + 1)
  }

  /** The page a list button asks for; '...' asks for nothing. */
  function ItemTarget(item: PageItem): (r: Option<int>)
    ensures r.None? <==> item == Dots
  {
    match item
    case Page(n) => Some(n)
    case Dots => None
  }

  /** From an existing page every button leads to an existing page. */
  lemma ClickTargetsInRange(currentPage: int, totalPages: int, item: PageItem)
    requires totalPages >= 2 && 1 <= currentPage <= totalPages
    requires item in PageNumbers(currentPage, totalPages)
    ensures PreviousTarget(currentPage).Some? ==> 1 <= PreviousTarget(currentPage).value <= totalPages
    ensures NextTarget(currentPage, totalPages).Some? ==> 1 <= NextTarget(currentPage, totalPages).value <= totalPages
    ensures ItemTarget(item).Some? ==> 1 <= ItemTarget(item).value <= totalPages
  {
    PageListShape(currentPage, totalPages);
  }
}
