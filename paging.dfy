/** `paginateData` (src/utils/helpers.jsx:38-42): the 1-based page of a list,
    cut with `Array.prototype.slice`. */
module Paging {

  function Min(a: int, b: int): int { if a <= b then a else b }

  function Max(a: int, b: int): int { if a >= b then a else b }

  /** How `slice` turns an argument into a position: negative ones count
      from the end, and both are clamped into `0..len`. */
  function SliceIndex(k: int, len: nat): (r: nat)
    ensures r <= len
    ensures 0 <= k ==> r == Min(k, len)
    ensures k < 0 ==> r == Max(len + k, 0)
  {
    if k < 0 then (if len + k < 0 then 0 else len + k) else Min(k, len)
  }

  /** `s.slice(start, end)`. */
  function Slice<T>(s: seq<T>, start: int, end: int): (r: seq<T>)
    ensures |r| == Max(0, SliceIndex(end, |s|) - SliceIndex(start, |s|))
    ensures forall k :: 0 <= k < |r| ==> r[k] == s[SliceIndex(start, |s|) + k]
  {
    var from := SliceIndex(start, |s|);
    var to := SliceIndex(end, |s|);
    if from < to then s[from..to] else []
  }

  /** `paginateData`: at most one page of records, all taken from the list. */
  function PaginateData<T>(data: seq<T>, currentPage: int, itemsPerPage: int): (r: seq<T>)
    ensures |r| <= |data|
    ensures currentPage >= 1 && itemsPerPage >= 0 ==> |r| <= itemsPerPage
    ensures forall x :: x in r ==> x in data
  {
    var startIndex := (currentPage - 1) * itemsPerPage;
    var endIndex := startIndex + itemsPerPage;
    Slice(data, startIndex, endIndex)
  }

  /** For a page p >= 1 of size n >= 0, the page is the window
      `data[(p-1)n .. pn)` clipped to the list, and its length is
      `min(n, max(0, |data| - (p-1)n))`. */
  lemma PageWindow<T>(data: seq<T>, p: int, n: int)
    requires p >= 1 && n >= 0
    ensures (p - 1) * n >= 0
    ensures PaginateData(data, p, n) == data[Min((p - 1) * n, |data|)..Min(p * n, |data|)]
    ensures |PaginateData(data, p, n)| == Min(n, Max(0, |data| - (p - 1) * n))
  {
    var lo := (p - 1) * n;
    MulNonNegative(p - 1, n);
    MulStep(p - 1, n);
    var r := PaginateData(data, p, n);
    assert SliceIndex(lo, |data|) == Min(lo, |data|);
    assert SliceIndex(lo + n, |data|) == Min(lo + n, |data|);
  }

  lemma MulNonNegative(a: int, b: int)
    requires a >= 0 && b >= 0
    ensures a * b >= 0
  {
  }

  lemma MulStep(a: int, b: int)
    ensures (a + 1) * b == a * b + b
  {
  }

  /** Pages 1 to k, one after the other. */
  function Pages<T>(data: seq<T>, n: int, k: nat): seq<T>
  {
    if k == 0 then [] else Pages(data, n, k - 1) + PaginateData(data, k, n)
  }

  /** Pages 1..k together are the first k*n elements. */
  lemma {:induction false} PagesArePrefix<T>(data: seq<T>, n: int, k: nat)
    requires n > 0
    ensures k * n >= 0
    ensures Pages(data, n, k) == data[..Min(k * n, |data|)]
  {
    MulNonNegative(k, n);
    if k > 0 {
      PagesArePrefix(data, n, k - 1);
      PageWindow(data, k, n);
      MulStep(k - 1, n);
      var a, b := Min((k - 1) * n, |data|), Min(k * n, |data|);
      assert data[..a] + data[a..b] == data[..b];
    }
  }

  /** Concatenating pages 1..k gives back the whole list once k pages of
      size n can hold it, in particular for k = ceil(|data| / n). */
  lemma AllPagesReconstruct<T>(data: seq<T>, n: int, k: nat)
    requires n > 0
    requires |data| <= k * n
    ensures Pages(data, n, k) == data
  {
    PagesArePrefix(data, n, k);
    assert data[..|data|] == data;
  }
}
