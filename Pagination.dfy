/** Client-side pagination shared by the ticket, flight and airport screens.
    Every screen fetches its whole list and shows one fixed-size page of it;
    the page buttons are numbered from 1. */
module Pagination {

  /** The fixed page size (`itemsPerPage`) of every list screen. */
  const ItemsPerPage: nat := 10

  /** Page numbers as the screens produce them: the initial page is 1 and
      every page button passes `index + 1`, so a page number is never below 1. */
  type PageNumber = p: int | 1 <= p witness 1

  function Min(a: int, b: int): (r: int)
    ensures r <= a && r <= b && (r == a || r == b)
  {
    if a <= b then a else b
  }

  /** `Math.ceil(total / itemsPerPage)`: the least page count whose pages
      hold every item. */
  function TotalPages(n: nat): (r: nat)
    ensures n <= r * ItemsPerPage
    ensures r == 0 || (r - 1) * ItemsPerPage < n
    ensures r == 0 <==> n == 0
  {
    (n + ItemsPerPage - 1) / ItemsPerPage
  }

  /** `startIndex = (currentPage - 1) * itemsPerPage`. */
  function StartIndex(page: PageNumber): (r: nat)
    ensures r % ItemsPerPage == 0 && r / ItemsPerPage == page - 1
    ensures r == 0 <==> page == 1
  {
    (page - 1) * ItemsPerPage
  }

  /** `endIndex = Math.min(startIndex + itemsPerPage, total)`. */
  function EndIndex(page: PageNumber, n: nat): (r: nat)
    ensures r <= n && r <= StartIndex(page) + ItemsPerPage
    ensures r == n || r == StartIndex(page) + ItemsPerPage
  {
    Min(StartIndex(page) + ItemsPerPage, n)
  }

  /** JavaScript's `Array.prototype.slice(start, end)` for non-negative
      arguments: both bounds are clamped to the length, and an end at or
      before the start gives the empty array instead of an error. */
  function JsSlice<T>(s: seq<T>, start: nat, end: nat): (r: seq<T>)
    ensures start < end <= |s| ==> r == s[start..end]
    ensures start < |s| && start < end ==> r == s[start..Min(end, |s|)]
    ensures end <= start || |s| <= start ==> r == []
    ensures |r| <= |s|
    ensures forall i :: 0 <= i < |r| ==> start + i < |s| && r[i] == s[start + i]
  {
    var lo := Min(start, |s|);
    var hi := Min(end, |s|);
    if hi <= lo then [] else s[lo..hi]
  }

  /** The visible slice of a screen: `list.slice(startIndex, endIndex)`. */
  function Paginate<T>(s: seq<T>, page: PageNumber): (r: seq<T>)
    ensures |r| <= ItemsPerPage
    ensures forall i :: 0 <= i < |r| ==> StartIndex(page) + i < |s| && r[i] == s[StartIndex(page) + i]
    ensures page <= TotalPages(|s|) ==>
              r == s[StartIndex(page)..Min(page * ItemsPerPage, |s|)] && r != []
    ensures page > TotalPages(|s|) ==> r == []
  {
    JsSlice(s, StartIndex(page), EndIndex(page, |s|))
  }

  /** Pages 1..k, shown one after the other. */
  function PagesUpTo<T>(s: seq<T>, k: nat): seq<T>
  {
    if k == 0 then [] else PagesUpTo(s, k - 1) + Paginate(s, k)
  }

  /** Pages 1..k together are exactly the first k * ItemsPerPage items. */
  lemma {:induction false} PagesUpToIsPrefix<T>(s: seq<T>, k: nat)
    ensures PagesUpTo(s, k) == s[..Min(k * ItemsPerPage, |s|)]
  {
    if k > 0 {
      PagesUpToIsPrefix(s, k - 1);
      var before := Min((k - 1) * ItemsPerPage, |s|);
      var upTo := Min(k * ItemsPerPage, |s|);
      assert StartIndex(k) == (k - 1) * ItemsPerPage;
      if k <= TotalPages(|s|) {
        assert before == (k - 1) * ItemsPerPage;
        assert s[..before] + s[before..upTo] == s[..upTo];
      } else {
        assert before == |s| && upTo == |s|;
      }
    }
  }

  /** Concatenating pages 1..totalPages in order gives back the whole list:
      the pages cover it, in order, with nothing repeated or dropped. */
  lemma PagesReassembleList<T>(s: seq<T>)
    ensures PagesUpTo(s, TotalPages(|s|)) == s
  {
    PagesUpToIsPrefix(s, TotalPages(|s|));
    assert Min(TotalPages(|s|) * ItemsPerPage, |s|) == |s|;
  }

  /** Every item of the list is shown on exactly one page, at exactly one
      position: item i is on page i / 10 + 1 at position i % 10, and no two
      page positions show the same list index. */
  lemma {:induction false} ItemOnItsPage<T>(s: seq<T>, i: nat)
    requires i < |s|
    ensures var p := i / ItemsPerPage + 1;
      p <= TotalPages(|s|) && i % ItemsPerPage < |Paginate(s, p)| &&
      Paginate(s, p)[i % ItemsPerPage] == s[i]
  {
    var p := i / ItemsPerPage + 1;
    assert StartIndex(p) + i % ItemsPerPage == i;
    assert i < p * ItemsPerPage;
  }

  lemma {:induction false} PagesDisjoint<T>(s: seq<T>, p: PageNumber, q: PageNumber, j: nat, k: nat)
    requires j < |Paginate(s, p)| && k < |Paginate(s, q)|
    requires StartIndex(p) + j == StartIndex(q) + k
    ensures p == q && j == k
  {
  }

  /** One `Pagination.Item`: the number it shows (and passes to
      `handlePageChange` when clicked) and whether it is marked active. */
  datatype PageItem = PageItem(number: int, active: bool)

  /** `[...Array(totalPages)].map((_, index) => <Pagination.Item active={index + 1 === currentPage}>)`. */
  function PageButtons(totalPages: nat, currentPage: int): (r: seq<PageItem>)
    ensures |r| == totalPages
    ensures forall i :: 0 <= i < |r| ==> r[i].number == i + 1
    ensures forall i :: 0 <= i < |r| ==> (r[i].active <==> i + 1 == currentPage)
    ensures forall i, j :: 0 <= i < |r| && 0 <= j < |r| && r[i].active && r[j].active ==> i == j
    ensures (exists i :: 0 <= i < |r| && r[i].active) <==> 1 <= currentPage <= totalPages
    ensures 1 <= currentPage <= totalPages ==> r[currentPage - 1].active
  {
    var r := seq(totalPages, index => PageItem(index + 1, index + 1 == currentPage));
    assert 1 <= currentPage <= totalPages ==> r[currentPage - 1].active;
    r
  }
}
