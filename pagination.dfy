/**
  The pagination hook (app/hooks/usePagination.ts): the current page, set
  without clamping, and the memoised page arithmetic over the item list.
  `items.slice(start, end)` follows JavaScript, where a negative index
  counts from the end of the list.
*/
module Pagination {

  /** An index argument of `slice` resolved against the length: negative counts from the end, then clamped to 0 .. len. */
  function ResolveIndex(i: int, len: nat): (r: nat)
    ensures r <= len
    ensures 0 <= i <= len ==> r == i
    ensures i > len ==> r == len
    ensures i < 0 ==> r == if len + i >= 0 then len + i else 0
  {
    if i < 0 then (if len + i >= 0 then len + i else 0)
    else if i > len then len
    else i
  }

  /** `s.slice(start, end)`. */
  function Slice<T>(s: seq<T>, start: int, end: int): (r: seq<T>)
    ensures var a, b := ResolveIndex(start, |s|), ResolveIndex(end, |s|);
      r == if a < b then s[a..b] else []
  {
    var a, b := ResolveIndex(start, |s|), ResolveIndex(end, |s|);
    if a < b then s[a..b] else []
  }

  /** `Math.ceil(count / itemsPerPage)` for a positive page size. */
  function TotalPages(count: nat, itemsPerPage: nat): (n: nat)
    requires itemsPerPage > 0
    ensures (n - 1) * itemsPerPage < count <= n * itemsPerPage || (count == 0 && n == 0)
  {
    (count + itemsPerPage - 1) / itemsPerPage
  }

  function StartIndex(currentPage: int, itemsPerPage: nat): int {
    (currentPage - 1) * itemsPerPage
  }

  function EndIndex(currentPage: int, itemsPerPage: nat): int {
    StartIndex(currentPage, itemsPerPage) + itemsPerPage
  }

  /** The arithmetic of page bounds: a page numbered from 1 starts at a non-negative index, one page after the previous one. */
  lemma StartFacts(currentPage: int, itemsPerPage: nat)
    ensures currentPage >= 1 ==> StartIndex(currentPage, itemsPerPage) >= 0
    ensures StartIndex(currentPage, itemsPerPage) + itemsPerPage == currentPage * itemsPerPage
  {
  }

  /** A later page starts no earlier. */
  lemma StartMonotone(a: int, b: int, itemsPerPage: nat)
    requires a <= b
    ensures StartIndex(a, itemsPerPage) <= StartIndex(b, itemsPerPage)
  {
    assert (b - 1) * itemsPerPage - (a - 1) * itemsPerPage == (b - a) * itemsPerPage;
  }

  /** paginatedItems: `items.slice(startIndex, endIndex)`. */
  function PageItems<T>(items: seq<T>, currentPage: int, itemsPerPage: nat): seq<T> {
    Slice(items, StartIndex(currentPage, itemsPerPage), EndIndex(currentPage, itemsPerPage))
  }

  /** A page numbered from 1 holds the items from StartIndex on, at most one page of them. */
  lemma PageItemsShape<T>(items: seq<T>, currentPage: int, itemsPerPage: nat)
    requires currentPage >= 1
    ensures var r := PageItems(items, currentPage, itemsPerPage);
      var start := StartIndex(currentPage, itemsPerPage);
      && (start >= |items| ==> r == [])
      && (start < |items| ==> r == items[start..if start + itemsPerPage <= |items| then start + itemsPerPage else |items|])
      && |r| <= itemsPerPage
  {
    StartFacts(currentPage, itemsPerPage);
    var start := StartIndex(currentPage, itemsPerPage);
    assert EndIndex(currentPage, itemsPerPage) == start + itemsPerPage;
    PageSlice(items, start, itemsPerPage);
  }

  /** A slice of `size` items from a non-negative start. */
  lemma PageSlice<T>(items: seq<T>, start: int, size: nat)
    ensures start >= 0 ==>
      var r := Slice(items, start, start + size);
      && (start >= |items| ==> r == [])
      && (start < |items| ==> r == items[start..if start + size <= |items| then start + size else |items|])
      && |r| <= size
  {
  }

  /** Past the last page a page is empty; page 0 is empty too. */
  lemma EmptyBeyondRange<T>(items: seq<T>, currentPage: int, itemsPerPage: nat)
    requires itemsPerPage > 0
    requires currentPage > TotalPages(|items|, itemsPerPage) || currentPage == 0
    ensures PageItems(items, currentPage, itemsPerPage) == []
  {
    if currentPage > 0 {
      var n := TotalPages(|items|, itemsPerPage);
      StartMonotone(n + 1, currentPage, itemsPerPage);
      StartFacts(n + 1, itemsPerPage);
      assert StartIndex(n + 1, itemsPerPage) == n * itemsPerPage;
      PageItemsShape(items, currentPage, itemsPerPage);
    }
  }

  /** Without clamping, page -1 is not empty: the negative slice bounds count from the end. */
  lemma NegativePageCountsFromEnd(items: seq<int>)
    requires items == [1, 2, 3, 4, 5, 6, 7, 8, 9, 10]
    ensures PageItems(items, -1, 4) == [3, 4, 5, 6]
  {
    assert StartIndex(-1, 4) == -8 && EndIndex(-1, 4) == -4;
  }

  /** Pages 1 .. count, concatenated. */
  function Pages<T>(items: seq<T>, count: nat, itemsPerPage: nat): seq<T> {
    if count == 0 then [] else Pages(items, count - 1, itemsPerPage) + PageItems(items, count, itemsPerPage)
  }

  /** The first `count` pages are the items before the start of page `count + 1`. */
  lemma {:induction false} PagesArePrefix<T>(items: seq<T>, count: nat, itemsPerPage: nat)
    requires itemsPerPage > 0
    ensures StartIndex(count + 1, itemsPerPage) >= 0
    ensures var next := StartIndex(count + 1, itemsPerPage);
      Pages(items, count, itemsPerPage) == items[..if next <= |items| then next else |items|]
  {
    StartFacts(count + 1, itemsPerPage);
    if count > 0 {
      PagesArePrefix(items, count - 1, itemsPerPage);
      PageItemsShape(items, count, itemsPerPage);
      var start := StartIndex(count, itemsPerPage);
      StartFacts(count, itemsPerPage);
      var page := PageItems(items, count, itemsPerPage);
      PrefixStep(items, start, itemsPerPage, page);
    }
  }

  /** The items up to a page's start, followed by that page, are the items up to its end. */
  lemma PrefixStep<T>(items: seq<T>, start: nat, size: nat, page: seq<T>)
    requires start >= |items| ==> page == []
    requires start < |items| ==> page == items[start..if start + size <= |items| then start + size else |items|]
    ensures var before := if start <= |items| then start else |items|;
      var end := if start + size <= |items| then start + size else |items|;
      items[..before] + page == items[..end]
  {
  }

  /** Pages 1 .. totalPages together are exactly the items, in order. */
  lemma PagesCoverItems<T>(items: seq<T>, itemsPerPage: nat)
    requires itemsPerPage > 0
    ensures Pages(items, TotalPages(|items|, itemsPerPage), itemsPerPage) == items
  {
    var n := TotalPages(|items|, itemsPerPage);
    PagesArePrefix(items, n, itemsPerPage);
    assert StartIndex(n + 1, itemsPerPage) == n * itemsPerPage;
    assert items[..|items|] == items;
  }

  class Paginator {
    var currentPage: int

    constructor()
      ensures currentPage == 1
    {
      currentPage := 1;
    }

    /** handlePageChange: any number is taken as it is. */
    method HandlePageChange(page: int)
      modifies this
      ensures currentPage == page
    {
      currentPage := page;
    }

    /** resetToFirstPage. */
    method ResetToFirstPage()
      modifies this
      ensures currentPage == 1
    {
      currentPage := 1;
    }

  }
}
