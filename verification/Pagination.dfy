/** Cutting a list into pages, and the bar of page buttons. */
module Pagination {
  import opened Integers

  const DEFAULT_PAGE_SIZE: int := 10
  const PAGE_SIZE_OPTIONS: seq<int> := [10, 25, 50]

  datatype Page<T> = Page(items: seq<T>, currentPage: int, pageCount: int, start: int, end: int, total: int,
      pageSize: int)

  function SafePageSize(pageSize: int): (size: int)
    ensures size == 10 || size == 25 || size == 50
    ensures pageSize in PAGE_SIZE_OPTIONS ==> size == pageSize
  {
    if pageSize in PAGE_SIZE_OPTIONS then pageSize else DEFAULT_PAGE_SIZE
  }

  function PageCount(total: nat, size: int): int
    requires size > 0
  {
    Max(1, CeilDiv(total, size))
  }

  lemma PageSpan(total: nat, size: int, page: int)
    requires size > 0 && 1 <= page <= PageCount(total, size)
    ensures 0 <= (page - 1) * size == page * size - size
    ensures total > 0 ==> (page - 1) * size < total
  {
    OneMore(page, size);
    CeilBounds(total, size);
    if total > 0 {
      Monotone(page - 1, CeilDiv(total, size) - 1, size);
    }
  }

  lemma Monotone(a: int, b: int, size: int)
    requires size > 0
    ensures a <= b ==> a * size <= b * size
    ensures a >= 0 ==> a * size >= 0
  {}

  lemma LastPageReachesEnd(total: nat, size: int)
    requires size > 0
    ensures total <= PageCount(total, size) * size
  {
    CeilBounds(total, size);
    Monotone(CeilDiv(total, size), PageCount(total, size), size);
  }

  function StartIndex(total: nat, size: int, page: int): (start: nat)
    requires size > 0 && 1 <= page <= PageCount(total, size)
    ensures start == if total == 0 then 0 else (page - 1) * size
    ensures start <= total && (total > 0 ==> start < total)
  {
    PageSpan(total, size, page);
    if total == 0 then 0 else (page - 1) * size
  }

  /** `paginateItems`; a page outside the range gives the nearest one. */
  function PaginateItems<T>(items: seq<T>, page: int, pageSize: int): (p: Page<T>)
    ensures p.total == |items|
    ensures items != [] ==> 1 <= p.start <= p.end <= |items| && p.items == items[p.start - 1..p.end]
  {
    var total := |items|;
    var size := SafePageSize(pageSize);
    var pageCount := PageCount(total, size);
    var currentPage := Min(Max(page, 1), pageCount);
    var startIndex := StartIndex(total, size, currentPage);
    var endIndex := Min(startIndex + size, total);
    var start := if total == 0 then 0 else startIndex + 1;
    Page(items[startIndex..endIndex], currentPage, pageCount, start, endIndex, total, size)
  }

  /** The figures beside the items: the size is one of those offered or ten, there are
      just as many pages as the items fill (at least one), the page is one of
      them, and it is full unless it is the last. */
  lemma PageFigures<T>(items: seq<T>, page: int, pageSize: int)
    ensures var p := PaginateItems(items, page, pageSize);
      && p.pageSize == (if pageSize in {10, 25, 50} then pageSize else 10)
      && 1 <= p.currentPage <= p.pageCount
      && (p.pageCount - 1) * p.pageSize <= |items| <= p.pageCount * p.pageSize
      && (p.pageCount > 1 ==> (p.pageCount - 1) * p.pageSize < |items|)
      && p.start == (if items == [] then 0 else (p.currentPage - 1) * p.pageSize + 1)
      && p.end == p.start + |p.items| - (if items == [] then 0 else 1)
      && (p.currentPage < p.pageCount ==> |p.items| == p.pageSize)
  {
    var total, size := |items|, SafePageSize(pageSize);
    var n := PageCount(total, size);
    var current := Min(Max(page, 1), n);
    CeilBounds(total, size);
    LastPageReachesEnd(total, size);
    PageSpan(total, size, n);
    PageSpan(total, size, current);
    if current < n {
      Monotone(current, n - 1, size);
      OneMore(current, size);
    }
  }

  /** A page before the first gives the first, one behind the last gives the last. */
  lemma PageClamped<T>(items: seq<T>, page: int, pageSize: int)
    ensures var n := PageCount(|items|, SafePageSize(pageSize));
      && (page < 1 ==> PaginateItems(items, page, pageSize) == PaginateItems(items, 1, pageSize))
      && (page > n ==> PaginateItems(items, page, pageSize) == PaginateItems(items, n, pageSize))
      && (1 <= page <= n ==> PaginateItems(items, page, pageSize).currentPage == page)
  {}

  /** The items of each of the pages 1 to `n`. */
  function Pages<T>(items: seq<T>, pageSize: int, n: nat): seq<seq<T>> {
    seq(n, k requires 0 <= k < n => PaginateItems(items, k + 1, pageSize).items)
  }

  /** Lists put together, one after the other. */
  function Joined<T>(lists: seq<seq<T>>): seq<T> {
    if lists == [] then [] else Joined(lists[..|lists| - 1]) + lists[|lists| - 1]
  }

  /** How many items the first `n` pages show. */
  function Upto(total: nat, size: int, n: nat): (shown: nat)
    requires size > 0
    ensures shown <= total
  {
    if n == 0 then 0 else Min(Upto(total, size, n - 1) + size, total)
  }

  lemma {:induction false} UptoIsProduct(total: nat, size: int, n: nat)
    requires size > 0
    ensures Upto(total, size, n) == Min(n * size, total)
  {
    if n == 0 {
    } else {
      UptoIsProduct(total, size, n - 1);
      OneMore(n, size);
    }
  }

  lemma UptoAll(total: nat, size: int)
    requires size > 0
    ensures Upto(total, size, PageCount(total, size)) == total
  {
    LastPageReachesEnd(total, size);
    UptoIsProduct(total, size, PageCount(total, size));
  }

  lemma OneMore(n: nat, size: int)
    requires n > 0
    ensures n * size == (n - 1) * size + size
  {}

  lemma NextPage<T>(items: seq<T>, pageSize: int, n: nat, size: int)
    requires size == SafePageSize(pageSize) && 1 <= n <= PageCount(|items|, size)
    ensures var done, next := Upto(|items|, size, n - 1), Upto(|items|, size, n);
      done <= next && PaginateItems(items, n, pageSize).items == items[done..next]
  {
    PageSpan(|items|, size, n);
    UptoIsProduct(|items|, size, n - 1);
    var start := StartIndex(|items|, size, n);
    assert start == Upto(|items|, size, n - 1);
    PageItems(items, n, pageSize);
  }

  lemma PageItems<T>(items: seq<T>, n: int, pageSize: int)
    requires 1 <= n <= PageCount(|items|, SafePageSize(pageSize))
    ensures var start := StartIndex(|items|, SafePageSize(pageSize), n);
      PaginateItems(items, n, pageSize).items == items[start..Min(start + SafePageSize(pageSize), |items|)]
  {}

  /** List `k` is the part of the items that page `k + 1` should show. */
  ghost predicate CutAt<T>(items: seq<T>, lists: seq<seq<T>>, size: int, k: nat)
    requires size > 0 && k < |lists|
  {
    var done, next := Upto(|items|, size, k), Upto(|items|, size, k + 1);
    done <= next && lists[k] == items[done..next]
  }

  lemma {:induction false} JoinedCuts<T>(items: seq<T>, lists: seq<seq<T>>, size: int)
    requires size > 0 && forall k :: 0 <= k < |lists| ==> CutAt(items, lists, size, k)
    ensures Joined(lists) == items[..Upto(|items|, size, |lists|)]
  {
    if lists == [] {
    } else {
      var n := |lists| - 1;
      forall k | 0 <= k < n ensures CutAt(items, lists[..n], size, k) {
        assert CutAt(items, lists, size, k);
      }
      JoinedCuts(items, lists[..n], size);
      assert CutAt(items, lists, size, n);
      var done, next := Upto(|items|, size, n), Upto(|items|, size, n + 1);
      assert items[..done] + items[done..next] == items[..next];
    }
  }

  /** No item is lost or shown twice: the pages put together are the list, for
      every list and every requested page size. */
  lemma PagesCoverItems<T>(items: seq<T>, pageSize: int)
    ensures var n := PageCount(|items|, SafePageSize(pageSize));
      n >= 1 && Joined(Pages(items, pageSize, n)) == items
  {
    var size := SafePageSize(pageSize);
    var n := PageCount(|items|, size);
    forall k | 0 <= k < n ensures CutAt(items, Pages(items, pageSize, n), size, k) {
      NextPage(items, pageSize, k + 1, size);
    }
    JoinedCuts(items, Pages(items, pageSize, n), size);
    UptoAll(|items|, size);
    assert items[..|items|] == items;
  }

  // ---- the page bar ----

  datatype Cell = Number(page: int) | Ellipsis

  function Range(from: int, to: int): seq<Cell>
    requires from <= to
  {
    seq(to - from, i => Number(from + i))
  }

  /** `visiblePages`; the caller passes a current page within the page count. */
  method VisiblePages(currentPage: int, pageCount: int) returns (pages: seq<Cell>)
    requires 1 <= currentPage <= pageCount
    ensures pages == Bar(currentPage, pageCount)
  {
    if pageCount <= 7 {
      return Range(1, pageCount + 1);
    }
    pages := [Number(1)];
    var start := Max(2, currentPage - 1);
    var end := Min(pageCount - 1, currentPage + 1);
    if start > 2 {
      pages := pages + [Ellipsis];
    }
    ghost var before := pages;
    var page := start;
    while page <= end
      invariant start <= page <= end + 1
      invariant pages == before + Range(start, page)
    {
      pages := pages + [Number(page)];
      assert Range(start, page + 1) == Range(start, page) + [Number(page)];
      page := page + 1;
    }
    if end < pageCount - 1 {
      pages := pages + [Ellipsis];
    }
    pages := pages + [Number(pageCount)];
  }

  function Bar(currentPage: int, pageCount: int): seq<Cell>
    requires 1 <= currentPage <= pageCount
  {
    if pageCount <= 7 then Range(1, pageCount + 1)
    else
      var start, end := Max(2, currentPage - 1), Min(pageCount - 1, currentPage + 1);
      [Number(1)] + (if start > 2 then [Ellipsis] else []) + Range(start, end + 1)
      + (if end < pageCount - 1 then [Ellipsis] else []) + [Number(pageCount)]
  }

  /** The pages that the bar has a button for. */
  predicate Shown(page: int, currentPage: int, pageCount: int) {
    1 <= page <= pageCount && (pageCount <= 7 || page == 1 || page == pageCount || -1 <= page - currentPage <= 1)
  }

  /** Numbers go up by one, except over an ellipsis, which skips at least one page. */
  predicate WellSpaced(bar: seq<Cell>) {
    && (forall i :: 0 < i < |bar| && bar[i].Number? && bar[i - 1].Number? ==> bar[i].page == bar[i - 1].page + 1)
    && (forall i :: 0 <= i < |bar| && bar[i].Ellipsis? ==>
          (0 < i < |bar| - 1 && bar[i - 1].Number? && bar[i + 1].Number? && bar[i + 1].page > bar[i - 1].page + 1))
  }

  /** The bar has at most seven cells, runs from the first page to the last, and
      has an ellipsis exactly where it skips pages. */
  lemma BarShape(currentPage: int, pageCount: int)
    requires 1 <= currentPage <= pageCount
    ensures var bar := Bar(currentPage, pageCount);
      1 <= |bar| <= 7 && bar[0] == Number(1) && bar[|bar| - 1] == Number(pageCount) && WellSpaced(bar)
  {
    var bar := Bar(currentPage, pageCount);
    if pageCount > 7 {
      BarCells(currentPage, pageCount);
      if currentPage <= 3 {
        FrontBar(currentPage, pageCount);
      } else if currentPage >= pageCount - 2 {
        BackBar(currentPage, pageCount);
      }
    }
  }

  lemma FrontBar(c: int, n: int)
    requires n > 7 && 1 <= c <= 3
    ensures WellSpaced([Number(1)] + Range(2, c + 2) + [Ellipsis, Number(n)])
  {}

  lemma BackBar(c: int, n: int)
    requires n > 7 && n - 2 <= c <= n
    ensures WellSpaced([Number(1), Ellipsis] + Range(c - 1, n) + [Number(n)])
  {}

  lemma BarCells(c: int, n: int)
    requires 1 <= c <= n
    ensures n > 7 && c <= 3 ==> Bar(c, n) == [Number(1)] + Range(2, c + 2) + [Ellipsis, Number(n)]
    ensures n > 7 && c >= n - 2 ==> Bar(c, n) == [Number(1), Ellipsis] + Range(c - 1, n) + [Number(n)]
    ensures n > 7 && 3 < c < n - 2 ==>
      Bar(c, n) == [Number(1), Ellipsis, Number(c - 1), Number(c), Number(c + 1), Ellipsis, Number(n)]
  {}

  /** A page has a button exactly when it is the first, the last, the current
      one or next to it; up to seven pages all have one. */
  lemma BarButtons(currentPage: int, pageCount: int, page: int)
    requires 1 <= currentPage <= pageCount
    ensures Number(page) in Bar(currentPage, pageCount) <==> Shown(page, currentPage, pageCount)
  {
    if pageCount <= 7 {
      RangeMembers(1, pageCount + 1, page);
    } else {
      RangeMembers(Max(2, currentPage - 1), Min(pageCount - 1, currentPage + 1) + 1, page);
    }
  }

  lemma RangeMembers(from: int, to: int, page: int)
    requires from <= to
    ensures Number(page) in Range(from, to) <==> from <= page < to
  {
    if from <= page < to {
      assert Range(from, to)[page - from] == Number(page);
    }
  }
}
