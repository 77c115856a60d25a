/** The pagination control: which page numbers and ellipses it shows around
    the current page, and the guarded previous / next handlers. */
module PaginationView {
  import opened NoteModel

  /** An entry of the visible list: a page button or an ellipsis. */
  datatype PageItem = Number(page: int) | Ellipsis

  /** How many pages on each side of the current one are shown. */
  const Delta := 2

  /** `if (total <= 1) return null`. */
  predicate IsRendered(total: int) {
    total > 1
  }

  /** The previous button is disabled at the first page. */
  predicate PreviousDisabled(current: int) {
    current <= 1
  }

  /** The next button is disabled at the last page. */
  predicate NextDisabled(current: int, total: int) {
    current >= total
  }

  /** `handlePrevious`: the page it asks for, if any. */
  function HandlePrevious(current: int): Option<int> {
    if current > 1 then Some(current - 1) else None
  }

  /** `handleNext`: the page it asks for, if any. */
  function HandleNext(current: int, total: int): Option<int> {
    if current < total then Some(current + 1) else None
  }

  /** Previous and next ask for a page change exactly when their button is
      enabled, and from a page in 1..total they only ask for pages in
      1..total, one step away. */
  lemma HandlersStayInRange(current: int, total: int)
    ensures HandlePrevious(current).Some? <==> !PreviousDisabled(current)
    ensures HandleNext(current, total).Some? <==> !NextDisabled(current, total)
    ensures 1 <= current <= total && HandlePrevious(current).Some? ==>
      1 <= HandlePrevious(current).value == current - 1
    ensures 1 <= current <= total && HandleNext(current, total).Some? ==>
      HandleNext(current, total).value == current + 1 <= total
  {
  }

  /** `handlePageClick`: a page button asks for its own page. */
  function HandlePageClick(page: int): Option<int> {
    Some(page)
  }

  // ---------------------------------------------------------------- the visible list

  /** The page buttons `a`, `a + 1`, ..., `b`. */
  function Range(a: int, b: int): (r: seq<PageItem>)
    ensures |r| == if a <= b then b - a + 1 else 0
    decreases b - a + 1
  {
    if a > b then [] else [Number(a)] + Range(a + 1, b)
  }

  /** The `k`-th entry of the range is page `a + k`. */
  lemma {:induction false} RangeAt(a: int, b: int)
    ensures forall k :: 0 <= k < |Range(a, b)| ==> Range(a, b)[k] == Number(a + k)
    decreases b - a + 1
  {
    if a <= b {
      RangeAt(a + 1, b);
      var r := Range(a, b);
      forall k | 0 <= k < |r| ensures r[k] == Number(a + k) {
        if k > 0 {
          assert r[k] == Range(a + 1, b)[k - 1];
        }
      }
    }
  }

  /** Extending the range by one page appends that page. */
  lemma RangeGrows(a: int, b: int)
    requires a <= b + 1
    ensures Range(a, b + 1) == Range(a, b) + [Number(b + 1)]
  {
    RangeAt(a, b);
    RangeAt(a, b + 1);
  }

  /** The entries before the window: page 1 and, if pages are skipped, an
      ellipsis. */
  function Leading(start: int): seq<PageItem> {
    if start > 1 then [Number(1)] + (if start > 2 then [Ellipsis] else []) else []
  }

  /** The entries after the window: an ellipsis if pages are skipped, then
      the last page. */
  function Trailing(end: int, total: int): seq<PageItem> {
    if end < total then (if end < total - 1 then [Ellipsis] else []) + [Number(total)] else []
  }

  function WindowStart(current: int): int {
    Max(1, current - Delta)
  }

  function WindowEnd(current: int, total: int): int {
    Min(total, current + Delta)
  }

  /** The list `getVisiblePages` returns. */
  function VisiblePages(current: int, total: int): seq<PageItem> {
    var start := WindowStart(current);
    var end := WindowEnd(current, total);
    Leading(start) + Range(start, end) + Trailing(end, total)
  }

  /** `getVisiblePages`: pushes the leading entries, the window one page at
      a time, then the trailing entries. */
  method GetVisiblePages(current: int, total: int) returns (pages: seq<PageItem>)
    ensures pages == VisiblePages(current, total)
  {
    var start := Max(1, current - Delta);
    var end := Min(total, current + Delta);
    pages := [];
    if start > 1 {
      pages := pages + [Number(1)];
      if start > 2 {
        pages := pages + [Ellipsis];
      }
    }
    ghost var leading := pages;
    var i := start;
    while i <= end
      invariant start <= i <= Max(start, end + 1)
      invariant pages == leading + Range(start, i - 1)
    {
      RangeGrows(start, i - 1);
      AppendAfter(leading, Range(start, i - 1), Number(i));
      pages := pages + [Number(i)];
      i := i + 1;
    }
    ghost var window := pages;
    if end < total {
      if end < total - 1 {
        pages := pages + [Ellipsis];
      }
      pages := pages + [Number(total)];
    }
    VisiblePagesSteps(current, total, leading, i, window, pages);
  }

  lemma AppendAfter(a: seq<PageItem>, b: seq<PageItem>, x: PageItem)
    ensures (a + b) + [x] == a + (b + [x])
  {
  }

  /** The three pushes of `getVisiblePages` put together give the list. */
  lemma VisiblePagesSteps(current: int, total: int, leading: seq<PageItem>, i: int,
                          window: seq<PageItem>, pages: seq<PageItem>)
    requires var start := WindowStart(current);
      leading == Leading(start) && start <= i <= Max(start, WindowEnd(current, total) + 1) && i > WindowEnd(current, total)
    requires window == leading + Range(WindowStart(current), i - 1)
    requires pages == window + Trailing(WindowEnd(current, total), total)
    ensures pages == VisiblePages(current, total)
  {
  }

  // ---------------------------------------------------------------- its properties

  /** Page numbers strictly increase along the list and lie in 1..total. */
  predicate NumbersIncreaseInRange(pages: seq<PageItem>, total: int) {
    && (forall i, j :: 0 <= i < j < |pages| && pages[i].Number? && pages[j].Number? ==>
          pages[i].page < pages[j].page)
    && (forall i :: 0 <= i < |pages| && pages[i].Number? ==> 1 <= pages[i].page <= total)
  }

  /** Neighbouring page numbers are consecutive; an ellipsis is never first
      or last, sits between two page numbers, and stands for at least one
      skipped page. So no two ellipses are adjacent, and an ellipsis
      separates two page numbers exactly when they differ by more than one. */
  predicate EllipsesMarkGaps(pages: seq<PageItem>) {
    && (forall i :: 0 <= i < |pages| - 1 && pages[i].Number? && pages[i + 1].Number? ==>
          pages[i + 1].page == pages[i].page + 1)
    && (forall i :: 0 <= i < |pages| && pages[i].Ellipsis? ==>
          && 0 < i < |pages| - 1
          && pages[i - 1].Number? && pages[i + 1].Number?
          && pages[i + 1].page > pages[i - 1].page + 1)
  }

  /** The list starts at page 1, ends at the last page and shows exactly
      those two and the pages within `Delta` of the current one. */
  ghost predicate ShowsExactly(pages: seq<PageItem>, current: int, total: int) {
    && |pages| > 0 && pages[0] == Number(1) && pages[|pages| - 1] == Number(total)
    && (forall n :: Number(n) in pages <==>
          n == 1 || n == total || WindowStart(current) <= n <= WindowEnd(current, total))
  }

  ghost predicate WellFormedWindow(pages: seq<PageItem>, current: int, total: int) {
    && NumbersIncreaseInRange(pages, total)
    && EllipsesMarkGaps(pages)
    && ShowsExactly(pages, current, total)
    && Number(current) in pages
    && |pages| <= 2 * Delta + 5
  }

  lemma VisiblePagesNumbers(current: int, total: int)
    requires 1 <= current <= total
    ensures NumbersIncreaseInRange(VisiblePages(current, total), total)
  {
    var start, end := WindowStart(current), WindowEnd(current, total);
    var l, m, t := Leading(start), Range(start, end), Trailing(end, total);
    RangeAt(start, end);
    var p := l + m + t;
    forall i, j | 0 <= i < j < |p| && p[i].Number? && p[j].Number?
      ensures p[i].page < p[j].page
    {
      if i >= |l| && j < |l| + |m| {
        assert p[i] == m[i - |l|] && p[j] == m[j - |l|];
      } else if i >= |l| && j >= |l| + |m| {
        assert p[i] == m[i - |l|];
      } else if i < |l| && j < |l| + |m| && j >= |l| {
        assert p[j] == m[j - |l|];
      }
    }
    forall i | 0 <= i < |p| && p[i].Number? ensures 1 <= p[i].page <= total {
      if |l| <= i < |l| + |m| {
        assert p[i] == m[i - |l|];
      }
    }
  }

  lemma VisiblePagesGaps(current: int, total: int)
    requires 1 <= current <= total
    ensures EllipsesMarkGaps(VisiblePages(current, total))
  {
    var start, end := WindowStart(current), WindowEnd(current, total);
    var l, m, t := Leading(start), Range(start, end), Trailing(end, total);
    RangeAt(start, end);
    var p := l + m + t;
    assert |m| >= 1;
    forall i | 0 <= i < |p| - 1 && p[i].Number? && p[i + 1].Number?
      ensures p[i + 1].page == p[i].page + 1
    {
      if i >= |l| && i + 1 < |l| + |m| {
        assert p[i] == m[i - |l|] && p[i + 1] == m[i + 1 - |l|];
      } else if i + 1 == |l| {
        assert p[i + 1] == m[0];
      } else if i + 1 == |l| + |m| {
        assert p[i] == m[|m| - 1];
      }
    }
    forall i | 0 <= i < |p| && p[i].Ellipsis?
      ensures 0 < i < |p| - 1 && p[i - 1].Number? && p[i + 1].Number? && p[i + 1].page > p[i - 1].page + 1
    {
      if i < |l| {
        assert i == 1 && p[2] == m[0];
      } else {
        assert i == |l| + |m| && p[i - 1] == m[|m| - 1];
      }
    }
  }

  lemma VisiblePagesShows(current: int, total: int)
    requires 1 <= current <= total
    ensures ShowsExactly(VisiblePages(current, total), current, total)
    ensures Number(current) in VisiblePages(current, total)
    ensures |VisiblePages(current, total)| <= 2 * Delta + 5
  {
    var start, end := WindowStart(current), WindowEnd(current, total);
    var l, m, t := Leading(start), Range(start, end), Trailing(end, total);
    RangeAt(start, end);
    var p := l + m + t;
    assert p == VisiblePages(current, total);
    assert |l| <= 2 && |m| <= 2 * Delta + 1 && |t| <= 2;
    assert p[0] == Number(1) by {
      if |l| == 0 { assert p[0] == m[0]; }
    }
    assert p[|p| - 1] == Number(total) by {
      if |t| == 0 { assert p[|p| - 1] == m[|m| - 1]; }
    }
    forall n | n == 1 || n == total || start <= n <= end ensures Number(n) in p {
      if start <= n <= end {
        assert p[|l| + n - start] == m[n - start] == Number(n);
      } else if n == 1 {
        assert |l| > 0 && p[0] == Number(1);
      } else {
        assert |t| > 0 && p[|p| - 1] == Number(total);
      }
    }
    forall n | Number(n) in p ensures n == 1 || n == total || start <= n <= end {
      var k :| 0 <= k < |p| && p[k] == Number(n);
      if |l| <= k < |l| + |m| {
        assert p[k] == m[k - |l|];
      } else if k < |l| {
        assert p[k] == l[k];
      } else {
        assert p[k] == t[k - |l| - |m|];
      }
    }
    assert start <= current <= end;
  }

  /** For a current page in 1..total the visible list has all the
      properties above and at most nine entries. */
  lemma VisiblePagesWellFormed(current: int, total: int)
    requires 1 <= current <= total
    ensures WellFormedWindow(VisiblePages(current, total), current, total)
  {
    VisiblePagesNumbers(current, total);
    VisiblePagesGaps(current, total);
    VisiblePagesShows(current, total);
  }

  /** Every page button of the list, when clicked, asks for a page in
      1..total. */
  lemma ClickedPagesInRange(current: int, total: int)
    requires 1 <= current <= total
    ensures forall k :: 0 <= k < |VisiblePages(current, total)| && VisiblePages(current, total)[k].Number? ==>
      var asked := HandlePageClick(VisiblePages(current, total)[k].page);
      asked.Some? && 1 <= asked.value <= total
  {
    VisiblePagesNumbers(current, total);
  }

  /** Past the last page the list keeps page 1 and an ellipsis but loses
      the last page: with 3 pages and current page 10 it is `1 ...`. */
  lemma PastLastPageDropsLastPage()
    ensures VisiblePages(10, 3) == [Number(1), Ellipsis]
  {
    assert Range(8, 3) == [];
  }
}
