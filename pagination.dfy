/**
 * The Pagination component: which page numbers it shows around the current
 * page, where it puts ellipses, and which page each of its buttons reports
 * through `onPageChange`.
 */
module Pagination {
  import opened Common

  /** The props the component's logic reads. */
  datatype Props = Props(currentPage: int, totalPages: int, showFirstLast: bool, maxVisiblePages: int)

  /** Props under which the component is meaningful: at least one page, the current page among them, a non-empty window. */
  predicate ValidProps(p: Props) {
    1 <= p.currentPage <= p.totalPages && p.maxVisiblePages >= 1
  }

  // ---------------------------------------------------------------------------
  // The window of visible page numbers (getVisiblePages)
  // ---------------------------------------------------------------------------

  /**
   * First page of the window: centred on the current page (half the window
   * before it, `Math.floor(maxVisiblePages / 2)`, which is Dafny's `/` since
   * the divisor is positive), then moved back when the window was cut short
   * by the last page.
   */
  function WindowStart(currentPage: int, totalPages: int, maxVisiblePages: int): int {
    var start := MaxInt(1, currentPage - maxVisiblePages / 2);
    var end := MinInt(totalPages, start + maxVisiblePages - 1);
    if end - start + 1 < maxVisiblePages then MaxInt(1, end - maxVisiblePages + 1) else start
  }

  /** Last page of the window. */
  function WindowEnd(currentPage: int, totalPages: int, maxVisiblePages: int): int {
    MinInt(totalPages, MaxInt(1, currentPage - maxVisiblePages / 2) + maxVisiblePages - 1)
  }

  /** The integers lo, lo+1, ..., hi (empty when lo > hi). */
  function Range(lo: int, hi: int): (r: seq<int>)
    decreases hi - lo
    ensures |r| == if lo <= hi then hi - lo + 1 else 0
    ensures forall i :: 0 <= i < |r| ==> r[i] == lo + i
  {
    if lo > hi then [] else [lo] + Range(lo + 1, hi)
  }

  function VisiblePagesOf(p: Props): seq<int> {
    Range(WindowStart(p.currentPage, p.totalPages, p.maxVisiblePages),
          WindowEnd(p.currentPage, p.totalPages, p.maxVisiblePages))
  }

  /** getVisiblePages: adjust `start`, then push start..end one by one. */
  method VisiblePages(currentPage: int, totalPages: int, maxVisiblePages: int) returns (pages: seq<int>)
    ensures pages == Range(WindowStart(currentPage, totalPages, maxVisiblePages),
                           WindowEnd(currentPage, totalPages, maxVisiblePages))
  {
    pages := [];
    var half := maxVisiblePages / 2;
    var start := MaxInt(1, currentPage - half);
    var end := MinInt(totalPages, start + maxVisiblePages - 1);
    if end - start + 1 < maxVisiblePages {
      start := MaxInt(1, end - maxVisiblePages + 1);
    }
    var i := start;
    while i <= end
      invariant start <= i <= MaxInt(start, end + 1)
      invariant |pages| == i - start
      invariant forall k :: 0 <= k < |pages| ==> pages[k] == start + k
    {
      pages := pages + [i];
      i := i + 1;
    }
    assert start == WindowStart(currentPage, totalPages, maxVisiblePages);
    assert end == WindowEnd(currentPage, totalPages, maxVisiblePages);
    assert |pages| == |Range(start, end)|;
  }

  /**
   * With at least one page and a non-empty window, the window is a run of
   * pages inside 1..totalPages holding min(maxVisiblePages, totalPages) pages.
   */
  lemma WindowShape(currentPage: int, totalPages: int, maxVisiblePages: int)
    requires totalPages >= 1 && maxVisiblePages >= 1
    ensures 1 <= WindowStart(currentPage, totalPages, maxVisiblePages)
    ensures WindowStart(currentPage, totalPages, maxVisiblePages) <= WindowEnd(currentPage, totalPages, maxVisiblePages)
    ensures WindowEnd(currentPage, totalPages, maxVisiblePages) <= totalPages
    ensures WindowEnd(currentPage, totalPages, maxVisiblePages) - WindowStart(currentPage, totalPages, maxVisiblePages) + 1
            == MinInt(maxVisiblePages, totalPages)
  {
  }

  /** A current page inside 1..totalPages is always one of the visible pages. */
  lemma WindowHoldsCurrent(currentPage: int, totalPages: int, maxVisiblePages: int)
    requires 1 <= currentPage <= totalPages && maxVisiblePages >= 1
    ensures WindowStart(currentPage, totalPages, maxVisiblePages) <= currentPage
    ensures currentPage <= WindowEnd(currentPage, totalPages, maxVisiblePages)
  {
  }

  /**
   * Away from both ends the window is centred: floor(maxVisiblePages / 2)
   * pages precede the current one.
   */
  lemma WindowCentred(currentPage: int, totalPages: int, maxVisiblePages: int)
    requires maxVisiblePages >= 1
    requires currentPage - maxVisiblePages / 2 >= 1
    requires currentPage - maxVisiblePages / 2 + maxVisiblePages - 1 <= totalPages
    ensures WindowStart(currentPage, totalPages, maxVisiblePages) == currentPage - maxVisiblePages / 2
    ensures WindowEnd(currentPage, totalPages, maxVisiblePages) == WindowStart(currentPage, totalPages, maxVisiblePages) + maxVisiblePages - 1
  {
  }

  // ---------------------------------------------------------------------------
  // Ellipsis flags and the rendered buttons
  // ---------------------------------------------------------------------------

  /** `visiblePages[0] > 2` (false for an empty window, where the element is undefined). */
  function ShowStartEllipsis(pages: seq<int>): bool {
    |pages| > 0 && pages[0] > 2
  }

  /** `visiblePages[visiblePages.length - 1] < totalPages - 1`. */
  function ShowEndEllipsis(pages: seq<int>, totalPages: int): bool {
    |pages| > 0 && pages[|pages| - 1] < totalPages - 1
  }

  /** One rendered button. The `disabled` flags are the HTML `disabled` attribute. */
  datatype Control =
    | FirstJump(target: int, disabled: bool)
    | Prev(target: int, disabled: bool)
    | PageButton(page: int, active: bool)
    | EllipsisButton
    | Next(target: int, disabled: bool)
    | LastJump(target: int, disabled: bool)

  /**
   * The argument `onPageChange` receives when a control is clicked, or None
   * when nothing is called: a disabled button fires no click, and an ellipsis
   * button is both disabled and guarded by `!isEllipsis`.
   */
  function PageChange(c: Control): (r: Option<int>)
    ensures c == EllipsisButton ==> r == None
    ensures c.PageButton? ==> r == Some(c.page)
  {
    match c
    case PageButton(page, _) => Some(page)
    case EllipsisButton => None
    case FirstJump(t, d) => if d then None else Some(t)
    case Prev(t, d) => if d then None else Some(t)
    case Next(t, d) => if d then None else Some(t)
    case LastJump(t, d) => if d then None else Some(t)
  }

  function PrevButton(p: Props): Control {
    Prev(MaxInt(1, p.currentPage - 1), p.currentPage == 1)
  }

  function NextButton(p: Props): Control {
    Next(MinInt(p.totalPages, p.currentPage + 1), p.currentPage == p.totalPages)
  }

  /** The double-chevron jump to page 1, rendered only past page 1. */
  function FirstJumps(p: Props): seq<Control> {
    if p.showFirstLast && p.currentPage > 1 then [FirstJump(1, p.currentPage == 1)] else []
  }

  /** The double-chevron jump to the last page, rendered only before it. */
  function LastJumps(p: Props): seq<Control> {
    if p.showFirstLast && p.currentPage < p.totalPages then [LastJump(p.totalPages, p.currentPage == p.totalPages)] else []
  }

  function PageButtons(pages: seq<int>, currentPage: int): seq<Control>
  {
    seq(|pages|, i requires 0 <= i < |pages| => PageButton(pages[i], pages[i] == currentPage))
  }

  /** Everything the component renders, left to right, around a strip of page and ellipsis buttons. */
  function Controls(p: Props, strip: seq<Control>): seq<Control> {
    FirstJumps(p) + [PrevButton(p)] + strip + [NextButton(p)] + LastJumps(p)
  }

  /**
   * The strip as written: page 1 is rendered only together with the start
   * ellipsis, and the last page only together with the end ellipsis.
   */
  function StripAsWritten(p: Props): seq<Control> {
    StripAsWrittenAround(WindowStart(p.currentPage, p.totalPages, p.maxVisiblePages),
                         WindowEnd(p.currentPage, p.totalPages, p.maxVisiblePages),
                         p.totalPages, p.currentPage)
  }

  /** The as-written strip around the window first..last of totalPages pages. */
  function StripAsWrittenAround(first: int, last: int, totalPages: int, currentPage: int): seq<Control> {
    var pages := Range(first, last);
    (if ShowStartEllipsis(pages) then [PageButton(1, currentPage == 1), EllipsisButton] else [])
    + PageButtons(pages, currentPage)
    + (if ShowEndEllipsis(pages, totalPages) then [EllipsisButton, PageButton(totalPages, currentPage == totalPages)] else [])
  }

  function RenderAsWritten(p: Props): seq<Control> {
    Controls(p, StripAsWritten(p))
  }

  /**
   * The strip as evidently intended: page 1 whenever the window starts after
   * it, the ellipsis only when pages are skipped, and the same at the end.
   */
  function Strip(p: Props): seq<Control> {
    StripAround(WindowStart(p.currentPage, p.totalPages, p.maxVisiblePages),
                WindowEnd(p.currentPage, p.totalPages, p.maxVisiblePages),
                p.totalPages, p.currentPage)
  }

  /** The corrected strip for a window first..last of totalPages pages. */
  function StripAround(first: int, last: int, totalPages: int, currentPage: int): seq<Control> {
    StripHead(first, currentPage)
    + PageButtons(Range(first, last), currentPage)
    + StripTail(last, totalPages, currentPage)
  }

  function StripHead(first: int, currentPage: int): seq<Control> {
    (if first > 1 then [PageButton(1, currentPage == 1)] else [])
    + (if first > 2 then [EllipsisButton] else [])
  }

  function StripTail(last: int, totalPages: int, currentPage: int): seq<Control> {
    (if last < totalPages - 1 then [EllipsisButton] else [])
    + (if last < totalPages then [PageButton(totalPages, currentPage == totalPages)] else [])
  }

  function Render(p: Props): seq<Control> {
    Controls(p, Strip(p))
  }

  /**
   * A strip that tells the truth about pages 1..totalPages: it starts with
   * page 1 and ends with the last page, two adjacent page buttons are
   * consecutive pages, and an ellipsis stands exactly between two page
   * buttons that skip at least one page.
   */
  predicate HonestStrip(strip: seq<Control>, totalPages: int) {
    && |strip| > 0
    && strip[0].PageButton? && strip[0].page == 1
    && strip[|strip| - 1].PageButton? && strip[|strip| - 1].page == totalPages
    && AdjacentPagesConsecutive(strip)
    && EllipsesMarkGaps(strip)
  }

  predicate AdjacentPagesConsecutive(strip: seq<Control>) {
    forall i :: 0 <= i < |strip| - 1 && strip[i].PageButton? && strip[i + 1].PageButton? ==>
      strip[i + 1].page == strip[i].page + 1
  }

  predicate EllipsesMarkGaps(strip: seq<Control>) {
    forall i :: 0 <= i < |strip| && strip[i] == EllipsisButton ==>
      && 0 < i < |strip| - 1 && strip[i - 1].PageButton? && strip[i + 1].PageButton?
      && strip[i + 1].page > strip[i - 1].page + 1
  }

  /** Finding, as written: with 10 pages, a window of 5 and page 4 current, page 1 has no button and no ellipsis stands for it. */
  lemma StripAsWrittenDropsFirstPage()
    ensures StripAsWritten(Props(4, 10, true, 5)) ==
            [PageButton(2, false), PageButton(3, false), PageButton(4, true), PageButton(5, false),
             PageButton(6, false), EllipsisButton, PageButton(10, false)]
    ensures !HonestStrip(StripAsWritten(Props(4, 10, true, 5)), 10)
  {
    var p := Props(4, 10, true, 5);
    assert WindowStart(4, 10, 5) == 2 && WindowEnd(4, 10, 5) == 6;
    assert Range(2, 6) == [2, 3, 4, 5, 6];
  }

  /** Finding, as written: with page 7 current the window ends at 9 and page 10 has no button. */
  lemma StripAsWrittenDropsLastPage()
    ensures StripAsWritten(Props(7, 10, true, 5)) ==
            [PageButton(1, false), EllipsisButton, PageButton(5, false), PageButton(6, false),
             PageButton(7, true), PageButton(8, false), PageButton(9, false)]
    ensures !HonestStrip(StripAsWritten(Props(7, 10, true, 5)), 10)
  {
    var p := Props(7, 10, true, 5);
    assert WindowStart(7, 10, 5) == 5 && WindowEnd(7, 10, 5) == 9;
    assert Range(5, 9) == [5, 6, 7, 8, 9];
  }

  /**
   * The ellipsis flags read the window's ends: the start ellipsis shows
   * exactly when the window starts after page 2, the end one exactly when
   * it stops before the last page but one.
   */
  lemma EllipsisFlags(p: Props)
    requires ValidProps(p)
    ensures ShowStartEllipsis(VisiblePagesOf(p)) <==> WindowStart(p.currentPage, p.totalPages, p.maxVisiblePages) > 2
    ensures ShowEndEllipsis(VisiblePagesOf(p), p.totalPages) <==> WindowEnd(p.currentPage, p.totalPages, p.maxVisiblePages) < p.totalPages - 1
  {
    WindowShape(p.currentPage, p.totalPages, p.maxVisiblePages);
  }

  /**
   * As written, page 1 gets a button in the strip unless the window starts
   * at page 2: then neither the window nor the start ellipsis group shows it.
   */
  lemma StripAsWrittenFirstPage(p: Props)
    requires ValidProps(p)
    ensures PageButton(1, p.currentPage == 1) in StripAsWritten(p)
            <==> WindowStart(p.currentPage, p.totalPages, p.maxVisiblePages) != 2
  {
    WindowShape(p.currentPage, p.totalPages, p.maxVisiblePages);
    var first := WindowStart(p.currentPage, p.totalPages, p.maxVisiblePages);
    var pages := VisiblePagesOf(p);
    var m := PageButtons(pages, p.currentPage);
    var s := StripAsWritten(p);
    if first == 1 {
      assert s[|s| - |m| - (if ShowEndEllipsis(pages, p.totalPages) then 2 else 0)] == m[0];
    } else if first > 2 {
      assert s[0] == PageButton(1, p.currentPage == 1);
    } else {
      forall i | 0 <= i < |s| ensures s[i] != PageButton(1, p.currentPage == 1) {
        if i < |m| {
          assert s[i] == m[i];
        }
      }
    }
  }

  /**
   * As written, the last page gets a button in the strip unless the window
   * ends at the last page but one.
   */
  lemma StripAsWrittenLastPage(p: Props)
    requires ValidProps(p)
    ensures PageButton(p.totalPages, p.currentPage == p.totalPages) in StripAsWritten(p)
            <==> WindowEnd(p.currentPage, p.totalPages, p.maxVisiblePages) != p.totalPages - 1
  {
    WindowShape(p.currentPage, p.totalPages, p.maxVisiblePages);
    var last := WindowEnd(p.currentPage, p.totalPages, p.maxVisiblePages);
    var pages := VisiblePagesOf(p);
    var m := PageButtons(pages, p.currentPage);
    var h := if ShowStartEllipsis(pages) then 2 else 0;
    var s := StripAsWritten(p);
    if last == p.totalPages {
      assert s[h + |m| - 1] == m[|m| - 1];
    } else if last < p.totalPages - 1 {
      assert s[|s| - 1] == PageButton(p.totalPages, p.currentPage == p.totalPages);
    } else {
      forall i | 0 <= i < |s| ensures s[i] != PageButton(p.totalPages, p.currentPage == p.totalPages) {
        if h <= i < h + |m| {
          assert s[i] == m[i - h];
        }
      }
    }
  }

  /** The corrected strip is honest for every meaningful set of props. */
  lemma StripIsHonest(p: Props)
    requires ValidProps(p)
    ensures HonestStrip(Strip(p), p.totalPages)
  {
    WindowShape(p.currentPage, p.totalPages, p.maxVisiblePages);
    StripAroundHonest(WindowStart(p.currentPage, p.totalPages, p.maxVisiblePages),
                      WindowEnd(p.currentPage, p.totalPages, p.maxVisiblePages),
                      p.totalPages, p.currentPage);
  }

  lemma StripAroundHonest(first: int, last: int, totalPages: int, currentPage: int)
    requires 1 <= first <= last <= totalPages
    ensures HonestStrip(StripAround(first, last, totalPages, currentPage), totalPages)
  {
    var a := StripHead(first, currentPage);
    var m := PageButtons(Range(first, last), currentPage);
    var b := StripTail(last, totalPages, currentPage);
    var s := StripAround(first, last, totalPages, currentPage);
    assert s == a + m + b;
    assert s[|a|] == m[0] && s[|a| + |m| - 1] == m[|m| - 1];
    assert |a| > 0 ==> s[0] == a[0];
    assert |b| > 0 ==> s[|s| - 1] == b[|b| - 1];
    StripAroundAdjacent(first, last, totalPages, currentPage);
    StripAroundGaps(first, last, totalPages, currentPage);
  }

  lemma StripAroundAdjacent(first: int, last: int, totalPages: int, currentPage: int)
    requires 1 <= first <= last <= totalPages
    ensures AdjacentPagesConsecutive(StripAround(first, last, totalPages, currentPage))
  {
    var a := StripHead(first, currentPage);
    var m := PageButtons(Range(first, last), currentPage);
    var b := StripTail(last, totalPages, currentPage);
    var s := StripAround(first, last, totalPages, currentPage);
    assert s == a + m + b;
    forall i | 0 <= i < |s| - 1 && s[i].PageButton? && s[i + 1].PageButton?
      ensures s[i + 1].page == s[i].page + 1
    {
      if i + 1 < |a| {
        assert false;
      } else if i + 1 == |a| {
        assert s[i] == a[i] && s[i + 1] == m[0];
      } else if i + 1 < |a| + |m| {
        assert s[i] == m[i - |a|] && s[i + 1] == m[i + 1 - |a|];
      } else if i + 1 == |a| + |m| {
        assert s[i] == m[|m| - 1] && s[i + 1] == b[0];
      } else {
        assert false;
      }
    }
  }

  lemma StripAroundGaps(first: int, last: int, totalPages: int, currentPage: int)
    requires 1 <= first <= last <= totalPages
    ensures EllipsesMarkGaps(StripAround(first, last, totalPages, currentPage))
  {
    var a := StripHead(first, currentPage);
    var m := PageButtons(Range(first, last), currentPage);
    var b := StripTail(last, totalPages, currentPage);
    var s := StripAround(first, last, totalPages, currentPage);
    assert s == a + m + b;
    forall i | 0 <= i < |s| && s[i] == EllipsisButton
      ensures 0 < i < |s| - 1 && s[i - 1].PageButton? && s[i + 1].PageButton?
      ensures s[i + 1].page > s[i - 1].page + 1
    {
      if i < |a| {
        assert i == 1 && s[0] == a[0] && s[2] == m[0];
      } else if i < |a| + |m| {
        assert false;
      } else {
        assert i == |a| + |m| && s[i - 1] == m[|m| - 1] && s[i + 1] == b[1];
      }
    }
  }

  /** Every click on the rendered component reports a page in 1..totalPages, or nothing. */
  lemma ClicksStayInRange(p: Props)
    requires ValidProps(p)
    ensures forall c :: c in Render(p) && PageChange(c).Some? ==> 1 <= PageChange(c).value <= p.totalPages
    ensures forall c :: c in RenderAsWritten(p) && PageChange(c).Some? ==> 1 <= PageChange(c).value <= p.totalPages
  {
    WindowShape(p.currentPage, p.totalPages, p.maxVisiblePages);
    var first := WindowStart(p.currentPage, p.totalPages, p.maxVisiblePages);
    var last := WindowEnd(p.currentPage, p.totalPages, p.maxVisiblePages);
    StripPagesInRange(first, last, p.totalPages, p.currentPage);
    ControlsInRange(p, Strip(p));
    AsWrittenPagesInRange(first, last, p.totalPages, p.currentPage);
    ControlsInRange(p, StripAsWritten(p));
  }

  /** The buttons around a strip report pages in range when the strip's own buttons do. */
  lemma ControlsInRange(p: Props, strip: seq<Control>)
    requires ValidProps(p)
    requires forall c :: c in strip && PageChange(c).Some? ==> 1 <= PageChange(c).value <= p.totalPages
    ensures forall c :: c in Controls(p, strip) && PageChange(c).Some? ==> 1 <= PageChange(c).value <= p.totalPages
  {
    forall c | c in Controls(p, strip) && PageChange(c).Some?
      ensures 1 <= PageChange(c).value <= p.totalPages
    {
      assert c in FirstJumps(p) || c == PrevButton(p) || c in strip || c == NextButton(p) || c in LastJumps(p);
    }
  }

  lemma StripPagesInRange(first: int, last: int, totalPages: int, currentPage: int)
    requires 1 <= first <= last <= totalPages
    ensures forall c :: c in StripAround(first, last, totalPages, currentPage) && PageChange(c).Some? ==>
              1 <= PageChange(c).value <= totalPages
  {
    var m := PageButtons(Range(first, last), currentPage);
    assert StripAround(first, last, totalPages, currentPage) == StripHead(first, currentPage) + m + StripTail(last, totalPages, currentPage);
    forall c | c in m ensures 1 <= PageChange(c).value <= totalPages {
      var i :| 0 <= i < |m| && m[i] == c;
    }
  }

  lemma AsWrittenPagesInRange(first: int, last: int, totalPages: int, currentPage: int)
    requires 1 <= first <= last <= totalPages
    ensures forall c :: c in StripAsWrittenAround(first, last, totalPages, currentPage) && PageChange(c).Some? ==>
              1 <= PageChange(c).value <= totalPages
  {
    var a := if first > 2 then [PageButton(1, currentPage == 1), EllipsisButton] else [];
    var m := PageButtons(Range(first, last), currentPage);
    var b := if last < totalPages - 1 then [EllipsisButton, PageButton(totalPages, currentPage == totalPages)] else [];
    assert StripAsWrittenAround(first, last, totalPages, currentPage) == a + m + b;
    forall c | c in m ensures 1 <= PageChange(c).value <= totalPages {
      var i :| 0 <= i < |m| && m[i] == c;
    }
  }

  /**
   * The current page has an active button, every other page button is
   * inactive, and page numbers increase from left to right.
   */
  predicate OneActivePage(strip: seq<Control>, currentPage: int) {
    && (exists i :: 0 <= i < |strip| && strip[i] == PageButton(currentPage, true))
    && (forall i :: 0 <= i < |strip| && strip[i].PageButton? ==> (strip[i].active <==> strip[i].page == currentPage))
    && (forall i, j :: 0 <= i < j < |strip| && strip[i].PageButton? && strip[j].PageButton? ==>
          strip[i].page < strip[j].page)
  }

  /** Exactly one page button is active, the current page's, in both the as-written and the corrected strip. */
  lemma ExactlyOneActivePage(p: Props)
    requires ValidProps(p)
    ensures OneActivePage(Strip(p), p.currentPage)
    ensures OneActivePage(StripAsWritten(p), p.currentPage)
  {
    WindowShape(p.currentPage, p.totalPages, p.maxVisiblePages);
    WindowHoldsCurrent(p.currentPage, p.totalPages, p.maxVisiblePages);
    var first := WindowStart(p.currentPage, p.totalPages, p.maxVisiblePages);
    var last := WindowEnd(p.currentPage, p.totalPages, p.maxVisiblePages);
    StripAroundOrdered(first, last, p.totalPages, p.currentPage);
    StripAsWrittenActive(first, last, p.totalPages, p.currentPage);
    StripAsWrittenIncreasing(first, last, p.totalPages, p.currentPage);
  }

  lemma StripAroundOrdered(first: int, last: int, totalPages: int, currentPage: int)
    requires 1 <= first <= currentPage <= last <= totalPages
    ensures var s := StripAround(first, last, totalPages, currentPage);
      && |StripHead(first, currentPage)| + currentPage - first < |s|
      && s[|StripHead(first, currentPage)| + currentPage - first] == PageButton(currentPage, true)
      && (forall i :: 0 <= i < |s| && s[i].PageButton? ==> (s[i].active <==> s[i].page == currentPage))
      && (forall i, j :: 0 <= i < j < |s| && s[i].PageButton? && s[j].PageButton? ==> s[i].page < s[j].page)
  {
    var a := StripHead(first, currentPage);
    var m := PageButtons(Range(first, last), currentPage);
    var b := StripTail(last, totalPages, currentPage);
    var s := StripAround(first, last, totalPages, currentPage);
    assert s == a + m + b;
    var k := currentPage - first;
    assert s[|a| + k] == m[k];
    forall i | 0 <= i < |s| && s[i].PageButton?
      ensures s[i].active <==> s[i].page == currentPage
    {
      if i < |a| {
        assert s[i] == a[i];
      } else if i < |a| + |m| {
        assert s[i] == m[i - |a|];
      } else {
        assert s[i] == b[i - |a| - |m|];
      }
    }
    forall i, j | 0 <= i < j < |s| && s[i].PageButton? && s[j].PageButton?
      ensures s[i].page < s[j].page
    {
      if i < |a| {
        assert s[i] == a[i] && s[i].page == 1;
      } else if i < |a| + |m| {
        assert s[i] == m[i - |a|];
      }
      if j < |a| {
        assert false;
      } else if j < |a| + |m| {
        assert s[j] == m[j - |a|];
      } else {
        assert s[j] == b[j - |a| - |m|] && s[j].page == totalPages;
      }
    }
  }

  lemma StripAsWrittenActive(first: int, last: int, totalPages: int, currentPage: int)
    requires 1 <= first <= currentPage <= last <= totalPages
    ensures var s := StripAsWrittenAround(first, last, totalPages, currentPage);
            var k := (if first > 2 then 2 else 0) + currentPage - first;
      && 0 <= k < |s| && s[k] == PageButton(currentPage, true)
      && (forall i :: 0 <= i < |s| && s[i].PageButton? ==> (s[i].active <==> s[i].page == currentPage))
  {
    var a := if first > 2 then [PageButton(1, currentPage == 1), EllipsisButton] else [];
    var m := PageButtons(Range(first, last), currentPage);
    var b := if last < totalPages - 1 then [EllipsisButton, PageButton(totalPages, currentPage == totalPages)] else [];
    var s := StripAsWrittenAround(first, last, totalPages, currentPage);
    assert s == a + m + b;
    assert s[|a| + currentPage - first] == m[currentPage - first];
    forall i | 0 <= i < |s| && s[i].PageButton?
      ensures s[i].active <==> s[i].page == currentPage
    {
      if i < |a| {
        assert s[i] == a[i];
      } else if i < |a| + |m| {
        assert s[i] == m[i - |a|];
      } else {
        assert s[i] == b[i - |a| - |m|];
      }
    }
  }

  lemma StripAsWrittenIncreasing(first: int, last: int, totalPages: int, currentPage: int)
    requires 1 <= first <= currentPage <= last <= totalPages
    ensures var s := StripAsWrittenAround(first, last, totalPages, currentPage);
      forall i, j :: 0 <= i < j < |s| && s[i].PageButton? && s[j].PageButton? ==> s[i].page < s[j].page
  {
    var a := if first > 2 then [PageButton(1, currentPage == 1), EllipsisButton] else [];
    var m := PageButtons(Range(first, last), currentPage);
    var b := if last < totalPages - 1 then [EllipsisButton, PageButton(totalPages, currentPage == totalPages)] else [];
    var s := StripAsWrittenAround(first, last, totalPages, currentPage);
    assert s == a + m + b;
    forall i, j | 0 <= i < j < |s| && s[i].PageButton? && s[j].PageButton?
      ensures s[i].page < s[j].page
    {
      if i < |a| {
        assert s[i] == a[i] && s[i].page == 1;
      } else if i < |a| + |m| {
        assert s[i] == m[i - |a|];
      }
      if j < |a| {
        assert false;
      } else if j < |a| + |m| {
        assert s[j] == m[j - |a|];
      } else {
        assert s[j] == b[j - |a| - |m|] && s[j].page == totalPages;
      }
    }
  }

  /**
   * Prev and Next move one page and are disabled exactly at the ends, where
   * their clamped target is the current page itself.
   */
  lemma PrevNextTargets(p: Props)
    requires ValidProps(p)
    ensures PrevButton(p).disabled <==> p.currentPage == 1
    ensures PageChange(PrevButton(p)) == if p.currentPage == 1 then None else Some(p.currentPage - 1)
    ensures PrevButton(p).target == MaxInt(1, p.currentPage - 1)
    ensures NextButton(p).disabled <==> p.currentPage == p.totalPages
    ensures PageChange(NextButton(p)) == if p.currentPage == p.totalPages then None else Some(p.currentPage + 1)
    ensures NextButton(p).target == MinInt(p.totalPages, p.currentPage + 1)
  {
  }

  /** The jump buttons appear only away from their own end, and then they are never disabled. */
  lemma JumpButtons(p: Props)
    ensures |FirstJumps(p)| == (if p.showFirstLast && p.currentPage > 1 then 1 else 0)
    ensures forall c :: c in FirstJumps(p) ==> PageChange(c) == Some(1)
    ensures |LastJumps(p)| == (if p.showFirstLast && p.currentPage < p.totalPages then 1 else 0)
    ensures forall c :: c in LastJumps(p) ==> PageChange(c) == Some(p.totalPages)
  {
  }
}
