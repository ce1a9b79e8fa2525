// The pagination control of src/components/ui/Pagination.tsx: the window of page
// numbers built by `getPageNumbers`, the ellipsis rule and the prev/next buttons.
// Pages are numbered from 0; each button shows its page plus one.

module Pagination {
  import opened Types
  import Button

  predicate StrictlyIncreasing(s: seq<int>) {
    forall i, j :: 0 <= i < j < |s| ==> s[i] < s[j]
  }

  /** The integers lo, lo+1, ..., hi, in order; empty when lo > hi. */
  function Range(lo: int, hi: int): (r: seq<int>)
    ensures |r| == if lo <= hi then hi - lo + 1 else 0
    ensures forall k :: 0 <= k < |r| ==> r[k] == lo + k
    decreases hi - lo
  {
    if lo > hi then [] else Range(lo, hi - 1) + [hi]
  }

  // ---------------------------------------------------- `[...new Set(s)].sort()`

  lemma HeadBelowTail(s: seq<int>)
    requires StrictlyIncreasing(s) && s != []
    ensures forall y :: y in s[1..] ==> s[0] < y
  {
  }

  lemma ConsIncreasing(h: int, t: seq<int>)
    requires StrictlyIncreasing(t) && forall y :: y in t ==> h < y
    ensures StrictlyIncreasing([h] + t)
  {
    var r := [h] + t;
    assert forall k :: 1 <= k < |r| ==> r[k] == t[k - 1] && r[k] in t;
  }

  /** Places x into a strictly increasing list, unless it is already there. */
  function Insert(x: int, s: seq<int>): (r: seq<int>)
    requires StrictlyIncreasing(s)
    ensures StrictlyIncreasing(r)
    ensures forall y :: y in r <==> y == x || y in s
  {
    if s == [] then [x]
    else if x < s[0] then [x] + s
    else if x == s[0] then s
    else
      var tail := Insert(x, s[1..]);
      HeadBelowTail(s);
      ConsIncreasing(s[0], tail);
      assert s == [s[0]] + s[1..];
      [s[0]] + tail
  }

  /** `[...new Set(s)].sort((a, b) => a - b)`: the distinct values of s in
      increasing order. */
  function SortedDistinct(s: seq<int>): (r: seq<int>)
    ensures StrictlyIncreasing(r)
    ensures forall y :: y in r <==> y in s
  {
    if s == [] then [] else Insert(s[0], SortedDistinct(s[1..]))
  }

  /** A strictly increasing list is determined by the values it holds. */
  lemma {:induction false} IncreasingDeterminedByValues(a: seq<int>, b: seq<int>)
    requires StrictlyIncreasing(a) && StrictlyIncreasing(b)
    requires forall y :: y in a <==> y in b
    ensures a == b
  {
    assert a != [] ==> a[0] in a && a[0] in b;
    assert b != [] ==> b[0] in b && b[0] in a;
    if a == [] || b == [] {
    } else {
      assert a[0] in a && b[0] in b;
      assert a[0] in b;
      assert b[0] in a;
      assert a[0] == b[0];
      forall y
        ensures y in a[1..] <==> y in b[1..]
      {
        if y in a[1..] {
          assert y in b && y != b[0];
        }
        if y in b[1..] {
          assert y in a && y != a[0];
        }
      }
      IncreasingDeterminedByValues(a[1..], b[1..]);
      assert a == [a[0]] + a[1..] && b == [b[0]] + b[1..];
    }
  }

  /** Removing duplicates and sorting leave a strictly increasing list as it is. */
  lemma SortedDistinctOfIncreasing(s: seq<int>)
    requires StrictlyIncreasing(s)
    ensures SortedDistinct(s) == s
  {
    IncreasingDeterminedByValues(SortedDistinct(s), s);
  }

  // ---------------------------------------------------------- the window

  function Max(a: int, b: int): int { if a < b then b else a }
  function Min(a: int, b: int): int { if a < b then a else b }

  /** The pages `getPageNumbers` pushes, in push order: 0, the neighbourhood of
      the current page clipped to [1, totalPages-2], and the last page. */
  function Pushed(currentPage: int, totalPages: int): seq<int> {
    [0] + Range(Max(1, currentPage - 1), Min(totalPages - 2, currentPage + 1))
      + (if totalPages > 1 then [totalPages - 1] else [])
  }

  /** The value `getPageNumbers` returns. */
  function PageNumbers(currentPage: int, totalPages: int): seq<int> {
    SortedDistinct(Pushed(currentPage, totalPages))
  }

  lemma PushedIncreasing(currentPage: int, totalPages: int)
    ensures StrictlyIncreasing(Pushed(currentPage, totalPages))
  {
  }

  /** The first and last page of the current page's neighbourhood. */
  function Lo(currentPage: int): int { Max(1, currentPage - 1) }
  function Hi(currentPage: int, totalPages: int): int { Min(totalPages - 2, currentPage + 1) }

  lemma RangeMembers(lo: int, hi: int)
    ensures forall p :: p in Range(lo, hi) <==> lo <= p <= hi
  {
    forall p | lo <= p <= hi
      ensures p in Range(lo, hi)
    {
      assert Range(lo, hi)[p - lo] == p;
    }
  }

  /** The Set and the sort change nothing: the pushed pages are already strictly
      increasing. */
  lemma PageNumbersArePushed(currentPage: int, totalPages: int)
    ensures PageNumbers(currentPage, totalPages) == Pushed(currentPage, totalPages)
    ensures StrictlyIncreasing(PageNumbers(currentPage, totalPages))
  {
    PushedIncreasing(currentPage, totalPages);
    SortedDistinctOfIncreasing(Pushed(currentPage, totalPages));
  }

  /** The window holds 0, the last page when there is more than one, and
      exactly the neighbourhood clipped to [1, totalPages-2] besides. */
  lemma PageNumbersMembers(currentPage: int, totalPages: int)
    ensures forall p :: p in PageNumbers(currentPage, totalPages) <==>
      p == 0 || (totalPages > 1 && p == totalPages - 1)
      || Max(1, currentPage - 1) <= p <= Min(totalPages - 2, currentPage + 1)
  {
    PageNumbersArePushed(currentPage, totalPages);
    RangeMembers(Lo(currentPage), Hi(currentPage, totalPages));
  }

  /** The window runs from the first page to the last. */
  lemma PageNumbersEnds(currentPage: int, totalPages: int)
    requires totalPages > 1
    ensures var pages := PageNumbers(currentPage, totalPages);
      && StrictlyIncreasing(pages) && |pages| > 0
      && pages[0] == 0 && pages[|pages| - 1] == totalPages - 1
  {
    PageNumbersArePushed(currentPage, totalPages);
  }

  /** Which pages the window holds, and the promises drawn from that. */
  lemma PageNumbersWindow(currentPage: int, totalPages: int)
    ensures var pages := PageNumbers(currentPage, totalPages);
      && StrictlyIncreasing(pages)
      && 0 in pages
      && (totalPages > 1 ==> totalPages - 1 in pages)
      && |pages| <= 5
      && (totalPages >= 1 ==> forall p :: p in pages ==> 0 <= p < totalPages)
      && (0 <= currentPage < totalPages ==> currentPage in pages)
  {
    PageNumbersArePushed(currentPage, totalPages);
    PageNumbersMembers(currentPage, totalPages);
  }

  /** `getPageNumbers`: push 0, push the neighbourhood in a loop, push the last
      page, then de-duplicate and sort. */
  method GetPageNumbers(currentPage: int, totalPages: int) returns (pages: seq<int>)
    ensures pages == PageNumbers(currentPage, totalPages)
    ensures pages == Pushed(currentPage, totalPages)
  {
    var pushed := [0];
    var lo := Max(1, currentPage - 1);
    var hi := Min(totalPages - 2, currentPage + 1);
    var i := lo;
    while i <= hi
      invariant lo <= i <= Max(lo, hi + 1)
      invariant pushed == [0] + Range(lo, i - 1)
      decreases hi - i
    {
      pushed := pushed + [i];
      i := i + 1;
    }
    assert Range(lo, i - 1) == Range(lo, hi);
    if totalPages > 1 {
      pushed := pushed + [totalPages - 1];
    }
    pages := SortedDistinct(pushed);
    PageNumbersArePushed(currentPage, totalPages);
  }

  // ---------------------------------------------------------- the control

  datatype PageButton = PageButton(page: int, caption: int, primary: bool, ellipsisBefore: bool)
  datatype NavButton = NavButton(disabled: bool, target: int)
  datatype Controls = Controls(prev: NavButton, buttons: seq<PageButton>, next: NavButton)

  /** One button per listed page, with "..." in front of it when it does not
      follow the previous listed page directly. */
  function Buttons(pages: seq<int>, currentPage: int): (r: seq<PageButton>)
    ensures |r| == |pages|
    ensures forall i :: 0 <= i < |r| ==> r[i].page == pages[i] && r[i].caption == pages[i] + 1
    ensures forall i :: 0 <= i < |r| ==> (r[i].primary <==> pages[i] == currentPage)
    ensures forall i :: 0 <= i < |r| ==> (r[i].ellipsisBefore <==> i > 0 && pages[i] - pages[i - 1] > 1)
  {
    seq(|pages|, i requires 0 <= i < |pages| =>
      PageButton(pages[i], pages[i] + 1, currentPage == pages[i], i > 0 && pages[i] - pages[i - 1] > 1))
  }

  /** The rendered control: nothing for at most one page. */
  function Pagination(currentPage: int, totalPages: int): (r: Option<Controls>)
    ensures r.None? <==> totalPages <= 1
  {
    if totalPages <= 1 then None
    else Some(Controls(
      NavButton(Button.Disabled(currentPage == 0, false), currentPage - 1),
      Buttons(PageNumbers(currentPage, totalPages), currentPage),
      NavButton(Button.Disabled(currentPage == totalPages - 1, false), currentPage + 1)))
  }

  /** Prev is disabled exactly on the first page and Next exactly on the last;
      from a page in range, an enabled one leads to a page in range. */
  lemma NavigationStaysInRange(currentPage: int, totalPages: int)
    requires totalPages > 1
    ensures var c := Pagination(currentPage, totalPages).value;
      && (c.prev.disabled <==> currentPage == 0)
      && (c.next.disabled <==> currentPage == totalPages - 1)
      && c.prev.target == currentPage - 1
      && c.next.target == currentPage + 1
      && (0 <= currentPage < totalPages && !c.prev.disabled ==> 0 <= c.prev.target < totalPages)
      && (0 <= currentPage < totalPages && !c.next.disabled ==> 0 <= c.next.target < totalPages)
  {
  }

  /** Every page button leads to a page in range and is labelled with its page
      plus one. */
  lemma PageButtonsStayInRange(currentPage: int, totalPages: int)
    requires totalPages > 1
    ensures forall b :: b in Pagination(currentPage, totalPages).value.buttons ==>
      0 <= b.page < totalPages && b.caption == b.page + 1
  {
    var pages := PageNumbers(currentPage, totalPages);
    var buttons := Buttons(pages, currentPage);
    assert Pagination(currentPage, totalPages).value.buttons == buttons;
    PageNumbersWindow(currentPage, totalPages);
    forall b | b in buttons
      ensures 0 <= b.page < totalPages && b.caption == b.page + 1
    {
      var i :| 0 <= i < |buttons| && buttons[i] == b;
      assert pages[i] in pages;
    }
  }

  /** Exactly one page button is highlighted when the current page is in range,
      and never two. */
  lemma OneButtonHighlighted(currentPage: int, totalPages: int)
    requires totalPages > 1
    ensures var buttons := Pagination(currentPage, totalPages).value.buttons;
      && (0 <= currentPage < totalPages ==> exists b :: b in buttons && b.primary)
      && (forall i, j :: 0 <= i < j < |buttons| ==> !(buttons[i].primary && buttons[j].primary))
  {
    var pages := PageNumbers(currentPage, totalPages);
    var buttons := Buttons(pages, currentPage);
    assert Pagination(currentPage, totalPages).value.buttons == buttons;
    PageNumbersWindow(currentPage, totalPages);
    if 0 <= currentPage < totalPages {
      var i :| 0 <= i < |pages| && pages[i] == currentPage;
      assert buttons[i] in buttons;
    }
  }

  /** In a strictly increasing list whose ends straddle a missing value, two
      neighbours straddle it. */
  lemma {:induction false} Straddle(s: seq<int>, q: int) returns (i: int)
    requires StrictlyIncreasing(s) && |s| > 0
    requires s[0] < q < s[|s| - 1] && q !in s
    ensures 0 < i < |s| && s[i - 1] < q < s[i]
  {
    if s[1] > q {
      i := 1;
    } else {
      assert s[1] != q by { assert s[1] in s; }
      var j := Straddle(s[1..], q);
      i := j + 1;
    }
  }

  /** Whether some page button leads to page q. */
  predicate Shown(buttons: seq<PageButton>, q: int) {
    exists b :: b in buttons && b.page == q
  }

  /** A page between the first and the last listed page that has no button lies
      in a gap whose right end carries the ellipsis. */
  lemma HiddenPageMarked(pages: seq<int>, currentPage: int, q: int) returns (i: int)
    requires StrictlyIncreasing(pages) && |pages| > 0
    requires pages[0] <= q <= pages[|pages| - 1] && !Shown(Buttons(pages, currentPage), q)
    ensures 0 < i < |pages| && Buttons(pages, currentPage)[i].ellipsisBefore
    ensures Buttons(pages, currentPage)[i - 1].page < q < Buttons(pages, currentPage)[i].page
  {
    var c := Buttons(pages, currentPage);
    assert q !in pages by {
      forall k | 0 <= k < |pages|
        ensures pages[k] != q
      {
        assert c[k] in c;
      }
    }
    i := Straddle(pages, q);
  }

  /** Behind every ellipsis hides the page after the button before it. */
  lemma EllipsisHidesPage(pages: seq<int>, currentPage: int, i: int)
    requires StrictlyIncreasing(pages)
    requires 0 < i < |pages| && Buttons(pages, currentPage)[i].ellipsisBefore
    ensures pages[i - 1] < pages[i - 1] + 1 < pages[i]
    ensures !Shown(Buttons(pages, currentPage), pages[i - 1] + 1)
  {
    var c := Buttons(pages, currentPage);
    forall b | b in c
      ensures b.page != pages[i - 1] + 1
    {
      var k :| 0 <= k < |c| && c[k] == b;
      if k < i {
        assert pages[k] <= pages[i - 1];
      } else {
        assert pages[k] >= pages[i];
      }
    }
  }

  /** Every page without a button sits in a gap marked by an ellipsis. */
  lemma HiddenPagesAreMarked(currentPage: int, totalPages: int)
    requires totalPages > 1
    ensures var c := Pagination(currentPage, totalPages).value.buttons;
      forall q :: 0 <= q < totalPages && !Shown(c, q) ==>
        exists i :: 0 < i < |c| && c[i].ellipsisBefore && c[i - 1].page < q < c[i].page
  {
    var pages := PageNumbers(currentPage, totalPages);
    var c := Buttons(pages, currentPage);
    PageNumbersEnds(currentPage, totalPages);
    forall q | 0 <= q < totalPages && !Shown(c, q)
      ensures exists i :: 0 < i < |c| && c[i].ellipsisBefore && c[i - 1].page < q < c[i].page
    {
      var i := HiddenPageMarked(pages, currentPage, q);
    }
  }

  /** Every ellipsis stands for at least one hidden page, the one after its
      left neighbour. */
  lemma EllipsesHidePages(currentPage: int, totalPages: int)
    requires totalPages > 1
    ensures var c := Pagination(currentPage, totalPages).value.buttons;
      forall i :: 0 < i < |c| && c[i].ellipsisBefore ==>
        0 <= c[i - 1].page + 1 < totalPages && !Shown(c, c[i - 1].page + 1)
  {
    var pages := PageNumbers(currentPage, totalPages);
    var c := Buttons(pages, currentPage);
    PageNumbersEnds(currentPage, totalPages);
    forall i | 0 < i < |c| && c[i].ellipsisBefore
      ensures 0 <= c[i - 1].page + 1 < totalPages && !Shown(c, c[i - 1].page + 1)
    {
      EllipsisHidesPage(pages, currentPage, i);
      assert pages[0] <= pages[i - 1];
      assert pages[i] <= pages[|pages| - 1];
    }
  }
}
