/**
 * The admin pagers: the page-number list of PaginationControls (first and
 * last page always shown, a window around the current page, -1 standing for
 * an ellipsis) and the plain five-page window of the order list's own pager.
 */
module Pager {
  /** The integers a, a+1, ..., b-1. */
  function Range(a: int, b: int): (r: seq<int>)
    ensures |r| == if a < b then b - a else 0
    ensures forall i :: 0 <= i < |r| ==> r[i] == a + i
    decreases b - a
  {
    if a >= b then [] else [a] + Range(a + 1, b)
  }

  function Max(a: int, b: int): int { if a >= b then a else b }
  function Min(a: int, b: int): int { if a <= b then a else b }

  /** The ellipsis marker in a page list. */
  const Ellipsis: int := -1

  /**
   * The page list PaginationControls renders: every page when they fit in
   * `2 * neighbours + 5` blocks, otherwise page 1, the window of `neighbours`
   * pages either side of the current one (kept inside 2..total-1), the last
   * page, and an ellipsis wherever pages are skipped.
   */
  function PageList(current: int, totalPages: int, neighbours: nat): seq<int>
  {
    if totalPages <= 1 then []
    else if totalPages <= 2 * neighbours + 5 then Range(1, totalPages + 1)
    else ClippedList(Max(2, current - neighbours), Min(totalPages - 1, current + neighbours), totalPages)
  }

  /** Page 1, an ellipsis if pages follow it unshown, the window start..end, an ellipsis if pages are skipped again, the last page. */
  function ClippedList(start: int, end: int, totalPages: int): seq<int>
  {
    [1] + (if start > 2 then [Ellipsis] else []) + Range(start, end + 1)
    + (if end < totalPages - 1 then [Ellipsis] else []) + [totalPages]
  }

  /** Appends the pages `from` .. `to` one by one, as the source's for-loops push them. */
  method PushPages(r: seq<int>, from: int, to: int) returns (out: seq<int>)
    ensures out == r + Range(from, to + 1)
  {
    out := r;
    var i := from;
    while i <= to
      invariant from <= i && (i <= to + 1 || i == from)
      invariant out == r + Range(from, i)
    {
      out := out + [i];
      i := i + 1;
    }
    assert Range(from, i) == Range(from, to + 1);
  }

  /** The page-list builder, with its pushes and loops. */
  method PageNumbers(current: int, totalPages: int, neighbours: nat) returns (r: seq<int>)
    ensures r == PageList(current, totalPages, neighbours)
  {
    if totalPages <= 1 {
      return [];
    }
    if totalPages > 2 * neighbours + 5 {
      var start := Max(2, current - neighbours);
      var end := Min(totalPages - 1, current + neighbours);
      var head := [1];
      if start > 2 {
        head := head + [Ellipsis];
      }
      r := PushPages(head, start, end);
      var tail := [];
      if end < totalPages - 1 {
        tail := [Ellipsis];
      }
      r := r + tail + [totalPages];
    } else {
      r := PushPages([], 1, totalPages);
    }
  }

  /** The pages of a clipped list lie in range, and it runs from page 1 to the last page. */
  lemma ClippedListBounds(start: int, end: int, totalPages: int)
    requires 2 <= start && end <= totalPages - 1 && totalPages >= 4
    ensures var r := ClippedList(start, end, totalPages);
      && r[0] == 1 && r[|r| - 1] == totalPages
      && forall i :: 0 <= i < |r| ==> r[i] == Ellipsis || 1 <= r[i] <= totalPages
  {
    var r := ClippedList(start, end, totalPages);
    var head := [1] + (if start > 2 then [Ellipsis] else []);
    var window := Range(start, end + 1);
    var tail := (if end < totalPages - 1 then [Ellipsis] else []) + [totalPages];
    assert r == head + window + tail;
    forall i | 0 <= i < |r|
      ensures r[i] == Ellipsis || 1 <= r[i] <= totalPages
    {
      if |head| <= i < |head| + |window| {
        assert r[i] == window[i - |head|];
      } else if i >= |head| + |window| {
        assert r[i] == tail[i - |head| - |window|];
      }
    }
  }

  /** Neighbouring pages of a clipped list are consecutive. */
  lemma ClippedListConsecutive(start: int, end: int, totalPages: int)
    requires 2 <= start && end <= totalPages - 1 && totalPages >= 4
    requires start > 2 && end < totalPages - 1 ==> start <= end
    ensures var r := ClippedList(start, end, totalPages);
      forall i :: 0 <= i < |r| - 1 && r[i] != Ellipsis && r[i + 1] != Ellipsis ==> r[i + 1] == r[i] + 1
  {
    var r := ClippedList(start, end, totalPages);
    var head := [1] + (if start > 2 then [Ellipsis] else []);
    var window := Range(start, end + 1);
    var tail := (if end < totalPages - 1 then [Ellipsis] else []) + [totalPages];
    assert r == head + window + tail;
    var h, w := |head|, |window|;
    forall i | 0 <= i < |r| - 1 && r[i] != Ellipsis && r[i + 1] != Ellipsis
      ensures r[i + 1] == r[i] + 1
    {
      if i + 1 < h {
      } else if i + 1 < h + w {
        assert r[i + 1] == window[i + 1 - h];
        if i >= h {
          assert r[i] == window[i - h];
        }
      } else if i >= h && i < h + w {
        assert r[i] == window[i - h];
      }
    }
  }

  /** An ellipsis of a clipped list stands between two pages with a gap between them. */
  lemma ClippedListGaps(start: int, end: int, totalPages: int)
    requires 2 <= start && end <= totalPages - 1 && totalPages >= 4
    requires start > 2 && end < totalPages - 1 ==> start <= end
    ensures var r := ClippedList(start, end, totalPages);
      forall i :: 0 <= i < |r| && r[i] == Ellipsis ==>
        0 < i < |r| - 1 && r[i - 1] != Ellipsis && r[i + 1] != Ellipsis && r[i + 1] > r[i - 1] + 1
  {
    var r := ClippedList(start, end, totalPages);
    var head := [1] + (if start > 2 then [Ellipsis] else []);
    var window := Range(start, end + 1);
    var tail := (if end < totalPages - 1 then [Ellipsis] else []) + [totalPages];
    assert r == head + window + tail;
    var h, w := |head|, |window|;
    forall i | 0 <= i < |r| && r[i] == Ellipsis
      ensures 0 < i < |r| - 1 && r[i - 1] != Ellipsis && r[i + 1] != Ellipsis && r[i + 1] > r[i - 1] + 1
    {
      if i < h {
        assert i == 1 && start > 2;
        if w > 0 {
          assert r[i + 1] == window[0];
        }
      } else if i >= h + w {
        assert i == h + w && end < totalPages - 1;
        if w > 0 {
          assert r[i - 1] == window[w - 1];
        }
      }
    }
  }

  /** The clipped list around `current` shows it, and takes at most `2 * neighbours + 5` blocks. */
  lemma ClippedListAround(current: int, totalPages: int, neighbours: nat)
    requires totalPages > 2 * neighbours + 5
    ensures var r := ClippedList(Max(2, current - neighbours), Min(totalPages - 1, current + neighbours), totalPages);
      && |r| <= 2 * neighbours + 5
      && (1 <= current <= totalPages ==> current in r)
  {
    var start := Max(2, current - neighbours);
    var end := Min(totalPages - 1, current + neighbours);
    var r := ClippedList(start, end, totalPages);
    var head := [1] + (if start > 2 then [Ellipsis] else []);
    var window := Range(start, end + 1);
    assert r == head + window + (if end < totalPages - 1 then [Ellipsis] else []) + [totalPages];
    if current == totalPages {
      assert r[|r| - 1] == current;
    } else if 1 < current < totalPages {
      assert window[current - start] == current;
      assert r[|head| + current - start] == current;
    }
  }

  /**
   * A page list as PaginationControls should draw it for a list of
   * `totalPages > 1` pages: it starts at page 1 and ends at the last page,
   * holds only pages in range and markers, lists pages one after another with
   * a marker exactly where pages are skipped, shows the current page, and
   * takes at most `2 * neighbours + 5` blocks.
   */
  predicate WellDrawn(r: seq<int>, current: int, totalPages: int, neighbours: nat)
  {
    && r != []
    && |r| <= 2 * neighbours + 5
    && r[0] == 1 && r[|r| - 1] == totalPages
    && (forall i :: 0 <= i < |r| ==> r[i] == Ellipsis || 1 <= r[i] <= totalPages)
    && (forall i :: 0 <= i < |r| - 1 && r[i] != Ellipsis && r[i + 1] != Ellipsis ==> r[i + 1] == r[i] + 1)
    && (forall i :: 0 <= i < |r| && r[i] == Ellipsis ==>
          0 < i < |r| - 1 && r[i - 1] != Ellipsis && r[i + 1] != Ellipsis && r[i + 1] > r[i - 1] + 1)
    && (1 <= current <= totalPages ==> current in r)
  }

  /** When the pages do not fit, the clipped list is well drawn. */
  lemma ClippedListSound(current: int, totalPages: int, neighbours: nat)
    requires totalPages > 2 * neighbours + 5
    ensures WellDrawn(ClippedList(Max(2, current - neighbours), Min(totalPages - 1, current + neighbours), totalPages),
                      current, totalPages, neighbours)
  {
    var start := Max(2, current - neighbours);
    var end := Min(totalPages - 1, current + neighbours);
    ClippedListBounds(start, end, totalPages);
    ClippedListConsecutive(start, end, totalPages);
    ClippedListGaps(start, end, totalPages);
    ClippedListAround(current, totalPages, neighbours);
  }

  /** When the pages fit, the list of them all is well drawn. */
  lemma FullListSound(current: int, totalPages: int, neighbours: nat)
    requires 1 < totalPages <= 2 * neighbours + 5
    ensures WellDrawn(Range(1, totalPages + 1), current, totalPages, neighbours)
  {
    if 1 <= current <= totalPages {
      assert Range(1, totalPages + 1)[current - 1] == current;
    }
  }

  /**
   * What the page list promises: empty exactly when there is one page or
   * none, and well drawn otherwise.
   */
  lemma PageListSound(current: int, totalPages: int, neighbours: nat)
    ensures var r := PageList(current, totalPages, neighbours);
      && (r == [] <==> totalPages <= 1)
      && (totalPages > 1 ==> WellDrawn(r, current, totalPages, neighbours))
  {
    if totalPages > 2 * neighbours + 5 {
      ClippedListSound(current, totalPages, neighbours);
    } else if 1 < totalPages {
      FullListSound(current, totalPages, neighbours);
    }
  }

  /** The order list's inline pager: pages current-2 .. current+2, clipped to 1 .. total. */
  method InlinePageWindow(current: int, totalPages: int) returns (pages: seq<int>)
    ensures pages == Range(Max(1, current - 2), Min(totalPages, current + 2) + 1)
  {
    pages := PushPages([], Max(1, current - 2), Min(totalPages, current + 2));
  }

  /** The inline window holds at most five pages, all in range, and the current page when it is in range. */
  lemma InlineWindowSound(current: int, totalPages: int)
    ensures var w := Range(Max(1, current - 2), Min(totalPages, current + 2) + 1);
      && |w| <= 5
      && (forall i :: 0 <= i < |w| ==> 1 <= w[i] <= totalPages)
      && (forall i, j :: 0 <= i < j < |w| ==> w[i] < w[j])
      && (1 <= current <= totalPages ==> current in w)
  {
    var w := Range(Max(1, current - 2), Min(totalPages, current + 2) + 1);
    if 1 <= current <= totalPages {
      assert w[current - Max(1, current - 2)] == current;
    }
  }
}
