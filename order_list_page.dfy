/**
 * The admin order list's row selection, page bounds and "showing x to y"
 * numbers (pages/admin/orders/AdminOrderListPage.tsx). Rows carry a nullable
 * id; the selection is a set of ids that survives paging.
 */
module OrderListPage {
  import opened Wrappers
  import opened Seqs

  /** `useState(10)`, never changed by the page. */
  const ItemsPerPage: nat := 10

  /** The ids the current page shows (rows without an id are skipped). */
  function PageIds(rows: seq<Option<nat>>): set<nat>
  {
    set i | 0 <= i < |rows| && rows[i].Some? :: rows[i].value
  }

  /** Ticking or unticking one row changes that id's membership and nothing else. */
  function SelectOne(selected: set<nat>, isSelected: bool, id: nat): (r: set<nat>)
    ensures id in r <==> isSelected
    ensures forall x :: x != id ==> (x in r <==> x in selected)
  {
    if isSelected then selected + {id} else selected - {id}
  }

  /**
   * The header checkbox: ticking adds every id of the page; unticking
   * removes only this page's ids, keeping selections made on other pages.
   */
  method SelectAllClick(selected: set<nat>, rows: seq<Option<nat>>, isSelected: bool) returns (r: set<nat>)
    ensures isSelected ==> r == selected + PageIds(rows)
    ensures !isSelected ==> r == selected - PageIds(rows)
  {
    r := selected;
    var i := 0;
    while i < |rows|
      invariant 0 <= i <= |rows|
      invariant isSelected ==> r == selected + PageIds(rows[..i])
      invariant !isSelected ==> r == selected - PageIds(rows[..i])
    {
      assert PageIds(rows[..i + 1]) == PageIds(rows[..i]) + (if rows[i].Some? then {rows[i].value} else {}) by {
        assert forall j :: 0 <= j < i ==> rows[..i + 1][j] == rows[..i][j];
      }
      if rows[i].Some? {
        if isSelected {
          r := r + {rows[i].value};
        } else if rows[i].value in selected {
          r := r - {rows[i].value};
        }
      }
      i := i + 1;
    }
    assert rows[..i] == rows;
  }

  /** The header checkbox is ticked: the page has rows, and every row has a selected id. */
  function AllSelected(rows: seq<Option<nat>>, selected: set<nat>): (b: bool)
    ensures b <==> rows != [] && forall i :: 0 <= i < |rows| ==> rows[i].Some? && rows[i].value in selected
  {
    rows != [] && EverySelected(rows, selected)
  }

  function EverySelected(rows: seq<Option<nat>>, selected: set<nat>): (b: bool)
    ensures b <==> forall i :: 0 <= i < |rows| ==> rows[i].Some? && rows[i].value in selected
  {
    if rows == [] then true
    else rows[0].Some? && rows[0].value in selected && EverySelected(rows[1..], selected)
  }

  /**
   * The header checkbox and its handler fit together: after ticking it on a
   * page whose rows all have ids it shows ticked, and after unticking it on
   * a non-empty page it shows unticked.
   */
  lemma SelectAllRoundTrip(selected: set<nat>, rows: seq<Option<nat>>)
    requires rows != [] && forall i :: 0 <= i < |rows| ==> rows[i].Some?
    ensures AllSelected(rows, selected + PageIds(rows))
    ensures !AllSelected(rows, selected - PageIds(rows))
  {
    assert rows[0].value in PageIds(rows);
  }

  /** handlePageChange moves only to a page that exists. */
  predicate PageAccepted(newPage: int, count: nat)
  {
    0 < newPage <= CeilDiv(count, ItemsPerPage)
  }

  /** The numbers of the first and last orders the page shows (0 when there are none). */
  function ShownRange(page: int, count: nat): (r: (int, int))
    ensures count == 0 ==> r.0 == 0
    ensures count > 0 ==> r.0 == (page - 1) * ItemsPerPage + 1
    ensures r.1 <= count && r.1 <= page * ItemsPerPage && (r.1 == count || r.1 == page * ItemsPerPage)
  {
    (if count > 0 then (page - 1) * ItemsPerPage + 1 else 0,
     if page * ItemsPerPage <= count then page * ItemsPerPage else count)
  }

  /** On any page the pager lets one reach, the shown range is a non-empty run of at most ItemsPerPage orders. */
  lemma ShownRangeSound(page: int, count: nat)
    requires PageAccepted(page, count)
    ensures var (first, last) := ShownRange(page, count);
      1 <= first <= last <= count && last - first < ItemsPerPage
  {
  }
}
