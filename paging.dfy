/**
 * Paging of the public white list and scam list: five rows a page, the row
 * window each page shows, and the back/forward buttons under a page.
 */
module Paging {
  import opened Options

  const ItemsPerPage: nat := 5

  /** total_pages: the number of pages needed to show `count` rows (a ceiling). */
  function TotalPages(count: nat): (n: nat)
    ensures n * ItemsPerPage >= count
    ensures n > 0 ==> (n - 1) * ItemsPerPage < count
  {
    (count + ItemsPerPage - 1) / ItemsPerPage
  }

  /** The SQL offset of a page: pages are numbered from 1. */
  function Offset(page: int): int {
    (page - 1) * ItemsPerPage
  }

  /**
   * `LIMIT 5 OFFSET Offset(page)` over `rows`; a negative offset reads as 0,
   * as the store does.
   */
  function PageOf<T>(rows: seq<T>, page: int): (r: seq<T>)
    ensures |r| <= ItemsPerPage
    ensures page >= 1 ==> Window(rows, page, r)
    ensures r <= rows[if Offset(page) < 0 then 0 else if Offset(page) > |rows| then |rows| else Offset(page)..]
  {
    var start := if Offset(page) < 0 then 0 else if Offset(page) > |rows| then |rows| else Offset(page);
    var stop := if start + ItemsPerPage > |rows| then |rows| else start + ItemsPerPage;
    rows[start..stop]
  }

  /**
   * `r` is page `page` of `rows`: the rows from the page's offset on, as
   * many as there are up to five.
   */
  ghost predicate Window<T>(rows: seq<T>, page: int, r: seq<T>) {
    && |r| == (if Offset(page) >= |rows| then 0
               else if |rows| - Offset(page) < ItemsPerPage then |rows| - Offset(page)
               else ItemsPerPage)
    && forall j :: 0 <= j < |r| ==> 0 <= Offset(page) + j < |rows| && r[j] == rows[Offset(page) + j]
  }

  /** A navigation button and the page it leads to. */
  datatype Nav = Back(target: int) | Forward(target: int)

  /** get_pagination_keyboard: None stands for "no keyboard at all". */
  function Keyboard(page: int, totalPages: int): (k: Option<seq<Nav>>)
  {
    var buttons := (if page > 1 then [Back(page - 1)] else [])
                   + (if page < totalPages then [Forward(page + 1)] else []);
    if buttons == [] then None else Some(buttons)
  }

  /** The buttons a keyboard shows (none when there is no keyboard). */
  function Buttons(k: Option<seq<Nav>>): seq<Nav> {
    k.GetOr([])
  }

  /** Each button is offered exactly when its direction is possible, and there is no keyboard with no button. */
  lemma KeyboardButtons(page: int, totalPages: int)
    ensures Back(page - 1) in Buttons(Keyboard(page, totalPages)) <==> page > 1
    ensures Forward(page + 1) in Buttons(Keyboard(page, totalPages)) <==> page < totalPages
    ensures Keyboard(page, totalPages).None? <==> page <= 1 && page >= totalPages
    ensures |Buttons(Keyboard(page, totalPages))| <= 2
    ensures forall b :: b in Buttons(Keyboard(page, totalPages)) ==> b == Back(page - 1) || b == Forward(page + 1)
  {
  }

  /** Row i of a listing is shown on page i/5 + 1, at position i%5 of that page. */
  lemma RowOnItsPage<T>(rows: seq<T>, i: nat)
    requires i < |rows|
    ensures i % ItemsPerPage < |PageOf(rows, i / ItemsPerPage + 1)|
    ensures PageOf(rows, i / ItemsPerPage + 1)[i % ItemsPerPage] == rows[i]
  {
    var p := i / ItemsPerPage + 1;
    assert Offset(p) == (i / ItemsPerPage) * ItemsPerPage;
    assert Offset(p) + i % ItemsPerPage == i;
  }

  /** A page from 1 on shows rows exactly when it is at most the page count. */
  lemma {:induction false} PageNonEmptyIffInRange<T>(rows: seq<T>, page: int)
    requires page >= 1
    ensures PageOf(rows, page) != [] <==> page <= TotalPages(|rows|)
  {
    var n := TotalPages(|rows|);
    if page <= n {
      assert (page - 1) * ItemsPerPage <= (n - 1) * ItemsPerPage;
      assert Offset(page) < |rows|;
    } else {
      assert page - 1 >= n;
      assert (page - 1) * ItemsPerPage >= n * ItemsPerPage;
      assert Offset(page) >= |rows|;
    }
  }

  /**
   * Under the keyboard of a page the listing computes (total pages from the
   * row count), the forward button is there exactly when the next page has
   * rows, and the back button exactly when the page before is a real page.
   */
  lemma NavigationMatchesRows<T>(rows: seq<T>, page: int)
    requires page >= 1
    ensures Forward(page + 1) in Buttons(Keyboard(page, TotalPages(|rows|)))
            <==> PageOf(rows, page + 1) != []
    ensures Back(page - 1) in Buttons(Keyboard(page, TotalPages(|rows|)))
            <==> page - 1 >= 1
  {
    KeyboardButtons(page, TotalPages(|rows|));
    PageNonEmptyIffInRange(rows, page + 1);
  }

  /** From a page in range, every button leads to a page in range. */
  lemma NavigationStaysInRange(page: int, totalPages: int, b: Nav)
    requires 1 <= page <= totalPages
    requires b in Buttons(Keyboard(page, totalPages))
    ensures 1 <= b.target <= totalPages
  {
    KeyboardButtons(page, totalPages);
  }
}
