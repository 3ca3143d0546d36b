/**
 * The page arithmetic and the button layout of `send_file_page`: which files a page
 * shows, the window of page-number buttons, and the Prev / Next / Refresh row.
 * The layout keeps only each button's payload; labels are not modelled.
 */
module Pager {
  import opened Callback

  const FILES_PER_PAGE: nat := 75

  function Min(a: int, b: int): int { if a <= b then a else b }
  function Max(a: int, b: int): int { if a <= b then b else a }

  /** Python's `range` with two bounds: the integers from `lo` up to, not including, `hi`; empty when `hi <= lo`. */
  function Range(lo: nat, hi: int): (r: seq<nat>)
    ensures |r| == if hi > lo then hi - lo else 0
    ensures forall k :: 0 <= k < |r| ==> r[k] == lo + k
    ensures forall i :: i in r <==> lo <= i < hi
    decreases hi - lo
  {
    if hi <= lo then [] else [lo] + Range(lo + 1, hi)
  }

  /** The page count: one less than `n`, floor-divided by 75, plus one; ceil(n / 75), and 0 for an empty list. */
  function PageCount(n: nat): (r: nat)
    ensures n == 0 ==> r == 0
    ensures n > 0 ==> (r - 1) * FILES_PER_PAGE < n <= r * FILES_PER_PAGE
  {
    (n - 1) / FILES_PER_PAGE + 1
  }

  /** The list positions page `page` shows: from `page * 75` up to 75 further, cut at the end of the list. */
  function FileIndices(n: nat, page: nat): (r: seq<nat>)
    ensures |r| <= FILES_PER_PAGE
    ensures forall i :: i in r <==> page * FILES_PER_PAGE <= i < n && i < (page + 1) * FILES_PER_PAGE
    ensures forall k :: 0 <= k < |r| ==> r[k] == page * FILES_PER_PAGE + k
    ensures page * FILES_PER_PAGE >= n ==> r == []
  {
    Range(page * FILES_PER_PAGE, Min(page * FILES_PER_PAGE + FILES_PER_PAGE, n))
  }

  /** Every file is shown by exactly one page, an existing one: page `i // 75`. */
  lemma EveryFileHasAPage(n: nat, i: nat)
    requires i < n
    ensures i / FILES_PER_PAGE < PageCount(n)
    ensures i in FileIndices(n, i / FILES_PER_PAGE)
    ensures forall p: nat :: i in FileIndices(n, p) ==> p == i / FILES_PER_PAGE
  {
    var p := i / FILES_PER_PAGE;
    assert p * FILES_PER_PAGE <= i < (p + 1) * FILES_PER_PAGE;
    assert (n - 1) / FILES_PER_PAGE >= p;
    forall q: nat | i in FileIndices(n, q)
      ensures q == p
    {
      assert q * FILES_PER_PAGE <= i < (q + 1) * FILES_PER_PAGE;
    }
  }

  /** The numbered page buttons: from two before `page` (but not below 0) to two after it (but not past the last page). */
  function PageWindow(n: nat, page: nat): (r: seq<nat>)
    ensures |r| <= 5
    ensures forall q: nat :: q in r <==> q < PageCount(n) && page <= q + 2 && q <= page + 2
    ensures page < PageCount(n) ==> page in r
    ensures forall k :: 0 < k < |r| ==> r[k] == r[k - 1] + 1
  {
    var lo: nat := Max(0, page - 2);
    Range(lo, Min(PageCount(n), page + 3))
  }

  const SORT_ROW: Row := [SetSort("az"), SetSort("za"), SetSort("new"), SetSort("old")]

  /** Prev (when `page > 0`), Next (when `page < total_pages - 1`), then Refresh of the current page. */
  function NavRow(n: nat, page: nat): (r: Row)
    ensures |r| == (if page > 0 then 1 else 0) + (if page + 1 < PageCount(n) then 1 else 0) + 1
    ensures |r| > 0 && r[|r| - 1] == Refresh(page)
    ensures forall q: nat :: GoToPage(q) in r <==> q + 1 == page || (q == page + 1 && q < PageCount(n))
    ensures forall a :: a in r ==> a.GoToPage? || a == Refresh(page)
    ensures page > 0 ==> r[0] == GoToPage(page - 1)
  {
    (if page > 0 then [GoToPage(page - 1)] else [])
    + (if page < PageCount(n) - 1 then [GoToPage(page + 1)] else [])
    + [Refresh(page)]
  }

  /** One single-button row per shown position, in position order. */
  function FileRows(n: nat, page: nat): (r: seq<Row>)
    ensures |r| == |FileIndices(n, page)|
    ensures forall k :: 0 <= k < |r| ==> r[k] == [PickFile(page * FILES_PER_PAGE + k)]
  {
    var idx := FileIndices(n, page);
    seq(|idx|, k requires 0 <= k < |idx| => [PickFile(idx[k])])
  }

  function PageRow(n: nat, page: nat): Row {
    var w := PageWindow(n, page);
    seq(|w|, k requires 0 <= k < |w| => GoToPage(w[k]))
  }

  /**
   * The keyboard `send_file_page` builds, row by row: one single-button row per shown
   * file, in position order, then the sort row, the Clear Search row while searching,
   * the page numbers and, last, the navigation row.
   */
  function Layout(n: nat, page: nat, searching: bool): (r: seq<Row>)
    ensures |r| == |FileIndices(n, page)| + (if searching then 4 else 3)
    ensures r[..|FileIndices(n, page)|] == FileRows(n, page)
    ensures r[|FileIndices(n, page)|] == SORT_ROW
    ensures searching ==> r[|FileIndices(n, page)| + 1] == [ClearSearch]
    ensures r[|r| - 2] == PageRow(n, page) && r[|r| - 1] == NavRow(n, page)
  {
    FileRows(n, page) + [SORT_ROW] + (if searching then [[ClearSearch]] else [])
    + [PageRow(n, page)] + [NavRow(n, page)]
  }

  /** Some row of `kb` has a button with payload `a`. */
  predicate Occurs(kb: seq<Row>, a: Action) {
    exists k :: 0 <= k < |kb| && a in kb[k]
  }

  lemma OccursAppend(x: seq<Row>, y: seq<Row>)
    ensures forall a :: Occurs(x + y, a) <==> Occurs(x, a) || Occurs(y, a)
  {
    forall a | Occurs(x + y, a)
      ensures Occurs(x, a) || Occurs(y, a)
    {
      var k :| 0 <= k < |x + y| && a in (x + y)[k];
      if k >= |x| {
        assert y[k - |x|] == (x + y)[k];
      } else {
        assert x[k] == (x + y)[k];
      }
    }
    forall a | Occurs(y, a)
      ensures Occurs(x + y, a)
    {
      var k :| 0 <= k < |y| && a in y[k];
      assert (x + y)[|x| + k] == y[k];
    }
    forall a | Occurs(x, a)
      ensures Occurs(x + y, a)
    {
      var k :| 0 <= k < |x| && a in x[k];
      assert (x + y)[k] == x[k];
    }
  }

  lemma OccursSingle(row: Row)
    ensures forall a :: Occurs([row], a) <==> a in row
  {
    forall a | a in row
      ensures Occurs([row], a)
    {
      assert [row][0] == row;
    }
  }

  lemma FileRowsButtons(n: nat, page: nat)
    ensures forall a :: Occurs(FileRows(n, page), a) <==> a.PickFile? && a.file in FileIndices(n, page)
  {
    var files, idx := FileRows(n, page), FileIndices(n, page);
    forall a: Action | a.PickFile? && a.file in idx
      ensures Occurs(files, a)
    {
      var k :| 0 <= k < |idx| && idx[k] == a.file;
      assert a in files[k];
    }
  }

  lemma PageRowButtons(n: nat, page: nat)
    ensures forall a :: a in PageRow(n, page) <==> a.GoToPage? && a.page in PageWindow(n, page)
  {
    var pages, w := PageRow(n, page), PageWindow(n, page);
    forall a: Action | a.GoToPage? && a.page in w
      ensures a in pages
    {
      var k :| 0 <= k < |w| && w[k] == a.page;
      assert pages[k] == a;
    }
  }

  /** A button is on the page exactly when it is in one of its sections. */
  lemma LayoutSections(n: nat, page: nat, searching: bool)
    ensures forall a :: Occurs(Layout(n, page, searching), a) <==>
      (Occurs(FileRows(n, page), a) || a in SORT_ROW || (searching && a == ClearSearch)
       || a in PageRow(n, page) || a in NavRow(n, page))
  {
    var files, pages, nav := FileRows(n, page), PageRow(n, page), NavRow(n, page);
    var clear: seq<Row> := if searching then [[ClearSearch]] else [];
    assert Layout(n, page, searching) == files + ([SORT_ROW] + (clear + ([pages] + [nav])));
    OccursAppend([pages], [nav]);
    OccursSingle(pages);
    OccursSingle(nav);
    OccursAppend(clear, [pages] + [nav]);
    if searching {
      OccursSingle([ClearSearch]);
    }
    OccursAppend([SORT_ROW], clear + ([pages] + [nav]));
    OccursSingle(SORT_ROW);
    OccursAppend(files, [SORT_ROW] + (clear + ([pages] + [nav])));
  }

  lemma LayoutFileButtons(n: nat, page: nat, searching: bool)
    ensures forall i: nat :: Occurs(Layout(n, page, searching), PickFile(i)) <==> i in FileIndices(n, page)
  {
    var nav := NavRow(n, page);
    LayoutSections(n, page, searching);
    FileRowsButtons(n, page);
    PageRowButtons(n, page);
    forall i: nat
      ensures Occurs(Layout(n, page, searching), PickFile(i)) <==> i in FileIndices(n, page)
    {
      assert PickFile(i) !in SORT_ROW && PickFile(i) !in nav;
    }
  }

  lemma LayoutSortButtons(n: nat, page: nat, searching: bool)
    ensures forall m :: Occurs(Layout(n, page, searching), SetSort(m)) <==> m in ["az", "za", "new", "old"]
  {
    var nav := NavRow(n, page);
    LayoutSections(n, page, searching);
    FileRowsButtons(n, page);
    PageRowButtons(n, page);
    forall m
      ensures Occurs(Layout(n, page, searching), SetSort(m)) <==> m in ["az", "za", "new", "old"]
    {
      assert SetSort(m) !in nav;
    }
  }

  lemma LayoutClearButton(n: nat, page: nat, searching: bool)
    ensures Occurs(Layout(n, page, searching), ClearSearch) <==> searching
  {
    var nav := NavRow(n, page);
    LayoutSections(n, page, searching);
    FileRowsButtons(n, page);
    PageRowButtons(n, page);
    assert ClearSearch !in SORT_ROW && ClearSearch !in nav;
  }

  lemma LayoutPageButtons(n: nat, page: nat, searching: bool)
    ensures forall q: nat :: Occurs(Layout(n, page, searching), GoToPage(q))
                    <==> q in PageWindow(n, page) || q + 1 == page
  {
    var nav := NavRow(n, page);
    LayoutSections(n, page, searching);
    FileRowsButtons(n, page);
    PageRowButtons(n, page);
    forall q: nat
      ensures Occurs(Layout(n, page, searching), GoToPage(q)) <==> q in PageWindow(n, page) || q + 1 == page
    {
      assert GoToPage(q) !in SORT_ROW;
      assert GoToPage(q) in nav ==> q in PageWindow(n, page) || q + 1 == page;
    }
  }

  lemma LayoutRefreshAndFolders(n: nat, page: nat, searching: bool)
    ensures forall q: nat :: Occurs(Layout(n, page, searching), Refresh(q)) <==> q == page
    ensures forall q: nat :: !Occurs(Layout(n, page, searching), OpenFolder(q))
  {
    var nav := NavRow(n, page);
    LayoutSections(n, page, searching);
    FileRowsButtons(n, page);
    PageRowButtons(n, page);
    forall q: nat
      ensures Occurs(Layout(n, page, searching), Refresh(q)) <==> q == page
    {
      assert Refresh(q) !in SORT_ROW;
    }
    forall q: nat
      ensures !Occurs(Layout(n, page, searching), OpenFolder(q))
    {
      assert OpenFolder(q) !in SORT_ROW && OpenFolder(q) !in nav;
    }
  }

  /**
   * What a page offers: a file button for exactly the positions the page shows, the four
   * sort buttons, Clear Search exactly while a search is active, page buttons for the
   * window and for Prev / Next, and Refresh of the current page and of no other.
   */
  lemma LayoutButtons(n: nat, page: nat, searching: bool)
    ensures forall i: nat :: Occurs(Layout(n, page, searching), PickFile(i)) <==> i in FileIndices(n, page)
    ensures forall m :: Occurs(Layout(n, page, searching), SetSort(m)) <==> m in ["az", "za", "new", "old"]
    ensures Occurs(Layout(n, page, searching), ClearSearch) <==> searching
    ensures forall q: nat :: Occurs(Layout(n, page, searching), GoToPage(q))
                    <==> q in PageWindow(n, page) || q + 1 == page
    ensures forall q: nat :: Occurs(Layout(n, page, searching), Refresh(q)) <==> q == page
    ensures forall q: nat :: !Occurs(Layout(n, page, searching), OpenFolder(q))
  {
    LayoutFileButtons(n, page, searching);
    LayoutSortButtons(n, page, searching);
    LayoutClearButton(n, page, searching);
    LayoutPageButtons(n, page, searching);
    LayoutRefreshAndFolders(n, page, searching);
  }

  /** Every payload on a page reads back as the button's own action. */
  lemma LayoutEncodable(n: nat, page: nat, searching: bool)
    ensures forall a :: Occurs(Layout(n, page, searching), a) ==> Encodable(a)
  {
    LayoutSortButtons(n, page, searching);
    forall a | Occurs(Layout(n, page, searching), a) && a.SetSort?
      ensures '_' !in a.mode
    {
      assert a.mode in ["az", "za", "new", "old"];
    }
  }

  /**
   * The keyboard built button by button: one row per shown file, then the sort row,
   * Clear Search when searching, the page numbers and the navigation row.
   */
  method BuildKeyboard(n: nat, page: nat, searching: bool) returns (kb: seq<Row>)
    ensures kb == Layout(n, page, searching)
  {
    var start := page * FILES_PER_PAGE;
    var end := Min(start + FILES_PER_PAGE, n);
    ghost var files := FileRows(n, page);
    kb := [];
    var i := start;
    while i < end
      invariant start <= i
      invariant i <= end || i == start
      invariant |kb| == i - start
      invariant forall k :: 0 <= k < |kb| ==> kb[k] == [PickFile(start + k)]
    {
      kb := kb + [[PickFile(i)]];
      i := i + 1;
    }
    assert kb == files;
    kb := kb + [SORT_ROW];
    if searching {
      kb := kb + [[ClearSearch]];
    }
    var pageButtons := PageRow(n, page);
    kb := kb + [pageButtons];
    var nav: Row := [];
    if page > 0 {
      nav := nav + [GoToPage(page - 1)];
    }
    if page < PageCount(n) - 1 {
      nav := nav + [GoToPage(page + 1)];
    }
    nav := nav + [Refresh(page)];
    assert nav == NavRow(n, page);
    kb := kb + [nav];
  }
}
