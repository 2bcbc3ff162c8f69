/**
 * Pagination of the monthly ledger table: twelve rows a page, a current page
 * that starts at 1, and previous/next handlers that clamp it to the valid
 * range.  Only the paging state and arithmetic are modelled, not the markup.
 */
module EvolutionTable {
  import opened Calculations

  /** Rows shown on one page. */
  const ItemsPerPage: nat := 12

  /** Math.max on integers. */
  function Max(a: int, b: int): (m: int)
    ensures m >= a && m >= b && (m == a || m == b)
  {
    if a < b then b else a
  }

  /** Math.min on integers. */
  function Min(a: int, b: int): (m: int)
    ensures m <= a && m <= b && (m == a || m == b)
  {
    if a < b then a else b
  }

  /** Math.ceil(len / 12): the fewest pages that hold `len` rows. */
  function TotalPages(len: nat): (t: nat)
    ensures t * ItemsPerPage >= len
    ensures t > 0 ==> (t - 1) * ItemsPerPage < len
  {
    (len + ItemsPerPage - 1) / ItemsPerPage
  }

  /** Index of the first row of page `page`. */
  function StartIndex(page: int): int
  {
    (page - 1) * ItemsPerPage
  }

  /** Index one past the last row of page `page`. */
  function EndIndex(page: int): int
  {
    StartIndex(page) + ItemsPerPage
  }

  /**
   * How Array.prototype.slice (ECMA-262 section 23.1.3.28) turns an argument
   * into a position: a negative one counts from the end, and both are clamped
   * to [0, len].
   */
  function SliceBound(k: int, len: nat): (i: nat)
    ensures i <= len
    ensures 0 <= k ==> i == Min(k, len)
  {
    if k < 0 then Max(len + k, 0) else Min(k, len)
  }

  /**
   * Array.prototype.slice(start, end): never longer than `s`, and for
   * non-negative bounds the run of `s` between them, clipped to its end.
   */
  function Slice<T>(s: seq<T>, start: int, end: int): (r: seq<T>)
    ensures |r| <= |s|
    ensures 0 <= start <= end ==> r == s[Min(start, |s|)..Min(end, |s|)]
  {
    var from := SliceBound(start, |s|);
    var to := SliceBound(end, |s|);
    if from < to then s[from..to] else []
  }

  /**
   * The rows the table shows on page `page`: at most twelve, and from page 1
   * on the rows that follow index (page - 1) * 12 in order.
   */
  function Page(data: seq<MonthlyEvolution>, page: int): (rows: seq<MonthlyEvolution>)
    ensures |rows| <= ItemsPerPage
    ensures page >= 1 ==> forall k :: 0 <= k < |rows| ==>
              StartIndex(page) + k < |data| && rows[k] == data[StartIndex(page) + k]
  {
    Slice(data, StartIndex(page), EndIndex(page))
  }

  /**
   * Page `page` (from 1 on) holds the rows with indices
   * [(page - 1) * 12, page * 12) clipped to the data, so never more than 12.
   */
  lemma PageContents(data: seq<MonthlyEvolution>, page: int)
    requires page >= 1
    ensures |Page(data, page)| <= ItemsPerPage
    ensures |Page(data, page)| == Max(0, Min(ItemsPerPage, |data| - StartIndex(page)))
    ensures forall k :: 0 <= k < |Page(data, page)| ==> Page(data, page)[k] == data[StartIndex(page) + k]
  {
  }

  /** A page from 1 on is non-empty exactly when it is one of the TotalPages pages. */
  lemma PageNonEmpty(data: seq<MonthlyEvolution>, page: int)
    requires page >= 1
    ensures |Page(data, page)| > 0 <==> page <= TotalPages(|data|)
  {
    PageContents(data, page);
  }

  /** Pages 1 to `count`, one after the other. */
  function Pages(data: seq<MonthlyEvolution>, count: nat): seq<MonthlyEvolution>
    decreases count
  {
    if count == 0 then [] else Pages(data, count - 1) + Page(data, count)
  }

  /** The first `count` pages together are the first `count * 12` rows (or all of them). */
  lemma {:induction false} PagesArePrefix(data: seq<MonthlyEvolution>, count: nat)
    ensures Pages(data, count) == data[..Min(count * ItemsPerPage, |data|)]
  {
    if count > 0 {
      PagesArePrefix(data, count - 1);
      PageContents(data, count);
      var before := Min((count - 1) * ItemsPerPage, |data|);
      var after := Min(count * ItemsPerPage, |data|);
      assert Page(data, count) == data[before..after];
      assert data[..before] + data[before..after] == data[..after];
    }
  }

  /** Reading the pages 1 to TotalPages in order gives back the whole ledger. */
  lemma PagesCoverData(data: seq<MonthlyEvolution>)
    ensures Pages(data, TotalPages(|data|)) == data
  {
    PagesArePrefix(data, TotalPages(|data|));
    assert data[..|data|] == data;
  }

  /** The table's paging state: the rows it was given and the page on show. */
  class MonthlyEvolutionTable {
    const data: seq<MonthlyEvolution>
    var currentPage: int

    /** The current page is one of the pages, whenever there is a page at all. */
    ghost predicate Valid()
      reads this
    {
      |data| > 0 ==> 1 <= currentPage <= TotalPages(|data|)
    }

    /** The table opens on the first page. */
    constructor (data: seq<MonthlyEvolution>)
      ensures this.data == data && currentPage == 1
      ensures Valid()
    {
      this.data := data;
      currentPage := 1;
    }

    /** The rows on show: at most one page's worth. */
    function CurrentData(): (rows: seq<MonthlyEvolution>)
      reads this
      ensures |rows| <= ItemsPerPage
    {
      Page(data, currentPage)
    }

    /** Goes back one page, but never below page 1; on page 1 nothing changes. */
    method HandlePrevPage()
      requires Valid()
      modifies this
      ensures Valid()
      ensures currentPage >= 1
      ensures old(currentPage) <= 1 ==> currentPage == 1
      ensures old(currentPage) > 1 ==> currentPage == old(currentPage) - 1
    {
      currentPage := Max(currentPage - 1, 1);
    }

    /** Goes forward one page, but never past the last page; on the last page nothing changes. */
    method HandleNextPage()
      requires Valid()
      modifies this
      ensures Valid()
      ensures currentPage <= TotalPages(|data|)
      ensures old(currentPage) >= TotalPages(|data|) ==> currentPage == TotalPages(|data|)
      ensures old(currentPage) < TotalPages(|data|) ==> currentPage == old(currentPage) + 1
    {
      currentPage := Min(currentPage + 1, TotalPages(|data|));
    }
  }
}
