/** The paging arithmetic of getEntitiesList. */
module Pagination {
  import opened Collections

  function TotalPages(total: nat, pageSize: nat): nat
    requires pageSize > 0
  {
    var pages := (total + pageSize - 1) / pageSize;
    if pages > 1 then pages else 1
  }

  /** The page served for a requested one. */
  function ClampPage(requested: int, totalPages: nat): int {
    var atLeastOne := if requested > 1 then requested else 1;
    if atLeastOne < totalPages then atLeastOne else totalPages
  }

  function Slice<T>(items: seq<T>, start: nat, end: nat): seq<T>
    requires start <= end
  {
    var hi := if end < |items| then end else |items|;
    if start < hi then items[start..hi] else []
  }

  /** The position before the first item of a page. */
  function StartOf(page: int, pageSize: nat): int {
    (page - 1) * pageSize
  }

  function PageOf<T>(items: seq<T>, pageSize: nat, page: nat): seq<T>
    requires pageSize > 0 && page >= 1
  {
    var start := StartOf(page, pageSize);
    Slice(items, start, start + pageSize)
  }

  /** The pages from `page` to the last one. */
  function PagesFrom<T>(items: seq<T>, pageSize: nat, page: nat): seq<seq<T>>
    requires pageSize > 0 && 1 <= page <= TotalPages(|items|, pageSize) + 1
    decreases TotalPages(|items|, pageSize) + 1 - page
  {
    if page > TotalPages(|items|, pageSize) then []
    else [PageOf(items, pageSize, page)] + PagesFrom(items, pageSize, page + 1)
  }

  /** The last page is the first one that reaches the end of the list. */
  lemma LastPage(total: nat, pageSize: nat)
    requires pageSize > 0 && total > 0
    ensures StartOf(TotalPages(total, pageSize), pageSize) < total
         <= StartOf(TotalPages(total, pageSize), pageSize) + pageSize
  {
    var x := total + pageSize - 1;
    var q := x / pageSize;
    assert x == q * pageSize + x % pageSize;
    assert (q - 1) * pageSize == q * pageSize - pageSize;
  }

  lemma StartsGrow(a: int, b: int, pageSize: nat)
    requires a <= b
    ensures StartOf(a, pageSize) <= StartOf(b, pageSize)
  {
    assert (b - 1) * pageSize == (a - 1) * pageSize + (b - a) * pageSize;
  }

  lemma NextStart(page: int, pageSize: nat)
    ensures StartOf(page + 1, pageSize) == StartOf(page, pageSize) + pageSize
  {
  }

  /** A page before the last is full; the last one ends the list. */
  lemma PageSpan<T>(items: seq<T>, pageSize: nat, page: nat) returns (start: nat)
    requires pageSize > 0 && items != [] && 1 <= page <= TotalPages(|items|, pageSize)
    ensures start == StartOf(page, pageSize) < |items|
    ensures page < TotalPages(|items|, pageSize) ==>
      start + pageSize < |items| && PageOf(items, pageSize, page) == items[start..start + pageSize]
    ensures page == TotalPages(|items|, pageSize) ==> PageOf(items, pageSize, page) == items[start..]
  {
    start := StartOf(page, pageSize);
    LastPage(|items|, pageSize);
    StartsGrow(page, TotalPages(|items|, pageSize), pageSize);
    if page < TotalPages(|items|, pageSize) {
      NextStart(page, pageSize);
      StartsGrow(page + 1, TotalPages(|items|, pageSize), pageSize);
    }
  }

  lemma {:induction false} PagesCoverRest<T>(items: seq<T>, pageSize: nat, page: nat) returns (start: nat)
    requires pageSize > 0 && items != [] && 1 <= page <= TotalPages(|items|, pageSize)
    ensures start == StartOf(page, pageSize) < |items|
    ensures Flatten(PagesFrom(items, pageSize, page)) == items[start..]
    decreases TotalPages(|items|, pageSize) - page
  {
    start := PageSpan(items, pageSize, page);
    if page < TotalPages(|items|, pageSize) {
      var next := PagesCoverRest(items, pageSize, page + 1);
      NextStart(page, pageSize);
      assert items[start..] == items[start..next] + items[next..];
    } else {
      assert PagesFrom(items, pageSize, page + 1) == [];
      assert PagesFrom(items, pageSize, page)[1..] == [];
    }
  }

  /** Pages 1 to the last, one after another, are the whole list exactly once. */
  lemma PagesPartition<T>(items: seq<T>, pageSize: nat)
    requires pageSize > 0
    ensures Flatten(PagesFrom(items, pageSize, 1)) == items
  {
    if items == [] {
      assert PagesFrom(items, pageSize, 2) == [];
      assert PagesFrom(items, pageSize, 1)[1..] == [];
    } else {
      var start := PagesCoverRest(items, pageSize, 1);
    }
  }

  /** Every request is served a page that exists, and that page is empty only when the list is. */
  lemma ServedPageExists<T>(items: seq<T>, pageSize: nat, requested: int)
    requires pageSize > 0
    ensures var page := ClampPage(requested, TotalPages(|items|, pageSize));
      && 1 <= page <= TotalPages(|items|, pageSize)
      && (1 <= requested <= TotalPages(|items|, pageSize) ==> page == requested)
      && (requested < 1 ==> page == 1)
      && (requested > TotalPages(|items|, pageSize) ==> page == TotalPages(|items|, pageSize))
      && |PageOf(items, pageSize, page)| <= pageSize
      && (PageOf(items, pageSize, page) == [] <==> items == [])
  {
    var page := ClampPage(requested, TotalPages(|items|, pageSize));
    if items != [] {
      var start := PageSpan(items, pageSize, page);
    }
  }
}
