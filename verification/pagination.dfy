/** The page selection get_filtered_records delegates to Django's Paginator,
    with its defaults (no orphans, an empty first page allowed). Pages are
    numbered from 1; a page number outside 1..num_pages is EmptyPage, which
    the caller turns into an empty result. */
module Pagination {
  import opened Common

  /** num_pages: the ceiling of max(1, count) / perPage. A negative page size
      gives no valid page at all. */
  function NumPages(count: nat, perPage: int): (n: int)
    requires perPage != 0
    ensures perPage < 0 ==> n <= 0
    ensures perPage > 0 ==> 1 <= n && (n - 1) * perPage < Hits(count) <= n * perPage
  {
    var hits := Hits(count);
    if perPage > 0 then
      (hits + perPage - 1) / perPage
    else
      -(hits / -perPage)
  }

  /** The item count num_pages divides: never below 1, so an empty list still
      has one (empty) page. */
  function Hits(count: nat): nat {
    if count < 1 then 1 else count
  }

  /** Whether `page` names an existing page, so Paginator.page does not raise
      EmptyPage. */
  predicate InRange(count: nat, perPage: int, page: int) {
    perPage > 0 && 1 <= page <= NumPages(count, perPage)
  }

  /** Index of the first item on an existing page. */
  function PageStart(count: nat, perPage: int, page: int): (start: nat)
    requires InRange(count, perPage, page)
    ensures start <= count
    ensures start == (page - 1) * perPage
  {
    (page - 1) * perPage
  }

  /** Index just past the last item on an existing page: a full page, cut at
      the end of the list. */
  function PageEnd(count: nat, perPage: int, page: int): (end: nat)
    requires InRange(count, perPage, page)
    ensures PageStart(count, perPage, page) <= end <= count
    ensures end == Min(page * perPage, count)
  {
    Min(PageStart(count, perPage, page) + perPage, count)
  }

  /** Paginator(items, perPage).page(page).object_list, with EmptyPage
      mapped to an empty list. A zero page size only fails once num_pages is
      consulted, which happens after the page < 1 test. */
  function Page<T>(items: seq<T>, perPage: int, page: int): (r: Result<seq<T>>)
    ensures r.Err? <==> 1 <= page && perPage == 0
    ensures r.Err? ==> r.error == ZeroPageSize
    ensures r.Ok? && InRange(|items|, perPage, page) ==>
              r.value == items[PageStart(|items|, perPage, page)..PageEnd(|items|, perPage, page)]
    ensures r.Ok? && !InRange(|items|, perPage, page) ==> r.value == []
    ensures r.Ok? ==> |r.value| <= if perPage > 0 then perPage else 0
  {
    if page < 1 then Ok([])
    else if perPage == 0 then Err(ZeroPageSize)
    else if page > NumPages(|items|, perPage) then Ok([])
    else
      var count := |items|;
      Ok(items[PageStart(count, perPage, page)..PageEnd(count, perPage, page)])
  }

  /** Pages 1..k laid end to end. */
  function FirstPages<T>(items: seq<T>, perPage: int, k: nat): seq<T>
    requires perPage > 0 && k <= NumPages(|items|, perPage)
  {
    if k == 0 then [] else FirstPages(items, perPage, k - 1) + Page(items, perPage, k).value
  }

  /** The first k pages are the first k * perPage items (or all of them). */
  lemma {:induction false} FirstPagesArePrefix<T>(items: seq<T>, perPage: int, k: nat)
    requires perPage > 0 && k <= NumPages(|items|, perPage)
    ensures Min(k * perPage, |items|) <= |items|
    ensures FirstPages(items, perPage, k) == items[..Min(k * perPage, |items|)]
  {
    if k > 0 {
      FirstPagesArePrefix(items, perPage, k - 1);
      var start := PageStart(|items|, perPage, k);
      var end := PageEnd(|items|, perPage, k);
      assert Min((k - 1) * perPage, |items|) == start;
      assert items[..start] + items[start..end] == items[..end];
    }
  }

  /** Walking every page from 1 to num_pages yields every item exactly once,
      in order: nothing is skipped or repeated. */
  lemma PagesCoverItems<T>(items: seq<T>, perPage: int)
    requires perPage > 0
    ensures FirstPages(items, perPage, NumPages(|items|, perPage)) == items
  {
    var n := NumPages(|items|, perPage);
    FirstPagesArePrefix(items, perPage, n);
    assert Min(n * perPage, |items|) == |items|;
  }
}
