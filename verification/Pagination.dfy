/** The page arithmetic of app/repositories/base.py and of app/api/v1/endpoints/data_collection.py. */
module Pagination {

  datatype PageMeta = PageMeta(page: nat, pageSize: nat, totalItems: nat, totalPages: nat, hasNext: bool, hasPrev: bool)

  /** stmt.offset(skip).limit(count) over a list in a fixed order */
  function Slice<T>(items: seq<T>, skip: nat, count: nat): seq<T> {
    if skip >= |items| then [] else if skip + count >= |items| then items[skip..] else items[skip..skip + count]
  }

  function Ceiling(x: real): int {
    if x.Floor as real == x then x.Floor else x.Floor + 1
  }

  /** max(1, math.ceil(total_items / page_size)) */
  function TotalPages(total: nat, size: nat): int
    requires size > 0
  {
    var pages := Ceiling(total as real / size as real);
    if pages < 1 then 1 else pages
  }

  /** (total + page_size - 1) // page_size if total > 0 else 1 */
  function TotalPagesByDivision(total: nat, size: nat): int
    requires size > 0
  {
    if total > 0 then (total + size - 1) / size else 1
  }

  function PageItems<T>(items: seq<T>, page: nat, size: nat): seq<T>
    requires page > 0
  {
    Slice(items, (page - 1) * size, size)
  }

  /** The items and the meta data that list_paginated returns for a filtered list. */
  function ListPaginated<T>(items: seq<T>, page: nat, size: nat): (seq<T>, PageMeta)
    requires page > 0 && size > 0
  {
    var pages := TotalPages(|items|, size);
    (PageItems(items, page, size), PageMeta(page, size, |items|, pages, page < pages, page > 1))
  }

  /** What a page shows: the items from (page - 1) * size on, at most `size` of them, and where it stands. */
  lemma PageShows<T>(items: seq<T>, page: nat, size: nat, k: nat)
    requires page > 0 && size > 0
    ensures var (shown, meta) := ListPaginated(items, page, size);
      && meta.page == page && meta.pageSize == size && meta.totalItems == |items| && (meta.hasPrev <==> page >= 2)
      && (k < |shown| <==> k < size && (page - 1) * size + k < |items|)
      && (k < |shown| ==> shown[k] == items[(page - 1) * size + k])
  {
    SliceAt(items, (page - 1) * size, size, k);
  }

  lemma SliceAt<T>(items: seq<T>, skip: nat, count: nat, k: nat)
    ensures k < |Slice(items, skip, count)| <==> k < count && skip + k < |items|
    ensures k < |Slice(items, skip, count)| ==> Slice(items, skip, count)[k] == items[skip + k]
  {}

  /** n is the quotient rounded up. */
  predicate RoundedUp(total: nat, size: nat, n: int) {
    (n - 1) * size < total <= n * size
  }

  lemma RoundedUpIsUnique(total: nat, size: nat, m: int, n: int)
    requires size > 0 && RoundedUp(total, size, m) && RoundedUp(total, size, n)
    ensures m == n
  {
    if m < n {
      Scaled(m, n - 1, size);
      assert false;
    } else if n < m {
      Scaled(n, m - 1, size);
      assert false;
    }
  }

  lemma Scaled(m: int, n: int, size: nat)
    requires m <= n
    ensures m * size <= n * size
  {}

  lemma QuotientTimes(t: real, s: real)
    requires s > 0.0
    ensures (t / s) * s == t
  {}

  lemma RealScaled(x: real, y: real, k: real)
    requires x <= y && k > 0.0
    ensures x * k <= y * k && (x < y ==> x * k < y * k)
  {}

  lemma ProductAsReal(m: int, n: int)
    ensures (m * n) as real == m as real * n as real
  {}

  lemma RoundedUpInReals(total: nat, size: nat, n: int)
    requires (n - 1) as real * size as real < total as real <= n as real * size as real
    ensures RoundedUp(total, size, n)
  {
    ProductAsReal(n, size);
    ProductAsReal(n - 1, size);
  }

  lemma Cleared(t: real, s: real, q: real, lo: real, hi: real)
    requires s > 0.0 && q * s == t && lo < q <= hi
    ensures lo * s < t <= hi * s
  {
    RealScaled(lo, q, s);
    RealScaled(q, hi, s);
  }

  lemma CeilingRoundsUp(total: nat, size: nat)
    requires size > 0
    ensures RoundedUp(total, size, Ceiling(total as real / size as real))
  {
    var q := total as real / size as real;
    var n := Ceiling(q);
    QuotientTimes(total as real, size as real);
    Cleared(total as real, size as real, q, (n - 1) as real, n as real);
    RoundedUpInReals(total, size, n);
  }

  lemma DivisionRoundsUp(total: nat, size: nat)
    requires size > 0 && total > 0
    ensures RoundedUp(total, size, (total + size - 1) / size)
  {
    var n := (total + size - 1) / size;
    assert n * size + (total + size - 1) % size == total + size - 1;
    assert (n - 1) * size == n * size - size;
  }

  /** The repository and the data endpoints count pages alike. */
  lemma CeilingsAgree(total: nat, size: nat)
    requires size > 0
    ensures TotalPages(total, size) == TotalPagesByDivision(total, size) >= 1
    ensures total > 0 ==> RoundedUp(total, size, TotalPages(total, size))
    ensures total <= TotalPages(total, size) * size
  {
    CeilingRoundsUp(total, size);
    if total > 0 {
      DivisionRoundsUp(total, size);
      RoundedUpIsUnique(total, size, Ceiling(total as real / size as real), (total + size - 1) / size);
      if TotalPagesByDivision(total, size) < 1 {
        Scaled(TotalPagesByDivision(total, size), 0, size);
      }
    }
  }

  function AllPages<T>(items: seq<T>, pages: nat, size: nat): seq<T> {
    if pages == 0 then [] else AllPages(items, pages - 1, size) + PageItems(items, pages, size)
  }

  /** The first pages hold the first items. */
  lemma {:induction false} PagesArePrefix<T>(items: seq<T>, pages: nat, size: nat)
    ensures AllPages(items, pages, size) == if pages * size <= |items| then items[..pages * size] else items
  {
    if pages > 0 {
      PagesArePrefix(items, pages - 1, size);
      assert (pages - 1) * size + size == pages * size;
    }
  }

  /** The pages of a list one after another are the list: no gap, no repeat. */
  lemma PagesCoverList<T>(items: seq<T>, size: nat)
    requires size > 0
    ensures AllPages(items, TotalPages(|items|, size), size) == items
  {
    CeilingsAgree(|items|, size);
    PagesArePrefix(items, TotalPages(|items|, size), size);
  }

  lemma BeforeLastIff(total: nat, size: nat, page: nat, pages: int)
    requires size > 0 && page > 0 && if total > 0 then RoundedUp(total, size, pages) else pages == 1
    ensures page < pages <==> page * size < total
  {
    if page < pages {
      Scaled(page, pages - 1, size);
    } else {
      Scaled(pages, page, size);
    }
  }

  lemma PagesLeftIff(total: nat, size: nat, page: nat)
    requires size > 0 && page > 0
    ensures page < TotalPages(total, size) <==> page * size < total
  {
    CeilingsAgree(total, size);
    BeforeLastIff(total, size, page, TotalPagesByDivision(total, size));
  }

  lemma SliceIsFullIffMore<T>(items: seq<T>, skip: nat, next: nat, count: nat)
    requires next == skip + count && count > 0
    ensures next < |items| ==> |Slice(items, skip, count)| == count
    ensures next < |items| <==> Slice(items, next, count) != []
  {}

  lemma NextPageStarts(page: nat, size: nat)
    requires page > 0
    ensures page * size == (page - 1) * size + size
  {}

  /** has_next tells of an item beyond the page; any page before that one is full. */
  lemma HasNextIffItemBeyond<T>(items: seq<T>, page: nat, size: nat)
    requires page > 0 && size > 0
    ensures ListPaginated(items, page, size).1.hasNext <==> page * size < |items|
    ensures ListPaginated(items, page, size).1.hasNext <==> PageItems(items, page + 1, size) != []
    ensures ListPaginated(items, page, size).1.hasNext ==> |PageItems(items, page, size)| == size
  {
    PagesLeftIff(|items|, size, page);
    NextPageStarts(page, size);
    SliceIsFullIffMore(items, (page - 1) * size, page * size, size);
  }
}
