/**
 * The pagination arithmetic shared by the two listing endpoints:
 * `skip = (page - 1) * limit`, `pages = Math.ceil(total / limit)`.
 */
module Paging {
  import opened Seqs

  /** The `pagination` object of a listing response. */
  datatype Pagination = Pagination(total: nat, page: int, limit: int, pages: nat)

  /** `Math.ceil(total / limit)`: the fewest pages of `limit` items that hold `total` items. */
  function PageCount(total: nat, limit: int): (pages: nat)
    requires limit >= 1
    ensures pages * limit >= total
    ensures pages == 0 || (pages - 1) * limit < total
  {
    var q := (total + limit - 1) / limit;
    assert q * limit <= total + limit - 1 < (q + 1) * limit;
    q
  }

  /** `(page - 1) * limit`. */
  function Skip(page: int, limit: int): nat
    requires page >= 1 && limit >= 1
  {
    (page - 1) * limit
  }

  /** The items of page `page` of `s`: `skip(Skip(page, limit)).limit(limit)`. */
  function PageOf<T>(s: seq<T>, page: int, limit: int): seq<T>
    requires page >= 1 && limit >= 1
  {
    Window(s, Skip(page, limit), limit)
  }

  /** A page holds at most `limit` items, consecutive items of `s` from position `Skip`. */
  lemma PageBounds<T>(s: seq<T>, page: int, limit: int)
    requires page >= 1 && limit >= 1
    ensures |PageOf(s, page, limit)| <= limit
    ensures forall k :: 0 <= k < |PageOf(s, page, limit)| ==>
      Skip(page, limit) + k < |s| && PageOf(s, page, limit)[k] == s[Skip(page, limit) + k]
  {
  }

  /**
   * Every item is on exactly the page its position says, and that page is
   * one of the `PageCount` pages.
   */
  lemma ItemOnItsPage<T>(s: seq<T>, limit: int, k: nat)
    requires limit >= 1 && k < |s|
    ensures var page := k / limit + 1;
      1 <= page <= PageCount(|s|, limit)
      && k % limit < |PageOf(s, page, limit)|
      && PageOf(s, page, limit)[k % limit] == s[k]
  {
    var q, r := k / limit, k % limit;
    DivMod(k, limit);
    PageCountCovers(|s|, limit, k);
    PageBounds(s, q + 1, limit);
    assert Skip(q + 1, limit) == q * limit;
  }

  lemma DivMod(k: nat, limit: int)
    requires limit >= 1
    ensures k == (k / limit) * limit + k % limit && 0 <= k % limit < limit && k / limit >= 0
  {
  }

  /** The page of position `k` is no later than the last page. */
  lemma PageCountCovers(total: nat, limit: int, k: nat)
    requires limit >= 1 && k < total
    ensures k / limit + 1 <= PageCount(total, limit)
  {
    var pages := PageCount(total, limit);
    DivMod(k, limit);
    if pages < k / limit + 1 {
      MulMono(pages, k / limit, limit);
    }
  }

  lemma MulMono(a: int, b: int, c: int)
    requires 0 <= a <= b && c >= 0
    ensures a * c <= b * c
  {
  }

  /** A page past the last one is empty. */
  lemma PastLastPageEmpty<T>(s: seq<T>, page: int, limit: int)
    requires limit >= 1 && page > PageCount(|s|, limit)
    ensures PageOf(s, page, limit) == []
  {
    var pages := PageCount(|s|, limit);
    MulMono(pages, page - 1, limit);
  }

  /** Every page before the last one is full. */
  lemma EarlierPagesFull<T>(s: seq<T>, page: int, limit: int)
    requires limit >= 1 && 1 <= page < PageCount(|s|, limit)
    ensures |PageOf(s, page, limit)| == limit
  {
    var pages := PageCount(|s|, limit);
    MulMono(page, pages - 1, limit);
  }

  /** There is more than one page exactly when there are more items than fit on one. */
  lemma SeveralPagesIffOverLimit(total: nat, limit: int)
    requires limit >= 1
    ensures PageCount(total, limit) > 1 <==> total > limit
  {
    var pages := PageCount(total, limit);
    if pages > 1 {
      MulMono(1, pages - 1, limit);
    }
    if total > limit {
      assert pages > 1;
    }
  }

  /**
   * A listing query: the elements of `s` that satisfy `p`, ordered by `key`,
   * page `page` of `limit` elements.
   */
  function FilteredPage<T(==)>(s: seq<T>, p: T -> bool, key: T -> int, page: int, limit: int): seq<T>
    requires page >= 1 && limit >= 1
  {
    PageOf(SortBy(Filter(s, p), key), page, limit)
  }

  /** A page holds at most `limit` elements, in `key` order, each an element of `s` satisfying `p`. */
  lemma FilteredPageSound<T>(s: seq<T>, p: T -> bool, key: T -> int, page: int, limit: int)
    requires page >= 1 && limit >= 1
    ensures var r := FilteredPage(s, p, key, page, limit);
      && |r| <= limit
      && SortedBy(r, key)
      && forall k :: 0 <= k < |r| ==> r[k] in s && p(r[k])
  {
    var sorted := SortBy(Filter(s, p), key);
    var r := PageOf(sorted, page, limit);
    PageBounds(sorted, page, limit);
    forall k | 0 <= k < |r|
      ensures r[k] in s && p(r[k])
    {
      assert r[k] in multiset(sorted);
      assert r[k] in multiset(Filter(s, p));
      var j :| 0 <= j < |Filter(s, p)| && Filter(s, p)[j] == r[k];
    }
  }

  /** Every element that satisfies `p` is on one of the `PageCount` pages. */
  lemma FilteredPageComplete<T>(s: seq<T>, p: T -> bool, key: T -> int, limit: int, i: nat)
    requires limit >= 1 && i < |s| && p(s[i])
    ensures exists page ::
      1 <= page <= PageCount(|Filter(s, p)|, limit) && s[i] in FilteredPage(s, p, key, page, limit)
  {
    var sorted := SortBy(Filter(s, p), key);
    assert s[i] in multiset(sorted);
    var k :| 0 <= k < |sorted| && sorted[k] == s[i];
    ItemOnItsPage(sorted, limit, k);
    var page := k / limit + 1;
    assert FilteredPage(s, p, key, page, limit)[k % limit] == s[i];
  }
}
