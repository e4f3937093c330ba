// `Comment.aggregatePaginate(aggregate, { page, limit })`, the paging step of
// getVideoComments. The plugin's code is not part of this model; it is taken
// to skip `(page - 1) * limit` documents of the aggregate's output, take the
// next `limit`, and report `totalPages = ceil(totalDocs / limit)`.

module Pagination {

  datatype Page<T> = Page(docs: seq<T>, totalDocs: nat, limit: nat, page: nat, totalPages: nat)

  function Min(a: int, b: int): int
  {
    if a <= b then a else b
  }

  /** ceil(total / limit): the fewest pages of `limit` items that hold `total`. */
  function PageCount(total: nat, limit: nat): (n: nat)
    requires limit >= 1
    ensures n * limit >= total
    ensures n == 0 || (n - 1) * limit < total
  {
    var n := (total + limit - 1) / limit;
    CeilDivBounds(total, limit, n);
    n
  }

  lemma CeilDivBounds(total: nat, limit: nat, n: nat)
    requires limit >= 1 && n == (total + limit - 1) / limit
    ensures n * limit >= total
    ensures n == 0 || (n - 1) * limit < total
  {
    var m := total + limit - 1;
    assert m == n * limit + m % limit;
    assert (n - 1) * limit == n * limit - limit;
  }

  /** The `n` items of `xs` that follow the first `lo`, fewer at the end. */
  function Window<T>(xs: seq<T>, lo: nat, n: nat): (w: seq<T>)
    ensures |w| == if lo < |xs| then Min(n, |xs| - lo) else 0
    ensures forall k :: 0 <= k < |w| ==> lo + k < |xs| && w[k] == xs[lo + k]
  {
    if lo < |xs| then xs[lo..Min(lo + n, |xs|)] else []
  }

  lemma NextOffset(k: nat, limit: nat)
    requires k >= 1
    ensures k * limit == (k - 1) * limit + limit
  {
  }

  /** Page `page` (1-based) of `xs`, `limit` items per page. */
  function Paginate<T>(xs: seq<T>, page: nat, limit: nat): (p: Page<T>)
    requires page >= 1 && limit >= 1
    ensures p.totalDocs == |xs| && p.limit == limit && p.page == page
    ensures p.totalPages == PageCount(|xs|, limit)
    ensures p.docs == Window(xs, (page - 1) * limit, limit)
    ensures |p.docs| <= limit
  {
    Page(Window(xs, (page - 1) * limit, limit), |xs|, limit, page, PageCount(|xs|, limit))
  }

  /** A page has items exactly when its number is at most the page count. */
  lemma PageNonEmptyIffInRange<T>(xs: seq<T>, page: nat, limit: nat)
    requires page >= 1 && limit >= 1
    ensures Paginate(xs, page, limit).docs != [] <==> page <= PageCount(|xs|, limit)
  {
    var n := PageCount(|xs|, limit);
    if page <= n {
      assert (page - 1) * limit <= (n - 1) * limit;
    } else {
      assert (page - 1) * limit >= n * limit;
    }
  }

  /** Pages 1 to k, one after the other. */
  function PagesUpTo<T>(xs: seq<T>, limit: nat, k: nat): seq<T>
    requires limit >= 1
  {
    if k == 0 then [] else PagesUpTo(xs, limit, k - 1) + Paginate(xs, k, limit).docs
  }

  /** Reading pages 1..k in turn yields the first k * limit items, in order:
      no item is skipped or shown twice across pages. */
  lemma {:induction false} PagesUpToIsPrefix<T>(xs: seq<T>, limit: nat, k: nat)
    requires limit >= 1
    ensures PagesUpTo(xs, limit, k) == xs[..Min(k * limit, |xs|)]
  {
    if k > 0 {
      PagesUpToIsPrefix(xs, limit, k - 1);
      var lo, hi := (k - 1) * limit, k * limit;
      NextOffset(k, limit);
      assert PagesUpTo(xs, limit, k) == xs[..Min(lo, |xs|)] + Window(xs, lo, limit);
      if lo < |xs| {
        assert Window(xs, lo, limit) == xs[lo..Min(hi, |xs|)];
        assert xs[..Min(hi, |xs|)] == xs[..lo] + xs[lo..Min(hi, |xs|)];
      } else {
        assert Window(xs, lo, limit) == [];
        assert Min(hi, |xs|) == Min(lo, |xs|) == |xs|;
      }
    }
  }

  /** All pages together are the whole result, each item on exactly one page. */
  lemma AllPagesCoverResult<T>(xs: seq<T>, limit: nat)
    requires limit >= 1
    ensures PagesUpTo(xs, limit, PageCount(|xs|, limit)) == xs
  {
    var n := PageCount(|xs|, limit);
    PagesUpToIsPrefix(xs, limit, n);
    assert xs[..|xs|] == xs;
  }

  /** Fifteen results with `limit = 10`: page 1 holds ten, page 2 the other
      five, and there are two pages. */
  lemma FifteenByTen<T>(xs: seq<T>)
    requires |xs| == 15
    ensures |Paginate(xs, 1, 10).docs| == 10 && Paginate(xs, 1, 10).totalPages == 2
    ensures Paginate(xs, 2, 10).docs == xs[10..]
  {
  }
}
