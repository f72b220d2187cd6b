/**
 * Client-side paging shared by the list pages: page `p` (counted from 1) shows
 * `items.slice(p * per - per, p * per)`, and the page count is `Math.ceil(n / per)`.
 */
module Pagination {
  import opened Seqs

  function Min(a: int, b: int): int {
    if a <= b then a else b
  }

  /** `Math.ceil(n / per)`: the fewest pages of `per` items that hold `n` items. */
  function TotalPages(n: nat, per: nat): (t: nat)
    requires per > 0
    ensures t * per >= n
    ensures t > 0 ==> (t - 1) * per < n
    ensures n == 0 <==> t == 0
  {
    (n + per - 1) / per
  }

  /** The items on page `page`: a window of at most `per` consecutive items. */
  function Page<T>(items: seq<T>, page: nat, per: nat): (r: seq<T>)
    requires per > 0
    ensures |r| <= per
    ensures 1 <= page && (page - 1) * per < |items| ==>
      r == items[(page - 1) * per..Min(page * per, |items|)]
    ensures page < 1 || (page - 1) * per >= |items| ==> r == []
  {
    var lo, hi := page * per - per, page * per;
    assert page >= 1 ==> lo == (page - 1) * per >= 0;
    Slice(items, lo, hi)
  }

  /** Every page from 1 to the page count is non-empty, and only the last can be short. */
  lemma PageNonEmpty<T>(items: seq<T>, page: nat, per: nat)
    requires per > 0
    requires 1 <= page <= TotalPages(|items|, per)
    ensures |Page(items, page, per)| == Min(per, |items| - (page - 1) * per) > 0
    ensures page < TotalPages(|items|, per) ==> |Page(items, page, per)| == per
  {
    var t := TotalPages(|items|, per);
    MulLe(page - 1, t - 1, per);
    assert (page - 1) * per < |items|;
    assert page * per == (page - 1) * per + per;
    if page < t {
      MulLe(page, t - 1, per);
    }
  }

  lemma MulLe(a: int, b: int, c: nat)
    requires a <= b
    ensures a * c <= b * c
  {
  }

  /** Pages 1 to `k` laid end to end. */
  function Pages<T>(items: seq<T>, k: nat, per: nat): seq<T>
    requires per > 0
  {
    if k == 0 then [] else Pages(items, k - 1, per) + Page(items, k, per)
  }

  /** The first `k` pages hold exactly the first `min(k * per, n)` items, in order. */
  lemma {:induction false} PagesPrefix<T>(items: seq<T>, k: nat, per: nat)
    requires per > 0
    ensures Pages(items, k, per) == items[..Min(k * per, |items|)]
  {
    if k > 0 {
      PagesPrefix(items, k - 1, per);
      var lo, hi := Min((k - 1) * per, |items|), Min(k * per, |items|);
      assert (k - 1) * per <= k * per;
      assert items[..lo] + items[lo..hi] == items[..hi];
    }
  }

  /** Reading every page in turn shows each item exactly once, in list order. */
  lemma PagesCover<T>(items: seq<T>, per: nat)
    requires per > 0
    ensures Pages(items, TotalPages(|items|, per), per) == items
  {
    PagesPrefix(items, TotalPages(|items|, per), per);
  }
}
