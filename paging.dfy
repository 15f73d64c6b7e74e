/** The client-side pagination both ledger views share:
    `list.slice((page - 1) * perPage, page * perPage)`,
    `Math.ceil(list.length / perPage)` pages, empty rows padding the grid up
    to `perPage`, and arrows disabled at the ends. */
module Paging {

  function Min(a: int, b: int): int { if a <= b then a else b }

  /** `Array.prototype.slice` with a non-negative start and end: both bounds
      are clamped to the length. */
  function Slice<T>(s: seq<T>, start: nat, end: nat): (r: seq<T>)
    ensures |r| == if start <= Min(end, |s|) then Min(end, |s|) - start else 0
    ensures forall k :: 0 <= k < |r| ==> r[k] == s[start + k]
  {
    var e := Min(end, |s|);
    if start <= e then s[start..e] else []
  }

  /** The items shown on the 1-based page `page`. */
  function PageItems<T>(s: seq<T>, page: nat, perPage: nat): (r: seq<T>)
    requires page >= 1 && perPage >= 1
    ensures |r| <= perPage
    ensures |r| == 0 || (page - 1) * perPage + |r| <= |s|
    ensures forall k :: 0 <= k < |r| ==> r[k] == s[(page - 1) * perPage + k]
  {
    assert (page - 1) * perPage + perPage == page * perPage;
    Slice(s, (page - 1) * perPage, page * perPage)
  }

  /** `Math.ceil(n / perPage)`. */
  function TotalPages(n: nat, perPage: nat): (t: nat)
    requires perPage >= 1
    ensures (t - 1) * perPage < n <= t * perPage || (n == 0 && t == 0)
  {
    (n + perPage - 1) / perPage
  }

  /** Number of empty rows drawn under a page with `shown` items. */
  function Padding(shown: nat, perPage: nat): nat {
    if shown < perPage then perPage - shown else 0
  }

  /** The grid always shows exactly `perPage` rows: items plus padding. */
  lemma GridIsFull<T>(s: seq<T>, page: nat, perPage: nat)
    requires page >= 1 && perPage >= 1
    ensures |PageItems(s, page, perPage)| + Padding(|PageItems(s, page, perPage)|, perPage) == perPage
  {
  }

  /** The pages 1..k laid end to end. */
  function FirstPages<T>(s: seq<T>, k: nat, perPage: nat): seq<T>
    requires perPage >= 1
  {
    if k == 0 then [] else FirstPages(s, k - 1, perPage) + PageItems(s, k, perPage)
  }

  /** The first k pages are exactly the first k * perPage items. */
  lemma {:induction false} FirstPagesArePrefix<T>(s: seq<T>, k: nat, perPage: nat)
    requires perPage >= 1
    ensures FirstPages(s, k, perPage) == s[..Min(k * perPage, |s|)]
  {
    if k > 0 {
      FirstPagesArePrefix(s, k - 1, perPage);
      var a := Min((k - 1) * perPage, |s|);
      var b := Min(k * perPage, |s|);
      var p := PageItems(s, k, perPage);
      assert (k - 1) * perPage + perPage == k * perPage;
      assert a <= b;
      assert |p| == b - a;
      assert s[..b] == s[..a] + s[a..b];
      assert p == s[a..b];
    }
  }

  /** The pages partition the list: laid end to end, pages 1..TotalPages
      give back the whole list, and every later page is empty. */
  lemma PagesPartition<T>(s: seq<T>, perPage: nat)
    requires perPage >= 1
    ensures FirstPages(s, TotalPages(|s|, perPage), perPage) == s
    ensures forall page :: page > TotalPages(|s|, perPage) ==> PageItems(s, page, perPage) == []
  {
    var t := TotalPages(|s|, perPage);
    FirstPagesArePrefix(s, t, perPage);
    assert |s| <= t * perPage;
    assert Min(t * perPage, |s|) == |s|;
    forall page | page > t ensures PageItems(s, page, perPage) == [] {
      MulMono(t, page - 1, perPage);
    }
  }

  lemma MulMono(a: nat, b: nat, c: nat)
    requires a <= b
    ensures a * c <= b * c
  {
  }

  /** Every page before the last is full. */
  lemma InnerPagesFull<T>(s: seq<T>, page: nat, perPage: nat)
    requires perPage >= 1 && 1 <= page < TotalPages(|s|, perPage)
    ensures |PageItems(s, page, perPage)| == perPage
  {
    var t := TotalPages(|s|, perPage);
    MulMono(page, t - 1, perPage);
  }

  /** The arrows and the visibility of the pager. */
  predicate PrevDisabled(page: int) { page == 1 }
  predicate NextDisabled(page: int, total: int) { page == total }
  predicate PagerVisible(total: int) { total > 1 }

  /** Which page an arrow click leads to; a disabled or hidden arrow does nothing. */
  function PrevClick(page: int, total: int): int {
    if PagerVisible(total) && !PrevDisabled(page) then page - 1 else page
  }

  function NextClick(page: int, total: int): int {
    if PagerVisible(total) && !NextDisabled(page, total) then page + 1 else page
  }

  /** The current page lies between 1 and the page count; page 1 is also
      allowed when the list is empty and there are no pages at all. */
  predicate InRange(page: int, total: int) {
    1 <= page && (page <= total || page == 1)
  }

  /** Arrow clicks keep the current page within 1..TotalPages (page 1 when
      there are no pages): disabling the arrow at each end is what keeps it there. */
  lemma ArrowsStayInRange(page: int, total: int)
    requires InRange(page, total)
    ensures InRange(PrevClick(page, total), total)
    ensures InRange(NextClick(page, total), total)
  {
  }
}
