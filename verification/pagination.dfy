/**
 * The pagination window of getSearchResultsPage: page `p` (1-based) shows
 * the results whose index lies in [(p - 1) * rpp, p * rpp), where rpp is
 * the configured number of results per page, clipped as slice clips.
 */
module Pagination {
  import opened JsArray

  /** The results shown on `page`. */
  function PageOf<T>(results: seq<T>, page: int, rpp: nat): (r: seq<T>)
    ensures |r| <= rpp
  {
    var start := (page - 1) * rpp;
    var end := page * rpp;
    assert end == start + rpp;
    Slice(results, start, end)
  }

  /**
   * For a page of 1 or more: exactly the results from (page - 1) * rpp up to
   * page * rpp or the end, whichever comes first, in order.
   */
  lemma PageWindow<T>(results: seq<T>, page: int, rpp: nat)
    requires page >= 1
    ensures var r := PageOf(results, page, rpp);
            var lo := (page - 1) * rpp;
            var hi := if page * rpp < |results| then page * rpp else |results|;
            |r| == (if lo >= |results| then 0 else hi - lo) &&
            forall k :: 0 <= k < |r| ==> r[k] == results[lo + k]
  {
    assert page * rpp == (page - 1) * rpp + rpp;
    SliceWindow(results, (page - 1) * rpp, page * rpp);
  }

  /** A page that starts at or past the last result is empty; asking for it is no error. */
  lemma PageBeyondEnd<T>(results: seq<T>, page: int, rpp: nat)
    requires page >= 1 && (page - 1) * rpp >= |results|
    ensures PageOf(results, page, rpp) == []
  {
    PageWindow(results, page, rpp);
  }

  /** Page 0 is empty: its window ends at index 0. */
  lemma PageZero<T>(results: seq<T>, rpp: nat)
    ensures PageOf(results, 0, rpp) == []
  {
  }

  /**
   * A negative page whose window lies within the results shows that window
   * counted from the end: slice reads both bounds from the end, so page -1
   * shows the rpp results that end rpp places before the last one.
   */
  lemma NegativePageCountsFromEnd<T>(results: seq<T>, page: int, rpp: nat)
    requires page < 0 && (1 - page) * rpp <= |results|
    ensures PageOf(results, page, rpp) ==
            results[|results| + (page - 1) * rpp .. |results| + page * rpp]
  {
    assert page * rpp == (page - 1) * rpp + rpp;
    assert (1 - page) * rpp == -((page - 1) * rpp);
    assert -page * rpp >= rpp by {
      assert -page >= 1;
      assert -page * rpp == (-page - 1) * rpp + rpp;
      assert (-page - 1) * rpp >= 0;
    }
  }

  /** A negative page whose window straddles the first result shows the part of the window from index 0 on. */
  lemma NegativePageStraddlesStart<T>(results: seq<T>, page: int, rpp: nat)
    requires page < 0 && -page * rpp < |results| < (1 - page) * rpp
    ensures PageOf(results, page, rpp) == results[..|results| + page * rpp]
  {
    assert page * rpp == (page - 1) * rpp + rpp;
    assert (1 - page) * rpp == -((page - 1) * rpp);
  }

  /** A negative page whose window lies wholly before the first result is empty: slice clamps both bounds to 0. */
  lemma NegativePageBeforeStart<T>(results: seq<T>, page: int, rpp: nat)
    requires page < 0 && -page * rpp >= |results|
    ensures PageOf(results, page, rpp) == []
  {
    assert page * rpp == (page - 1) * rpp + rpp;
  }

  /** The first `k` pages, shown one after another. */
  function FirstPages<T>(results: seq<T>, rpp: nat, k: nat): (r: seq<T>) {
    if k == 0 then [] else FirstPages(results, rpp, k - 1) + PageOf(results, k, rpp)
  }

  /** Pages 1..k tile a prefix of the results: no result is skipped or shown twice. */
  lemma {:induction false} PagesTile<T>(results: seq<T>, rpp: nat, k: nat)
    ensures FirstPages(results, rpp, k) ==
            results[..if k * rpp < |results| then k * rpp else |results|]
  {
    if k > 0 {
      PagesTile(results, rpp, k - 1);
      PageWindow(results, k, rpp);
      assert k * rpp == (k - 1) * rpp + rpp;
      var n := |results|;
      var lo := if (k - 1) * rpp < n then (k - 1) * rpp else n;
      var hi := if k * rpp < n then k * rpp else n;
      assert PageOf(results, k, rpp) == results[lo..hi];
      assert results[..lo] + results[lo..hi] == results[..hi];
    }
  }

  /** Ten results per page and 25 results: page 1 shows results 0-9, page 3 shows results 20-24. */
  lemma TwentyFiveResults<T>(results: seq<T>)
    requires |results| == 25
    ensures PageOf(results, 1, 10) == results[0..10]
    ensures PageOf(results, 3, 10) == results[20..25]
  {
    PageWindow(results, 1, 10);
    PageWindow(results, 3, 10);
  }
}
