/**
 * The two browser-facing decisions `scrape_reviews_from_agoda` takes before it
 * collects hotel links: which tab holds the search results, and whether the
 * star-rating filter could be applied. The browser is a parameter: each tab is
 * its URL and whether the hotel-item selector appears on it within the wait,
 * and each selector lookup is what the page answers for it.
 */
module SearchNavigator {
  import opened Wrappers
  import opened Text

  // ---------------------------------------------------------------------------
  // Star-rating filter.
  // ---------------------------------------------------------------------------

  /** The page's answer to a selector: whether it matches anything (`count() > 0`)
      and whether clicking its first match goes through without an exception. */
  datatype Probe = Probe(present: bool, clickSucceeds: bool)

  predicate Works(p: Probe) {
    p.present && p.clickSucceeds
  }

  /** The three selectors tried, in order. */
  function StarSelectors(rating: int): (r: seq<string>)
    ensures |r| == 3
  {
    var v := IntToString(rating);
    [ "label[data-element-name='search-filter-starratingwithluxury'][data-element-value='" + v + "']",
      "label[data-element-name='filter-star-rating'][data-element-value='" + v + "']",
      "label:has-text('" + v + " star')" ]
  }

  /** Each selector names the rating. */
  lemma StarSelectorsNameRating(rating: int)
    ensures forall k :: 0 <= k < 3 ==> Contains(StarSelectors(rating)[k], IntToString(rating))
  {
    var v := IntToString(rating);
    ContainsInside("label[data-element-name='search-filter-starratingwithluxury'][data-element-value='", v, "']");
    ContainsInside("label[data-element-name='filter-star-rating'][data-element-value='", v, "']");
    ContainsInside("label:has-text('", v, " star')");
  }

  predicate AnyWorks(selectors: seq<string>, page: string -> Probe) {
    exists i :: 0 <= i < |selectors| && Works(page(selectors[i]))
  }

  /** The clicks made, in order, when `selectors` are tried until a click goes through. */
  function AttemptedClicks(selectors: seq<string>, page: string -> Probe): seq<string> {
    if selectors == [] then []
    else
      var p := page(selectors[0]);
      if !p.present then AttemptedClicks(selectors[1..], page)
      else if p.clickSucceeds then [selectors[0]]
      else [selectors[0]] + AttemptedClicks(selectors[1..], page)
  }

  /** The loop of `apply_star_rating_filter`: try each selector in turn, click the
      first match of a present one, and stop at the first click that goes through. */
  method TrySelectors(page: string -> Probe, selectors: seq<string>) returns (applied: bool, clicks: seq<string>)
    ensures applied <==> AnyWorks(selectors, page)
    ensures clicks == AttemptedClicks(selectors, page)
  {
    clicks := [];
    var i := 0;
    while i < |selectors|
      invariant i <= |selectors|
      invariant forall k :: 0 <= k < i ==> !Works(page(selectors[k]))
      invariant clicks + AttemptedClicks(selectors[i..], page) == AttemptedClicks(selectors, page)
    {
      assert selectors[i..][0] == selectors[i] && selectors[i..][1..] == selectors[i + 1..];
      var probe := page(selectors[i]);
      if probe.present {
        clicks := clicks + [selectors[i]];
        if probe.clickSucceeds {
          assert Works(page(selectors[i]));
          return true, clicks;
        }
      }
      i := i + 1;
    }
    applied := false;
  }

  /** `apply_star_rating_filter`: rating 0 means no filter and succeeds at once. */
  method ApplyStarRatingFilter(page: string -> Probe, starRating: int) returns (applied: bool, clicks: seq<string>)
    ensures starRating == 0 ==> applied && clicks == []
    ensures starRating != 0 ==> (applied <==> AnyWorks(StarSelectors(starRating), page))
    ensures starRating != 0 ==> clicks == AttemptedClicks(StarSelectors(starRating), page)
  {
    if starRating == 0 {
      return true, [];
    }
    applied, clicks := TrySelectors(page, StarSelectors(starRating));
  }

  /** Every clicked selector is listed and present. */
  lemma {:induction false} AttemptedClicksPresent(selectors: seq<string>, page: string -> Probe)
    ensures forall c :: c in AttemptedClicks(selectors, page) ==> c in selectors && page(c).present
  {
    if selectors != [] {
      AttemptedClicksPresent(selectors[1..], page);
    }
  }

  /** Every click but the last failed. */
  lemma {:induction false} AttemptedClicksFailedBeforeLast(selectors: seq<string>, page: string -> Probe)
    ensures forall k :: 0 <= k < |AttemptedClicks(selectors, page)| - 1 ==>
      !page(AttemptedClicks(selectors, page)[k]).clickSucceeds
  {
    if selectors != [] {
      var rest := AttemptedClicks(selectors[1..], page);
      AttemptedClicksFailedBeforeLast(selectors[1..], page);
      assert forall j :: 0 <= j < |rest| - 1 ==> !page(rest[j]).clickSucceeds;
      if page(selectors[0]).present && !page(selectors[0]).clickSucceeds {
        var clicks := [selectors[0]] + rest;
        assert AttemptedClicks(selectors, page) == clicks;
        forall k | 0 <= k < |clicks| - 1
          ensures !page(clicks[k]).clickSucceeds
        {
          if k > 0 {
            assert clicks[k] == rest[k - 1];
          }
        }
      }
    }
  }

  /** The filter is applied exactly when the last click went through. */
  lemma {:induction false} AttemptedClicksLastDecides(selectors: seq<string>, page: string -> Probe)
    ensures var clicks := AttemptedClicks(selectors, page);
      AnyWorks(selectors, page) <==> clicks != [] && Works(page(clicks[|clicks| - 1]))
  {
    if selectors != [] {
      var rest := selectors[1..];
      AttemptedClicksLastDecides(rest, page);
      assert AnyWorks(selectors, page) <==> Works(page(selectors[0])) || AnyWorks(rest, page) by {
        if AnyWorks(rest, page) {
          var i :| 0 <= i < |rest| && Works(page(rest[i]));
          assert selectors[i + 1] == rest[i];
        }
      }
    }
  }

  /** A page with none of the selectors gets no click and no filter. */
  lemma {:induction false} NoSelectorNoClick(selectors: seq<string>, page: string -> Probe)
    requires forall c :: c in selectors ==> !page(c).present
    ensures AttemptedClicks(selectors, page) == [] && !AnyWorks(selectors, page)
  {
    if selectors != [] {
      NoSelectorNoClick(selectors[1..], page);
    }
  }

  // ---------------------------------------------------------------------------
  // Results tab.
  // ---------------------------------------------------------------------------

  /** An open tab: its URL, and whether the hotel-item selector shows up on it
      within the five-second wait. */
  datatype Tab = Tab(url: string, showsResults: bool)

  predicate NotActivities(t: Tab) {
    !Contains(t.url, "activities")
  }

  /** The second pass: a hotel tab that is not an activities tab shows results. */
  predicate NewTabResults(t: Tab) {
    NotActivities(t) && Contains(t.url, "hotel") && t.showsResults
  }

  /** The third pass: a search-results URL shows results. */
  predicate SearchResults(t: Tab) {
    Contains(t.url, "search?city=") && t.showsResults
  }

  /** The first tab satisfying `p`. */
  function FirstWhere(tabs: seq<Tab>, p: Tab -> bool): (r: Option<nat>)
    ensures r.Some? ==> r.value < |tabs| && p(tabs[r.value]) && forall k :: 0 <= k < r.value ==> !p(tabs[k])
    ensures r.None? ==> forall k :: 0 <= k < |tabs| ==> !p(tabs[k])
  {
    if tabs == [] then None
    else if p(tabs[0]) then Some(0)
    else match FirstWhere(tabs[1..], p)
      case Some(i) => Some(i + 1)
      case None => None
  }

  /** The last tab satisfying `p`. */
  function LastWhere(tabs: seq<Tab>, p: Tab -> bool): (r: Option<nat>)
    ensures r.Some? ==> r.value < |tabs| && p(tabs[r.value]) && forall k :: r.value < k < |tabs| ==> !p(tabs[k])
    ensures r.None? ==> forall k :: 0 <= k < |tabs| ==> !p(tabs[k])
  {
    if tabs == [] then None
    else if p(tabs[|tabs| - 1]) then Some(|tabs| - 1)
    else LastWhere(tabs[..|tabs| - 1], p)
  }

  /** The tab `get_hotel_results_page` settles on. */
  function ResultsTab(tabs: seq<Tab>): (r: nat)
    requires |tabs| > 0
    ensures r < |tabs|
  {
    if tabs[0].showsResults then 0
    else
      var second := if |tabs| > 1 then FirstWhere(tabs, NewTabResults) else None;
      if second.Some? then second.value
      else
        var third := FirstWhere(tabs, SearchResults);
        if third.Some? then third.value
        else
          var last := LastWhere(tabs, NotActivities);
          if last.Some? then last.value else 0
  }

  /** `get_hotel_results_page`. The browser context always holds the tab the
      scraper opened, and the source indexes the first tab unguarded. */
  method GetHotelResultsPage(tabs: seq<Tab>) returns (r: nat)
    requires |tabs| > 0
    ensures r == ResultsTab(tabs)
  {
    if tabs[0].showsResults {
      return 0;
    }
    if |tabs| > 1 {
      var i := 0;
      while i < |tabs|
        invariant i <= |tabs|
        invariant forall k :: 0 <= k < i ==> !NewTabResults(tabs[k])
      {
        if NotActivities(tabs[i]) && Contains(tabs[i].url, "hotel") && tabs[i].showsResults {
          return i;
        }
        i := i + 1;
      }
    }
    var j := 0;
    while j < |tabs|
      invariant j <= |tabs|
      invariant forall k :: 0 <= k < j ==> !SearchResults(tabs[k])
    {
      if Contains(tabs[j].url, "search?city=") && tabs[j].showsResults {
        return j;
      }
      j := j + 1;
    }
    var n := |tabs|;
    while n > 0
      invariant 0 <= n <= |tabs|
      invariant forall k :: n <= k < |tabs| ==> !NotActivities(tabs[k])
    {
      n := n - 1;
      if NotActivities(tabs[n]) {
        return n;
      }
    }
    return 0;
  }

  /** When the first tab, a hotel tab (with more than one tab open) or a search tab
      shows results, the chosen tab shows results. */
  lemma ResultsTabShowsResults(tabs: seq<Tab>, k: nat)
    requires k < |tabs|
    requires tabs[k].showsResults
    requires k == 0 || (|tabs| > 1 && NewTabResults(tabs[k])) || SearchResults(tabs[k])
    ensures tabs[ResultsTab(tabs)].showsResults
  {
  }

  /** When no tab shows results, the last tab that is not an activities tab is
      taken, and the first tab when every tab is one. */
  lemma ResultsTabFallback(tabs: seq<Tab>)
    requires |tabs| > 0
    requires forall k :: 0 <= k < |tabs| ==> !tabs[k].showsResults
    ensures var r := ResultsTab(tabs);
      if exists k :: 0 <= k < |tabs| && NotActivities(tabs[k])
      then NotActivities(tabs[r]) && forall k :: r < k < |tabs| ==> !NotActivities(tabs[k])
      else r == 0
  {
  }
}
