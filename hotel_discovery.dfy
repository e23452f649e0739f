/**
 * Collecting hotel links from the search results of `scrape_reviews_from_agoda`:
 * page by page, each hotel list item contributes the link of its hotel card, made
 * absolute, unless that link was already collected; the item's hotel id is kept
 * beside it. The parsed pages are given: the result pages visited, each as the
 * hotel items found on it in document order.
 */
module HotelDiscovery {
  import opened Wrappers
  import opened Text

  /** A `li[data-hotelid]` item: its id, and the `href` of its first hotel card
      link, None when the item has no card or the card has no `href`. */
  datatype HotelItem = HotelItem(hotelId: string, href: Option<string>)

  /** The two parallel lists `hotel_links` and `hotel_ids`. */
  datatype Found = Found(links: seq<string>, ids: seq<string>)

  const SiteRoot: string := "https://www.agoda.com"

  /** A relative link is put under the site root; an absolute one is kept. */
  function AbsoluteLink(href: string): string {
    if StartsWith(href, "http") then href else SiteRoot + href
  }

  /** The result is absolute, and an absolute link is kept as it is. */
  lemma AbsoluteLinkShape(href: string)
    ensures StartsWith(AbsoluteLink(href), "http")
    ensures StartsWith(href, "http") ==> AbsoluteLink(href) == href
    ensures !StartsWith(href, "http") ==> AbsoluteLink(href) == SiteRoot + href
  {
    if !StartsWith(href, "http") {
      assert (SiteRoot + href)[..4] == "http";
    }
  }

  lemma AbsoluteLinkIdempotent(href: string)
    ensures AbsoluteLink(AbsoluteLink(href)) == AbsoluteLink(href)
  {
    AbsoluteLinkShape(href);
  }

  /** The link an item offers, if any: a present, non-empty `href`, made absolute. */
  function CandidateLink(item: HotelItem): Option<string> {
    if item.href.Some? && item.href.value != [] then Some(AbsoluteLink(item.href.value)) else None
  }

  /** One item added to the lists. */
  function Step(f: Found, item: HotelItem): Found {
    var c := CandidateLink(item);
    if c.Some? && c.value !in f.links then Found(f.links + [c.value], f.ids + [item.hotelId]) else f
  }

  /** The lists after `items`, taken in order, starting from empty lists. */
  function Discover(items: seq<HotelItem>): Found {
    if items == [] then Found([], [])
    else Step(Discover(items[..|items| - 1]), items[|items| - 1])
  }

  /** All items of all pages, page by page. */
  function Flatten(pages: seq<seq<HotelItem>>): seq<HotelItem> {
    if pages == [] then [] else Flatten(pages[..|pages| - 1]) + pages[|pages| - 1]
  }

  lemma DiscoverSnoc(items: seq<HotelItem>, item: HotelItem)
    ensures Discover(items + [item]) == Step(Discover(items), item)
  {
    assert (items + [item])[..|items|] == items;
  }

  /** The pagination loop: every result page in turn. */
  method DiscoverHotels(pages: seq<seq<HotelItem>>) returns (hotelLinks: seq<string>, hotelIds: seq<string>)
    ensures Found(hotelLinks, hotelIds) == Discover(Flatten(pages))
  {
    hotelLinks, hotelIds := [], [];
    for p := 0 to |pages|
      invariant Found(hotelLinks, hotelIds) == Discover(Flatten(pages[..p]))
    {
      assert pages[..p + 1][..p] == pages[..p];
      hotelLinks, hotelIds := VisitPage(hotelLinks, hotelIds, Flatten(pages[..p]), pages[p]);
    }
    assert pages[..|pages|] == pages;
  }

  /** The loop over the hotel items of one page, given the lists collected
      from the items before it. */
  method VisitPage(hotelLinks: seq<string>, hotelIds: seq<string>, ghost before: seq<HotelItem>, items: seq<HotelItem>)
    returns (hotelLinks': seq<string>, hotelIds': seq<string>)
    requires Found(hotelLinks, hotelIds) == Discover(before)
    ensures Found(hotelLinks', hotelIds') == Discover(before + items)
  {
    hotelLinks', hotelIds' := hotelLinks, hotelIds;
    assert before + items[..0] == before;
    for j := 0 to |items|
      invariant Found(hotelLinks', hotelIds') == Discover(before + items[..j])
    {
      DiscoverSnoc(before + items[..j], items[j]);
      assert before + items[..j + 1] == before + items[..j] + [items[j]];
      hotelLinks', hotelIds' := VisitItem(hotelLinks', hotelIds', items[j]);
    }
    assert items[..|items|] == items;
  }

  /** One hotel item: its card's link, made absolute, is added with the item's id
      unless it is missing, empty or already collected. */
  method VisitItem(hotelLinks: seq<string>, hotelIds: seq<string>, item: HotelItem)
    returns (hotelLinks': seq<string>, hotelIds': seq<string>)
    ensures Found(hotelLinks', hotelIds') == Step(Found(hotelLinks, hotelIds), item)
  {
    hotelLinks', hotelIds' := hotelLinks, hotelIds;
    if item.href.Some? {
      var href := item.href.value;
      if href != "" {
        if !StartsWith(href, "http") {
          href := SiteRoot + href;
        }
        if href !in hotelLinks {
          hotelLinks' := hotelLinks + [href];
          hotelIds' := hotelIds + [item.hotelId];
        }
      }
    }
  }

  // ---------------------------------------------------------------------------
  // What the lists hold.
  // ---------------------------------------------------------------------------

  /** Item `t` offers a link that no earlier item offered. */
  predicate FirstSeenAt(items: seq<HotelItem>, t: nat)
    requires t < |items|
  {
    CandidateLink(items[t]).Some? && forall u :: 0 <= u < t ==> CandidateLink(items[u]) != CandidateLink(items[t])
  }

  /** The indices of the items that offer a new link, in order. */
  function FirstSeenIndices(items: seq<HotelItem>): seq<nat> {
    if items == [] then []
    else
      var n := |items| - 1;
      FirstSeenIndices(items[..n]) + (if FirstSeenAt(items, n) then [n] else [])
  }

  /** The two lists always have the same length. */
  lemma {:induction false} DiscoverLengths(items: seq<HotelItem>)
    ensures |Discover(items).links| == |Discover(items).ids|
  {
    if items != [] {
      DiscoverLengths(items[..|items| - 1]);
    }
  }

  /** No link is collected twice. */
  lemma {:induction false} DiscoverNoDuplicates(items: seq<HotelItem>)
    ensures forall k1, k2 :: 0 <= k1 < k2 < |Discover(items).links| ==>
      Discover(items).links[k1] != Discover(items).links[k2]
  {
    if items != [] {
      var prefix := items[..|items| - 1];
      DiscoverNoDuplicates(prefix);
      var before, after := Discover(prefix).links, Discover(items).links;
      var c := CandidateLink(items[|items| - 1]);
      if c.Some? && c.value !in before {
        assert after == before + [c.value];
        forall k1, k2 | 0 <= k1 < k2 < |after|
          ensures after[k1] != after[k2]
        {
          if k2 == |before| {
            assert after[k1] == before[k1];
          }
        }
      }
    }
  }

  /** The link item `t` offers is among the links collected. */
  lemma {:induction false} LinkCollected(items: seq<HotelItem>, t: nat)
    requires t < |items| && CandidateLink(items[t]).Some?
    ensures CandidateLink(items[t]).value in Discover(items).links
  {
    var n := |items| - 1;
    var prefix := items[..n];
    if t < n {
      assert prefix[t] == items[t];
      LinkCollected(prefix, t);
    }
  }

  /** Every collected link was offered by some item, which this returns. */
  lemma {:induction false} LinkSource(items: seq<HotelItem>, link: string) returns (t: nat)
    requires link in Discover(items).links
    ensures t < |items| && CandidateLink(items[t]) == Some(link)
  {
    var n := |items| - 1;
    var prefix := items[..n];
    if link in Discover(prefix).links {
      t := LinkSource(prefix, link);
      assert prefix[t] == items[t];
    } else {
      t := n;
    }
  }

  /** Every link an item offers is collected. */
  lemma DiscoverComplete(items: seq<HotelItem>)
    ensures forall t :: 0 <= t < |items| && CandidateLink(items[t]).Some? ==> CandidateLink(items[t]).value in Discover(items).links
  {
    forall t | 0 <= t < |items| && CandidateLink(items[t]).Some?
      ensures CandidateLink(items[t]).value in Discover(items).links
    {
      LinkCollected(items, t);
    }
  }

  /** The k-th link and the k-th id both come from the item at `idx[k]`. */
  predicate Follows(items: seq<HotelItem>, f: Found, idx: seq<nat>) {
    && |idx| == |f.links| == |f.ids|
    && forall k :: 0 <= k < |idx| ==>
         idx[k] < |items| && CandidateLink(items[idx[k]]) == Some(f.links[k]) && f.ids[k] == items[idx[k]].hotelId
  }

  lemma FirstSeenIndicesSnoc(items: seq<HotelItem>, item: HotelItem)
    ensures FirstSeenIndices(items + [item]) ==
      FirstSeenIndices(items) + (if FirstSeenAt(items + [item], |items|) then [|items|] else [])
  {
    assert (items + [item])[..|items|] == items;
  }

  /** An item offers a new link exactly when its link is not yet collected. */
  lemma FirstSeenIffNew(prefix: seq<HotelItem>, item: HotelItem)
    ensures FirstSeenAt(prefix + [item], |prefix|) <==>
      CandidateLink(item).Some? && CandidateLink(item).value !in Discover(prefix).links
  {
    var items, n := prefix + [item], |prefix|;
    var c := CandidateLink(item);
    if c.Some? {
      if c.value in Discover(prefix).links {
        var u := LinkSource(prefix, c.value);
        assert items[u] == prefix[u];
        assert CandidateLink(items[u]) == CandidateLink(items[n]);
      } else {
        forall u | 0 <= u < n
          ensures CandidateLink(items[u]) != CandidateLink(items[n])
        {
          assert items[u] == prefix[u];
          if CandidateLink(prefix[u]).Some? {
            LinkCollected(prefix, u);
          }
        }
      }
    }
  }

  /** One more item keeps the lists in step with the first-seen indices. */
  lemma FollowsSnoc(prefix: seq<HotelItem>, item: HotelItem)
    requires Follows(prefix, Discover(prefix), FirstSeenIndices(prefix))
    ensures Follows(prefix + [item], Discover(prefix + [item]), FirstSeenIndices(prefix + [item]))
  {
    var items, n := prefix + [item], |prefix|;
    FirstSeenIffNew(prefix, item);
    DiscoverSnoc(prefix, item);
    FirstSeenIndicesSnoc(prefix, item);
    var f, idx := Discover(prefix), FirstSeenIndices(prefix);
    var f', idx' := Discover(items), FirstSeenIndices(items);
    forall k | 0 <= k < |idx'|
      ensures idx'[k] < |items| && CandidateLink(items[idx'[k]]) == Some(f'.links[k]) && f'.ids[k] == items[idx'[k]].hotelId
    {
      if k < |idx| {
        assert idx'[k] == idx[k] && f'.links[k] == f.links[k] && f'.ids[k] == f.ids[k];
        assert items[idx[k]] == prefix[idx[k]];
      } else {
        assert FirstSeenAt(items, n) && idx'[k] == n && items[n] == item;
        assert f'.links == f.links + [CandidateLink(item).value] && f'.ids == f.ids + [item.hotelId];
      }
    }
  }

  /** The lists hold the first-seen links in the order first seen, each beside
      the id of the item that first offered it. */
  lemma {:induction false} DiscoverFollowsFirstSeen(items: seq<HotelItem>)
    ensures Follows(items, Discover(items), FirstSeenIndices(items))
  {
    if items != [] {
      var n := |items| - 1;
      var prefix := items[..n];
      DiscoverFollowsFirstSeen(prefix);
      FollowsSnoc(prefix, items[n]);
      assert prefix + [items[n]] == items;
    }
  }

  /** The links collected are exactly the links the items offer. */
  lemma DiscoverLinksOffered(items: seq<HotelItem>)
    ensures forall t :: 0 <= t < |items| && CandidateLink(items[t]).Some? ==> CandidateLink(items[t]).value in Discover(items).links
    ensures forall k :: 0 <= k < |Discover(items).links| ==>
      exists t :: 0 <= t < |items| && CandidateLink(items[t]) == Some(Discover(items).links[k])
  {
    DiscoverComplete(items);
    DiscoverFollowsFirstSeen(items);
    var idx := FirstSeenIndices(items);
    forall k | 0 <= k < |Discover(items).links|
      ensures exists t :: 0 <= t < |items| && CandidateLink(items[t]) == Some(Discover(items).links[k])
    {
      assert CandidateLink(items[idx[k]]) == Some(Discover(items).links[k]);
    }
  }

  /** The first-seen indices increase, so the links appear in the order they were
      first offered. */
  lemma {:induction false} FirstSeenIndicesIncreasing(items: seq<HotelItem>)
    ensures forall k :: 0 <= k < |FirstSeenIndices(items)| ==> FirstSeenIndices(items)[k] < |items|
    ensures forall k1, k2 :: 0 <= k1 < k2 < |FirstSeenIndices(items)| ==>
      FirstSeenIndices(items)[k1] < FirstSeenIndices(items)[k2]
  {
    if items != [] {
      FirstSeenIndicesIncreasing(items[..|items| - 1]);
    }
  }
}
