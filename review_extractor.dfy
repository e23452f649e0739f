/**
 * `scrape_all_reviews`: after loading, one bulk in-page extraction yields a
 * (body text, status-line text) pair per review block; the Python loop then
 * trims the text, looks for a review date in the status line, applies the
 * optional date range and drops blocks without text.
 */
module ReviewExtractor {
  import opened Wrappers
  import opened Text
  import opened Dates
  import MonthPattern
  import ReviewLoader

  /** One element of `all_reviews_data`: the body text and the status-line text,
      each '' when the block lacks the element. */
  datatype RawBlock = RawBlock(review: string, dateRaw: string)

  /** One element of `reviews`. */
  datatype ReviewRecord = ReviewRecord(review: string, reviewDate: string)

  /** `review_date_str`: the text the date pattern matched in the status line, or "". */
  function MatchedDateText(dateRaw: string): string {
    if dateRaw == [] then []
    else match MonthPattern.Search(dateRaw)
      case Some(m) => m
      case None => []
  }

  /** `review_date`: the matched text parsed as "%B %d, %Y", or None. */
  function ReviewDateOf(dateRaw: string): Option<Date> {
    if dateRaw == [] then None
    else match MonthPattern.Search(dateRaw)
      case Some(m) => ParseReviewDate(m)
      case None => None
  }

  /** `start_date or end_date`: a datetime is always truthy, so any present bound filters. */
  predicate Filtering(start: Option<Date>, end: Option<Date>) {
    start.Some? || end.Some?
  }

  /** The loop body appends a record for this block. */
  predicate Keeps(b: RawBlock, start: Option<Date>, end: Option<Date>) {
    && (!Filtering(start, end) || InRange(ReviewDateOf(b.dateRaw), start, end))
    && Trim(b.review) != []
  }

  function RecordOf(b: RawBlock): ReviewRecord {
    ReviewRecord(Trim(b.review), MatchedDateText(b.dateRaw))
  }

  /** The records produced from `blocks` when `keep` says which blocks survive, in order. */
  function Selected(blocks: seq<RawBlock>, keep: RawBlock -> bool): seq<ReviewRecord> {
    if blocks == [] then []
    else
      var last := blocks[|blocks| - 1];
      Selected(blocks[..|blocks| - 1], keep) + (if keep(last) then [RecordOf(last)] else [])
  }

  /** The indices of the blocks `keep` lets through, in order. */
  function SelectedIndices(blocks: seq<RawBlock>, keep: RawBlock -> bool): seq<nat> {
    if blocks == [] then []
    else
      var n := |blocks| - 1;
      SelectedIndices(blocks[..n], keep) + (if keep(blocks[n]) then [n] else [])
  }

  /** The records the loop produces for `blocks`, in order. */
  function Extracted(blocks: seq<RawBlock>, start: Option<Date>, end: Option<Date>): seq<ReviewRecord> {
    Selected(blocks, b => Keeps(b, start, end))
  }

  /** The indices of the blocks that produce a record, in order. */
  function KeptIndices(blocks: seq<RawBlock>, start: Option<Date>, end: Option<Date>): seq<nat> {
    SelectedIndices(blocks, b => Keeps(b, start, end))
  }

  /** The date step of the loop body for one status line. */
  method ReadReviewDate(dateRaw: string) returns (reviewDate: Option<Date>, reviewDateStr: string)
    ensures reviewDate == ReviewDateOf(dateRaw)
    ensures reviewDateStr == MatchedDateText(dateRaw)
  {
    reviewDate, reviewDateStr := None, "";
    if dateRaw != "" {
      var found := MonthPattern.Search(dateRaw);
      if found.Some? {
        reviewDateStr := found.value;
        reviewDate := ParseReviewDate(reviewDateStr);
      }
    }
  }

  /** One more block adds its record exactly when it is kept. */
  lemma ExtractedStep(blocks: seq<RawBlock>, i: nat, start: Option<Date>, end: Option<Date>)
    requires i < |blocks|
    ensures Extracted(blocks[..i + 1], start, end) ==
      Extracted(blocks[..i], start, end) + (if Keeps(blocks[i], start, end) then [RecordOf(blocks[i])] else [])
  {
    assert blocks[..i + 1][..i] == blocks[..i];
  }

  /** The extraction loop of `scrape_all_reviews`. */
  method ExtractReviews(blocks: seq<RawBlock>, start: Option<Date>, end: Option<Date>)
    returns (reviews: seq<ReviewRecord>)
    ensures reviews == Extracted(blocks, start, end)
  {
    reviews := [];
    var i := 0;
    while i < |blocks|
      invariant i <= |blocks|
      invariant reviews == Extracted(blocks[..i], start, end)
    {
      ExtractedStep(blocks, i, start, end);
      var data := blocks[i];
      var reviewText := Trim(data.review);
      var reviewDate, reviewDateStr := ReadReviewDate(data.dateRaw);
      if Filtering(start, end) && !InRange(reviewDate, start, end) {
        i := i + 1;
        continue;
      }
      if reviewText != "" {
        reviews := reviews + [ReviewRecord(reviewText, reviewDateStr)];
      }
      i := i + 1;
    }
    assert blocks[..|blocks|] == blocks;
  }

  /** The whole of `scrape_all_reviews`: load the feed, ask for most-recent-first
      order when a bound is given, then extract. The reviews tab and the sort
      control only change what the page shows, which `blocks` stands for. */
  method ScrapeAllReviews(counts: nat -> nat, buttons: nat -> bool, blocks: seq<RawBlock>,
                          start: Option<Date>, end: Option<Date>)
    returns (reviews: seq<ReviewRecord>, clicks: nat, exit: ReviewLoader.Exit, sortRequested: bool)
    ensures ReviewLoader.IsLoadOutcome(counts, buttons, ReviewLoader.DefaultTarget, clicks, exit)
    ensures sortRequested <==> Filtering(start, end)
    ensures reviews == Extracted(blocks, start, end)
  {
    clicks, exit := ReviewLoader.ClickShowMoreUntil(counts, buttons, ReviewLoader.DefaultTarget);
    sortRequested := start.Some? || end.Some?;
    reviews := ExtractReviews(blocks, start, end);
  }

  /** Every listed index names a block, and the list is strictly increasing. */
  lemma {:induction false} SelectedIndicesIncreasing(blocks: seq<RawBlock>, keep: RawBlock -> bool)
    ensures forall k :: 0 <= k < |SelectedIndices(blocks, keep)| ==> SelectedIndices(blocks, keep)[k] < |blocks|
    ensures forall k1, k2 :: 0 <= k1 < k2 < |SelectedIndices(blocks, keep)| ==>
      SelectedIndices(blocks, keep)[k1] < SelectedIndices(blocks, keep)[k2]
  {
    if blocks != [] {
      SelectedIndicesIncreasing(blocks[..|blocks| - 1], keep);
    }
  }

  /** A block passes `keep` exactly when its index is listed. */
  lemma {:induction false} SelectedIndicesMembership(blocks: seq<RawBlock>, keep: RawBlock -> bool)
    ensures forall i :: 0 <= i < |blocks| ==> (keep(blocks[i]) <==> i in SelectedIndices(blocks, keep))
  {
    if blocks != [] {
      var n := |blocks| - 1;
      var prefix := blocks[..n];
      SelectedIndicesMembership(prefix, keep);
      SelectedIndicesIncreasing(prefix, keep);
      assert n !in SelectedIndices(prefix, keep);
      forall i | 0 <= i < n
        ensures keep(blocks[i]) <==> i in SelectedIndices(blocks, keep)
      {
        assert prefix[i] == blocks[i];
      }
    }
  }

  /** The k-th record comes from the k-th listed block. */
  lemma {:induction false} SelectedAlongIndices(blocks: seq<RawBlock>, keep: RawBlock -> bool)
    ensures |SelectedIndices(blocks, keep)| == |Selected(blocks, keep)|
    ensures forall k :: 0 <= k < |SelectedIndices(blocks, keep)| ==>
      SelectedIndices(blocks, keep)[k] < |blocks| &&
      Selected(blocks, keep)[k] == RecordOf(blocks[SelectedIndices(blocks, keep)[k]])
  {
    if blocks != [] {
      var n := |blocks| - 1;
      var prefix := blocks[..n];
      SelectedAlongIndices(prefix, keep);
      SelectedIndicesIncreasing(blocks, keep);
      var idxp := SelectedIndices(prefix, keep);
      assert forall k :: 0 <= k < |idxp| ==> prefix[idxp[k]] == blocks[idxp[k]];
    }
  }

  /** The output is the subsequence of the blocks that are kept, in their order,
      each turned into its record, and a block is kept exactly when it is listed. */
  lemma ExtractedIsOrderedSubsequence(blocks: seq<RawBlock>, start: Option<Date>, end: Option<Date>)
    ensures var idx := KeptIndices(blocks, start, end);
      && |idx| == |Extracted(blocks, start, end)|
      && (forall k :: 0 <= k < |idx| ==> idx[k] < |blocks| && Extracted(blocks, start, end)[k] == RecordOf(blocks[idx[k]]))
      && (forall k1, k2 :: 0 <= k1 < k2 < |idx| ==> idx[k1] < idx[k2])
      && (forall i :: 0 <= i < |blocks| ==> (Keeps(blocks[i], start, end) <==> i in idx))
  {
    var keep := b => Keeps(b, start, end);
    SelectedIndicesIncreasing(blocks, keep);
    SelectedIndicesMembership(blocks, keep);
    SelectedAlongIndices(blocks, keep);
  }

  /** Under a bound, every kept block has a date that parses and lies in the range. */
  lemma KeptRespectRange(blocks: seq<RawBlock>, start: Option<Date>, end: Option<Date>)
    requires Filtering(start, end)
    ensures forall k :: 0 <= k < |KeptIndices(blocks, start, end)| ==>
      KeptIndices(blocks, start, end)[k] < |blocks| &&
      ReviewDateOf(blocks[KeptIndices(blocks, start, end)[k]].dateRaw).Some? &&
      InRange(ReviewDateOf(blocks[KeptIndices(blocks, start, end)[k]].dateRaw), start, end)
  {
    ExtractedIsOrderedSubsequence(blocks, start, end);
    var idx := KeptIndices(blocks, start, end);
    forall k | 0 <= k < |idx|
      ensures idx[k] < |blocks| && ReviewDateOf(blocks[idx[k]].dateRaw).Some? && InRange(ReviewDateOf(blocks[idx[k]].dateRaw), start, end)
    {
      assert idx[k] in idx;
      assert Keeps(blocks[idx[k]], start, end);
    }
  }

  /** Every record has non-empty text that is already stripped, so stripping it again
      when the row is written changes nothing. */
  lemma {:induction false} ExtractedTextsStripped(blocks: seq<RawBlock>, start: Option<Date>, end: Option<Date>)
    ensures forall r :: r in Extracted(blocks, start, end) ==> r.review != [] && Trim(r.review) == r.review
  {
    if blocks != [] {
      ExtractedTextsStripped(blocks[..|blocks| - 1], start, end);
      TrimIdempotent(blocks[|blocks| - 1].review);
    }
  }

  /** Which blocks are kept: without bounds every block with text; with a bound, every
      block with text whose status line holds a date that parses and lies in range. */
  lemma KeepsExactly(b: RawBlock, start: Option<Date>, end: Option<Date>)
    ensures !Filtering(start, end) ==> (Keeps(b, start, end) <==> Trim(b.review) != [])
    ensures Filtering(start, end) ==>
      (Keeps(b, start, end) <==>
        Trim(b.review) != [] && ReviewDateOf(b.dateRaw).Some? && InRange(ReviewDateOf(b.dateRaw), start, end))
  {
  }

  /** The date field of a record is the text of the leftmost match of the date
      pattern in the status line (`re.search`), or "" when nothing matches. */
  lemma RecordDateIsMatch(b: RawBlock)
    ensures MonthPattern.Search(b.dateRaw).Some? ==> RecordOf(b).reviewDate == MonthPattern.Search(b.dateRaw).value
    ensures MonthPattern.Search(b.dateRaw).None? ==> RecordOf(b).reviewDate == []
    ensures MonthPattern.Search(b.dateRaw).Some? ==>
      exists i, j :: 0 <= i < j <= |b.dateRaw| && MonthPattern.MatchAt(b.dateRaw, i) == Some(j)
                     && RecordOf(b).reviewDate == b.dateRaw[i..j]
                     && forall k :: 0 <= k < i ==> MonthPattern.MatchAt(b.dateRaw, k).None?
  {
    MonthPattern.SearchFromLeftmost(b.dateRaw, 0);
    var r := MonthPattern.SearchFrom(b.dateRaw, 0);
    if r.Some? {
      assert MonthPattern.MatchAt(b.dateRaw, r.value.0) == Some(r.value.1);
    }
  }

  /** A date that matches the pattern but does not parse keeps its block, with the
      matched text, only when no bound is given. */
  lemma UnparsableDateKeptOnlyUnfiltered(b: RawBlock, start: Option<Date>, end: Option<Date>, m: string)
    requires MonthPattern.Search(b.dateRaw) == Some(m) && ParseReviewDate(m).None?
    ensures Keeps(b, start, end) <==> !Filtering(start, end) && Trim(b.review) != []
    ensures RecordOf(b).reviewDate == m
  {
    MonthPattern.SearchMatches(b.dateRaw);
  }

  /** A status line with no date drops its block under a bound, and leaves the date
      field empty without one. */
  lemma NoDateDroppedWhenFiltering(b: RawBlock, start: Option<Date>, end: Option<Date>)
    requires MonthPattern.Search(b.dateRaw).None?
    ensures Filtering(start, end) ==> !Keeps(b, start, end)
    ensures !Filtering(start, end) ==> (Keeps(b, start, end) <==> Trim(b.review) != []) && RecordOf(b).reviewDate == []
  {
    MonthPattern.SearchMatches(b.dateRaw);
  }

  /** Selection over two blocks, spelled out. */
  lemma SelectedPair(x: RawBlock, y: RawBlock, keep: RawBlock -> bool)
    ensures Selected([x, y], keep) ==
      (if keep(x) then [RecordOf(x)] else []) + (if keep(y) then [RecordOf(y)] else [])
  {
    assert [x, y][..1] == [x];
    assert [x][..0] == [];
    assert Selected([x], keep) == (if keep(x) then [RecordOf(x)] else []);
  }

  /** Extraction over a single block, spelled out. */
  lemma ExtractedSingle(b: RawBlock, start: Option<Date>, end: Option<Date>)
    ensures Extracted([b], start, end) == if Keeps(b, start, end) then [RecordOf(b)] else []
  {
    var keep := x => Keeps(x, start, end);
    assert [b][..0] == [];
    assert Selected([b], keep) == Selected([], keep) + (if keep(b) then [RecordOf(b)] else []);
  }

  /** Two blocks, one with text dated March 1, 2024 and one without text dated
      April 2, 2024, filtered to March 2024: only the first survives. */
  lemma MarchExample()
    ensures Extracted([RawBlock("great stay", "March 1, 2024"), RawBlock("", "April 2, 2024")],
                      Some(Date(2024, 3, 1)), Some(Date(2024, 3, 31)))
         == [ReviewRecord("great stay", "March 1, 2024")]
  {
    var start, end := Some(Date(2024, 3, 1)), Some(Date(2024, 3, 31));
    var first, second := RawBlock("great stay", "March 1, 2024"), RawBlock("", "April 2, 2024");
    MarchFirstBlock();
    assert !Keeps(second, start, end);
    SelectedPair(first, second, b => Keeps(b, start, end));
  }

  /** The dated block of the example is kept with its date text. */
  lemma MarchFirstBlock()
    ensures Keeps(RawBlock("great stay", "March 1, 2024"), Some(Date(2024, 3, 1)), Some(Date(2024, 3, 31)))
    ensures RecordOf(RawBlock("great stay", "March 1, 2024")) == ReviewRecord("great stay", "March 1, 2024")
  {
    MarchStatusLine();
    TrimUnchanged("great stay");
  }

  lemma FormatMarch1()
    ensures FormatReviewDate(Date(2024, 3, 1)) == "March 1, 2024"
  {
    assert NatToString(1) == "1";
    assert ZeroPad(2024, 4) == "2024";
  }

  /** The status line "March 1, 2024" is matched whole and read as that date. */
  lemma MarchStatusLine()
    ensures ReviewDateOf("March 1, 2024") == Some(Date(2024, 3, 1))
    ensures MatchedDateText("March 1, 2024") == "March 1, 2024"
  {
    FormatMarch1();
    MonthPattern.SearchFindsFormattedDate(Date(2024, 3, 1));
    ParseReviewDateRoundTrip(Date(2024, 3, 1));
  }
}
