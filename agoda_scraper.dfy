/**
 * `scrape_reviews_from_agoda`: the output path, the date bounds, and the
 * per-hotel loop that appends one CSV row per review to the output file, writing
 * the header only when the file did not exist. The file is a value held by an
 * object the loop updates in place.
 */
module AgodaScraper {
  import opened Wrappers
  import opened Text
  import opened Dates
  import opened ReviewExtractor
  import SearchNavigator
  import HotelDiscovery

  // ---------------------------------------------------------------------------
  // Output path and date bounds.
  // ---------------------------------------------------------------------------

  /** `city.lower().replace(" ", "_")`. */
  function CitySlug(city: string): (r: string)
    ensures |r| == |city|
    ensures forall k :: 0 <= k < |r| ==> r[k] != ' ' && !('A' <= r[k] <= 'Z')
  {
    ReplaceChar(Lower(city), ' ', '_')
  }

  lemma CitySlugIdempotent(city: string)
    ensures CitySlug(CitySlug(city)) == CitySlug(city)
  {
  }

  function OutputPath(city: string): string {
    "output/agoda_" + CitySlug(city) + "_hotel_reviews.csv"
  }

  /** One bound as the scraper reads it: absent or empty means no bound, otherwise
      "%d-%m-%Y", whose failure raises before any browser work. */
  function ScraperBound(arg: Option<string>): Result<Option<Date>, string> {
    if arg.None? || arg.value == [] then Ok(None)
    else match ParseDMY(arg.value)
      case Some(d) => Ok(Some(d))
      case None => Err("ValueError")
  }

  /** Both bounds; the start is read first. */
  function ScraperBounds(startArg: Option<string>, endArg: Option<string>): Result<(Option<Date>, Option<Date>), string> {
    match ScraperBound(startArg)
    case Err(e) => Err(e)
    case Ok(s) =>
      match ScraperBound(endArg)
      case Err(e) => Err(e)
      case Ok(e) => Ok((s, e))
  }

  /** No bound and an empty bound filter nothing. A day written by
      `strftime("%d-%m-%Y")` is read back as that day when its year has four
      digits, and raises when the unpadded year is shorter. */
  lemma ScraperBoundOfFormatted(d: Date)
    requires ValidDate(d)
    ensures ScraperBound(None) == Ok(None) && ScraperBound(Some([])) == Ok(None)
    ensures d.year >= 1000 ==> ScraperBound(Some(FormatDMY(d))) == Ok(Some(d))
    ensures d.year < 1000 ==> ScraperBound(Some(FormatDMY(d))).Err?
  {
    ParseDMYRoundTrip(d);
  }

  /** The run goes ahead exactly when both bounds read, and then with both of them.
      The start is read first, so its error is the one raised when both are bad. */
  lemma ScraperBoundsReadBoth(startArg: Option<string>, endArg: Option<string>)
    ensures ScraperBounds(startArg, endArg).Ok? <==> ScraperBound(startArg).Ok? && ScraperBound(endArg).Ok?
    ensures ScraperBounds(startArg, endArg).Ok? ==>
      ScraperBounds(startArg, endArg).value == (ScraperBound(startArg).value, ScraperBound(endArg).value)
    ensures ScraperBound(startArg).Err? ==> ScraperBounds(startArg, endArg) == Err(ScraperBound(startArg).error)
    ensures ScraperBound(startArg).Ok? && ScraperBound(endArg).Err? ==>
      ScraperBounds(startArg, endArg) == Err(ScraperBound(endArg).error)
  {
  }

  // ---------------------------------------------------------------------------
  // The output file.
  // ---------------------------------------------------------------------------

  /** One CSV row, the fields in `fieldnames` order. */
  datatype Row = Row(city: string, hotelName: string, hotelId: string, rating: string, review: string, reviewDate: string)

  datatype Line = Header | Record(row: Row)

  function Records(rows: seq<Row>): seq<Line> {
    seq(|rows|, k requires 0 <= k < |rows| => Record(rows[k]))
  }

  /** The content after opening in append mode, writing the header when the file
      did not exist, and writing `rows`. */
  function Appended(fileExists: bool, lines: seq<Line>, rows: seq<Row>): seq<Line> {
    lines + (if fileExists then [] else [Header]) + Records(rows)
  }

  /** The file after a run that writes `rows` in one or more appends, none of them
      empty, starting from `lines`. */
  function AfterRun(fileExists: bool, lines: seq<Line>, rows: seq<Row>): seq<Line> {
    lines + (if !fileExists && rows != [] then [Header] else []) + Records(rows)
  }

  /** A further non-empty append extends a run. */
  lemma AfterRunAppend(fileExists: bool, lines: seq<Line>, a: seq<Row>, b: seq<Row>)
    ensures AfterRun(fileExists, lines, a + b) ==
      if b == [] then AfterRun(fileExists, lines, a)
      else Appended(fileExists || a != [], AfterRun(fileExists, lines, a), b)
  {
    RecordsAppend(a, b);
    if b == [] {
      assert a + b == a;
    }
  }

  /** The state after a run, advanced by one more hotel's rows. */
  lemma AfterRunStep(onDisk0: bool, lines0: seq<Line>, before: seq<Row>, added: seq<Row>,
                     onDisk1: bool, lines1: seq<Line>, onDisk2: bool, lines2: seq<Line>)
    requires onDisk1 == (onDisk0 || before != []) && lines1 == AfterRun(onDisk0, lines0, before)
    requires onDisk2 == (onDisk1 || added != [])
    requires lines2 == if added == [] then lines1 else Appended(onDisk1, lines1, added)
    ensures onDisk2 == (onDisk0 || before + added != [])
    ensures lines2 == AfterRun(onDisk0, lines0, before + added)
  {
    AfterRunAppend(onDisk0, lines0, before, added);
  }

  /** A header, then only records. */
  predicate WellFormed(lines: seq<Line>) {
    lines == [] || (lines[0] == Header && forall k :: 0 < k < |lines| ==> lines[k].Record?)
  }

  /** The rows come after what was there, in order, and a header comes first
      exactly when the file did not exist. */
  lemma AppendedShape(fileExists: bool, lines: seq<Line>, rows: seq<Row>)
    ensures var a := Appended(fileExists, lines, rows);
      && |a| == |lines| + (if fileExists then 0 else 1) + |rows|
      && a[..|lines|] == lines
      && (!fileExists ==> a[|lines|] == Header)
      && forall k :: 0 <= k < |rows| ==> a[|a| - |rows| + k] == Record(rows[k])
    ensures multiset(Appended(fileExists, lines, rows))[Header] == multiset(lines)[Header] + (if fileExists then 0 else 1)
  {
    var extra := (if fileExists then [] else [Header]) + Records(rows);
    assert Appended(fileExists, lines, rows) == lines + extra;
    assert multiset(Records(rows))[Header] == 0 by {
      assert Header !in Records(rows);
    }
  }

  /** Appending to a file that exists exactly when it has content keeps it a header
      followed by records. */
  lemma AppendedWellFormed(fileExists: bool, lines: seq<Line>, rows: seq<Row>)
    requires fileExists <==> lines != []
    requires WellFormed(lines)
    ensures WellFormed(Appended(fileExists, lines, rows))
  {
    var a := Appended(fileExists, lines, rows);
    forall k | 0 < k < |a|
      ensures a[k].Record?
    {
      if k >= |lines| + (if fileExists then 0 else 1) {
        assert a[k] == Records(rows)[k - |lines| - (if fileExists then 0 else 1)];
      } else {
        assert a[k] == lines[k];
      }
    }
  }

  lemma RecordsAppend(a: seq<Row>, b: seq<Row>)
    ensures Records(a + b) == Records(a) + Records(b)
  {
  }

  /** The output CSV file: whether it exists on disk and its lines. */
  class CsvFile {
    const path: string
    var onDisk: bool
    var lines: seq<Line>

    constructor (path: string, onDisk: bool, lines: seq<Line>)
      ensures this.path == path && this.onDisk == onDisk && this.lines == lines
    {
      this.path := path;
      this.onDisk := onDisk;
      this.lines := lines;
    }

    /** `open(output_file, "a")`, the header when the file was absent, then the rows. */
    method AppendRows(rows: seq<Row>)
      modifies this
      ensures onDisk
      ensures lines == Appended(old(onDisk), old(lines), rows)
    {
      var fileExists := onDisk;
      onDisk := true;
      if !fileExists {
        lines := lines + [Header];
      }
      lines := lines + Records(rows);
    }
  }

  // ---------------------------------------------------------------------------
  // The per-hotel loop.
  // ---------------------------------------------------------------------------

  const MaxHotels: nat := 5

  /** What opening a hotel link yields: an exception (caught and logged), or the
      header name and rating texts (None when the element is missing) and the
      review blocks of the loaded feed. */
  datatype HotelVisit =
    | Failed
    | Visited(nameText: Option<string>, ratingText: Option<string>, blocks: seq<RawBlock>)

  /** The name field: the stripped header text, or "Hotel #<i+1>". */
  function HotelName(v: HotelVisit, i: nat): string
    requires v.Visited?
  {
    if v.nameText.Some? then Trim(v.nameText.value) else "Hotel #" + NatToString(i + 1)
  }

  /** The rating field: the stripped rating text, or "N/A". */
  function HotelRating(v: HotelVisit): string
    requires v.Visited?
  {
    if v.ratingText.Some? then Trim(v.ratingText.value) else "N/A"
  }

  /** One row per review, in order, each review stripped again. */
  function RowsFor(city: string, name: string, id: string, rating: string, reviews: seq<ReviewRecord>): (r: seq<Row>)
    ensures |r| == |reviews|
  {
    seq(|reviews|, k requires 0 <= k < |reviews| => Row(city, name, id, rating, Trim(reviews[k].review), reviews[k].reviewDate))
  }

  /** The reviews saved for a visited hotel: the feed filtered by the bounds. */
  function HotelReviews(v: HotelVisit, start: Option<Date>, end: Option<Date>): seq<ReviewRecord> {
    if v.Failed? then [] else Extracted(v.blocks, start, end)
  }

  /** The reviews saved as the code is written: the filtered result is replaced by
      a second extraction without bounds before the rows are built. */
  function HotelReviewsAsWritten(v: HotelVisit, start: Option<Date>, end: Option<Date>): seq<ReviewRecord> {
    if v.Failed? then [] else Extracted(v.blocks, None, None)
  }

  /** Which reviews a hotel's rows are built from: those of the second, unbounded
      scrape the code as written saves, or the date-filtered ones of the first. */
  datatype Variant = AsWritten | Corrected

  function SavedReviews(variant: Variant, v: HotelVisit, start: Option<Date>, end: Option<Date>): seq<ReviewRecord> {
    if variant.AsWritten? then HotelReviewsAsWritten(v, start, end) else HotelReviews(v, start, end)
  }

  function HotelRows(variant: Variant, city: string, i: nat, id: string, v: HotelVisit, start: Option<Date>, end: Option<Date>): seq<Row> {
    if v.Failed? then [] else RowsFor(city, HotelName(v, i), id, HotelRating(v), SavedReviews(variant, v, start, end))
  }

  /** How many links are processed: `hotel_links[:5]`. */
  function Processed(links: seq<string>): (n: nat)
    ensures n <= |links| && n <= MaxHotels
    ensures n == |links| || n == MaxHotels
  {
    if |links| < MaxHotels then |links| else MaxHotels
  }

  /** The rows written for the first `n` hotels, in hotel order. */
  function RunRows(variant: Variant, city: string, links: seq<string>, ids: seq<string>, visit: string -> HotelVisit,
                   start: Option<Date>, end: Option<Date>, n: nat): seq<Row>
    requires n <= |links| == |ids|
  {
    if n == 0 then []
    else
      RunRows(variant, city, links, ids, visit, start, end, n - 1)
        + HotelRows(variant, city, n - 1, ids[n - 1], visit(links[n - 1]), start, end)
  }

  /** The body of the loop for hotel `i`: extract with the bounds, name, rate,
      extract again without bounds in the code as written, and append the rows
      when there is at least one review. */
  method SaveHotel(file: CsvFile, variant: Variant, city: string, i: nat, id: string, v: HotelVisit, start: Option<Date>, end: Option<Date>)
    modifies file
    ensures var rows := HotelRows(variant, city, i, id, v, start, end);
      && file.onDisk == (old(file.onDisk) || rows != [])
      && file.lines == (if rows == [] then old(file.lines) else Appended(old(file.onDisk), old(file.lines), rows))
  {
    if v.Visited? {
      var reviews := ExtractReviews(v.blocks, start, end);
      var hotelName := if v.nameText.Some? then Trim(v.nameText.value) else "Hotel #" + NatToString(i + 1);
      var hotelRating := if v.ratingText.Some? then Trim(v.ratingText.value) else "N/A";
      if variant.AsWritten? {
        reviews := ExtractReviews(v.blocks, None, None);
      }
      if reviews != [] {
        file.AppendRows(RowsFor(city, hotelName, id, hotelRating, reviews));
      }
    }
  }

  /** The loop over `hotel_links[:5]`. `visit` gives what each link's page yields. */
  method ProcessHotels(file: CsvFile, variant: Variant, city: string, links: seq<string>, ids: seq<string>,
                       visit: string -> HotelVisit, start: Option<Date>, end: Option<Date>)
    requires |links| == |ids|
    modifies file
    ensures var rows := RunRows(variant, city, links, ids, visit, start, end, Processed(links));
      && file.onDisk == (old(file.onDisk) || rows != [])
      && file.lines == AfterRun(old(file.onDisk), old(file.lines), rows)
  {
    ghost var onDisk0, lines0 := file.onDisk, file.lines;
    for i := 0 to Processed(links)
      invariant RunSoFar(file.onDisk, file.lines, onDisk0, lines0, RunRows(variant, city, links, ids, visit, start, end, i))
    {
      SaveNext(file, variant, city, links, ids, visit, start, end, i, onDisk0, lines0);
    }
  }

  /** The file after a run that started from `onDisk0` and `lines0` and produced `rows`. */
  ghost predicate RunSoFar(onDisk: bool, lines: seq<Line>, onDisk0: bool, lines0: seq<Line>, rows: seq<Row>) {
    onDisk == (onDisk0 || rows != []) && lines == AfterRun(onDisk0, lines0, rows)
  }

  /** Hotel `i` saved after the hotels before it. */
  method SaveNext(file: CsvFile, variant: Variant, city: string, links: seq<string>, ids: seq<string>,
                  visit: string -> HotelVisit, start: Option<Date>, end: Option<Date>, i: nat,
                  ghost onDisk0: bool, ghost lines0: seq<Line>)
    requires i < |links| == |ids|
    requires RunSoFar(file.onDisk, file.lines, onDisk0, lines0, RunRows(variant, city, links, ids, visit, start, end, i))
    modifies file
    ensures RunSoFar(file.onDisk, file.lines, onDisk0, lines0, RunRows(variant, city, links, ids, visit, start, end, i + 1))
  {
    ghost var before := RunRows(variant, city, links, ids, visit, start, end, i);
    ghost var added := HotelRows(variant, city, i, ids[i], visit(links[i]), start, end);
    ghost var onDisk1, lines1 := file.onDisk, file.lines;
    SaveHotel(file, variant, city, i, ids[i], visit(links[i]), start, end);
    AfterRunStep(onDisk0, lines0, before, added, onDisk1, lines1, file.onDisk, file.lines);
  }

  // ---------------------------------------------------------------------------
  // The run.
  // ---------------------------------------------------------------------------

  /** `scrape_reviews_from_agoda` after the browser is open: a bad bound raises before
      anything is written; otherwise the results tab is chosen, the star filter is
      tried on it (its failure is only logged), the hotel links are collected from
      that tab's result pages and the first five hotels are processed. `starPage(t)`
      and `resultPages(t)` are what tab `t` offers. */
  method ScrapeReviewsFromAgoda(file: CsvFile, variant: Variant, city: string, starRating: int,
                                startArg: Option<string>, endArg: Option<string>,
                                tabs: seq<SearchNavigator.Tab>, starPage: nat -> string -> SearchNavigator.Probe,
                                resultPages: nat -> seq<seq<HotelDiscovery.HotelItem>>, visit: string -> HotelVisit)
    returns (ok: bool)
    requires |tabs| > 0
    requires file.path == OutputPath(city)
    modifies file
    ensures ok <==> ScraperBounds(startArg, endArg).Ok?
    ensures !ok ==> file.onDisk == old(file.onDisk) && file.lines == old(file.lines)
    ensures ok ==>
      var bounds := ScraperBounds(startArg, endArg).value;
      var found := HotelDiscovery.Discover(HotelDiscovery.Flatten(resultPages(SearchNavigator.ResultsTab(tabs))));
      |found.links| == |found.ids| &&
      var rows := RunRows(variant, city, found.links, found.ids, visit, bounds.0, bounds.1, Processed(found.links));
      && file.onDisk == (old(file.onDisk) || rows != [])
      && file.lines == AfterRun(old(file.onDisk), old(file.lines), rows)
  {
    var bounds := ScraperBounds(startArg, endArg);
    if bounds.Err? {
      return false;
    }
    var hotelTab := SearchNavigator.GetHotelResultsPage(tabs);
    var applied, clicks := SearchNavigator.ApplyStarRatingFilter(starPage(hotelTab), starRating);
    var hotelLinks, hotelIds := HotelDiscovery.DiscoverHotels(resultPages(hotelTab));
    HotelDiscovery.DiscoverLengths(HotelDiscovery.Flatten(resultPages(hotelTab)));
    ProcessHotels(file, variant, city, hotelLinks, hotelIds, visit, bounds.value.0, bounds.value.1);
    ok := true;
  }

  // ---------------------------------------------------------------------------
  // What the run writes.
  // ---------------------------------------------------------------------------

  /** Each row of a hotel carries the city and the hotel's id, and stems from one of
      the hotel's saved reviews. */
  lemma HotelRowsFields(variant: Variant, city: string, i: nat, id: string, v: HotelVisit, start: Option<Date>, end: Option<Date>)
    ensures forall r :: r in HotelRows(variant, city, i, id, v, start, end) ==>
      && r.city == city && r.hotelId == id
      && exists rec :: rec in SavedReviews(variant, v, start, end) && r.review == Trim(rec.review) && r.reviewDate == rec.reviewDate
  {
    var rows, reviews := HotelRows(variant, city, i, id, v, start, end), SavedReviews(variant, v, start, end);
    forall r | r in rows
      ensures r.city == city && r.hotelId == id
      ensures exists rec :: rec in reviews && r.review == Trim(rec.review) && r.reviewDate == rec.reviewDate
    {
      var k :| 0 <= k < |rows| && rows[k] == r;
      assert reviews[k] in reviews;
    }
  }

  /** Every row written belongs to one of the first `n` hotels. */
  lemma {:induction false} RunRowsFromProcessedHotels(variant: Variant, city: string, links: seq<string>, ids: seq<string>,
                                                     visit: string -> HotelVisit, start: Option<Date>, end: Option<Date>, n: nat)
    requires n <= |links| == |ids|
    ensures forall r :: r in RunRows(variant, city, links, ids, visit, start, end, n) ==>
      exists i :: 0 <= i < n && r in HotelRows(variant, city, i, ids[i], visit(links[i]), start, end)
  {
    if n > 0 {
      RunRowsFromProcessedHotels(variant, city, links, ids, visit, start, end, n - 1);
      var before := RunRows(variant, city, links, ids, visit, start, end, n - 1);
      var last := HotelRows(variant, city, n - 1, ids[n - 1], visit(links[n - 1]), start, end);
      assert RunRows(variant, city, links, ids, visit, start, end, n) == before + last;
      forall r | r in before + last
        ensures exists i :: 0 <= i < n && r in HotelRows(variant, city, i, ids[i], visit(links[i]), start, end)
      {
        if r !in before {
          assert r in last;
        }
      }
    }
  }

  /** The row count is the number of saved reviews over the processed hotels. */
  lemma {:induction false} RunRowsCount(variant: Variant, city: string, links: seq<string>, ids: seq<string>,
                                        visit: string -> HotelVisit, start: Option<Date>, end: Option<Date>, n: nat)
    requires n <= |links| == |ids|
    ensures |RunRows(variant, city, links, ids, visit, start, end, n)| == ReviewTotal(variant, links, visit, start, end, n)
  {
    if n > 0 {
      RunRowsCount(variant, city, links, ids, visit, start, end, n - 1);
    }
  }

  function ReviewTotal(variant: Variant, links: seq<string>, visit: string -> HotelVisit, start: Option<Date>, end: Option<Date>, n: nat): nat
    requires n <= |links|
  {
    if n == 0 then 0 else ReviewTotal(variant, links, visit, start, end, n - 1) + |SavedReviews(variant, visit(links[n - 1]), start, end)|
  }

  /** When no processed hotel yields a review, nothing is written at all. */
  lemma NoReviewsNoRows(variant: Variant, city: string, links: seq<string>, ids: seq<string>,
                        visit: string -> HotelVisit, start: Option<Date>, end: Option<Date>, n: nat)
    requires n <= |links| == |ids|
    requires forall i :: 0 <= i < n ==> SavedReviews(variant, visit(links[i]), start, end) == []
    ensures RunRows(variant, city, links, ids, visit, start, end, n) == []
  {
    RunRowsCount(variant, city, links, ids, visit, start, end, n);
    NoReviewsZeroTotal(variant, links, visit, start, end, n);
  }

  lemma {:induction false} NoReviewsZeroTotal(variant: Variant, links: seq<string>, visit: string -> HotelVisit,
                                              start: Option<Date>, end: Option<Date>, n: nat)
    requires n <= |links|
    requires forall i :: 0 <= i < n ==> SavedReviews(variant, visit(links[i]), start, end) == []
    ensures ReviewTotal(variant, links, visit, start, end, n) == 0
  {
    if n > 0 {
      NoReviewsZeroTotal(variant, links, visit, start, end, n - 1);
    }
  }

  /** A run that starts without the file leaves a header followed by exactly the
      rows, or no file at all when there are no rows. */
  lemma FreshFileShape(rows: seq<Row>)
    ensures var lines := (if rows != [] then [Header] else []) + Records(rows);
      && WellFormed(lines)
      && multiset(lines)[Header] == (if rows == [] then 0 else 1)
  {
    if rows != [] {
      AppendedWellFormed(false, [], rows);
      AppendedShape(false, [], rows);
      assert Appended(false, [], rows) == [Header] + Records(rows);
    }
  }

  /** Under a bound, the k-th saved review comes from the k-th kept block, whose
      date parses and lies in the range. */
  lemma HotelReviewsRespectRange(v: HotelVisit, start: Option<Date>, end: Option<Date>)
    requires Filtering(start, end)
    requires v.Visited?
    ensures var idx := KeptIndices(v.blocks, start, end);
      && |idx| == |HotelReviews(v, start, end)|
      && forall k :: 0 <= k < |idx| ==>
           && idx[k] < |v.blocks|
           && HotelReviews(v, start, end)[k] == RecordOf(v.blocks[idx[k]])
           && ReviewDateOf(v.blocks[idx[k]].dateRaw).Some?
           && InRange(ReviewDateOf(v.blocks[idx[k]].dateRaw), start, end)
  {
    ExtractedIsOrderedSubsequence(v.blocks, start, end);
    KeptRespectRange(v.blocks, start, end);
  }

  /** The block of the finding below. */
  lemma OldStayBlock()
    ensures Keeps(RawBlock("old stay", "March 1, 2024"), None, None)
    ensures !Keeps(RawBlock("old stay", "March 1, 2024"), Some(Date(2024, 4, 1)), None)
    ensures RecordOf(RawBlock("old stay", "March 1, 2024")) == ReviewRecord("old stay", "March 1, 2024")
  {
    MarchStatusLine();
    TrimUnchanged("old stay");
  }

  /** The code as written saves a review dated March 1, 2024 although the start
      bound is April 1, 2024. */
  lemma DuplicateScrapeIgnoresBounds()
    ensures HotelReviewsAsWritten(Visited(None, None, [RawBlock("old stay", "March 1, 2024")]), Some(Date(2024, 4, 1)), None)
      == [ReviewRecord("old stay", "March 1, 2024")]
  {
    OldStayBlock();
    ExtractedSingle(RawBlock("old stay", "March 1, 2024"), None, None);
  }

  /** As written, a run writes the rows of the unbounded extraction whatever the
      bounds: the file it leaves is the one a corrected run without bounds leaves. */
  lemma {:induction false} AsWrittenRunIgnoresBounds(city: string, links: seq<string>, ids: seq<string>,
                                                     visit: string -> HotelVisit, start: Option<Date>, end: Option<Date>, n: nat)
    requires n <= |links| == |ids|
    ensures RunRows(AsWritten, city, links, ids, visit, start, end, n) == RunRows(Corrected, city, links, ids, visit, None, None, n)
  {
    if n > 0 {
      AsWrittenRunIgnoresBounds(city, links, ids, visit, start, end, n - 1);
    }
  }

  /** The filtered extraction drops that review. */
  lemma FilteredScrapeDropsOldReview()
    ensures HotelReviews(Visited(None, None, [RawBlock("old stay", "March 1, 2024")]), Some(Date(2024, 4, 1)), None) == []
  {
    OldStayBlock();
    ExtractedSingle(RawBlock("old stay", "March 1, 2024"), Some(Date(2024, 4, 1)), None);
  }
}
