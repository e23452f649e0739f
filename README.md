# review-automation, modelled in Dafny

This project models the decision logic of review-automation. That tool has three parts:

- a Playwright scraper that collects hotel reviews from Agoda into a CSV file;
- a keyword classifier that labels each sentence of those reviews, with the sentences fed to a sentiment model in batches;
- a small Flask front end that turns the form's dates into the scraper's date bounds and links each scrape to its analysis.

The browser, the HTML parser, the page's own JavaScript and the ML model are all replaced by inputs. Each becomes a value the model is given:

- the review counts and "show more" buttons each read of the page sees;
- the tabs of the browser context;
- the star-filter selectors' outcomes;
- the hotel items on each result page;
- the raw review blocks of each hotel page.

Modules, one per component:

- `Wrappers`: `Option` and `Result`.
- `Text`: the Python string operations the code relies on, such as `strip`, `split()`, `lower`, `in` and `str(int)`.
- `Dates`: `datetime` days and their order. It covers `parse_review_date` ("%B %d, %Y"), `is_date_in_range`, and the "%d-%m-%Y" and "%Y-%m-%d" formats.
- `MonthPattern`: the month-date regular expression that `scrape_all_reviews` looks for.
- `ReviewLoader`: `click_show_more_until_2500`.
- `ReviewExtractor`: the extraction loop of `scrape_all_reviews`.
- `SearchNavigator`: `apply_star_rating_filter` and `get_hotel_results_page`.
- `HotelDiscovery`: the loop that collects the `hotel_links` and `hotel_ids` lists.
- `AgodaScraper`: the output path, the date bounds, and the per-hotel loop. That loop appends rows to the CSV file, which is a `CsvFile` object updated in place.
- `Classifier`: `classify_sentence`.
- `SentimentBatching`: the sentence split and batching loop of `run_sentiment_analysis`, and the rows `process_batch` writes.
- `WebApp`: the date conversion and city slug of `main.py`.

## Model

| member | source | states |
|---|---|---|
| `Dates.InRangeByOrdinal` | module/scraper.py:18-25 | A date is in range exactly when no present bound excludes it: the start is at most the date, the date is at most the end, both inclusive, compared by day number. |
| `Dates.InRange` | module/scraper.py:18-25 | `is_date_in_range`: False for a missing date, otherwise no present bound may exclude the date. Its meaning in day numbers is `Dates.InRangeByOrdinal`. |
| `Dates.BeforeIffOrdinalLess` | module/scraper.py:21-23 | The `<` of two datetimes (lexicographic on year, month, day) agrees with the order of their proleptic Gregorian day numbers. |
| `Dates.ParseReviewDateRoundTrip` | module/scraper.py:11-15 | Every real day written the way the site writes it ("March 1, 2024") parses back to that day. |
| `Dates.ParseReviewDateRejectsImpossibleDay` | module/scraper.py:11-15 | A well-formed "Month D, YYYY" whose day the month lacks is rejected (None), not rolled over. |
| `Dates.ParseReviewDateAccepts` | module/scraper.py:11-15 | "August 14, 2023" parses to 14 August 2023. |

| `Dates.ParseReviewDateRejectsFebruary30` | module/scraper.py:11-15 | "February 30, 2023" gives None. |
| `Dates.ParseReviewDateRejectsText` | module/scraper.py:11-15 | "%B" reads a month name at the front: a date the parse returns has a month whose name the string begins with. A string that begins with none of the twelve names gives None. |
| `Dates.NoDateHereRejected` | module/scraper.py:11-15 | "no date here" gives None. |
| `Dates.ParseDayCommaYear` | module/scraper.py:13 | A date it returns is a real day of the month whose name was read. |
| `Dates.ParseReviewDate` | module/scraper.py:11-15 | `parse_review_date`: a date it returns is a real day. What it accepts and refuses is stated by the `ParseReviewDate*` lemmas. |
| `Dates.MakeDate` | module/scraper.py:13 | strptime's last step: for fields in the ranges the directives read (year 0 to 9999, month 1 to 12, day 1 to 31), it fails exactly for year 0 or a day past the month's length. A day it returns has the given year, month and day. |
| `Dates.MonthPrefixOf` | module/scraper.py:13 | A string that begins with a month's full name is read as that month, with the rest of the string left over; one month's name never reads as an earlier month. |
| `Dates.ParseDMYRoundTrip` | module/scraper.py:221-224 | What `strftime("%d-%m-%Y")` writes for a real day with a four-digit year, `strptime(..., "%d-%m-%Y")` reads back as the same day. glibc writes a year below 1000 without padding, and that string is refused. |
| `Dates.ParseDMY` | module/scraper.py:221-224 | `strptime(..., "%d-%m-%Y")`: a date it returns is a real day. Its inverse is `Dates.ParseDMYRoundTrip`. |
| `Dates.FormatDMY` | main.py:31 | `strftime("%d-%m-%Y")` as glibc writes it: two-digit day and month, the year without padding. Read back by `Dates.ParseDMYRoundTrip`. |
| `Dates.ParseYMDRoundTrip` | main.py:30 | A "YYYY-MM-DD" string naming a real day parses to that day. |
| `Dates.ParseYMD` | main.py:30 | `strptime(..., "%Y-%m-%d")`: a date it returns is a real day. Its inverse is `Dates.ParseYMDRoundTrip`. |
| `MonthPattern.SearchFromLeftmost` | module/scraper.py:122-125 | The search from a position returns the leftmost position where the month-date pattern matches, with that match's end. "No result" means no position matches. |
| `MonthPattern.MatchAt` | module/scraper.py:123 | Where the pattern matches at a position, the match ends inside the string after that position. Its shape on formatted dates is `MonthPattern.FormattedDateMatchesWhole`. |
| `MonthPattern.Search` | module/scraper.py:122-125 | `re.search` with this pattern; specified by `MonthPattern.SearchMatches` and `MonthPattern.SearchFromLeftmost`. |
| `MonthPattern.SearchMatches` | module/scraper.py:122-127 | `match.group(0)` is a substring of the status text at which the pattern matches. The search finds nothing exactly when the pattern matches nowhere. |
| `MonthPattern.SkipSpaces` | module/scraper.py:123 | The whitespace run of the pattern: skips exactly the whitespace and stops at the first non-space. |
| `MonthPattern.FormattedDateMatchesWhole` | module/scraper.py:123 | A date written the way the site writes it matches the pattern as a whole. |
| `MonthPattern.SearchFindsFormattedDate` | module/scraper.py:122-127 | A status text that is exactly a formatted date is its own match. |
| `ReviewLoader.ClickShowMoreUntil` | module/scraper.py:28-59 | The loop makes at most 50 clicks. Each click follows a read below the target, different from the previous read and with a button present. It stops at the first read that reaches the target, equals the previous read (0 before the first read), or finds no button, or else at the cap. |
| `ReviewLoader.OutcomeIsRun` | module/scraper.py:28-59 | Every outcome the loop can reach is the one the recursive account of the loop gives. |
| `ReviewLoader.Run` | module/scraper.py:28-59 | The recursive account of the loop from attempt `k`. The loop's outcome equals it, by `ReviewLoader.OutcomeIsRun`. |
| `ReviewLoader.LoadOutcomeUnique` | module/scraper.py:28-59 | The loop is deterministic: one page gives one click count and one exit reason. |
| `ReviewLoader.EmptyPageStopsAtOnce` | module/scraper.py:40-42 | A page with no reviews stops at the first read with no click, because the count equals the initial `last_count` of 0. |
| `ReviewLoader.ConstantCountStallsAfterOneClick` | module/scraper.py:40-50 | A feed that never grows is clicked exactly once and then stops as stalled. |
| `ReviewLoader.GrowingFeedStopsAtTarget` | module/scraper.py:33-38 | A feed that grows on every click stops at the first read that reaches the target, after that many clicks. |
| `ReviewExtractor.ReadReviewDate` | module/scraper.py:118-128 | The date string is the pattern's match, or "" when the status is empty or there is no match. The date is the parse of that match, or None. |
| `ReviewExtractor.MatchedDateText` | module/scraper.py:119-127 | `review_date_str`: the match of a non-empty status, or "". Specified by `ReviewExtractor.RecordDateIsMatch`. |
| `ReviewExtractor.ReviewDateOf` | module/scraper.py:118-128 | `review_date`: the parse of the match, or None. Specified by `ReviewExtractor.ReadReviewDate` and `ReviewExtractor.UnparsableDateKeptOnlyUnfiltered`. |
| `ReviewExtractor.ExtractReviews` | module/scraper.py:113-141 | The loop returns exactly the records of the filter `Extracted`, in block order. |
| `ReviewExtractor.Extracted` | module/scraper.py:113-141 | The records the loop keeps, in block order. Specified by `ReviewExtractor.ExtractedIsOrderedSubsequence` and `ReviewExtractor.ExtractedTextsStripped`. |
| `ReviewExtractor.ScrapeAllReviews` | module/scraper.py:62-141 | Loads the feed as the loader does, asks for "most recent" sorting exactly when a bound is given, and returns the filtered records. |
| `ReviewExtractor.ExtractedIsOrderedSubsequence` | module/scraper.py:113-141 | The records are an order-preserving subsequence of the blocks: record `k` comes from block `idx[k]`, the indices increase, and a block is used exactly when it is kept. |
| `ReviewExtractor.KeepsExactly` | module/scraper.py:130-138 | With no bound, a block is kept exactly when its stripped text is non-empty. With a bound, it must also have a parsed date inside the range. |
| `ReviewExtractor.Keeps` | module/scraper.py:130-138 | The filter of the loop body. Its meaning is `ReviewExtractor.KeepsExactly`. |
| `ReviewExtractor.KeptRespectRange` | module/scraper.py:130-132 | When filtering, every kept block has a parsed date within the bounds. |
| `ReviewExtractor.ExtractedTextsStripped` | module/scraper.py:116-134 | Every record's text is non-empty and already stripped. |
| `ReviewExtractor.RecordDateIsMatch` | module/scraper.py:119-137 | A record's `review_date` is the leftmost match: the substring where the pattern first matches the raw status, and "" when it matches nowhere. |
| `ReviewExtractor.UnparsableDateKeptOnlyUnfiltered` | module/scraper.py:126-132 | A matched but unparsable date keeps its block, with the matched text, only when no bound is given. |
| `ReviewExtractor.NoDateDroppedWhenFiltering` | module/scraper.py:121-132 | A block without a date match is dropped whenever a bound is given. Otherwise it is kept with an empty `review_date` if it has text. |
| `ReviewExtractor.MarchExample` | module/scraper.py:113-141 | For March 2024 bounds, the block dated "March 1, 2024" is kept and the block with empty text is dropped. |
| `ReviewExtractor.MarchStatusLine` | module/scraper.py:122-128 | The status "March 1, 2024" yields that text and that day. |
| `SearchNavigator.StarSelectorsNameRating` | module/scraper.py:148-152 | Each of the three selectors names the star rating. |
| `SearchNavigator.TrySelectors` | module/scraper.py:154-163 | Applied exactly when some selector is present and its click succeeds. The clicks made are the present selectors, in list order, up to the first that succeeds. |
| `SearchNavigator.ApplyStarRatingFilter` | module/scraper.py:144-166 | Rating 0 is applied with no click. Otherwise the three selectors are tried in order. |
| `SearchNavigator.AttemptedClicksPresent` | module/scraper.py:155-157 | Only selectors that are present are clicked. |
| `SearchNavigator.AttemptedClicksFailedBeforeLast` | module/scraper.py:156-163 | Every click before the last one failed. |
| `SearchNavigator.AttemptedClicksLastDecides` | module/scraper.py:154-166 | The filter is applied exactly when a click was made and the last click went through. |
| `SearchNavigator.NoSelectorNoClick` | module/scraper.py:165-166 | With no selector present nothing is clicked and the result is False. |
| `SearchNavigator.FirstWhere` | module/scraper.py:181-202 | The first tab, in order, that satisfies the test, or none when no tab does. |
| `SearchNavigator.LastWhere` | module/scraper.py:204-206 | The last tab that satisfies the test, or none when no tab does. |
| `SearchNavigator.GetHotelResultsPage` | module/scraper.py:169-211 | Returns the tab `ResultsTab` chooses, always one of the context's tabs. |
| `SearchNavigator.ResultsTabShowsResults` | module/scraper.py:169-202 | When any of the three marker checks can succeed, the chosen tab shows hotel results. |
| `SearchNavigator.ResultsTabFallback` | module/scraper.py:204-211 | When no tab shows results, the choice is the last tab whose URL lacks "activities", or else the first tab. |
| `HotelDiscovery.AbsoluteLinkShape` | module/scraper.py:283-284 | A link not starting with "http" is prefixed with the site root; one that does is kept as is. |
| `HotelDiscovery.AbsoluteLinkIdempotent` | module/scraper.py:283-284 | Prefixing is idempotent. |
| `HotelDiscovery.DiscoverHotels` | module/scraper.py:265-306 | The pages' loop builds exactly the lists that `Discover` gives for all items of all pages, in page order. |
| `HotelDiscovery.Discover` | module/scraper.py:276-289 | The lists the loop builds from a sequence of items. Specified by `HotelDiscovery.DiscoverLinksOffered`, `HotelDiscovery.DiscoverNoDuplicates` and `HotelDiscovery.DiscoverFollowsFirstSeen`. |
| `HotelDiscovery.Step` | module/scraper.py:277-289 | One item's effect on the lists. Specified by `HotelDiscovery.VisitItem` and `HotelDiscovery.FirstSeenIffNew`. |
| `HotelDiscovery.VisitPage` | module/scraper.py:276-289 | Visiting one page extends the lists as `Discover` does for that page's items. |
| `HotelDiscovery.VisitItem` | module/scraper.py:277-289 | One item adds its link and its id exactly when it has a card with an href whose absolute form is new. |
| `HotelDiscovery.DiscoverLengths` | module/scraper.py:285-289 | `hotel_links` and `hotel_ids` always have the same length. |
| `HotelDiscovery.DiscoverNoDuplicates` | module/scraper.py:285 | `hotel_links` holds no link twice. |
| `HotelDiscovery.LinkCollected` | module/scraper.py:279-288 | Every link an item offers ends up in `hotel_links`. |
| `HotelDiscovery.LinkSource` | module/scraper.py:279-288 | Every collected link was offered by some item. |
| `HotelDiscovery.DiscoverLinksOffered` | module/scraper.py:276-289 | The collected links are exactly the links the items offer. |
| `HotelDiscovery.FirstSeenIffNew` | module/scraper.py:285 | An item adds its link exactly when no earlier item offered that link. |
| `HotelDiscovery.DiscoverFollowsFirstSeen` | module/scraper.py:276-289 | Link `k` and id `k` both come from the `k`-th item that offers a new link. The lists are in first-seen order and stay aligned. |
| `HotelDiscovery.FirstSeenIndicesIncreasing` | module/scraper.py:276-289 | The contributing items appear in increasing order. |
| `AgodaScraper.CitySlug` | module/scraper.py:217 | The slug has the city's length, with no space and no upper-case letter. |
| `AgodaScraper.CitySlugIdempotent` | module/scraper.py:217 | Sanitizing a slug again changes nothing. |
| `AgodaScraper.OutputPath` | module/scraper.py:218 | "output/agoda_<slug>_hotel_reviews.csv". The web front end reads the same path, by `WebApp.AnalysisReadsScraperOutput`. |
| `AgodaScraper.ScraperBoundOfFormatted` | module/scraper.py:221-224 | `ScraperBound` and `ScraperBounds` read the bounds: an absent or empty bound is no bound. A day written with "%d-%m-%Y" reads back as that day when its year has four digits, and raises when it is shorter. |
| `AgodaScraper.ScraperBoundsReadBoth` | module/scraper.py:221-224 | The run goes ahead exactly when both bounds read, and then with both. The start is read first, so its error is raised when both are bad. |
| `AgodaScraper.Processed` | module/scraper.py:310 | `hotel_links[:5]`: at most five, and all links when there are fewer than five. |
| `AgodaScraper.AppendedShape` | module/scraper.py:345-373 | Appending keeps the old lines and adds the header only when the file did not exist, then one record per row in order. |
| `AgodaScraper.AppendedWellFormed` | module/scraper.py:346-360 | Starting from a file that exists exactly when it has lines, the file keeps one header, at the top. |
| `AgodaScraper.CsvFile.constructor` | module/scraper.py:218 | The output file: its path, whether it exists, and its lines. |
| `AgodaScraper.CsvFile.AppendRows` | module/scraper.py:346-373 | One append under `open(..., "a")`: the header first when the file did not exist, then the rows. The file exists afterwards. |
| `AgodaScraper.SaveHotel` | module/scraper.py:317-378 | One hotel, in either variant: as written (`AsWritten`), the line-342 extraction without bounds replaces the filtered one; `Corrected` is the filtered save of the finding below. Nothing is written when no review is saved. Otherwise the rows are appended. |
| `AgodaScraper.SaveNext` | module/scraper.py:310-384 | One iteration of the hotel loop, in the chosen variant, keeps the file equal to the run so far, extended by this hotel's rows. |
| `AgodaScraper.ProcessHotels` | module/scraper.py:310-384 | After the loop over the first five links, in the chosen variant, the file holds the old lines followed by the run's rows. It has a header only if the file did not exist and some row was written. |
| `AgodaScraper.ScrapeReviewsFromAgoda` | module/scraper.py:214-387 | A bad bound raises before anything is written. Otherwise it chooses the results tab, tries the star filter on that tab, and collects the lists from that tab's result pages; the lists are aligned. The file ends as the run over the first five hotels leaves it, in the chosen variant. |
| `AgodaScraper.HotelRowsFields` | module/scraper.py:361-373 | Every row carries the city, the hotel's id, and the stripped text and date of one of the hotel's reviews. |
| `AgodaScraper.RunRowsFromProcessedHotels` | module/scraper.py:310-373 | Every row written comes from one of the processed hotels. |
| `AgodaScraper.RunRowsCount` | module/scraper.py:361-373 | One row per review: the run writes as many rows as the processed hotels have reviews. |
| `AgodaScraper.RunRows` | module/scraper.py:310-373 | The rows written for the first `n` hotels, in hotel order. Specified by `AgodaScraper.RunRowsCount`, `AgodaScraper.RunRowsFromProcessedHotels` and `AgodaScraper.AsWrittenRunIgnoresBounds`. |
| `AgodaScraper.AfterRun` | module/scraper.py:345-373 | The file after a run's appends. Its shape is `AgodaScraper.AppendedShape` and `AgodaScraper.FreshFileShape`. |
| `AgodaScraper.NoReviewsNoRows` | module/scraper.py:345-378 | Hotels without reviews write nothing. |
| `AgodaScraper.FreshFileShape` | module/scraper.py:346-360 | A run on a fresh file leaves exactly one header, or none when nothing was written. |
| `AgodaScraper.HotelReviewsRespectRange` | module/scraper.py:317-319 | With the date-filtered scrape, every review saved for a hotel has a parsed date within the bounds. |
| `AgodaScraper.HotelReviews` | module/scraper.py:317-319 | The corrected save: the date-filtered reviews. Specified by `AgodaScraper.HotelReviewsRespectRange`. |
| `AgodaScraper.HotelReviewsAsWritten` | module/scraper.py:317-342 | The save as written: the reviews of the extraction without bounds. Shown by `AgodaScraper.DuplicateScrapeIgnoresBounds`. |
| `AgodaScraper.DuplicateScrapeIgnoresBounds` | module/scraper.py:342 | As written, a review dated before the start bound is still saved. |
| `AgodaScraper.AsWrittenRunIgnoresBounds` | module/scraper.py:310-345 | As written, a whole run writes the same rows whatever the bounds: those of a corrected run without bounds. |
| `AgodaScraper.FilteredScrapeDropsOldReview` | module/scraper.py:317-319 | With the filtered scrape, the same review is dropped. |
| `Classifier.Collected` | module/sentiment_analysis.py:21-102 | The labels of the first `n` rules that fire: a label is present exactly when its rule fires, in increasing table order. |
| `Classifier.Fires` | module/sentiment_analysis.py:21-102 | Each rule's test, on the lower-cased sentence and its tokens. Specified by `Classifier.ClassifySentence` and the per-label lemmas below. |
| `Classifier.CodeInjective` | module/sentiment_analysis.py:21-102 | Different labels are written with different codes. |
| `Classifier.ClassifySentence` | module/sentiment_analysis.py:13-104 | A label is present exactly when its rule fires for the lower-cased sentence and its tokens. No label is present twice. |
| `Classifier.ClassifyIgnoresCase` | module/sentiment_analysis.py:14 | Classification is case-insensitive. |
| `Classifier.ValetParkingLabel` | module/sentiment_analysis.py:67-68 | "4h" is present exactly when "valet parking" occurs in the sentence. |
| `Classifier.PlainParkingLabel` | module/sentiment_analysis.py:71-72 | "4j" is present exactly when the token "parking" occurs and "valet parking" does not. |
| `Classifier.ParkingLabels` | module/sentiment_analysis.py:67-72 | "4h" and "4j" never come together. |
| `Classifier.BathtubLabels` | module/sentiment_analysis.py:29-30 | "2f_1" and "2f_2" come as a pair, and only with the token "bathtub". |
| `Classifier.ShowerLabel` | module/sentiment_analysis.py:27-28 | "2e_1" is present exactly when "shower" is a token. |
| `Classifier.LoneTokenShower` | module/sentiment_analysis.py:15-27 | A sentence of one lower-case token gets "2e_1" exactly when that token is "shower". |
| `Classifier.ShowerTokenLabelled` | module/sentiment_analysis.py:27-28 | "shower" gets "2e_1". |
| `Classifier.ShowersTokenUnlabelled` | module/sentiment_analysis.py:27-28 | "showers" does not. |
| `Classifier.ShowerDotTokenUnlabelled` | module/sentiment_analysis.py:15-27 | "shower." does not: word rules match whole tokens. |
| `SentimentBatching.SplitSentences` | module/sentiment_analysis.py:160 | The pieces contain no delimiter; there is at least one piece. |
| `SentimentBatching.SplitSentencesJoin` | module/sentiment_analysis.py:160 | `re.split(r'[.!?]')` is lossless: interleaving the pieces with the delimiters gives back the review. |
| `SentimentBatching.NonEmptyStrippedShape` | module/sentiment_analysis.py:162-163 | Every sentence gathered is non-empty and stripped. |
| `SentimentBatching.AllDataLength` | module/sentiment_analysis.py:163-168 | There is one data entry per gathered sentence. |
| `SentimentBatching.AllDataAligned` | module/sentiment_analysis.py:160-168 | Row `r`'s sentences form the block of positions from `SentencesBefore(r)` up to `SentencesBefore(r + 1)`. Each position `k` in that block holds sentence `k - SentencesBefore(r)` of row `r`'s review, beside row `r`'s hotel, rating and review. |
| `SentimentBatching.SentenceBlock` | module/sentiment_analysis.py:156-168 | Every gathered sentence lies in the block of some row. |
| `SentimentBatching.SentenceBlockUnique` | module/sentiment_analysis.py:156-168 | No sentence lies in the blocks of two rows. |
| `SentimentBatching.SentencesBeforeCounts` | module/sentiment_analysis.py:156-168 | The block of row `r` starts after all sentences of the rows before it. |
| `SentimentBatching.AllPrefix` | module/sentiment_analysis.py:156-168 | The sentences and data of the first `m` rows begin those of all rows: later rows only append. |
| `SentimentBatching.AllSentences` | module/sentiment_analysis.py:156-163 | The non-empty stripped pieces of all reviews. Shape by `SentimentBatching.NonEmptyStrippedShape`; positions by `SentimentBatching.AllDataAligned`. |
| `SentimentBatching.AllData` | module/sentiment_analysis.py:164-168 | The data entry beside each sentence. Length by `SentimentBatching.AllDataLength`; contents by `SentimentBatching.AllDataAligned`. |
| `SentimentBatching.WriteSentenceRows` | module/sentiment_analysis.py:116-132 | One sentence's inner loop writes one row per label, in label order. |
| `SentimentBatching.ProcessBatch` | module/sentiment_analysis.py:107-132 | The batch's loop over `zip` writes exactly `BatchRows`. |
| `SentimentBatching.SentenceRowsPerLabel` | module/sentiment_analysis.py:116-132 | A sentence yields exactly one row per label, carrying its stripped text and the label's code, and no row when it has no label. |
| `SentimentBatching.BatchRowsAppend` | module/sentiment_analysis.py:116-132 | The rows of two batches one after the other are the rows of their concatenation. |
| `SentimentBatching.RowsOfBatchesFlat` | module/sentiment_analysis.py:170-176 | Writing batch by batch gives the same rows as one batch holding everything. |
| `SentimentBatching.Gather` | module/sentiment_analysis.py:161-172 | The inner loop body keeps a non-empty stripped piece with its data. It hands the batch over when it reaches `batch_size`, so a pending batch stays below `batch_size`. |
| `SentimentBatching.HandOver` | module/sentiment_analysis.py:170-172 | A flush records the batch and writes its rows. |
| `SentimentBatching.GatherReview` | module/sentiment_analysis.py:156-172 | One review's pieces, in order, are added to the handed-over batches and the pending batch. |
| `SentimentBatching.GatherAll` | module/sentiment_analysis.py:153-172 | After all rows, the full batches plus the pending sentences are exactly all the rows' sentences, with their data. |
| `SentimentBatching.LastBatchShape` | module/sentiment_analysis.py:174-176 | The leftover batch is flushed only when non-empty, so every batch is non-empty. |
| `SentimentBatching.RunBatches` | module/sentiment_analysis.py:135-176 | For `batch_size >= 1`, for any classifier, the result has four properties. Each batch holds 1 to `batch_size` sentences, and every batch but the last holds exactly `batch_size`. The batches' concatenation is the in-order non-empty stripped pieces of all reviews, with aligned data. The rows written are those of one batch holding everything. |
| `SentimentBatching.RunSentimentAnalysis` | module/sentiment_analysis.py:135-176 | The same, with `classify_sentence` as the classifier. |
| `WebApp.ConvertFormDateRoundTrip` | main.py:24-41 | A field is passed on exactly when it is non-empty and names a real day. What is passed on, read with "%d-%m-%Y", is that same day when its year has four digits, and is refused when the year is below 1000. |
| `WebApp.ConvertFormDate` | main.py:24-41 | One field's conversion; specified by `WebApp.ConvertFormDateRoundTrip` and `WebApp.DateInputConverted`. |
| `WebApp.ConvertedBoundAccepted` | main.py:27-49 | The scraper accepts a bound the form passes and gets the form's day, or none for an empty or invalid field. The exception is a year below 1000: then the scraper raises. |
| `WebApp.FormBoundsIndependent` | main.py:27-41 | Each bound depends only on its own field. The run goes ahead exactly when neither field names a year below 1000. |
| `WebApp.ShortYearRaises` | main.py:27-31 | The field "0999-03-01" is passed on as "01-03-999", which `scrape_reviews_from_agoda` refuses (module/scraper.py:221-223). |
| `WebApp.DateInputConverted` | main.py:27-31 | What an HTML date input submits for a day is passed on as that day. |
| `WebApp.RedirectSlug` | main.py:51 | The redirect's slug for a city. Specified by `WebApp.SlugOfSlug` and `WebApp.AnalysisReadsScraperOutput`. |
| `WebApp.AnalysisReadsScraperOutput` | main.py:51-59 | The analysis started from the redirect reads the file the scraper wrote for the same city. |
| `WebApp.SlugOfSlug` | main.py:51-59 | The scraper's path for the slug is its path for the city. |

## Left out

- The browser itself is left out: navigation, waits, scrolling, screenshots, closing pages, and the cookie and search-box steps. Its observations are inputs of the model.
- `time.sleep`, `wait` and `wait_for_timeout` are left out: they only affect timing.
- The "most recent" sort of `scrape_all_reviews` is modelled only by whether it is requested. The blocks are given in the order the page shows them after any sort.
- The Reviews-tab click and its wait are left out. They only change what the page shows, and the blocks are given.
- BeautifulSoup and the in-page JavaScript are left out. The items of each result page and the review blocks are given lists.
- Pagination is a given list of pages, one per visit of the `while True` loop. The "Next" button is not modelled.
- Each hotel page is one given visit value. Both `scrape_all_reviews` calls see the same blocks.
- `print` and `tqdm` are left out: logging only.
- The ML tokenizer and model, `softmax`, `weighted_sentiment` and `round` are left out: floating-point numerics in foreign code.
- CSV quoting and encoding, `os.path.exists` and `os.makedirs` are left out. The file is modelled as an existence flag plus a sequence of lines.
- The analysis output's header row and the reading of the input CSV are left out. The rows are given.
- The exception branch of the hotel loop (scraper.py:380-382) is left out. A visit is modelled as either succeeding or failing before anything is written, and a failed visit writes nothing.
- `Text.LowerChar` lower-cases ASCII letters only. Python's `str.lower` also folds other alphabets.
- `Text.IsDigit` accepts ASCII digits only. Python's `\d` and strptime's "%Y" and "%d" also accept other Unicode decimal digits, so "March 3, ٢٠٢٤" is refused by `MonthPattern.MatchAt` and `Dates.ParseReviewDate` here.
- `Dates.FormatDMY` follows glibc's `strftime`, which writes a year below 1000 without padding. Other C libraries pad it to four digits.
- `Classifier.ClassifySentence` lists labels in table order. Python's `list(set)` has no fixed order, so only the set of labels and its lack of duplicates are claimed.
- The unused helper `contains_all` (sentiment_analysis.py:18-19) is left out.
- `SentimentBatching.RunBatches` requires `batch_size >= 1`. With 0 the flush runs after every piece, even with no sentence pending, and that case is not modelled.
- `SentimentBatching.RunBatches` takes the classifier as a parameter. `RunSentimentAnalysis` instantiates it with `classify_sentence`.
- `SearchNavigator.GetHotelResultsPage` sees one fixed outcome per tab for the hotel-item wait. The source waits again on each pass (scraper.py:172, 184, 196), so a slow `pages[0]` can be returned by a later pass; the model does not capture that.
- `SearchNavigator.GetHotelResultsPage` requires at least one tab. The source indexes `context.pages[0]`, which raises on an empty context.
- `SearchNavigator.ApplyStarRatingFilter` sees each selector's presence and click outcome as a given probe. The three-second wait after a click is left out.
- The Flask routes, `render_template` and `send_from_directory` are left out. `request.form.get` is Flask's; the form fields are parameters, with a missing field passed as "". The `int(star_rating)` conversion is also left out.
- `WebApp.AnalysisOutputName` is given no property: it is only a file name.

## Findings

| source | as written | input that shows it | evidently intended | confidence | as-written member | corrected member |
|---|---|---|---|---|---|---|
| module/scraper.py:317-342 | The reviews scraped with the date bounds (line 317) are overwritten by a second, unbounded `scrape_all_reviews(hotel_page)` (line 342) before saving. | A hotel whose only review is dated 1 March 2024, with start bound 1 April 2024: the review is saved. | Save the date-filtered reviews, so nothing outside the bounds is written. The `Corrected` variant of the hotel loop does this. | not executed | `AgodaScraper.HotelReviewsAsWritten`, used by the `AsWritten` variant (shown by `AgodaScraper.DuplicateScrapeIgnoresBounds` and `AgodaScraper.AsWrittenRunIgnoresBounds`) | `AgodaScraper.HotelReviews` (proved by `AgodaScraper.HotelReviewsRespectRange` and `AgodaScraper.FilteredScrapeDropsOldReview`) |
