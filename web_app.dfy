/**
 * The Flask routes of `main.py` that compute something: turning the form's
 * optional "YYYY-MM-DD" fields into the "DD-MM-YYYY" bounds the scraper
 * reads, and the city slug shared by the redirect and the analysis route.
 */
module WebApp {
  import opened Wrappers
  import opened Text
  import opened Dates
  import AgodaScraper

  /** One date field of the form as passed on to the scraper: an empty field is
      no bound, and so is one `strptime(field, "%Y-%m-%d")` rejects (a warning
      is printed and the filter ignored); otherwise the same day rewritten by
      `strftime("%d-%m-%Y")`. */
  function ConvertFormDate(field: string): Option<string> {
    if field == [] then None
    else match ParseYMD(field)
      case Some(d) => Some(FormatDMY(d))
      case None => None
  }

  /** The bound the scraper ends up with for a form field. */
  function FormBound(field: string): Option<Date> {
    if field == [] then None else ParseYMD(field)
  }

  /** A field names a day whose year has fewer than four digits ("0999-03-01"). */
  predicate ShortYear(field: string) {
    FormBound(field).Some? && FormBound(field).value.year < 1000
  }

  /** A field is passed on exactly when it is non-empty and names a real day.
      What is passed on reads back as that same day, except that a year below
      1000 is written without padding and no longer reads as "%d-%m-%Y". */
  lemma ConvertFormDateRoundTrip(field: string)
    ensures ConvertFormDate(field).Some? <==> field != [] && ParseYMD(field).Some?
    ensures ConvertFormDate(field).Some? && !ShortYear(field) ==> ParseDMY(ConvertFormDate(field).value) == ParseYMD(field)
    ensures ConvertFormDate(field).Some? && ShortYear(field) ==> ParseDMY(ConvertFormDate(field).value) == None
  {
    if field != [] && ParseYMD(field).Some? {
      ParseDMYRoundTrip(ParseYMD(field).value);
    }
  }

  /** The scraper accepts the bound the web form hands it, the day the form named
      or no bound, unless that day's year is below 1000: then
      `scrape_reviews_from_agoda` raises on it. */
  lemma ConvertedBoundAccepted(field: string)
    ensures !ShortYear(field) ==> AgodaScraper.ScraperBound(ConvertFormDate(field)) == Ok(FormBound(field))
    ensures ShortYear(field) ==> AgodaScraper.ScraperBound(ConvertFormDate(field)).Err?
  {
    ConvertFormDateRoundTrip(field);
  }

  /** Each bound depends only on its own field: an invalid start date drops the
      start filter and keeps the end filter. The run goes ahead exactly when
      neither field names a year below 1000. */
  lemma FormBoundsIndependent(startField: string, endField: string)
    ensures !ShortYear(startField) && !ShortYear(endField) ==>
      AgodaScraper.ScraperBounds(ConvertFormDate(startField), ConvertFormDate(endField))
        == Ok((FormBound(startField), FormBound(endField)))
    ensures ShortYear(startField) || ShortYear(endField) ==>
      AgodaScraper.ScraperBounds(ConvertFormDate(startField), ConvertFormDate(endField)).Err?
  {
    ConvertedBoundAccepted(startField);
    ConvertedBoundAccepted(endField);
  }

  lemma Year999()
    ensures ZeroPad(999, 4) == "0999" && NatToString(999) == "999"
  {
  }

  lemma March1Of999()
    ensures FormatYMD(Date(999, 3, 1)) == "0999-03-01"
    ensures FormatDMY(Date(999, 3, 1)) == "01-03-999"
  {
    Year999();
    assert ZeroPad(3, 2) == "03" && ZeroPad(1, 2) == "01";
  }

  /** The form field "0999-03-01" is passed on as "01-03-999", which the scraper
      refuses. */
  lemma ShortYearRaises()
    ensures ConvertFormDate("0999-03-01") == Some("01-03-999")
    ensures AgodaScraper.ScraperBound(ConvertFormDate("0999-03-01")).Err?
  {
    var d := Date(999, 3, 1);
    var field := FormatYMD(d);
    DateInputConverted(d);
    ConvertedBoundAccepted(field);
    assert ShortYear(field);
    March1Of999();
  }

  /** What an HTML date input submits for a day is passed on as that day. */
  lemma DateInputConverted(d: Date)
    requires ValidDate(d)
    ensures ConvertFormDate(FormatYMD(d)) == Some(FormatDMY(d))
    ensures FormBound(FormatYMD(d)) == Some(d)
  {
    ParseYMDRoundTrip(d);
  }

  /** The redirect's `city.lower().replace(" ", "_")`. */
  function RedirectSlug(city: string): string {
    ReplaceChar(Lower(city), ' ', '_')
  }

  /** The file `start_analysis` reads for the slug in its URL. */
  function AnalysisInputPath(slug: string): string {
    "output/agoda_" + slug + "_hotel_reviews.csv"
  }

  /** The name of the file `start_analysis` writes and offers for download. */
  function AnalysisOutputName(slug: string): string {
    "sentiment_" + slug + ".csv"
  }

  /** The analysis started from the redirect reads the file the scraper wrote. */
  lemma AnalysisReadsScraperOutput(city: string)
    ensures AnalysisInputPath(RedirectSlug(city)) == AgodaScraper.OutputPath(city)
  {
    assert RedirectSlug(city) == AgodaScraper.CitySlug(city);
  }

  /** The slug is already in slug form, so the scraper and the analysis agree on
      the file even for a city typed as its slug. */
  lemma SlugOfSlug(city: string)
    ensures AgodaScraper.OutputPath(RedirectSlug(city)) == AgodaScraper.OutputPath(city)
  {
    AgodaScraper.CitySlugIdempotent(city);
    assert RedirectSlug(city) == AgodaScraper.CitySlug(city);
  }
}
