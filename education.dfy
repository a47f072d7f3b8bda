/** The education scraper (`getEdu`): Hindustan Times listing cards where a
    missing date line or image falls back to "NA", the ten newest unique
    cards, trimmed page content with failures and empty pages dropped, and
    four calls before "AI processing failed: " is thrown. */
module Education {
  import opened Common
  import opened Text
  import opened Patterns
  import opened Listing
  import opened Enrich
  import opened Retry
  import opened Pipeline

  const Origin: string := "https://www.hindustantimes.com"

  /** `text() || "NA"` and `attr("src") || "NA"`. */
  function OrNA(s: Option<string>): (r: string)
    ensures r != ""
    ensures Truthy(s) ==> r == s.value
  {
    if Truthy(s) then s.value else "NA"
  }

  /** The card callback: the date line and the image default to "NA", so
      only the (untrimmed) title and the link are required. */
  function ExtractCard(parseDate: string -> int, c: HtCard): (r: Extracted)
    ensures !r.Abort?
    ensures r.Push? <==> c.title != "" && Truthy(c.href)
    ensures r.Push? ==> r.item.title == c.title && r.item.link == Origin + c.href.value &&
                        r.item.image == Some(OrNA(c.image)) &&
                        r.item.pubDate == HtPubDate(parseDate, Trim(OrNA(Some(c.dateText))))
  {
    var date := OrNA(Some(c.dateText));
    var image := OrNA(c.image);
    if c.title != "" && Truthy(c.href) && date != "" && image != "" then
      Push(Item(c.title, Origin + c.href.value, HtPubDate(parseDate, Trim(date)), Some(image)))
    else Skip
  }

  function Extractor(parseDate: string -> int): HtCard -> Extracted {
    c => ExtractCard(parseDate, c)
  }

  const Edu: Scraper := Scraper(
    Shape(true, true, Top(10)),
    Enrich.Config(_ => "#storyMainDiv p", Trimmed(" "), GiveNull, TruthyContent),
    Rejects,
    Some(Undefined),
    Retry.Config(4, false, true, false, Throw("AI processing failed: ")))

  function GetEdu(cards: Fetched<HtCard>, parseDate: string -> int, now: int, page: Page, ai: Agent, parse: Parser): Outcome {
    Run(Edu, cards, Extractor(parseDate), now, page, ai, parse, NoFile)
  }

  /** A card without a date line gets the epoch as its time. */
  lemma MissingDateIsEpoch(parseDate: string -> int, c: HtCard)
    requires c.dateText == "" && c.title != "" && Truthy(c.href)
    ensures ExtractCard(parseDate, c).item.pubDate == 0
  {
    assert OrNA(Some(c.dateText)) == "NA";
    NADateIsEpoch(parseDate);
  }

  /** The fallback date line "NA" holds no marker and dates to the epoch. */
  lemma NADateIsEpoch(parseDate: string -> int)
    ensures HtPubDate(parseDate, Trim("NA")) == 0
  {
    TrimOfTrimmed("NA");
    forall m
      ensures !OccursAt("NA", "Updated on ", m) && !OccursAt("NA", "Published on ", m)
    {
    }
    HtPubDateEpoch(parseDate, "NA");
  }

  /** The listing is the ten newest unique cards, newest first, with no
      recency window. */
  lemma EduListing(cards: seq<HtCard>, parseDate: string -> int, now: int)
    requires Collected(cards, Extractor(parseDate)).Ok?
    ensures ListingOf(Edu, Ok(cards), Extractor(parseDate), now).Ok?
    ensures var extract := Extractor(parseDate);
      var r := ListingOf(Edu, Ok(cards), extract, now).value;
      r == Take(SortNewestFirst(Dedup(Collected(cards, extract).value)), 10) &&
      NewestFirst(r) && DistinctLinks(r)
  {
    TopListing(Edu, cards, Extractor(parseDate), now, 10);
  }

  /** Every record sent has non-empty content; when none survives, nothing
      is returned and no call is made. */
  lemma EduBatch(cards: Fetched<HtCard>, parseDate: string -> int, now: int, page: Page, ai: Agent, parse: Parser)
    requires BatchOf(Edu, cards, Extractor(parseDate), now, page).Ok?
    ensures var batch := BatchOf(Edu, cards, Extractor(parseDate), now, page).value;
      (forall k :: 0 <= k < |batch| ==> Truthy(batch[k].content)) &&
      (batch == [] ==> GetEdu(cards, parseDate, now, page, ai, parse) == Outcome(Undefined, 0, None, None))
  {
    BatchFaithful(Edu, cards, Extractor(parseDate), now, page);
  }

  /** At most four calls; four failures throw "AI processing failed: " with
      the last error. */
  lemma EduRetry(cards: Fetched<HtCard>, parseDate: string -> int, now: int, page: Page, ai: Agent, parse: Parser)
    ensures GetEdu(cards, parseDate, now, page, ai, parse).calls <= 4
    ensures var batch := BatchOf(Edu, cards, Extractor(parseDate), now, page);
      batch.Ok? && batch.value != [] &&
      (forall i :: 0 <= i < 4 ==> !Succeeds(Edu.retry, ai, parse, NoFile, i)) ==>
        GetEdu(cards, parseDate, now, page, ai, parse) ==
          Outcome(Threw(Exhausted("AI processing failed: ", ErrorOf(Edu.retry, ai, parse, NoFile, 3))), 4, None, None)
  {
    var extract := Extractor(parseDate);
    RunCalls(Edu, cards, extract, now, page, ai, parse, NoFile);
    var batch := BatchOf(Edu, cards, extract, now, page);
    if batch.Ok? && batch.value != [] && (forall i :: 0 <= i < 4 ==> !Succeeds(Edu.retry, ai, parse, NoFile, i)) {
      RunExhausted(Edu, cards, extract, now, page, ai, parse, NoFile);
    }
  }
}
