/** The career and jobs scraper (`getJobs`): Hindustan Times listing cards
    with a title, a link and a date line, a two-day window with a fallback
    to the ten newest, trimmed page content with failures and empty pages
    dropped, and four calls before "AI processing failed: " is thrown. */
module CareerJobs {
  import opened Common
  import opened Text
  import opened Patterns
  import opened Listing
  import opened Enrich
  import opened Retry
  import opened Pipeline

  const Origin: string := "https://www.hindustantimes.com"

  /** The card callback: trimmed title, link and date line are required; the
      link is made absolute before deduplication. */
  function ExtractCard(parseDate: string -> int, c: HtCard): (r: Extracted)
    ensures !r.Abort?
    ensures r.Push? <==> Trim(c.title) != "" && Truthy(c.href) && Trim(c.dateText) != ""
    ensures r.Push? ==> r.item.title == Trim(c.title) && r.item.link == Origin + c.href.value &&
                        r.item.image == c.image && r.item.pubDate == HtPubDate(parseDate, Trim(c.dateText))
  {
    var title := Trim(c.title);
    var dateText := Trim(c.dateText);
    if title != "" && Truthy(c.href) && dateText != "" then
      Push(Item(title, Origin + c.href.value, HtPubDate(parseDate, dateText), c.image))
    else Skip
  }

  function Extractor(parseDate: string -> int): HtCard -> Extracted {
    c => ExtractCard(parseDate, c)
  }

  const Jobs: Scraper := Scraper(
    Shape(true, true, Window(10)),
    Enrich.Config(_ => "#storyMainDiv p", Trimmed(" "), GiveNull, TruthyContent),
    Rejects,
    Some(Returned(JArr([]))),
    Retry.Config(4, false, true, false, Throw("AI processing failed: ")))

  /** `getJobs()`; the loop writes no file, so every write is taken to
      succeed. */
  function GetJobs(cards: Fetched<HtCard>, parseDate: string -> int, now: int, page: Page, ai: Agent, parse: Parser): Outcome {
    Run(Jobs, cards, Extractor(parseDate), now, page, ai, parse, NoFile)
  }

  /** The listing is a prefix of the unique cards sorted newest first: all
      recent cards when there are ten or more, the first ten otherwise. */
  lemma JobsListing(cards: seq<HtCard>, parseDate: string -> int, now: int)
    requires Collected(cards, Extractor(parseDate)).Ok?
    ensures ListingOf(Jobs, Ok(cards), Extractor(parseDate), now).Ok?
    ensures var extract := Extractor(parseDate);
      var sorted := SortNewestFirst(Dedup(Collected(cards, extract).value));
      var r := ListingOf(Jobs, Ok(cards), extract, now).value;
      |r| <= |sorted| && r == sorted[..|r|] && NewestFirst(r) && DistinctLinks(r) &&
      (|Recent(sorted, now)| >= 10 ==> r == Recent(sorted, now)) &&
      (|Recent(sorted, now)| < 10 ==> r == Take(sorted, 10))
  {
    WindowListing(Jobs, cards, Extractor(parseDate), now, 10);
  }

  /** Every record sent has non-empty content; when none survives, `[]` is
      returned with no call. */
  lemma JobsBatch(cards: Fetched<HtCard>, parseDate: string -> int, now: int, page: Page, ai: Agent, parse: Parser)
    requires BatchOf(Jobs, cards, Extractor(parseDate), now, page).Ok?
    ensures var batch := BatchOf(Jobs, cards, Extractor(parseDate), now, page).value;
      (forall k :: 0 <= k < |batch| ==> Truthy(batch[k].content)) &&
      (batch == [] ==> GetJobs(cards, parseDate, now, page, ai, parse) == Outcome(Returned(JArr([])), 0, None, None))
  {
    BatchFaithful(Jobs, cards, Extractor(parseDate), now, page);
  }

  /** At most four calls; the first parsed reply is returned; four failures
      throw "AI processing failed: " with the last error. */
  lemma JobsRetry(cards: Fetched<HtCard>, parseDate: string -> int, now: int, page: Page, ai: Agent, parse: Parser)
    ensures GetJobs(cards, parseDate, now, page, ai, parse).calls <= 4
    ensures var extract := Extractor(parseDate);
      var batch := BatchOf(Jobs, cards, extract, now, page);
      batch.Ok? && batch.value != [] &&
      (forall i :: 0 <= i < 4 ==> !Succeeds(Jobs.retry, ai, parse, NoFile, i)) ==>
        GetJobs(cards, parseDate, now, page, ai, parse) ==
          Outcome(Threw(Exhausted("AI processing failed: ", ErrorOf(Jobs.retry, ai, parse, NoFile, 3))), 4, None, None)
  {
    var extract := Extractor(parseDate);
    RunCalls(Jobs, cards, extract, now, page, ai, parse, NoFile);
    var batch := BatchOf(Jobs, cards, extract, now, page);
    if batch.Ok? && batch.value != [] && (forall i :: 0 <= i < 4 ==> !Succeeds(Jobs.retry, ai, parse, NoFile, i)) {
      RunExhausted(Jobs, cards, extract, now, page, ai, parse, NoFile);
    }
  }

  /** The first attempt whose reply parses ends the loop and its value is
      returned. */
  lemma JobsFirstSuccess(cards: Fetched<HtCard>, parseDate: string -> int, now: int, page: Page, ai: Agent, parse: Parser, j: nat)
    requires BatchOf(Jobs, cards, Extractor(parseDate), now, page).Ok?
    requires BatchOf(Jobs, cards, Extractor(parseDate), now, page).value != []
    requires j < 4 && Succeeds(Jobs.retry, ai, parse, NoFile, j)
    requires forall i :: 0 <= i < j ==> !Succeeds(Jobs.retry, ai, parse, NoFile, i)
    ensures GetJobs(cards, parseDate, now, page, ai, parse) ==
      Outcome(Returned(parse(Clean(ai(j).text)).value), j + 1, None, None)
  {
    PlainSuccess(ai(j), parse, Jobs.retry, NoFile(j));
    RunSucceeds(Jobs, cards, Extractor(parseDate), now, page, ai, parse, NoFile, j);
  }
}
