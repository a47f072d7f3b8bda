/** The international affairs scraper (`getIA`): article rows with a title
    and a link, none of them dated, so the "newest first" sort keeps page
    order; the first fifteen unique rows; the paragraphs of the content
    body named by the id in each article URL, joined by line breaks, with
    failures and empty pages dropped; and four calls before "AI processing
    failed: " is thrown. */
module InternationalAffairs {
  import opened Common
  import opened Text
  import opened Patterns
  import opened Listing
  import opened Enrich
  import opened Retry
  import opened Pipeline

  /** One `.element.row-element` row: the text and `href` of its title
      link and the `data-original` of its image. */
  datatype Row = Row(title: string, href: Option<string>, image: Option<string>)

  /** The row callback: a trimmed title and a link are required; a row has
      no date, which the model writes as the epoch. */
  function ExtractRow(r: Row): (x: Extracted)
    ensures !x.Abort?
    ensures x.Push? <==> Trim(r.title) != "" && Truthy(r.href)
    ensures x.Push? ==> x.item == Item(Trim(r.title), r.href.value, 0, r.image)
  {
    if Trim(r.title) != "" && Truthy(r.href) then Push(Item(Trim(r.title), r.href.value, 0, r.image))
    else Skip
  }

  const RowExtractor: Row -> Extracted := r => ExtractRow(r)

  const RowShape: Shape := Shape(true, true, Top(15))

  const RowContent: Enrich.Config := Enrich.Config(ContentSelector, Trimmed("\n"), GiveNull, TruthyContent)

  const IA: Scraper := Scraper(
    RowShape, RowContent, Rejects, Some(Undefined),
    Retry.Config(4, false, true, false, Throw("AI processing failed: ")))

  function GetIA(rows: Fetched<Row>, now: int, page: Page, ai: Agent, parse: Parser): Outcome {
    Run(IA, rows, RowExtractor, now, page, ai, parse, NoFile)
  }

  /** No row is dated, so the sort leaves the unique rows in page order and
      the listing is the first fifteen of them. */
  lemma RowListing(s: Scraper, rows: seq<Row>, now: int)
    requires s.shape == RowShape
    ensures Collected(rows, RowExtractor).Ok? && ListingOf(s, Ok(rows), RowExtractor, now).Ok?
    ensures var r := ListingOf(s, Ok(rows), RowExtractor, now).value;
      r == Take(Dedup(Collected(rows, RowExtractor).value), 15) && |r| <= 15 && DistinctLinks(r)
  {
    CollectedOk(rows, RowExtractor);
    var items := Collected(rows, RowExtractor).value;
    var P := (x: Item) => x.pubDate == 0;
    CollectedSatisfies(rows, RowExtractor, P);
    DedupSubset(items);
    var unique := Dedup(items);
    forall k | 0 <= k < |unique| ensures unique[k].pubDate == 0 {
      assert unique[k] in items;
    }
    SortAllEqual(unique, 0);
    TopListing(s, rows, RowExtractor, now, 15);
  }

  /** The content of an article ".../article<digits>.<ext>" is read from
      the body element named by those digits. */
  lemma ArticleSelector(p: string, id: string, ext: string)
    requires AllDigits(id) && Without(ext, '/')
    ensures RowContent.selector(p + "/" + "article" + id + "." + ext) == "#content-body-" + id + " p"
  {
    ContentIdOfArticleUrl(p, id, ext);
  }

  /** Every record sent has non-empty content; when none survives, nothing
      is returned and no call is made. */
  lemma IABatch(rows: Fetched<Row>, now: int, page: Page, ai: Agent, parse: Parser)
    requires BatchOf(IA, rows, RowExtractor, now, page).Ok?
    ensures var batch := BatchOf(IA, rows, RowExtractor, now, page).value;
      (forall k :: 0 <= k < |batch| ==> Truthy(batch[k].content)) &&
      (batch == [] ==> GetIA(rows, now, page, ai, parse) == Outcome(Undefined, 0, None, None))
  {
    BatchFaithful(IA, rows, RowExtractor, now, page);
  }

  /** At most four calls; four failures throw "AI processing failed: " with
      the last error. */
  lemma IARetry(rows: Fetched<Row>, now: int, page: Page, ai: Agent, parse: Parser)
    ensures GetIA(rows, now, page, ai, parse).calls <= 4
    ensures var batch := BatchOf(IA, rows, RowExtractor, now, page);
      batch.Ok? && batch.value != [] &&
      (forall i :: 0 <= i < 4 ==> !Succeeds(IA.retry, ai, parse, NoFile, i)) ==>
        GetIA(rows, now, page, ai, parse) ==
          Outcome(Threw(Exhausted("AI processing failed: ", ErrorOf(IA.retry, ai, parse, NoFile, 3))), 4, None, None)
  {
    RunCalls(IA, rows, RowExtractor, now, page, ai, parse, NoFile);
    var batch := BatchOf(IA, rows, RowExtractor, now, page);
    if batch.Ok? && batch.value != [] && (forall i :: 0 <= i < 4 ==> !Succeeds(IA.retry, ai, parse, NoFile, i)) {
      RunExhausted(IA, rows, RowExtractor, now, page, ai, parse, NoFile);
    }
  }
}
