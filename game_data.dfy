/** The score scraper (`getScore`): result links of the cricbuzz results
    page, made absolute and deduplicated, with no date, sort or cap; the
    text of each page's commentary column, with failures and empty pages
    dropped; and four calls before "Failed after 4 attempts: " is thrown. */
module GameData {
  import opened Common
  import opened Text
  import opened Listing
  import opened Enrich
  import opened Retry
  import opened Pipeline

  const Origin: string := "https://www.cricbuzz.com"

  /** One `.cb-view-all-ga` element: the `title` and `href` attributes of
      its first link. */
  datatype ResultLink = ResultLink(title: Option<string>, href: Option<string>)

  /** The element callback: both attributes are required; the item has no
      date (the epoch) and no image. */
  function ExtractLink(l: ResultLink): (r: Extracted)
    ensures !r.Abort?
    ensures r.Push? <==> Truthy(l.title) && Truthy(l.href)
    ensures r.Push? ==> r.item == Item(l.title.value, Origin + l.href.value, 0, None)
  {
    if Truthy(l.title) && Truthy(l.href) then Push(Item(l.title.value, Origin + l.href.value, 0, None))
    else Skip
  }

  const LinkExtractor: ResultLink -> Extracted := l => ExtractLink(l)

  predicate OnSite(x: Item) {
    |Origin| <= |x.link| && x.link[..|Origin|] == Origin
  }

  const Score: Scraper := Scraper(
    Shape(true, false, All),
    Enrich.Config(_ => ".cb-col.cb-col-67.cb-nws-lft-col.cb-comm-pg", Trimmed(" "), GiveNull, TruthyContent),
    Rejects,
    Some(Undefined),
    Retry.Config(4, false, true, false, Throw("Failed after 4 attempts: ")))

  function GetScore(links: Fetched<ResultLink>, now: int, page: Page, ai: Agent, parse: Parser): Outcome {
    Run(Score, links, LinkExtractor, now, page, ai, parse, NoFile)
  }

  /** The listing is every distinct result link in page order, each on the
      cricbuzz site; no link of the page is lost. */
  lemma ScoreListing(links: seq<ResultLink>, now: int)
    ensures Collected(links, LinkExtractor).Ok?
    ensures ListingOf(Score, Ok(links), LinkExtractor, now).Ok?
    ensures var items := Collected(links, LinkExtractor).value;
      var r := ListingOf(Score, Ok(links), LinkExtractor, now).value;
      r == Dedup(items) && DistinctLinks(r) && Links(r) == Links(items) &&
      forall k :: 0 <= k < |r| ==> OnSite(r[k]) && r[k].pubDate == 0
  {
    CollectedOk(links, LinkExtractor);
    var P := (x: Item) => OnSite(x) && x.pubDate == 0;
    forall k | 0 <= k < |links| && LinkExtractor(links[k]).Push?
      ensures P(LinkExtractor(links[k]).item)
    {
      var x := LinkExtractor(links[k]).item;
      assert x.link[..|Origin|] == Origin;
    }
    CollectedSatisfies(links, LinkExtractor, P);
    var items := Collected(links, LinkExtractor).value;
    DedupDistinct(items);
    DedupLinks(items);
    DedupSubset(items);
    var r := Dedup(items);
    forall k | 0 <= k < |r| ensures P(r[k]) {
      assert r[k] in items;
    }
  }

  /** Every record sent has non-empty content; when none survives, nothing
      is returned and no call is made. */
  lemma ScoreBatch(links: Fetched<ResultLink>, now: int, page: Page, ai: Agent, parse: Parser)
    requires BatchOf(Score, links, LinkExtractor, now, page).Ok?
    ensures var batch := BatchOf(Score, links, LinkExtractor, now, page).value;
      (forall k :: 0 <= k < |batch| ==> Truthy(batch[k].content)) &&
      (batch == [] ==> GetScore(links, now, page, ai, parse) == Outcome(Undefined, 0, None, None))
  {
    BatchFaithful(Score, links, LinkExtractor, now, page);
  }

  /** At most four calls; four failures throw "Failed after 4 attempts: "
      with the last error. */
  lemma ScoreRetry(links: Fetched<ResultLink>, now: int, page: Page, ai: Agent, parse: Parser)
    ensures GetScore(links, now, page, ai, parse).calls <= 4
    ensures var batch := BatchOf(Score, links, LinkExtractor, now, page);
      batch.Ok? && batch.value != [] &&
      (forall i :: 0 <= i < 4 ==> !Succeeds(Score.retry, ai, parse, NoFile, i)) ==>
        GetScore(links, now, page, ai, parse) ==
          Outcome(Threw(Exhausted("Failed after 4 attempts: ", ErrorOf(Score.retry, ai, parse, NoFile, 3))), 4, None, None)
  {
    RunCalls(Score, links, LinkExtractor, now, page, ai, parse, NoFile);
    var batch := BatchOf(Score, links, LinkExtractor, now, page);
    if batch.Ok? && batch.value != [] && (forall i :: 0 <= i < 4 ==> !Succeeds(Score.retry, ai, parse, NoFile, i)) {
      RunExhausted(Score, links, LinkExtractor, now, page, ai, parse, NoFile);
    }
  }

  lemma ScoreFirstSuccess(links: Fetched<ResultLink>, now: int, page: Page, ai: Agent, parse: Parser, j: nat)
    requires BatchOf(Score, links, LinkExtractor, now, page).Ok?
    requires BatchOf(Score, links, LinkExtractor, now, page).value != []
    requires j < 4 && Succeeds(Score.retry, ai, parse, NoFile, j)
    requires forall i :: 0 <= i < j ==> !Succeeds(Score.retry, ai, parse, NoFile, i)
    ensures GetScore(links, now, page, ai, parse) == Outcome(Returned(parse(Clean(ai(j).text)).value), j + 1, None, None)
  {
    PlainSuccess(ai(j), parse, Score.retry, NoFile(j));
    RunSucceeds(Score, links, LinkExtractor, now, page, ai, parse, NoFile, j);
  }
}
