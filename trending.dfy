/** The trending scraper (`getTrending`): the items of a JSON feed, the
    fifteen newest unique ones, trimmed page content with failures and
    empty pages dropped, and four calls before "Failed after 4 attempts: "
    is thrown. */
module Trending {
  import opened Common
  import opened Text
  import opened Listing
  import opened Enrich
  import opened Retry
  import opened Pipeline

  /** One feed item: `headline`, `storyURL`, the time `publishDate` denotes,
      and `imageObject?.original`. */
  datatype FeedItem = FeedItem(headline: string, storyUrl: string, publishDate: int, original: Option<string>)

  /** `data.items.map(...)`: every feed item becomes a listing item, with a
      falsy image turned into `null`. */
  function ExtractFeedItem(f: FeedItem): (r: Extracted)
    ensures r.Push?
    ensures r.item.title == f.headline && r.item.link == f.storyUrl && r.item.pubDate == f.publishDate
    ensures r.item.image.Some? <==> Truthy(f.original)
    ensures r.item.image.Some? ==> r.item.image == f.original
  {
    Push(Item(f.headline, f.storyUrl, f.publishDate, if Truthy(f.original) then f.original else None))
  }

  const FeedExtractor: FeedItem -> Extracted := f => ExtractFeedItem(f)

  /** The feed listing both feed scrapers share: the first fifteen unique
      items, newest first; the `recent` list it computes is never used. */
  const FeedShape: Shape := Shape(true, true, Top(15))

  const FeedContent: Enrich.Config := Enrich.Config(_ => ".storyParagraph", Trimmed(" "), GiveNull, TruthyContent)

  const Trending: Scraper := Scraper(
    FeedShape, FeedContent, Rejects, Some(Undefined),
    Retry.Config(4, false, true, false, Throw("Failed after 4 attempts: ")))

  function GetTrending(feed: Fetched<FeedItem>, now: int, page: Page, ai: Agent, parse: Parser): Outcome {
    Run(Trending, feed, FeedExtractor, now, page, ai, parse, NoFile)
  }

  /** Every feed item is kept by the listing callback, in feed order. */
  lemma FeedAllKept(feed: seq<FeedItem>)
    ensures Collected(feed, FeedExtractor).Ok?
    ensures |Collected(feed, FeedExtractor).value| == |feed|
    ensures forall k :: 0 <= k < |feed| ==> Collected(feed, FeedExtractor).value[k] == ExtractFeedItem(feed[k]).item
  {
    CollectedAllPush(feed, FeedExtractor);
  }

  /** The listing is the first fifteen unique items, newest first, and
      does not depend on the clock. */
  lemma FeedListing(s: Scraper, feed: seq<FeedItem>, now: int, later: int)
    requires s.shape == FeedShape
    ensures Collected(feed, FeedExtractor).Ok? && ListingOf(s, Ok(feed), FeedExtractor, now).Ok?
    ensures var r := ListingOf(s, Ok(feed), FeedExtractor, now).value;
      r == Take(SortNewestFirst(Dedup(Collected(feed, FeedExtractor).value)), 15) &&
      |r| <= 15 && NewestFirst(r) && DistinctLinks(r) &&
      ListingOf(s, Ok(feed), FeedExtractor, later) == ListingOf(s, Ok(feed), FeedExtractor, now)
  {
    FeedAllKept(feed);
    TopListing(s, feed, FeedExtractor, now, 15);
  }

  /** Every record sent has non-empty content; when none survives, nothing
      is returned and no call is made. */
  lemma TrendingBatch(feed: Fetched<FeedItem>, now: int, page: Page, ai: Agent, parse: Parser)
    requires BatchOf(Trending, feed, FeedExtractor, now, page).Ok?
    ensures var batch := BatchOf(Trending, feed, FeedExtractor, now, page).value;
      (forall k :: 0 <= k < |batch| ==> Truthy(batch[k].content)) &&
      (batch == [] ==> GetTrending(feed, now, page, ai, parse) == Outcome(Undefined, 0, None, None))
  {
    BatchFaithful(Trending, feed, FeedExtractor, now, page);
  }

  /** At most four calls; the first parsed reply is returned; four failures
      throw "Failed after 4 attempts: " with the last error. */
  lemma TrendingRetry(feed: Fetched<FeedItem>, now: int, page: Page, ai: Agent, parse: Parser)
    ensures GetTrending(feed, now, page, ai, parse).calls <= 4
    ensures var batch := BatchOf(Trending, feed, FeedExtractor, now, page);
      batch.Ok? && batch.value != [] &&
      (forall i :: 0 <= i < 4 ==> !Succeeds(Trending.retry, ai, parse, NoFile, i)) ==>
        GetTrending(feed, now, page, ai, parse) ==
          Outcome(Threw(Exhausted("Failed after 4 attempts: ", ErrorOf(Trending.retry, ai, parse, NoFile, 3))), 4, None, None)
  {
    RunCalls(Trending, feed, FeedExtractor, now, page, ai, parse, NoFile);
    var batch := BatchOf(Trending, feed, FeedExtractor, now, page);
    if batch.Ok? && batch.value != [] && (forall i :: 0 <= i < 4 ==> !Succeeds(Trending.retry, ai, parse, NoFile, i)) {
      RunExhausted(Trending, feed, FeedExtractor, now, page, ai, parse, NoFile);
    }
  }

  lemma TrendingFirstSuccess(feed: Fetched<FeedItem>, now: int, page: Page, ai: Agent, parse: Parser, j: nat)
    requires BatchOf(Trending, feed, FeedExtractor, now, page).Ok?
    requires BatchOf(Trending, feed, FeedExtractor, now, page).value != []
    requires j < 4 && Succeeds(Trending.retry, ai, parse, NoFile, j)
    requires forall i :: 0 <= i < j ==> !Succeeds(Trending.retry, ai, parse, NoFile, i)
    ensures GetTrending(feed, now, page, ai, parse) == Outcome(Returned(parse(Clean(ai(j).text)).value), j + 1, None, None)
  {
    PlainSuccess(ai(j), parse, Trending.retry, NoFile(j));
    RunSucceeds(Trending, feed, FeedExtractor, now, page, ai, parse, NoFile, j);
  }
}
