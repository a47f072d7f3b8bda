/** The livemint scraper (`getCleanedArticles` of the feed page): the same
    feed listing and content as the trending scraper, then three attempts
    that each parse the reply and write it to the result file, ending in a
    diagnostic file on exhaustion. */
module Livemint {
  import opened Common
  import opened Text
  import opened Listing
  import opened Enrich
  import opened Retry
  import opened Pipeline
  import opened Trending

  const Livemint: Scraper := Scraper(
    FeedShape, FeedContent, Rejects, Some(Undefined),
    Retry.Config(3, true, false, false, Diagnose))

  function GetCleanedArticles(feed: Fetched<FeedItem>, now: int, page: Page, ai: Agent, parse: Parser,
                              writeOk: nat -> bool): Outcome {
    Run(Livemint, feed, FeedExtractor, now, page, ai, parse, writeOk)
  }

  /** The listing is the first fifteen unique items, newest first, whatever
      the clock says. */
  lemma LivemintListing(feed: seq<FeedItem>, now: int, later: int)
    ensures Collected(feed, FeedExtractor).Ok? && ListingOf(Livemint, Ok(feed), FeedExtractor, now).Ok?
    ensures var r := ListingOf(Livemint, Ok(feed), FeedExtractor, now).value;
      r == Take(SortNewestFirst(Dedup(Collected(feed, FeedExtractor).value)), 15) &&
      NewestFirst(r) && DistinctLinks(r) &&
      ListingOf(Livemint, Ok(feed), FeedExtractor, later) == ListingOf(Livemint, Ok(feed), FeedExtractor, now)
  {
    FeedListing(Livemint, feed, now, later);
  }

  /** Every record sent has non-empty content; when none survives, nothing
      is returned and no call is made. */
  lemma LivemintBatch(feed: Fetched<FeedItem>, now: int, page: Page, ai: Agent, parse: Parser, writeOk: nat -> bool)
    requires BatchOf(Livemint, feed, FeedExtractor, now, page).Ok?
    ensures var batch := BatchOf(Livemint, feed, FeedExtractor, now, page).value;
      (forall k :: 0 <= k < |batch| ==> Truthy(batch[k].content)) &&
      (batch == [] ==> GetCleanedArticles(feed, now, page, ai, parse, writeOk) == Outcome(Undefined, 0, None, None))
  {
    BatchFaithful(Livemint, feed, FeedExtractor, now, page);
  }

  /** At most three calls, and the run never throws once the loop is
      reached; a success ends the loop with the value written. */
  lemma LivemintRetry(feed: Fetched<FeedItem>, now: int, page: Page, ai: Agent, parse: Parser, writeOk: nat -> bool)
    requires BatchOf(Livemint, feed, FeedExtractor, now, page).Ok?
    ensures var o := GetCleanedArticles(feed, now, page, ai, parse, writeOk);
      o.calls <= 3 && o.result == Undefined &&
      (BatchOf(Livemint, feed, FeedExtractor, now, page).value != [] ==> (o.saved.Some? <==> o.diagnostic.None?))
  {
    RunCalls(Livemint, feed, FeedExtractor, now, page, ai, parse, writeOk);
    var batch := BatchOf(Livemint, feed, FeedExtractor, now, page).value;
    if batch != [] {
      DiagnoseNeverThrows(Livemint.retry, ai, parse, writeOk);
    }
  }

  /** Three failed attempts write the last cleaned reply, or the fixed
      fallback text, to the diagnostic file. */
  lemma LivemintExhausted(feed: Fetched<FeedItem>, now: int, page: Page, ai: Agent, parse: Parser, writeOk: nat -> bool)
    requires BatchOf(Livemint, feed, FeedExtractor, now, page).Ok?
    requires BatchOf(Livemint, feed, FeedExtractor, now, page).value != []
    requires forall i :: 0 <= i < 3 ==> !Succeeds(Livemint.retry, ai, parse, writeOk, i)
    ensures var last := LastCleaned(Livemint.retry, ai, parse, writeOk, 3);
      GetCleanedArticles(feed, now, page, ai, parse, writeOk) ==
        Outcome(Undefined, 3, None, Some(if last == "" then NoOutput else last))
  {
    RunExhausted(Livemint, feed, FeedExtractor, now, page, ai, parse, writeOk);
  }
}
