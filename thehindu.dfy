/** The politics scraper of The Hindu (`getCleanedArticles`): the same row
    listing and content as the international affairs scraper, then three
    attempts that each parse the reply, write it to the result file and
    return it, ending in a diagnostic file on exhaustion. */
module TheHindu {
  import opened Common
  import opened Text
  import opened Listing
  import opened Enrich
  import opened Retry
  import opened Pipeline
  import opened InternationalAffairs

  const Hindu: Scraper := Scraper(
    RowShape, RowContent, Rejects, Some(Undefined),
    Retry.Config(3, true, true, false, Diagnose))

  function GetCleanedArticles(rows: Fetched<Row>, now: int, page: Page, ai: Agent, parse: Parser,
                              writeOk: nat -> bool): Outcome {
    Run(Hindu, rows, RowExtractor, now, page, ai, parse, writeOk)
  }

  /** The listing is the first fifteen unique rows in page order. */
  lemma HinduListing(rows: seq<Row>, now: int)
    ensures ListingOf(Hindu, Ok(rows), RowExtractor, now).Ok?
    ensures var r := ListingOf(Hindu, Ok(rows), RowExtractor, now).value;
      r == Take(Dedup(Collected(rows, RowExtractor).value), 15) && DistinctLinks(r)
  {
    RowListing(Hindu, rows, now);
  }

  /** At most three calls and never a rejection once the loop is reached:
      either the value is written and returned, or the diagnostic is
      written and nothing is returned. */
  lemma HinduRetry(rows: Fetched<Row>, now: int, page: Page, ai: Agent, parse: Parser, writeOk: nat -> bool)
    requires BatchOf(Hindu, rows, RowExtractor, now, page).Ok?
    requires BatchOf(Hindu, rows, RowExtractor, now, page).value != []
    ensures var o := GetCleanedArticles(rows, now, page, ai, parse, writeOk);
      o.calls <= 3 && (o.saved.Some? <==> o.diagnostic.None?) &&
      o.result == (if o.saved.Some? then Returned(o.saved.value) else Undefined)
  {
    RunCalls(Hindu, rows, RowExtractor, now, page, ai, parse, writeOk);
    DiagnoseNeverThrows(Hindu.retry, ai, parse, writeOk);
  }

  /** Three failed attempts write the last cleaned reply, or the fixed
      fallback text, to the diagnostic file. */
  lemma HinduExhausted(rows: Fetched<Row>, now: int, page: Page, ai: Agent, parse: Parser, writeOk: nat -> bool)
    requires BatchOf(Hindu, rows, RowExtractor, now, page).Ok?
    requires BatchOf(Hindu, rows, RowExtractor, now, page).value != []
    requires forall i :: 0 <= i < 3 ==> !Succeeds(Hindu.retry, ai, parse, writeOk, i)
    ensures var last := LastCleaned(Hindu.retry, ai, parse, writeOk, 3);
      GetCleanedArticles(rows, now, page, ai, parse, writeOk) ==
        Outcome(Undefined, 3, None, Some(if last == "" then NoOutput else last))
  {
    RunExhausted(Hindu, rows, RowExtractor, now, page, ai, parse, writeOk);
  }
}
