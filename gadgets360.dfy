/** The gadgets360 scraper (`getCleanedArticles` of the tech page): the same
    listing and content as the tech scraper, then three attempts that each
    parse the reply and write it to the result file, ending in a diagnostic
    file on exhaustion. */
module Gadgets360 {
  import opened Common
  import opened Text
  import opened Listing
  import opened Enrich
  import opened Retry
  import opened Pipeline
  import opened Tech

  const Gadgets: Scraper := Scraper(
    TechShape, TechContent, Rejects, Some(Undefined),
    Retry.Config(3, true, false, false, Diagnose))

  function GetCleanedArticles(cards: Fetched<TechCard>, parseDate: string -> int, now: int, page: Page,
                              ai: Agent, parse: Parser, writeOk: nat -> bool): Outcome {
    Run(Gadgets, cards, Extractor(parseDate), now, page, ai, parse, writeOk)
  }

  /** The listing is the ten newest unique cards, and every one of them is
      sent, with `null` content when its page failed. */
  lemma GadgetsBatch(cards: seq<TechCard>, parseDate: string -> int, now: int, page: Page)
    requires Collected(cards, Extractor(parseDate)).Ok?
    ensures ListingOf(Gadgets, Ok(cards), Extractor(parseDate), now).Ok?
    ensures var r := ListingOf(Gadgets, Ok(cards), Extractor(parseDate), now).value;
      var batch := BatchOf(Gadgets, Ok(cards), Extractor(parseDate), now, page).value;
      r == Take(SortNewestFirst(Dedup(Collected(cards, Extractor(parseDate)).value)), 10) &&
      NewestFirst(r) && DistinctLinks(r) &&
      |batch| == |r| && forall k :: 0 <= k < |batch| ==> batch[k].item == r[k]
  {
    TechListing(Gadgets, cards, parseDate, now);
    TechBatch(Gadgets, Ok(cards), parseDate, now, page);
  }

  /** At most three calls and never a rejection once the loop is reached;
      a value is written exactly when no diagnostic is. */
  lemma GadgetsRetry(cards: Fetched<TechCard>, parseDate: string -> int, now: int, page: Page,
                     ai: Agent, parse: Parser, writeOk: nat -> bool)
    requires BatchOf(Gadgets, cards, Extractor(parseDate), now, page).Ok?
    ensures var o := GetCleanedArticles(cards, parseDate, now, page, ai, parse, writeOk);
      o.calls <= 3 && o.result == Undefined &&
      (BatchOf(Gadgets, cards, Extractor(parseDate), now, page).value != [] ==> (o.saved.Some? <==> o.diagnostic.None?))
  {
    RunCalls(Gadgets, cards, Extractor(parseDate), now, page, ai, parse, writeOk);
    if BatchOf(Gadgets, cards, Extractor(parseDate), now, page).value != [] {
      DiagnoseNeverThrows(Gadgets.retry, ai, parse, writeOk);
    }
  }

  /** Three failed attempts write the last cleaned reply, or the fixed
      fallback text, to the diagnostic file. */
  lemma GadgetsExhausted(cards: Fetched<TechCard>, parseDate: string -> int, now: int, page: Page,
                         ai: Agent, parse: Parser, writeOk: nat -> bool)
    requires BatchOf(Gadgets, cards, Extractor(parseDate), now, page).Ok?
    requires BatchOf(Gadgets, cards, Extractor(parseDate), now, page).value != []
    requires forall i :: 0 <= i < 3 ==> !Succeeds(Gadgets.retry, ai, parse, writeOk, i)
    ensures var last := LastCleaned(Gadgets.retry, ai, parse, writeOk, 3);
      GetCleanedArticles(cards, parseDate, now, page, ai, parse, writeOk) ==
        Outcome(Undefined, 3, None, Some(if last == "" then NoOutput else last))
  {
    RunExhausted(Gadgets, cards, Extractor(parseDate), now, page, ai, parse, writeOk);
  }
}
