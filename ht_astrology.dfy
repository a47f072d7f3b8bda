/** The Hindustan Times horoscope scraper (`getAstrology`): every story
    card of the listing page (none when the page fails), the raw text of
    each story read one after the other (empty when its page fails), and
    a single service call whose reply is written to the result file when
    it parses, or to the diagnostic file when it does not. */
module HtAstrology {
  import opened Common
  import opened Text
  import opened Listing
  import opened Enrich
  import opened Retry
  import opened Pipeline
  import opened Astrology

  const StoryShape: Shape := Shape(false, false, All)

  const StoryContent: Enrich.Config := Enrich.Config(_ => "#storyMainDiv p", Raw(" "), GiveEmpty, AnyContent)

  /** The listing helper, which catches its own failure. */
  function Stories(cards: Fetched<StoryCard>): seq<Item> {
    match cards
    case Err(_) => []
    case Ok(raws) =>
      match Listed(raws, StoryExtractor, StoryShape, 0)
      case Err(_) => []
      case Ok(items) => items
  }

  /** One call of the scraper function: `ai(0)` is the one call. */
  function Run(cards: Fetched<StoryCard>, page: Page, ai: Agent, parse: Parser, saveOk: bool, dumpOk: bool): Outcome {
    SaveOrDump(ai(0), 1, parse, saveOk, dumpOk)
  }

  /** The records the one call is given. */
  function Batch(cards: Fetched<StoryCard>, page: Page): seq<Prepared> {
    Survivors(Stories(cards), StoryContent, page)
  }

  /** The scraper function as written: the listing, the index loop that
      reads each story in turn, and the single call. */
  method GetAstrology(cards: Fetched<StoryCard>, page: Page, ai: Agent, parse: Parser, saveOk: bool, dumpOk: bool)
    returns (batch: seq<Prepared>, o: Outcome)
    ensures batch == Batch(cards, page)
    ensures o == Run(cards, page, ai, parse, saveOk, dumpOk)
  {
    var urls: seq<Item> := [];
    if cards.Ok? {
      var listed := BuildListing(cards.value, StoryExtractor, StoryShape, 0);
      if listed.Ok? {
        urls := listed.value;
      }
    }
    batch := PrepareInOrder(urls, StoryContent, page);
    o := SaveOrDump(ai(0), 1, parse, saveOk, dumpOk);
  }

  /** The listing is every card with both attributes, in page order, with
      duplicates kept; a failed listing page gives none. */
  lemma StoriesAll(cards: Fetched<StoryCard>)
    ensures cards.Err? ==> Stories(cards) == []
    ensures cards.Ok? ==> Collected(cards.value, StoryExtractor).Ok? &&
                          Stories(cards) == Collected(cards.value, StoryExtractor).value
  {
    if cards.Ok? {
      CollectedOk(cards.value, StoryExtractor);
    }
  }

  /** Every story is sent, in order, with its page text, or "" when the
      page failed; the call is made even with no story. */
  lemma BatchAll(cards: Fetched<StoryCard>, page: Page)
    ensures var items := Stories(cards);
      var batch := Batch(cards, page);
      |batch| == |items| &&
      forall k :: 0 <= k < |batch| ==>
        batch[k].item == items[k] &&
        batch[k].content == Some(match page(items[k].link, "#storyMainDiv p")
                                 case Some(texts) => Join(texts, " ")
                                 case None => "")
  {
    var items := Stories(cards);
    SurvivorsKeepAll(items, StoryContent, page);
    SurvivorsFaithful(items, StoryContent, page);
  }

  /** Exactly one call, and the function never rejects: a rejected call or
      a reply without text writes nothing; a reply that parses is saved
      when the result file can be written, and dumped otherwise. */
  lemma OneCall(cards: Fetched<StoryCard>, page: Page, ai: Agent, parse: Parser, saveOk: bool, dumpOk: bool)
    ensures var o := Run(cards, page, ai, parse, saveOk, dumpOk);
      o.calls == 1 && o.result == Undefined &&
      (!ai(0).AiText? ==> o.saved == None && o.diagnostic == None) &&
      (ai(0).AiText? && parse(Clean(ai(0).text)).Some? && saveOk ==> o.saved == parse(Clean(ai(0).text))) &&
      (ai(0).AiText? && parse(Clean(ai(0).text)).None? && dumpOk ==> o.diagnostic == Some(Clean(ai(0).text)))
  {
  }
}
