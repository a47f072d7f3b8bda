/** The horoscope scraper (`getAstro`): the first thirteen story cards of
    the listing page (an empty list when the page fails), the raw text of
    each story (empty when its page fails), no early return, and four
    calls whose parsed value has its top-level keys lower-cased, before
    "AI processing failed: " is thrown. */
module Astrology {
  import opened Common
  import opened Text
  import opened Listing
  import opened Enrich
  import opened Retry
  import opened Entries
  import opened Pipeline

  /** One story card: its `data-vars-story-title` and `data-weburl`
      attributes. */
  datatype StoryCard = StoryCard(title: Option<string>, url: Option<string>)

  /** The card callback: both attributes are required; a story has no date
      (the epoch) and no image. */
  function ExtractStory(c: StoryCard): (r: Extracted)
    ensures !r.Abort?
    ensures r.Push? <==> Truthy(c.title) && Truthy(c.url)
    ensures r.Push? ==> r.item == Item(c.title.value, c.url.value, 0, None)
  {
    if Truthy(c.title) && Truthy(c.url) then Push(Item(c.title.value, c.url.value, 0, None)) else Skip
  }

  const StoryExtractor: StoryCard -> Extracted := c => ExtractStory(c)

  const Astro: Scraper := Scraper(
    Shape(false, false, Top(13)),
    Enrich.Config(_ => "#storyMainDiv p", Raw(" "), GiveEmpty, AnyContent),
    GivesEmpty,
    None,
    Retry.Config(4, false, true, true, Throw("AI processing failed: ")))

  function GetAstro(cards: Fetched<StoryCard>, now: int, page: Page, ai: Agent, parse: Parser): Outcome {
    Run(Astro, cards, StoryExtractor, now, page, ai, parse, NoFile)
  }

  /** The listing is the first thirteen cards with both attributes, in page
      order and with duplicates kept; a failed listing page is an empty
      listing. */
  lemma AstroListing(cards: Fetched<StoryCard>, now: int)
    ensures ListingOf(Astro, cards, StoryExtractor, now).Ok?
    ensures cards.Err? ==> ListingOf(Astro, cards, StoryExtractor, now) == Ok([])
    ensures cards.Ok? ==> Collected(cards.value, StoryExtractor).Ok?
    ensures cards.Ok? ==>
      ListingOf(Astro, cards, StoryExtractor, now).value == Take(Collected(cards.value, StoryExtractor).value, 13)
  {
    if cards.Ok? {
      CollectedOk(cards.value, StoryExtractor);
    }
  }

  /** Every listed story is sent, in order, with its page text joined by
      spaces, or "" when its page failed. */
  lemma AstroBatch(cards: Fetched<StoryCard>, now: int, page: Page)
    ensures var items := ListingOf(Astro, cards, StoryExtractor, now).value;
      var batch := BatchOf(Astro, cards, StoryExtractor, now, page).value;
      |batch| == |items| &&
      forall k :: 0 <= k < |batch| ==>
        batch[k].item == items[k] &&
        batch[k].content == Some(match page(items[k].link, "#storyMainDiv p")
                                 case Some(texts) => Join(texts, " ")
                                 case None => "")
  {
    AstroListing(cards, now);
    var items := ListingOf(Astro, cards, StoryExtractor, now).value;
    SurvivorsKeepAll(items, Astro.enrich, page);
    SurvivorsFaithful(items, Astro.enrich, page);
  }

  /** The service is always called, even with an empty batch, at most four
      times; a success is an object whose keys are all lower case; four
      failures throw "AI processing failed: " with the last error. */
  lemma AstroRetry(cards: Fetched<StoryCard>, now: int, page: Page, ai: Agent, parse: Parser)
    ensures var o := GetAstro(cards, now, page, ai, parse);
      1 <= o.calls <= 4 && o.saved == None &&
      (o.result.Returned? ==> o.result.value.JObj? && AllKeysLower(o.result.value.entries))
    ensures (forall i :: 0 <= i < 4 ==> !Succeeds(Astro.retry, ai, parse, NoFile, i)) ==>
      GetAstro(cards, now, page, ai, parse) ==
        Outcome(Threw(Exhausted("AI processing failed: ", ErrorOf(Astro.retry, ai, parse, NoFile, 3))), 4, None, None)
  {
    AstroCalls(cards, now, page, ai, parse);
    AstroLower(cards, now, page, ai, parse);
    AstroExhausted(cards, now, page, ai, parse);
  }

  lemma AstroCalls(cards: Fetched<StoryCard>, now: int, page: Page, ai: Agent, parse: Parser)
    ensures var o := GetAstro(cards, now, page, ai, parse);
      1 <= o.calls <= 4 && o.saved == None
  {
    AstroListing(cards, now);
    RunCalls(Astro, cards, StoryExtractor, now, page, ai, parse, NoFile);
    RunReachesLoop(Astro, cards, StoryExtractor, now, page, ai, parse, NoFile);
    RetryUnsaved(Astro.retry, ai, parse, NoFile);
  }

  lemma AstroExhausted(cards: Fetched<StoryCard>, now: int, page: Page, ai: Agent, parse: Parser)
    ensures (forall i :: 0 <= i < 4 ==> !Succeeds(Astro.retry, ai, parse, NoFile, i)) ==>
      GetAstro(cards, now, page, ai, parse) ==
        Outcome(Threw(Exhausted("AI processing failed: ", ErrorOf(Astro.retry, ai, parse, NoFile, 3))), 4, None, None)
  {
    if forall i :: 0 <= i < 4 ==> !Succeeds(Astro.retry, ai, parse, NoFile, i) {
      AstroListing(cards, now);
      RunExhausted(Astro, cards, StoryExtractor, now, page, ai, parse, NoFile);
    }
  }

  lemma AstroLower(cards: Fetched<StoryCard>, now: int, page: Page, ai: Agent, parse: Parser)
    ensures var o := GetAstro(cards, now, page, ai, parse);
      o.result.Returned? ==> o.result.value.JObj? && AllKeysLower(o.result.value.entries)
  {
    var o := GetAstro(cards, now, page, ai, parse);
    if o.result.Returned? {
      AstroListing(cards, now);
      assert o == Retried(Astro.retry, ai, parse, NoFile);
      RetryReturned(Astro.retry, ai, parse, NoFile);
      var j :| 0 <= j < 4 && Succeeds(Astro.retry, ai, parse, NoFile, j) &&
        o.result == Returned(TryOnce(ai(j), parse, Astro.retry, NoFile(j)).data);
      LowercasedSuccess(ai(j), parse, Astro.retry, NoFile(j));
    }
  }
}
