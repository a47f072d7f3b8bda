/** The cricket scraper (`getCricket`): article cards of the cricbuzz news
    page, each dated with the day of the run, with image URLs rewritten to
    the original-size rendition; the first fifteen unique cards in page
    order; page paragraphs with failures and empty pages dropped; and four
    calls before "Failed after 4 attempts: " is thrown. */
module Cricket {
  import opened Common
  import opened Text
  import opened Patterns
  import opened Listing
  import opened Enrich
  import opened Retry
  import opened Pipeline

  const Origin: string := "https://www.cricbuzz.com"

  /** One article card: the `title` and `href` of its bold link and the
      `src` of its image. */
  datatype CricketCard = CricketCard(title: Option<string>, href: Option<string>, image: Option<string>)

  /** `attr(...)?.trim()`. */
  function TrimAttr(a: Option<string>): (r: Option<string>)
    ensures r.Some? <==> a.Some?
    ensures r.Some? ==> r.value == Trim(a.value)
  {
    match a
    case None => None
    case Some(s) => Some(Trim(s))
  }

  /** The card callback on the day `today` of the run: a present image is
      rewritten first, and an image that is not an absolute URL throws and
      rejects the listing; then a trimmed title and link are required. */
  function ExtractCard(today: int, c: CricketCard): (r: Extracted)
    ensures r.Abort? <==> Truthy(TrimAttr(c.image)) && RewriteImage(Trim(c.image.value)).Err?
    ensures r.Push? <==> !r.Abort? && Truthy(TrimAttr(c.title)) && Truthy(TrimAttr(c.href))
    ensures r.Push? ==> r.item.title == Trim(c.title.value) && r.item.link == Origin + Trim(c.href.value) &&
                        r.item.pubDate == today &&
                        r.item.image == (if Truthy(TrimAttr(c.image)) then Some(RewriteImage(Trim(c.image.value)).value)
                                         else TrimAttr(c.image))
  {
    var image := TrimAttr(c.image);
    var rewritten := if Truthy(image) then RewriteImage(image.value) else Ok("");
    if rewritten.Err? then Abort(rewritten.error)
    else
      var title := TrimAttr(c.title);
      var link := TrimAttr(c.href);
      if Truthy(title) && Truthy(link) then
        Push(Item(title.value, Origin + link.value, today, if Truthy(image) then Some(rewritten.value) else image))
      else Skip
  }

  function Extractor(today: int): CricketCard -> Extracted {
    c => ExtractCard(today, c)
  }

  const Cricket: Scraper := Scraper(
    Shape(true, false, Top(15)),
    Enrich.Config(_ => ".flex.flex-col.gap-6.text-base > div > section > p", Trimmed(" "), GiveNull, TruthyContent),
    Rejects,
    Some(Undefined),
    Retry.Config(4, false, true, false, Throw("Failed after 4 attempts: ")))

  function GetCricket(cards: Fetched<CricketCard>, today: int, now: int, page: Page, ai: Agent, parse: Parser): Outcome {
    Run(Cricket, cards, Extractor(today), now, page, ai, parse, NoFile)
  }

  /** The listing is the first fifteen unique cards in page order. */
  lemma CricketListing(cards: seq<CricketCard>, today: int, now: int)
    requires Collected(cards, Extractor(today)).Ok?
    ensures ListingOf(Cricket, Ok(cards), Extractor(today), now).Ok?
    ensures var r := ListingOf(Cricket, Ok(cards), Extractor(today), now).value;
      r == Take(Dedup(Collected(cards, Extractor(today)).value), 15) && |r| <= 15 && DistinctLinks(r)
  {
    TopListing(Cricket, cards, Extractor(today), now, 15);
  }

  /** A card anywhere on the page whose image is a relative path rejects
      the whole call before any page or service call, even when the card
      itself would have been skipped. */
  lemma RelativeImageRejects(cards: seq<CricketCard>, k: nat, today: int, now: int, page: Page, ai: Agent, parse: Parser)
    requires k < |cards| && cards[k].image.Some?
    requires Trim(cards[k].image.value) != "" && Without(Trim(cards[k].image.value), ':')
    ensures var o := GetCricket(Ok(cards), today, now, page, ai, parse);
      o.result.Threw? && o.calls == 0 && o.saved == None
  {
    RewriteImageRelative(Trim(cards[k].image.value));
    CollectedAbort(cards, Extractor(today), k);
    ListingFailureRejects(Cricket, Ok(cards), Extractor(today), now, page, ai, parse, NoFile);
  }

  /** A card whose image is a "data:" placeholder is not rejected: it is
      pushed with the image "null" followed by the media type and data. */
  lemma DataImagePushed(today: int, c: CricketCard, body: string)
    requires c.image.Some? && Trim(c.image.value) == "data:" + body
    requires PathChars(body) && !(|body| >= 2 && body[0] == '/' && body[1] == '/')
    requires Truthy(TrimAttr(c.title)) && Truthy(TrimAttr(c.href))
    ensures ExtractCard(today, c).Push?
    ensures ExtractCard(today, c).item.image == Some("null" + body + "?d=orig&p=det")
  {
    RewriteImageData(body);
  }

  /** A card whose image is a "blob:" URL is pushed with the origin read
      from the URL after "blob:" (that of an http or https URL, else "null"). */
  lemma BlobImagePushed(today: int, c: CricketCard, body: string, origin: string)
    requires c.image.Some? && Trim(c.image.value) == "blob:" + body
    requires PathChars(body) && !(|body| >= 2 && body[0] == '/' && body[1] == '/')
    requires BlobOrigin(body) == origin
    requires Truthy(TrimAttr(c.title)) && Truthy(TrimAttr(c.href))
    ensures ExtractCard(today, c).Push?
    ensures ExtractCard(today, c).item.image == Some(origin + body + "?d=orig&p=det")
  {
    RewriteBlob(body, "", origin, "blob:" + body + "");
    assert "blob:" + body + "" == "blob:" + body;
  }

  /** Every record sent has non-empty content; when none survives, nothing
      is returned and no call is made. */
  lemma CricketBatch(cards: Fetched<CricketCard>, today: int, now: int, page: Page, ai: Agent, parse: Parser)
    requires BatchOf(Cricket, cards, Extractor(today), now, page).Ok?
    ensures var batch := BatchOf(Cricket, cards, Extractor(today), now, page).value;
      (forall k :: 0 <= k < |batch| ==> Truthy(batch[k].content)) &&
      (batch == [] ==> GetCricket(cards, today, now, page, ai, parse) == Outcome(Undefined, 0, None, None))
  {
    BatchFaithful(Cricket, cards, Extractor(today), now, page);
  }

  /** At most four calls; four failures throw "Failed after 4 attempts: "
      with the last error. */
  lemma CricketRetry(cards: Fetched<CricketCard>, today: int, now: int, page: Page, ai: Agent, parse: Parser)
    ensures GetCricket(cards, today, now, page, ai, parse).calls <= 4
    ensures var batch := BatchOf(Cricket, cards, Extractor(today), now, page);
      batch.Ok? && batch.value != [] &&
      (forall i :: 0 <= i < 4 ==> !Succeeds(Cricket.retry, ai, parse, NoFile, i)) ==>
        GetCricket(cards, today, now, page, ai, parse) ==
          Outcome(Threw(Exhausted("Failed after 4 attempts: ", ErrorOf(Cricket.retry, ai, parse, NoFile, 3))), 4, None, None)
  {
    var extract := Extractor(today);
    RunCalls(Cricket, cards, extract, now, page, ai, parse, NoFile);
    var batch := BatchOf(Cricket, cards, extract, now, page);
    if batch.Ok? && batch.value != [] && (forall i :: 0 <= i < 4 ==> !Succeeds(Cricket.retry, ai, parse, NoFile, i)) {
      RunExhausted(Cricket, cards, extract, now, page, ai, parse, NoFile);
    }
  }
}
