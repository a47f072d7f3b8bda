/** The tech scraper (`getTech`): listing cards whose date line carries a
    "<day> <month> <year>" date, the ten newest unique cards, trimmed page
    content (a failed page still sends its record, with `null` content),
    and four calls before "Failed after 4 attempts: " is thrown. */
module Tech {
  import opened Common
  import opened Text
  import opened Patterns
  import opened Listing
  import opened Enrich
  import opened Retry
  import opened Pipeline

  /** One `.caption_box` card: the first link's `href`, the `.news_listing`
      text, the `.dateline` text and the image `src`. */
  datatype TechCard = TechCard(href: Option<string>, title: string, dateText: string, image: Option<string>)

  /** The card callback: a link, a trimmed title and a date in the trimmed
      date line are required; the time is that of the first date found. */
  function ExtractCard(parseDate: string -> int, c: TechCard): (r: Extracted)
    ensures !r.Abort?
    ensures r.Push? <==> Truthy(c.href) && Trim(c.title) != "" && Dateline(Trim(c.dateText)).Some?
    ensures r.Push? ==> r.item.title == Trim(c.title) && r.item.link == c.href.value &&
                        r.item.pubDate == parseDate(Dateline(Trim(c.dateText)).value) &&
                        (r.item.image.Some? <==> Truthy(c.image)) &&
                        (r.item.image.Some? ==> r.item.image == c.image)
  {
    var title := Trim(c.title);
    match Dateline(Trim(c.dateText))
    case None => Skip
    case Some(d) =>
      if Truthy(c.href) && title != "" then
        Push(Item(title, c.href.value, parseDate(d), if Truthy(c.image) then c.image else None))
      else Skip
  }

  function Extractor(parseDate: string -> int): TechCard -> Extracted {
    c => ExtractCard(parseDate, c)
  }

  const TechShape: Shape := Shape(true, true, Top(10))

  /** The page text is that of the `p` and `h2` elements found inside each
      `div.content_text.row.description`, div by div; every fulfilled record
      is kept, whatever its content. */
  const TechContent: Enrich.Config :=
    Enrich.Config(_ => "div.content_text.row.description .find(p, h2)", Trimmed(" "), GiveNull, AnyContent)

  const Tech: Scraper := Scraper(
    TechShape, TechContent, Rejects, Some(Undefined),
    Retry.Config(4, false, true, false, Throw("Failed after 4 attempts: ")))

  function GetTech(cards: Fetched<TechCard>, parseDate: string -> int, now: int, page: Page, ai: Agent, parse: Parser): Outcome {
    Run(Tech, cards, Extractor(parseDate), now, page, ai, parse, NoFile)
  }

  /** A card whose date line reads "Written by <author>, <day> <month>
      <year>" is dated by that date. */
  lemma BylineDated(parseDate: string -> int, href: string, title: string, author: string,
                    day: nat, month: string, year: string, image: Option<string>)
    requires href != "" && Trim(title) != "" && NoDigit(author)
    requires day < 100 && |year| == 4 && AllDigits(year)
    requires month != [] && forall k :: 0 <= k < |month| ==> IsAsciiLetter(month[k])
    ensures var date := NatToString(day) + " " + month + " " + year;
      var r := ExtractCard(parseDate, TechCard(Some(href), title, "Written by " + author + ", " + date, image));
      r.Push? && r.item.pubDate == parseDate(date)
  {
    var dd := NatToString(day);
    var date := dd + " " + month + " " + year;
    var line := "Written by " + author + ", " + date;
    assert Dateline(line) == Some(date) by {
      var p := "Written by " + author + ", ";
      BylineNoDigit(author);
      BylineSplit(p, dd, month, year);
      DatelineOfRendered(p, day, month, year);
    }
    assert Trim(line) == line by {
      assert date[|date| - 1] == year[3];
      BylineTrimmed(author, date);
    }
    ExtractDated(parseDate, TechCard(Some(href), title, line, image), date);
  }

  lemma ExtractDated(parseDate: string -> int, c: TechCard, d: string)
    requires Truthy(c.href) && Trim(c.title) != "" && Dateline(Trim(c.dateText)) == Some(d)
    ensures ExtractCard(parseDate, c).Push? && ExtractCard(parseDate, c).item.pubDate == parseDate(d)
  {
  }

  lemma BylineNoDigit(author: string)
    requires NoDigit(author)
    ensures NoDigit("Written by " + author + ", ")
  {
    var p := "Written by " + author + ", ";
    forall k | 0 <= k < |p| ensures !IsDigit(p[k]) {
      if 11 <= k < 11 + |author| {
        assert p[k] == author[k - 11];
      }
    }
  }

  lemma BylineTrimmed(author: string, date: string)
    requires date != [] && IsDigit(date[|date| - 1])
    ensures Trim("Written by " + author + ", " + date) == "Written by " + author + ", " + date
  {
    var line := "Written by " + author + ", " + date;
    assert line[0] == 'W';
    assert line[|line| - 1] == date[|date| - 1];
    TrimOfTrimmed(line);
  }

  lemma BylineSplit(p: string, dd: string, month: string, year: string)
    ensures p + (dd + " " + month + " " + year) == p + dd + " " + month + " " + year
  {
  }

  /** The listing is the ten newest unique cards, newest first. */
  lemma TechListing(s: Scraper, cards: seq<TechCard>, parseDate: string -> int, now: int)
    requires s.shape == TechShape
    requires Collected(cards, Extractor(parseDate)).Ok?
    ensures ListingOf(s, Ok(cards), Extractor(parseDate), now).Ok?
    ensures var r := ListingOf(s, Ok(cards), Extractor(parseDate), now).value;
      r == Take(SortNewestFirst(Dedup(Collected(cards, Extractor(parseDate)).value)), 10) &&
      |r| <= 10 && NewestFirst(r) && DistinctLinks(r)
  {
    TopListing(s, cards, Extractor(parseDate), now, 10);
  }

  /** Every listed card reaches the service, in listing order, its content
      `null` when its page failed; so the early return happens only for an
      empty listing. */
  lemma TechBatch(s: Scraper, cards: Fetched<TechCard>, parseDate: string -> int, now: int, page: Page)
    requires s.enrich == TechContent
    requires ListingOf(s, cards, Extractor(parseDate), now).Ok?
    ensures var items := ListingOf(s, cards, Extractor(parseDate), now).value;
      var batch := BatchOf(s, cards, Extractor(parseDate), now, page).value;
      |batch| == |items| &&
      forall k :: 0 <= k < |batch| ==>
        batch[k].item == items[k] && Content(items[k].link, TechContent, page) == Ok(batch[k].content)
  {
    var items := ListingOf(s, cards, Extractor(parseDate), now).value;
    SurvivorsKeepAll(items, s.enrich, page);
    SurvivorsFaithful(items, s.enrich, page);
  }

  /** At most four calls; four failures throw "Failed after 4 attempts: "
      with the last error. */
  lemma TechRetry(cards: Fetched<TechCard>, parseDate: string -> int, now: int, page: Page, ai: Agent, parse: Parser)
    ensures GetTech(cards, parseDate, now, page, ai, parse).calls <= 4
    ensures var batch := BatchOf(Tech, cards, Extractor(parseDate), now, page);
      batch.Ok? && batch.value != [] &&
      (forall i :: 0 <= i < 4 ==> !Succeeds(Tech.retry, ai, parse, NoFile, i)) ==>
        GetTech(cards, parseDate, now, page, ai, parse) ==
          Outcome(Threw(Exhausted("Failed after 4 attempts: ", ErrorOf(Tech.retry, ai, parse, NoFile, 3))), 4, None, None)
  {
    var extract := Extractor(parseDate);
    RunCalls(Tech, cards, extract, now, page, ai, parse, NoFile);
    var batch := BatchOf(Tech, cards, extract, now, page);
    if batch.Ok? && batch.value != [] && (forall i :: 0 <= i < 4 ==> !Succeeds(Tech.retry, ai, parse, NoFile, i)) {
      RunExhausted(Tech, cards, extract, now, page, ai, parse, NoFile);
    }
  }

  lemma TechFirstSuccess(cards: Fetched<TechCard>, parseDate: string -> int, now: int, page: Page, ai: Agent, parse: Parser, j: nat)
    requires BatchOf(Tech, cards, Extractor(parseDate), now, page).Ok?
    requires BatchOf(Tech, cards, Extractor(parseDate), now, page).value != []
    requires j < 4 && Succeeds(Tech.retry, ai, parse, NoFile, j)
    requires forall i :: 0 <= i < j ==> !Succeeds(Tech.retry, ai, parse, NoFile, i)
    ensures GetTech(cards, parseDate, now, page, ai, parse) ==
      Outcome(Returned(parse(Clean(ai(j).text)).value), j + 1, None, None)
  {
    PlainSuccess(ai(j), parse, Tech.retry, NoFile(j));
    RunSucceeds(Tech, cards, Extractor(parseDate), now, page, ai, parse, NoFile, j);
  }
}
