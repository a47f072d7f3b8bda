/** The cricbuzz news scraper (`getCleanedArticles` of the cricket news
    page): cards with a relative time stamp, a two-day window with a
    fallback to the ten newest, trimmed page content with failures and
    empty pages dropped, and three attempts that each parse the reply and
    write it to the result file, ending in a diagnostic file on exhaustion. */
module Cricbuzz {
  import opened Common
  import opened Text
  import opened Patterns
  import opened Listing
  import opened Enrich
  import opened Retry
  import opened Pipeline

  const Origin: string := "https://www.cricbuzz.com"

  /** A minute in milliseconds. */
  const MinuteMs: int := 60 * 1000

  /** One listing card: heading text, `href`, image `src` and the text of
      the time stamp span. */
  datatype CbCard = CbCard(title: string, href: Option<string>, image: Option<string>, stamp: string)

  /** `attr(...)?.trim()`. */
  function TrimAttr(a: Option<string>): Option<string> {
    match a
    case None => None
    case Some(s) => Some(Trim(s))
  }

  /** The card callback at clock time `t`: a trimmed title, a trimmed link
      and a "<n>m ago" / "<n>h ago" / "<n>s ago" stamp are required; the
      time is `t` minus `n` minutes whatever the unit says. */
  function ExtractCard(t: int, c: CbCard): (r: Extracted)
    ensures !r.Abort?
    ensures r.Push? <==> Trim(c.title) != "" && Truthy(TrimAttr(c.href)) && AgoValue(Trim(c.stamp)).Some?
    ensures r.Push? ==> r.item.title == Trim(c.title) && r.item.link == Origin + Trim(c.href.value) &&
                        r.item.image == TrimAttr(c.image) &&
                        r.item.pubDate == t - AgoValue(Trim(c.stamp)).value * MinuteMs
  {
    var title := Trim(c.title);
    var link := TrimAttr(c.href);
    match AgoValue(Trim(c.stamp))
    case None => Skip
    case Some(n) =>
      if title != "" && Truthy(link) then
        Push(Item(title, Origin + link.value, t - n * MinuteMs, TrimAttr(c.image)))
      else Skip
  }

  function Extractor(t: int): CbCard -> Extracted {
    c => ExtractCard(t, c)
  }

  const News: Scraper := Scraper(
    Shape(true, true, Window(10)),
    Enrich.Config(_ => ".cb-nws-dtl-itms p", Trimmed(" "), GiveNull, TruthyContent),
    Rejects,
    Some(Undefined),
    Retry.Config(3, true, false, false, Diagnose))

  /** One run, with the clock at `t` while the cards are read and at `now`
      when the window is applied. */
  function GetCleanedArticles(cards: Fetched<CbCard>, t: int, now: int, page: Page,
                              ai: Agent, parse: Parser, writeOk: nat -> bool): Outcome {
    Run(News, cards, Extractor(t), now, page, ai, parse, writeOk)
  }

  /** The unit of the stamp is read but not used: "5h ago" dates the card
      five minutes back, like "5m ago" and "5s ago". */
  lemma AgeIgnoresUnit(t: int, title: string, href: string, n: nat, unit: char)
    requires unit == 'm' || unit == 'h' || unit == 's'
    requires Trim(title) != "" && Trim(href) != ""
    ensures var r := ExtractCard(t, CbCard(title, Some(href), None, NatToString(n) + [unit] + " ago"));
      r.Push? && r.item.pubDate == t - n * MinuteMs
  {
    StampAge(n, unit);
  }

  /** A rendered stamp "<n><unit> ago" needs no trimming and reads as `n`. */
  lemma StampAge(n: nat, unit: char)
    requires unit == 'm' || unit == 'h' || unit == 's'
    ensures AgoValue(Trim(NatToString(n) + [unit] + " ago")) == Some(n)
  {
    var s := NatToString(n) + [unit] + " ago";
    assert s[0] == NatToString(n)[0] && IsDigit(s[0]);
    assert s[|s| - 1] == 'o';
    TrimOfTrimmed(s);
    AgoValueOfRendered(n, unit);
  }

  /** The listing is a prefix of the unique cards sorted newest first: all
      recent cards when there are ten or more, the first ten otherwise. */
  lemma NewsListing(cards: seq<CbCard>, t: int, now: int)
    requires Collected(cards, Extractor(t)).Ok?
    ensures ListingOf(News, Ok(cards), Extractor(t), now).Ok?
    ensures var sorted := SortNewestFirst(Dedup(Collected(cards, Extractor(t)).value));
      var r := ListingOf(News, Ok(cards), Extractor(t), now).value;
      |r| <= |sorted| && r == sorted[..|r|] && NewestFirst(r) && DistinctLinks(r) &&
      (|Recent(sorted, now)| >= 10 ==> r == Recent(sorted, now)) &&
      (|Recent(sorted, now)| < 10 ==> r == Take(sorted, 10))
  {
    WindowListing(News, cards, Extractor(t), now, 10);
  }

  /** Every record sent has non-empty content; when none survives, nothing
      is returned and no call is made. */
  lemma NewsBatch(cards: Fetched<CbCard>, t: int, now: int, page: Page, ai: Agent, parse: Parser, writeOk: nat -> bool)
    requires BatchOf(News, cards, Extractor(t), now, page).Ok?
    ensures var batch := BatchOf(News, cards, Extractor(t), now, page).value;
      (forall k :: 0 <= k < |batch| ==> Truthy(batch[k].content)) &&
      (batch == [] ==> GetCleanedArticles(cards, t, now, page, ai, parse, writeOk) == Outcome(Undefined, 0, None, None))
  {
    BatchFaithful(News, cards, Extractor(t), now, page);
  }

  /** The loop stops at the first attempt that parses and writes, saving
      the value and returning nothing; a reply that parses but cannot be
      written counts as a failed attempt. */
  lemma NewsFirstSuccess(cards: Fetched<CbCard>, t: int, now: int, page: Page, ai: Agent, parse: Parser,
                         writeOk: nat -> bool, j: nat)
    requires BatchOf(News, cards, Extractor(t), now, page).Ok?
    requires BatchOf(News, cards, Extractor(t), now, page).value != []
    requires j < 3 && Succeeds(News.retry, ai, parse, writeOk, j)
    requires forall i :: 0 <= i < j ==> !Succeeds(News.retry, ai, parse, writeOk, i)
    ensures writeOk(j)
    ensures GetCleanedArticles(cards, t, now, page, ai, parse, writeOk) ==
      Outcome(Undefined, j + 1, Some(parse(Clean(ai(j).text)).value), None)
  {
    PlainSuccess(ai(j), parse, News.retry, writeOk(j));
    RunSucceeds(News, cards, Extractor(t), now, page, ai, parse, writeOk, j);
  }

  /** Three failed attempts throw nothing: the last cleaned reply, or the
      fixed fallback text, goes to the diagnostic file. */
  lemma NewsExhausted(cards: Fetched<CbCard>, t: int, now: int, page: Page, ai: Agent, parse: Parser, writeOk: nat -> bool)
    requires BatchOf(News, cards, Extractor(t), now, page).Ok?
    requires BatchOf(News, cards, Extractor(t), now, page).value != []
    requires forall i :: 0 <= i < 3 ==> !Succeeds(News.retry, ai, parse, writeOk, i)
    ensures var last := LastCleaned(News.retry, ai, parse, writeOk, 3);
      GetCleanedArticles(cards, t, now, page, ai, parse, writeOk) ==
        Outcome(Undefined, 3, None, Some(if last == "" then NoOutput else last))
  {
    RunExhausted(News, cards, Extractor(t), now, page, ai, parse, writeOk);
  }
}
