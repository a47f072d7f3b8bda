/** The Hindustan Times education scraper (`getCleanedArticles` of the
    education page): cards with title, link, date line and image, unique by
    their relative link, dated from the "Updated on"/"Published on" line
    (the epoch when there is none), sorted newest first, a two-day window
    topped up with the newest other cards to ten, links made absolute;
    raw page text, a failed page dropping its card; one service call
    retried on rejection up to three times; and the reply written to the
    result file when it parses, or to the diagnostic file when it does not. */
module HtEducation {
  import opened Common
  import opened Text
  import opened Patterns
  import opened Listing
  import opened Enrich
  import opened Retry
  import opened Pipeline

  const Origin: string := "https://www.hindustantimes.com"

  /** The card callback: title, link, date line and image are all required
      as they are (untrimmed); the link stays relative until the selection
      is made. */
  function ExtractCard(parseDate: string -> int, c: HtCard): (r: Extracted)
    ensures !r.Abort?
    ensures r.Push? <==> c.title != "" && Truthy(c.href) && c.dateText != "" && Truthy(c.image)
    ensures r.Push? ==> r.item == Item(c.title, c.href.value, HtPubDate(parseDate, Trim(c.dateText)), c.image)
  {
    if c.title != "" && Truthy(c.href) && c.dateText != "" && Truthy(c.image) then
      Push(Item(c.title, c.href.value, HtPubDate(parseDate, Trim(c.dateText)), c.image))
    else Skip
  }

  function Extractor(parseDate: string -> int): HtCard -> Extracted {
    c => ExtractCard(parseDate, c)
  }

  const EduShape: Shape := Shape(true, true, WindowRest(10))

  /** `getContent` has no catch: a failed page rejects, the map callback
      catches that and returns `null`, and the record is dropped. */
  const EduContent: Enrich.Config := Enrich.Config(_ => "#storyMainDiv p", Raw(" "), Propagate, AnyContent)

  /** The listing the helper returns: the selection with its links made
      absolute. */
  function EduListing(cards: Fetched<HtCard>, parseDate: string -> int, now: int): Result<seq<Item>> {
    match cards
    case Err(e) => Err(e)
    case Ok(raws) =>
      match Listed(raws, Extractor(parseDate), EduShape, now)
      case Err(e) => Err(e)
      case Ok(items) => Ok(PrefixLinks(items, Origin))
  }

  /** `finalArticles.forEach(item => item.link = origin + item.link)`. */
  method PrefixAll(s: seq<Item>, prefix: string) returns (r: seq<Item>)
    ensures r == PrefixLinks(s, prefix)
  {
    r := [];
    for i := 0 to |s|
      invariant r == PrefixLinks(s[..i], prefix)
    {
      assert s[..i + 1][..i] == s[..i];
      r := r + [s[i].(link := prefix + s[i].link)];
    }
    assert s[..|s|] == s;
  }

  // ---------------------------------------------------------------------
  // `withAiRetries(input, prompt, retries = 3)`.

  /** What the wrapper settles to and how many calls it made: the first
      call that does not reject (even one resolving `undefined`) is
      returned; when the last allowed call rejects, its rejection is
      rethrown; with no call allowed it resolves `undefined`. */
  datatype Settled = Settled(reply: AiReply, calls: nat)

  function AiRetriesFrom(ai: Agent, retries: nat, k: nat): Settled
    decreases retries - k
  {
    if k >= retries then Settled(AiUndefined, k)
    else if !ai(k).AiRejected? || k + 1 >= retries then Settled(ai(k), k + 1)
    else AiRetriesFrom(ai, retries, k + 1)
  }

  function AiRetries(ai: Agent, retries: nat): Settled {
    AiRetriesFrom(ai, retries, 0)
  }

  /** The wrapper's loop. */
  method WithAiRetries(ai: Agent, retries: nat) returns (s: Settled)
    ensures s == AiRetries(ai, retries)
  {
    var attempt: nat := 0;
    while attempt < retries
      invariant attempt <= retries || attempt == 0
      invariant AiRetries(ai, retries) == AiRetriesFrom(ai, retries, attempt)
      decreases retries - attempt
    {
      var reply := ai(attempt);
      if !reply.AiRejected? {
        return Settled(reply, attempt + 1);
      }
      attempt := attempt + 1;
      if attempt >= retries {
        return Settled(reply, attempt);
      }
    }
    return Settled(AiUndefined, attempt);
  }

  lemma {:induction false} AiRetriesFromFirst(ai: Agent, retries: nat, k: nat, j: nat)
    requires k <= j < retries
    requires forall i :: k <= i < j ==> ai(i).AiRejected?
    requires !ai(j).AiRejected? || j == retries - 1
    ensures AiRetriesFrom(ai, retries, k) == Settled(ai(j), j + 1)
    decreases j - k
  {
    if k < j {
      assert ai(k).AiRejected?;
      AiRetriesFromFirst(ai, retries, k + 1, j);
    }
  }

  /** The first call that does not reject decides the wrapper; when every
      call rejects, the last rejection is what it throws, after exactly
      `retries` calls. */
  lemma AiRetriesFirst(ai: Agent, retries: nat, j: nat)
    requires j < retries
    requires forall i :: 0 <= i < j ==> ai(i).AiRejected?
    requires !ai(j).AiRejected? || j == retries - 1
    ensures AiRetries(ai, retries) == Settled(ai(j), j + 1)
  {
    AiRetriesFromFirst(ai, retries, 0, j);
  }

  lemma {:induction false} AiRetriesFromCalls(ai: Agent, retries: nat, k: nat)
    requires k <= retries
    ensures var s := AiRetriesFrom(ai, retries, k);
      k <= s.calls <= retries && (k < retries ==> k < s.calls) &&
      (s.reply.AiRejected? ==> s.calls == retries && s.reply == ai(retries - 1))
    decreases retries - k
  {
    if k < retries && ai(k).AiRejected? && k + 1 < retries {
      AiRetriesFromCalls(ai, retries, k + 1);
    }
  }

  /** Between one and `retries` calls; a rejection is rethrown only after
      every allowed call, and it is the last call's. */
  lemma AiRetriesCalls(ai: Agent, retries: nat)
    ensures var s := AiRetries(ai, retries);
      s.calls <= retries && (retries >= 1 ==> s.calls >= 1) &&
      (s.reply.AiRejected? ==> s.calls == retries && s.reply == ai(retries - 1))
  {
    AiRetriesFromCalls(ai, retries, 0);
  }

  // ---------------------------------------------------------------------
  // The whole call.

  /** One call of the scraper function; `saveOk` and `dumpOk` say whether
      the result file and the diagnostic file can be written. A rejection
      of the wrapper, a reply without text and a failed diagnostic write
      are all caught by the outer handler, so only a listing failure
      rejects the call. */
  function Run(cards: Fetched<HtCard>, parseDate: string -> int, now: int, page: Page,
               ai: Agent, parse: Parser, saveOk: bool, dumpOk: bool): Outcome
  {
    match EduListing(cards, parseDate, now)
    case Err(e) => Outcome(Threw(e), 0, None, None)
    case Ok(items) =>
      if Survivors(items, EduContent, page) == [] then Outcome(Undefined, 0, None, None)
      else
        var s := AiRetries(ai, 3);
        SaveOrDump(s.reply, s.calls, parse, saveOk, dumpOk)
  }

  /** The scraper function as written. */
  method GetCleanedArticles(cards: Fetched<HtCard>, parseDate: string -> int, now: int, page: Page,
                            ai: Agent, parse: Parser, saveOk: bool, dumpOk: bool) returns (o: Outcome)
    ensures o == Run(cards, parseDate, now, page, ai, parse, saveOk, dumpOk)
  {
    if cards.Err? {
      return Outcome(Threw(cards.error), 0, None, None);
    }
    var listed := BuildListing(cards.value, Extractor(parseDate), EduShape, now);
    if listed.Err? {
      return Outcome(Threw(listed.error), 0, None, None);
    }
    var items := PrefixAll(listed.value, Origin);
    var prepared := Survivors(items, EduContent, page);
    if prepared == [] {
      return Outcome(Undefined, 0, None, None);
    }
    var s := WithAiRetries(ai, 3);
    o := SaveOrDump(s.reply, s.calls, parse, saveOk, dumpOk);
  }

  // ---------------------------------------------------------------------
  // What the call comes to.

  lemma PrefixKeepsDistinct(s: seq<Item>, prefix: string)
    requires DistinctLinks(s)
    ensures DistinctLinks(PrefixLinks(s, prefix))
  {
    var r := PrefixLinks(s, prefix);
    forall i, j | 0 <= i < j < |r| ensures r[i].link != r[j].link {
      assert r[i].link[|prefix|..] == s[i].link;
      assert r[j].link[|prefix|..] == s[j].link;
    }
  }

  /** The listing is the window-or-newest selection of the unique cards,
      sorted newest first, with absolute links: duplicate-free, newest
      first, and every recent card when at least ten are recent, the ten
      newest otherwise. */
  lemma EduListingShape(cards: seq<HtCard>, parseDate: string -> int, now: int)
    requires Collected(cards, Extractor(parseDate)).Ok?
    ensures EduListing(Ok(cards), parseDate, now).Ok?
    ensures var sorted := SortNewestFirst(Dedup(Collected(cards, Extractor(parseDate)).value));
      var r := EduListing(Ok(cards), parseDate, now).value;
      r == PrefixLinks(WindowOrTop(sorted, now, 10), Origin) && DistinctLinks(r) &&
      (|Recent(sorted, now)| >= 10 ==> |r| == |Recent(sorted, now)|) &&
      (|Recent(sorted, now)| < 10 ==> |r| == (if |sorted| <= 10 then |sorted| else 10))
  {
    var sorted := SortNewestFirst(Dedup(Collected(cards, Extractor(parseDate)).value));
    var selected := WindowOrTop(sorted, now, 10);
    EduSelection(cards, parseDate, now);
    PrefixKeepsDistinct(selected, Origin);
  }

  /** The selection before the links are prefixed, and its links are
      distinct. */
  lemma EduSelection(cards: seq<HtCard>, parseDate: string -> int, now: int)
    requires Collected(cards, Extractor(parseDate)).Ok?
    ensures var selected := WindowOrTop(SortNewestFirst(Dedup(Collected(cards, Extractor(parseDate)).value)), now, 10);
      EduListing(Ok(cards), parseDate, now) == Ok(PrefixLinks(selected, Origin)) && DistinctLinks(selected)
  {
    var items := Collected(cards, Extractor(parseDate)).value;
    var sorted := SortNewestFirst(Dedup(items));
    assert EduListing(Ok(cards), parseDate, now) == Ok(PrefixLinks(WindowThenRest(sorted, now, 10), Origin));
    SortedSelection(items, now);
  }

  /** On the unique items sorted newest first, recent items followed by
      the rest, cut to ten, is the window-or-newest selection. */
  lemma SortedSelection(items: seq<Item>, now: int)
    ensures var sorted := SortNewestFirst(Dedup(items));
      WindowThenRest(sorted, now, 10) == WindowOrTop(sorted, now, 10) &&
      DistinctLinks(WindowOrTop(sorted, now, 10))
  {
    var unique := Dedup(items);
    var sorted := SortNewestFirst(unique);
    DedupDistinct(items);
    SortNewestFirstOrdered(unique);
    SortKeepsDistinct(unique);
    WindowThenRestIsWindowOrTop(sorted, now, 10);
    WindowThenRestDistinct(sorted, now, 10);
  }

  /** Once cards are sent, the wrapper's reply is saved or dumped, between
      one and three calls are made, and a rejection is what remains only
      after all three. */
  lemma RunEffects(cards: Fetched<HtCard>, parseDate: string -> int, now: int, page: Page,
                   ai: Agent, parse: Parser, saveOk: bool, dumpOk: bool)
    requires EduListing(cards, parseDate, now).Ok?
    requires Survivors(EduListing(cards, parseDate, now).value, EduContent, page) != []
    ensures var o := Run(cards, parseDate, now, page, ai, parse, saveOk, dumpOk);
      var s := AiRetries(ai, 3);
      1 <= o.calls <= 3 && o == SaveOrDump(s.reply, s.calls, parse, saveOk, dumpOk) &&
      (s.reply.AiRejected? ==> o.calls == 3)
  {
    AiRetriesCalls(ai, 3);
  }

  /** A reply that does not parse is kept for diagnosis, cleaned of its
      fences, when the first call resolves with it. */
  lemma FirstReplyUnparsed(cards: Fetched<HtCard>, parseDate: string -> int, now: int, page: Page,
                           ai: Agent, parse: Parser, t: string)
    requires EduListing(cards, parseDate, now).Ok?
    requires Survivors(EduListing(cards, parseDate, now).value, EduContent, page) != []
    requires ai(0) == AiText(t) && parse(Clean(t)).None?
    ensures Run(cards, parseDate, now, page, ai, parse, true, true) == Outcome(Undefined, 1, None, Some(Clean(t)))
  {
    AiRetriesFirst(ai, 3, 0);
    assert Run(cards, parseDate, now, page, ai, parse, true, true) == SaveOrDump(AiText(t), 1, parse, true, true);
    DumpsUnparsed(t, 1, parse, true);
  }

  lemma DumpsUnparsed(t: string, calls: nat, parse: Parser, saveOk: bool)
    requires parse(Clean(t)).None?
    ensures SaveOrDump(AiText(t), calls, parse, saveOk, true) == Outcome(Undefined, calls, None, Some(Clean(t)))
  {
  }

  /** Three rejections are caught: no file is written and the call returns
      nothing. */
  lemma AllRejected(cards: Fetched<HtCard>, parseDate: string -> int, now: int, page: Page,
                    ai: Agent, parse: Parser, saveOk: bool, dumpOk: bool)
    requires EduListing(cards, parseDate, now).Ok?
    requires Survivors(EduListing(cards, parseDate, now).value, EduContent, page) != []
    requires forall i :: 0 <= i < 3 ==> ai(i).AiRejected?
    ensures Run(cards, parseDate, now, page, ai, parse, saveOk, dumpOk) == Outcome(Undefined, 3, None, None)
  {
    AiRetriesFirst(ai, 3, 2);
  }

  /** Every card sent is a listed card whose page was read; a failed page
      drops the card. */
  lemma EduBatch(cards: Fetched<HtCard>, parseDate: string -> int, now: int, page: Page)
    requires EduListing(cards, parseDate, now).Ok?
    ensures var items := EduListing(cards, parseDate, now).value;
      var batch := Survivors(items, EduContent, page);
      forall k :: 0 <= k < |batch| ==>
        batch[k].item in items && page(batch[k].item.link, "#storyMainDiv p").Some? &&
        batch[k].content == Some(Join(page(batch[k].item.link, "#storyMainDiv p").value, " "))
  {
    SurvivorsFaithful(EduListing(cards, parseDate, now).value, EduContent, page);
  }
}
