/** The shape every exported scraper function shares: fetch the listing,
    enrich each listed item with its page content, return early when no
    record survives, and hand the batch to the bounded transformation loop.
    A scraper is this pipeline with its own constants. */
module Pipeline {
  import opened Common
  import opened Listing
  import opened Enrich
  import opened Retry

  /** What a scraper does when its listing helper throws: the rejection
      propagates, or the helper catches it and returns `[]`. */
  datatype ListingFailure = Rejects | GivesEmpty

  /** The constants of one scraper: how its listing is normalised, how its
      content is extracted and filtered, what it returns when nothing
      survives (None: it has no such check), and its retry loop. */
  datatype Scraper = Scraper(
    shape: Shape,
    enrich: Enrich.Config,
    onListingFailure: ListingFailure,
    onEmpty: Option<JsResult>,
    retry: Retry.Config)

  /** The fetched listing entries, or the error of the listing fetch. */
  type Fetched<R> = Result<seq<R>>

  /** The normalised listing, after the scraper's handling of a failure. */
  function ListingOf<R>(s: Scraper, fetched: Fetched<R>, extract: R -> Extracted, now: int): Result<seq<Item>> {
    var listed := match fetched
      case Err(e) => Err(e)
      case Ok(raws) => Listed(raws, extract, s.shape, now);
    if listed.Err? && s.onListingFailure.GivesEmpty? then Ok([]) else listed
  }

  /** The records handed to the transformation service. */
  function BatchOf<R>(s: Scraper, fetched: Fetched<R>, extract: R -> Extracted, now: int, page: Page): Result<seq<Prepared>> {
    match ListingOf(s, fetched, extract, now)
    case Err(e) => Err(e)
    case Ok(items) => Ok(Survivors(items, s.enrich, page))
  }

  /** The outcome of one call of the scraper function. */
  function Run<R>(s: Scraper, fetched: Fetched<R>, extract: R -> Extracted, now: int, page: Page,
                  ai: Agent, parse: Parser, writeOk: nat -> bool): Outcome
  {
    match BatchOf(s, fetched, extract, now, page)
    case Err(e) => Outcome(Threw(e), 0, None, None)
    case Ok(batch) =>
      if batch == [] && s.onEmpty.Some? then Outcome(s.onEmpty.value, 0, None, None)
      else Retried(s.retry, ai, parse, writeOk)
  }

  /** The scraper function as written: the listing helper, the settled
      content fetches, the early return and the retry loop. */
  method RunScraper<R>(s: Scraper, fetched: Fetched<R>, extract: R -> Extracted, now: int, page: Page,
                       ai: Agent, parse: Parser, writeOk: nat -> bool) returns (o: Outcome)
    ensures o == Run(s, fetched, extract, now, page, ai, parse, writeOk)
  {
    var listing: Result<seq<Item>>;
    if fetched.Err? {
      listing := Err(fetched.error);
    } else {
      listing := BuildListing(fetched.value, extract, s.shape, now);
    }
    if listing.Err? {
      if s.onListingFailure.Rejects? {
        return Outcome(Threw(listing.error), 0, None, None);
      }
      listing := Ok([]);
    }
    var batch := Survivors(listing.value, s.enrich, page);
    if batch == [] && s.onEmpty.Some? {
      return Outcome(s.onEmpty.value, 0, None, None);
    }
    o := RetryLoop(s.retry, ai, parse, writeOk);
  }

  // ---------------------------------------------------------------------
  // What every scraper's run comes to.

  /** A listing failure rejects the scraper call before any page or service
      call, unless the scraper catches it. */
  lemma ListingFailureRejects<R>(s: Scraper, fetched: Fetched<R>, extract: R -> Extracted, now: int, page: Page,
                                 ai: Agent, parse: Parser, writeOk: nat -> bool)
    requires s.onListingFailure.Rejects?
    requires fetched.Err? || Collected(fetched.value, extract).Err?
    ensures var o := Run(s, fetched, extract, now, page, ai, parse, writeOk);
      o.result.Threw? && o.calls == 0 && o.saved == None && o.diagnostic == None
  {
  }

  /** With the early-return check, a run whose batch is empty makes no
      service call and returns the scraper's fixed value. */
  lemma EmptyBatchNoCall<R>(s: Scraper, fetched: Fetched<R>, extract: R -> Extracted, now: int, page: Page,
                            ai: Agent, parse: Parser, writeOk: nat -> bool)
    requires s.onEmpty.Some? && BatchOf(s, fetched, extract, now, page) == Ok([])
    ensures Run(s, fetched, extract, now, page, ai, parse, writeOk) == Outcome(s.onEmpty.value, 0, None, None)
  {
  }

  /** A run that reaches the service makes at most `maxAttempts` calls, and
      at least one. */
  lemma RunCalls<R>(s: Scraper, fetched: Fetched<R>, extract: R -> Extracted, now: int, page: Page,
                    ai: Agent, parse: Parser, writeOk: nat -> bool)
    ensures Run(s, fetched, extract, now, page, ai, parse, writeOk).calls <= s.retry.maxAttempts
    ensures s.retry.maxAttempts >= 1 && BatchOf(s, fetched, extract, now, page).Ok? &&
            (BatchOf(s, fetched, extract, now, page).value != [] || s.onEmpty.None?) ==>
              Run(s, fetched, extract, now, page, ai, parse, writeOk).calls >= 1
  {
    RetryCalls(s.retry, ai, parse, writeOk);
  }

  /** A run that reaches the service ends with the loop's own outcome. */
  lemma RunReachesLoop<R>(s: Scraper, fetched: Fetched<R>, extract: R -> Extracted, now: int, page: Page,
                          ai: Agent, parse: Parser, writeOk: nat -> bool)
    requires BatchOf(s, fetched, extract, now, page).Ok?
    requires BatchOf(s, fetched, extract, now, page).value != [] || s.onEmpty.None?
    ensures Run(s, fetched, extract, now, page, ai, parse, writeOk) == Retried(s.retry, ai, parse, writeOk)
  {
  }

  /** The first attempt that succeeds decides a run that reaches the
      service. */
  lemma RunSucceeds<R>(s: Scraper, fetched: Fetched<R>, extract: R -> Extracted, now: int, page: Page,
                       ai: Agent, parse: Parser, writeOk: nat -> bool, j: nat)
    requires BatchOf(s, fetched, extract, now, page).Ok?
    requires BatchOf(s, fetched, extract, now, page).value != [] || s.onEmpty.None?
    requires j < s.retry.maxAttempts && Succeeds(s.retry, ai, parse, writeOk, j)
    requires forall i :: 0 <= i < j ==> !Succeeds(s.retry, ai, parse, writeOk, i)
    ensures var d := TryOnce(ai(j), parse, s.retry, writeOk(j)).data;
      Run(s, fetched, extract, now, page, ai, parse, writeOk) ==
        Outcome(if s.retry.returnsData then Returned(d) else Undefined, j + 1,
                if s.retry.writes then Some(d) else None, None)
  {
    RetrySucceeds(s.retry, ai, parse, writeOk, j);
  }

  /** A run that reaches the service and sees every attempt fail ends in the
      loop's exhaustion. */
  lemma RunExhausted<R>(s: Scraper, fetched: Fetched<R>, extract: R -> Extracted, now: int, page: Page,
                        ai: Agent, parse: Parser, writeOk: nat -> bool)
    requires BatchOf(s, fetched, extract, now, page).Ok?
    requires BatchOf(s, fetched, extract, now, page).value != [] || s.onEmpty.None?
    requires s.retry.maxAttempts >= 1
    requires forall i :: 0 <= i < s.retry.maxAttempts ==> !Succeeds(s.retry, ai, parse, writeOk, i)
    ensures Run(s, fetched, extract, now, page, ai, parse, writeOk) == Exhaustion(s.retry, ai, parse, writeOk)
  {
    RetryExhausted(s.retry, ai, parse, writeOk);
  }

  // ---------------------------------------------------------------------
  // What the listing comes to, by selection.

  /** The unique entries, sorted when the scraper sorts. */
  function Ordered<R>(s: Scraper, raws: seq<R>, extract: R -> Extracted): seq<Item>
    requires Collected(raws, extract).Ok?
  {
    var items := Collected(raws, extract).value;
    var unique := if s.shape.dedup then Dedup(items) else items;
    if s.shape.sort then SortNewestFirst(unique) else unique
  }

  /** Under the window selection the listing is a prefix of the sorted
      unique entries, newest first, duplicate-free, and it is either every
      recent entry (when there are at least `n`) or the first `n`. */
  lemma WindowListing<R>(s: Scraper, raws: seq<R>, extract: R -> Extracted, now: int, n: nat)
    requires s.shape == Shape(true, true, Window(n))
    requires Collected(raws, extract).Ok?
    ensures ListingOf(s, Ok(raws), extract, now).Ok?
    ensures var sorted := Ordered(s, raws, extract);
      var r := ListingOf(s, Ok(raws), extract, now).value;
      |r| <= |sorted| && r == sorted[..|r|] && NewestFirst(r) && DistinctLinks(r) &&
      (|Recent(sorted, now)| >= n ==> r == Recent(sorted, now)) &&
      (|Recent(sorted, now)| < n ==> r == Take(sorted, n))
  {
    ListedProperties(raws, extract, s.shape, now);
    var unique := Dedup(Collected(raws, extract).value);
    SortNewestFirstOrdered(unique);
    WindowOrTopPrefix(SortNewestFirst(unique), now, n);
  }

  /** Under a cap the listing is the first `n` of the unique entries (sorted
      when the scraper sorts), and duplicate-free. */
  lemma TopListing<R>(s: Scraper, raws: seq<R>, extract: R -> Extracted, now: int, n: nat)
    requires s.shape.dedup && s.shape.select == Top(n)
    requires Collected(raws, extract).Ok?
    ensures ListingOf(s, Ok(raws), extract, now).Ok?
    ensures var r := ListingOf(s, Ok(raws), extract, now).value;
      r == Take(Ordered(s, raws, extract), n) && |r| <= n && DistinctLinks(r) &&
      (s.shape.sort ==> NewestFirst(r))
  {
    ListedProperties(raws, extract, s.shape, now);
  }

  /** The batch carries each surviving item's own page content in listing
      order, and only items of the normalised listing. */
  lemma BatchFaithful<R>(s: Scraper, fetched: Fetched<R>, extract: R -> Extracted, now: int, page: Page)
    requires ListingOf(s, fetched, extract, now).Ok?
    ensures var items := ListingOf(s, fetched, extract, now).value;
      var batch := BatchOf(s, fetched, extract, now, page).value;
      forall k :: 0 <= k < |batch| ==>
        batch[k].item in items && Content(batch[k].item.link, s.enrich, page) == Ok(batch[k].content) &&
        (s.enrich.keep.TruthyContent? ==> Truthy(batch[k].content))
  {
    SurvivorsFaithful(ListingOf(s, fetched, extract, now).value, s.enrich, page);
  }
}
