/** The enrichment stage: each listed item's page is fetched, its text is
    extracted, and the prepared records that survive go to the
    transformation service. The pages are an input: `page(url, selector)`
    is the text of every element the selector matches, in document order,
    or None when the fetch rejects. `Promise.allSettled` keeps the order of
    its input, so the stage is a filter-map over the listing. */
module Enrich {
  import opened Common
  import opened Text
  import opened Listing

  /** The text of the elements a selector matches on a page, or None. */
  type Page = (string, string) -> Option<seq<string>>

  /** One prepared record: the listing item and its content (None stands
      for `null`). */
  datatype Prepared = Prepared(item: Item, content: Option<string>)

  /** How the element texts become the content. */
  datatype Style =
    | Raw(sep: string)       // `texts.push($(el).text())`, then `join(sep)`
    | Trimmed(sep: string)   // only non-empty `text().trim()`, then `join(sep)`

  /** What the content helper does when the fetch rejects. */
  datatype OnFailure = Propagate | GiveNull | GiveEmpty

  /** Which settled records are passed on. A record is an object, so a
      fulfilled record is kept whether the filter asks only for
      `status === "fulfilled"` or also for a truthy value; the scrapers
      that map a failed page to `null` are modelled by `Propagate`, which
      drops the item the same way. */
  datatype Keep =
    | AnyContent    // every fulfilled record
    | TruthyContent // `if (!content) return null`: records with falsy content dropped

  datatype Config = Config(selector: string -> string, style: Style, onFailure: OnFailure, keep: Keep)

  /** The non-empty `text().trim()` of the elements, in order:
      `if (text) paragraphs.push(text)`. */
  function NonEmptyTrimmed(texts: seq<string>): (r: seq<string>)
    ensures |r| <= |texts|
  {
    if texts == [] then []
    else
      var t := Trim(texts[|texts| - 1]);
      NonEmptyTrimmed(texts[..|texts| - 1]) + (if t == "" then [] else [t])
  }

  /** Every text is white space only. */
  predicate AllBlank(texts: seq<string>) {
    texts == [] || (AllBlank(texts[..|texts| - 1]) && Trim(texts[|texts| - 1]) == "")
  }

  lemma {:induction false} NonEmptyTrimmedEmpty(texts: seq<string>)
    ensures NonEmptyTrimmed(texts) == [] <==> AllBlank(texts)
  {
    if texts != [] {
      NonEmptyTrimmedEmpty(texts[..|texts| - 1]);
    }
  }

  lemma {:induction false} NonEmptyTrimmedNonEmpty(texts: seq<string>)
    ensures forall k :: 0 <= k < |NonEmptyTrimmed(texts)| ==> NonEmptyTrimmed(texts)[k] != ""
  {
    if texts != [] {
      NonEmptyTrimmedNonEmpty(texts[..|texts| - 1]);
    }
  }

  function Extract(texts: seq<string>, style: Style): string {
    match style
    case Raw(sep) => Join(texts, sep)
    case Trimmed(sep) => Join(NonEmptyTrimmed(texts), sep)
  }

  /** Trimmed content is empty exactly when every matched element's text
      is white space only (or nothing matched). */
  lemma TrimmedContentEmpty(texts: seq<string>, sep: string)
    ensures Extract(texts, Trimmed(sep)) == "" <==> AllBlank(texts)
  {
    NonEmptyTrimmedNonEmpty(texts);
    JoinEmptyIff(NonEmptyTrimmed(texts), sep);
    NonEmptyTrimmedEmpty(texts);
  }

  /** The content helper's result for one page: Err when it rejects,
      otherwise `Ok(content)` with None for `null`. */
  function Content(url: string, cfg: Config, page: Page): (r: Result<Option<string>>)
    ensures r.Err? <==> page(url, cfg.selector(url)).None? && cfg.onFailure.Propagate?
    ensures r.Ok? && r.value.None? <==> page(url, cfg.selector(url)).None? && cfg.onFailure.GiveNull?
  {
    match page(url, cfg.selector(url))
    case Some(texts) => Ok(Some(Extract(texts, cfg.style)))
    case None =>
      match cfg.onFailure
      case Propagate => Err(FetchFailed)
      case GiveNull => Ok(None)
      case GiveEmpty => Ok(Some(""))
  }

  /** The fulfilled value a record settles to, None when it is `null` or
      when the promise rejects, and whether it is passed on. */
  function Settle(x: Item, cfg: Config, page: Page): Option<Prepared> {
    match Content(x.link, cfg, page)
    case Err(_) => None
    case Ok(c) =>
      if cfg.keep.TruthyContent? && !Truthy(c) then None else Some(Prepared(x, c))
  }

  /** The prepared records that are passed on, in listing order. */
  function Survivors(items: seq<Item>, cfg: Config, page: Page): (r: seq<Prepared>)
    ensures |r| <= |items|
  {
    if items == [] then []
    else
      var s := Settle(items[|items| - 1], cfg, page);
      Survivors(items[..|items| - 1], cfg, page) + (if s.Some? then [s.value] else [])
  }

  /** The stage maps each part of the listing on its own: the survivors of
      a concatenation are the survivors of each part in the same order, so
      the order of the listing is kept. */
  lemma {:induction false} SurvivorsAppend(a: seq<Item>, b: seq<Item>, cfg: Config, page: Page)
    ensures Survivors(a + b, cfg, page) == Survivors(a, cfg, page) + Survivors(b, cfg, page)
    decreases |b|
  {
    if b == [] {
      assert a + b == a;
    } else {
      assert (a + b)[..|a + b| - 1] == a + b[..|b| - 1];
      SurvivorsAppend(a, b[..|b| - 1], cfg, page);
    }
  }

  /** One item survives exactly when it settles to a record. */
  lemma SurvivorsOne(x: Item, cfg: Config, page: Page)
    ensures Survivors([x], cfg, page) == (if Settle(x, cfg, page).Some? then [Settle(x, cfg, page).value] else [])
  {
    assert [x][..0] == [];
  }

  /** Every survivor belongs to the listing, carries its item's own page
      content, and, when content must be truthy, has non-empty content. */
  lemma {:induction false} SurvivorsFaithful(items: seq<Item>, cfg: Config, page: Page)
    ensures forall k :: 0 <= k < |Survivors(items, cfg, page)| ==>
      var p := Survivors(items, cfg, page)[k];
      p.item in items && Content(p.item.link, cfg, page) == Ok(p.content) &&
      (cfg.keep.TruthyContent? ==> Truthy(p.content))
  {
    if items != [] {
      var init := items[..|items| - 1];
      SurvivorsFaithful(init, cfg, page);
      assert forall x :: x in init ==> x in items;
    }
  }

  /** When nothing is dropped (no rejecting helper, every record kept), the
      survivors are the listing's items one for one. */
  lemma {:induction false} SurvivorsKeepAll(items: seq<Item>, cfg: Config, page: Page)
    requires !cfg.onFailure.Propagate? && cfg.keep.AnyContent?
    ensures |Survivors(items, cfg, page)| == |items|
    ensures forall k :: 0 <= k < |items| ==> Survivors(items, cfg, page)[k].item == items[k]
  {
    if items != [] {
      var init := items[..|items| - 1];
      assert forall k :: 0 <= k < |init| ==> init[k] == items[k];
      SurvivorsKeepAll(init, cfg, page);
    }
  }

  /** A rejected or falsy item is dropped: it contributes nothing. */
  lemma DroppedItem(x: Item, cfg: Config, page: Page)
    requires Content(x.link, cfg, page).Err? ||
      (cfg.keep.TruthyContent? && !Truthy(Content(x.link, cfg, page).value))
    ensures Survivors([x], cfg, page) == []
  {
    SurvivorsOne(x, cfg, page);
  }

  /** The sequential variant: an index loop that awaits each page in turn
      and pushes one record per item. */
  method PrepareInOrder(items: seq<Item>, cfg: Config, page: Page) returns (prepared: seq<Prepared>)
    ensures prepared == Survivors(items, cfg, page)
  {
    prepared := [];
    for i := 0 to |items|
      invariant prepared == Survivors(items[..i], cfg, page)
    {
      assert items[..i + 1][..i] == items[..i];
      var s := Settle(items[i], cfg, page);
      if s.Some? {
        prepared := prepared + [s.value];
      }
    }
    assert items[..|items|] == items;
  }
}
