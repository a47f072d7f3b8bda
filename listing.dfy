/** The listing stage every scraper shares: entries extracted from the
    listing page are pushed one by one, duplicates by link are dropped
    with a `Set` of seen links (first occurrence wins), the survivors are
    sorted in place, newest first, with a stable sort, and a selection
    (a two-day window with a fallback, or a plain cap) picks the result. */
module Listing {
  import opened Common

  /** One listing entry. `pubDate` is in milliseconds since the epoch; an
      `image` of None stands for `undefined` or `null`. */
  datatype Item = Item(title: string, link: string, pubDate: int, image: Option<string>)

  /** What the per-entry callback does with one raw entry: nothing, push an
      item, or throw, which rejects the whole listing. */
  datatype Extracted = Skip | Push(item: Item) | Abort(error: Error)

  // ---------------------------------------------------------------------
  // Collection: `$(selector).each(... articles.push(...))`.

  /** The items pushed for `raws`, or the error of the first entry whose
      callback throws. */
  function Collected<R>(raws: seq<R>, extract: R -> Extracted): (r: Result<seq<Item>>)
    ensures r.Ok? ==> |r.value| <= |raws|
  {
    if raws == [] then Ok([])
    else match Collected(raws[..|raws| - 1], extract)
      case Err(e) => Err(e)
      case Ok(items) =>
        match extract(raws[|raws| - 1])
        case Skip => Ok(items)
        case Push(x) => Ok(items + [x])
        case Abort(e) => Err(e)
  }

  /** Once a prefix of the entries has thrown, the whole listing has. */
  lemma {:induction false} CollectedErrPersists<R>(raws: seq<R>, extract: R -> Extracted, j: nat)
    requires j <= |raws| && Collected(raws[..j], extract).Err?
    ensures Collected(raws, extract) == Collected(raws[..j], extract)
    decreases |raws| - j
  {
    if j < |raws| {
      assert raws[..j + 1][..j] == raws[..j];
      CollectedErrPersists(raws, extract, j + 1);
    } else {
      assert raws[..j] == raws;
    }
  }

  /** An entry whose callback throws rejects the listing, wherever it is. */
  lemma CollectedAbort<R>(raws: seq<R>, extract: R -> Extracted, k: nat)
    requires k < |raws| && extract(raws[k]).Abort?
    ensures Collected(raws, extract).Err?
  {
    if Collected(raws[..k], extract).Err? {
      CollectedErrPersists(raws, extract, k);
    } else {
      assert raws[..k + 1][..k] == raws[..k];
      CollectedErrPersists(raws, extract, k + 1);
    }
  }

  /** The push loop over the listing entries. */
  method Collect<R>(raws: seq<R>, extract: R -> Extracted) returns (r: Result<seq<Item>>)
    ensures r == Collected(raws, extract)
  {
    var items: seq<Item> := [];
    for i := 0 to |raws|
      invariant Collected(raws[..i], extract) == Ok(items)
    {
      assert raws[..i + 1][..i] == raws[..i];
      match extract(raws[i]) {
        case Skip =>
        case Push(x) =>
          items := items + [x];
        case Abort(e) =>
          CollectedErrPersists(raws, extract, i + 1);
          return Err(e);
      }
    }
    assert raws[..|raws|] == raws;
    return Ok(items);
  }

  /** A property that every pushed item has holds of every collected item. */
  lemma {:induction false} CollectedSatisfies<R>(raws: seq<R>, extract: R -> Extracted, P: Item -> bool)
    requires forall k :: 0 <= k < |raws| && extract(raws[k]).Push? ==> P(extract(raws[k]).item)
    ensures Collected(raws, extract).Ok? ==>
      forall k :: 0 <= k < |Collected(raws, extract).value| ==> P(Collected(raws, extract).value[k])
  {
    if raws != [] {
      var init := raws[..|raws| - 1];
      assert forall k :: 0 <= k < |init| ==> init[k] == raws[k];
      CollectedSatisfies(init, extract, P);
    }
  }

  /** When no entry throws, the listing is collected. */
  lemma {:induction false} CollectedOk<R>(raws: seq<R>, extract: R -> Extracted)
    requires forall k :: 0 <= k < |raws| ==> !extract(raws[k]).Abort?
    ensures Collected(raws, extract).Ok?
  {
    if raws != [] {
      var init := raws[..|raws| - 1];
      assert forall k :: 0 <= k < |init| ==> init[k] == raws[k];
      CollectedOk(init, extract);
    }
  }

  /** When every entry pushes, the items are the entries' items in order
      (a plain `map`). */
  lemma {:induction false} CollectedAllPush<R>(raws: seq<R>, extract: R -> Extracted)
    requires forall k :: 0 <= k < |raws| ==> extract(raws[k]).Push?
    ensures Collected(raws, extract).Ok?
    ensures |Collected(raws, extract).value| == |raws|
    ensures forall k :: 0 <= k < |raws| ==> Collected(raws, extract).value[k] == extract(raws[k]).item
  {
    if raws != [] {
      var init := raws[..|raws| - 1];
      assert forall k :: 0 <= k < |init| ==> init[k] == raws[k];
      CollectedAllPush(init, extract);
    }
  }

  // ---------------------------------------------------------------------
  // Deduplication: `articles.filter(({link}) => seen.has(link) ? false : (seen.add(link), true))`.

  function Links(s: seq<Item>): set<string> {
    set k | 0 <= k < |s| :: s[k].link
  }

  lemma LinksAppend(s: seq<Item>, x: Item)
    ensures Links(s + [x]) == Links(s) + {x.link}
  {
    var t := s + [x];
    assert forall k :: 0 <= k < |s| ==> t[k] == s[k];
    assert t[|s|] == x;
  }

  lemma LinksSnoc(s: seq<Item>)
    requires s != []
    ensures Links(s) == Links(s[..|s| - 1]) + {s[|s| - 1].link}
  {
    assert s == s[..|s| - 1] + [s[|s| - 1]];
    LinksAppend(s[..|s| - 1], s[|s| - 1]);
  }

  predicate DistinctLinks(s: seq<Item>) {
    forall i, j :: 0 <= i < j < |s| ==> s[i].link != s[j].link
  }

  /** Keeps an item exactly when no earlier item has its link. */
  function Dedup(s: seq<Item>): seq<Item> {
    if s == [] then []
    else
      var p := Dedup(s[..|s| - 1]);
      if s[|s| - 1].link in Links(p) then p else p + [s[|s| - 1]]
  }

  /** Deduplication loses no link. */
  lemma {:induction false} DedupLinks(s: seq<Item>)
    ensures Links(Dedup(s)) == Links(s)
  {
    if s != [] {
      var init := s[..|s| - 1];
      var x := s[|s| - 1];
      DedupLinks(init);
      LinksAppend(Dedup(init), x);
      LinksSnoc(s);
    }
  }

  /** Each link appears at most once after deduplication. */
  lemma {:induction false} DedupDistinct(s: seq<Item>)
    ensures DistinctLinks(Dedup(s))
  {
    if s != [] {
      var init := s[..|s| - 1];
      DedupDistinct(init);
    }
  }

  /** Deduplication keeps only items of the input. */
  lemma {:induction false} DedupSubset(s: seq<Item>)
    ensures forall x :: x in Dedup(s) ==> x in s
  {
    if s != [] {
      var init := s[..|s| - 1];
      DedupSubset(init);
      assert forall x :: x in init ==> x in s;
    }
  }

  /** The first item carrying a link is kept. */
  lemma {:induction false} DedupKeepsFirst(s: seq<Item>, j: nat)
    requires j < |s|
    requires forall i :: 0 <= i < j ==> s[i].link != s[j].link
    ensures s[j] in Dedup(s)
  {
    if j == |s| - 1 {
      var init := s[..j];
      DedupLinks(init);
      assert s[j].link !in Links(init);
    } else {
      var init := s[..|s| - 1];
      assert init[j] == s[j];
      DedupKeepsFirst(init, j);
    }
  }

  /** What deduplication keeps of a prefix comes first, in the same order:
      the kept items keep their relative order. */
  lemma {:induction false} DedupMonotone(s: seq<Item>, i: nat)
    requires i <= |s|
    ensures Dedup(s[..i]) <= Dedup(s)
    decreases |s| - i
  {
    if i < |s| {
      DedupMonotone(s, i + 1);
      assert s[..i + 1][..i] == s[..i];
    } else {
      assert s[..i] == s;
    }
  }

  /** A listing whose links are already distinct is left as it is. */
  lemma {:induction false} DedupDistinctIdentity(s: seq<Item>)
    requires DistinctLinks(s)
    ensures Dedup(s) == s
  {
    if s != [] {
      DistinctInit(s);
      DedupDistinctIdentity(s[..|s| - 1]);
      DedupNewLast(s);
    }
  }

  /** An item whose link is new is kept after the unchanged others. */
  lemma {:induction false} DedupNewLast(s: seq<Item>)
    requires s != [] && Dedup(s[..|s| - 1]) == s[..|s| - 1]
    requires s[|s| - 1].link !in Links(s[..|s| - 1])
    ensures Dedup(s) == s
  {
    InitLast(s);
    assert Dedup(s) == s[..|s| - 1] + [s[|s| - 1]];
  }

  lemma InitLast<T>(s: seq<T>)
    requires s != []
    ensures s[..|s| - 1] + [s[|s| - 1]] == s
  {
  }

  /** Dropping the last item keeps the links distinct, and the last link is
      not among the others. */
  lemma DistinctInit(s: seq<Item>)
    requires s != [] && DistinctLinks(s)
    ensures DistinctLinks(s[..|s| - 1]) && s[|s| - 1].link !in Links(s[..|s| - 1])
  {
    var init := s[..|s| - 1];
    assert forall k :: 0 <= k < |init| ==> init[k] == s[k];
  }

  /** The filter with its `seen` set. */
  method DedupByLink(s: seq<Item>) returns (r: seq<Item>)
    ensures r == Dedup(s)
  {
    var seen: set<string> := {};
    r := [];
    for i := 0 to |s|
      invariant r == Dedup(s[..i])
      invariant seen == Links(r)
    {
      assert s[..i + 1][..i] == s[..i];
      if s[i].link !in seen {
        LinksAppend(r, s[i]);
        seen := seen + {s[i].link};
        r := r + [s[i]];
      }
    }
    assert s[..|s|] == s;
  }

  /** Every link with `prefix` put in front. */
  function PrefixLinks(s: seq<Item>, prefix: string): (r: seq<Item>)
    ensures |r| == |s|
    ensures forall k :: 0 <= k < |s| ==>
      r[k] == s[k].(link := prefix + s[k].link)
  {
    if s == [] then [] else PrefixLinks(s[..|s| - 1], prefix) + [s[|s| - 1].(link := prefix + s[|s| - 1].link)]
  }

  lemma PrefixedLinks(s: seq<Item>, prefix: string, l: string)
    ensures prefix + l in Links(PrefixLinks(s, prefix)) <==> l in Links(s)
  {
    var t := PrefixLinks(s, prefix);
    if prefix + l in Links(t) {
      var k :| 0 <= k < |t| && t[k].link == prefix + l;
      assert (prefix + l)[|prefix|..] == l;
      assert (prefix + s[k].link)[|prefix|..] == s[k].link;
    }
    if l in Links(s) {
      var k :| 0 <= k < |s| && s[k].link == l;
      assert t[k].link == prefix + l;
    }
  }

  /** Putting the same prefix in front of every link before deduplicating
      or after it makes no difference, because prefixing is injective. */
  lemma {:induction false} DedupPrefixCommute(s: seq<Item>, prefix: string)
    ensures Dedup(PrefixLinks(s, prefix)) == PrefixLinks(Dedup(s), prefix)
  {
    if s != [] {
      var init := s[..|s| - 1];
      var x := s[|s| - 1];
      var t := PrefixLinks(s, prefix);
      assert t[..|t| - 1] == PrefixLinks(init, prefix);
      DedupPrefixCommute(init, prefix);
      PrefixedLinks(Dedup(init), prefix, x.link);
      var d := Dedup(init);
      if x.link !in Links(d) {
        assert PrefixLinks(d + [x], prefix) == PrefixLinks(d, prefix) + [x.(link := prefix + x.link)];
      }
    }
  }

  // ---------------------------------------------------------------------
  // Sorting: `uniqueArticles.sort((a, b) => b.pubDate - a.pubDate)`, stable.

  predicate NewestFirst(s: seq<Item>) {
    forall i, j :: 0 <= i < j < |s| ==> s[i].pubDate >= s[j].pubDate
  }

  /** Inserts `x` after every item at least as new as it. */
  function Insert(p: seq<Item>, x: Item): seq<Item> {
    if p == [] then [x]
    else if p[|p| - 1].pubDate >= x.pubDate then p + [x]
    else Insert(p[..|p| - 1], x) + [p[|p| - 1]]
  }

  /** The stable newest-first order, as insertion sort builds it. */
  function SortNewestFirst(s: seq<Item>): seq<Item> {
    if s == [] then [] else Insert(SortNewestFirst(s[..|s| - 1]), s[|s| - 1])
  }

  /** The items of `s` with publication time `v`, in order. */
  function WithDate(s: seq<Item>, v: int): seq<Item> {
    if s == [] then []
    else WithDate(s[..|s| - 1], v) + (if s[|s| - 1].pubDate == v then [s[|s| - 1]] else [])
  }

  lemma {:induction false} WithDateAppend(a: seq<Item>, b: seq<Item>, v: int)
    ensures WithDate(a + b, v) == WithDate(a, v) + WithDate(b, v)
    decreases |b|
  {
    if b == [] {
      assert a + b == a;
    } else {
      assert (a + b)[..|a + b| - 1] == a + b[..|b| - 1];
      WithDateAppend(a, b[..|b| - 1], v);
    }
  }

  /** Inserting adds `x` and nothing else. */
  lemma {:induction false} InsertPermutes(p: seq<Item>, x: Item)
    ensures multiset(Insert(p, x)) == multiset(p) + multiset{x}
  {
    if p != [] && p[|p| - 1].pubDate < x.pubDate {
      var init := p[..|p| - 1];
      InsertPermutes(init, x);
      MultisetSnoc(p);
    }
  }

  /** Inserting into a newest-first list keeps it newest first. */
  lemma {:induction false} InsertNewestFirst(p: seq<Item>, x: Item)
    requires NewestFirst(p)
    ensures NewestFirst(Insert(p, x))
  {
    if p != [] && p[|p| - 1].pubDate < x.pubDate {
      var init := p[..|p| - 1];
      var last := p[|p| - 1];
      InsertNewestFirst(init, x);
      InsertPermutes(init, x);
      var q := Insert(init, x);
      forall k | 0 <= k < |q|
        ensures q[k].pubDate >= last.pubDate
      {
        assert q[k] in multiset(q);
        if q[k] != x {
          assert q[k] in init;
        }
      }
    }
  }

  /** Inserting keeps the items of each publication time in their order,
      with `x` after the ones already there. */
  lemma {:induction false} InsertStable(p: seq<Item>, x: Item, v: int)
    ensures WithDate(Insert(p, x), v) == WithDate(p, v) + WithDate([x], v)
  {
    if p == [] {
    } else if p[|p| - 1].pubDate >= x.pubDate {
      WithDateAppend(p, [x], v);
    } else {
      var init := p[..|p| - 1];
      var last := p[|p| - 1];
      InsertStable(init, x, v);
      WithDateAppend(Insert(init, x), [last], v);
      WithDateSingle(last, v);
    }
  }

  lemma WithDateSingle(x: Item, v: int)
    ensures WithDate([x], v) == (if x.pubDate == v then [x] else [])
  {
    assert [x][..0] == [];
  }

  /** The sort orders newest first. */
  lemma {:induction false} SortNewestFirstOrdered(s: seq<Item>)
    ensures NewestFirst(SortNewestFirst(s))
  {
    if s != [] {
      SortNewestFirstOrdered(s[..|s| - 1]);
      InsertNewestFirst(SortNewestFirst(s[..|s| - 1]), s[|s| - 1]);
    }
  }

  /** The sort is a permutation. */
  lemma {:induction false} SortNewestFirstPermutes(s: seq<Item>)
    ensures multiset(SortNewestFirst(s)) == multiset(s)
  {
    if s != [] {
      var init := s[..|s| - 1];
      var x := s[|s| - 1];
      SortNewestFirstPermutes(init);
      InsertPermutes(SortNewestFirst(init), x);
      MultisetSnoc(s);
    }
  }

  lemma MultisetSnoc<T>(s: seq<T>)
    requires s != []
    ensures multiset(s) == multiset(s[..|s| - 1]) + multiset{s[|s| - 1]}
  {
    assert s == s[..|s| - 1] + [s[|s| - 1]];
  }

  /** The sort is stable: items with equal publication times keep their
      extraction order. */
  lemma {:induction false} SortNewestFirstStable(s: seq<Item>, v: int)
    ensures WithDate(SortNewestFirst(s), v) == WithDate(s, v)
  {
    if s != [] {
      var init := s[..|s| - 1];
      var x := s[|s| - 1];
      SortNewestFirstStable(init, v);
      InsertStable(SortNewestFirst(init), x, v);
      assert WithDate([x], v) == (if x.pubDate == v then [x] else []) by {
        assert [x][..0] == [];
      }
    }
  }

  /** When every comparison says "equal" (all publication times are the
      same), the sort leaves the order unchanged. */
  lemma {:induction false} SortAllEqual(s: seq<Item>, c: int)
    requires forall k :: 0 <= k < |s| ==> s[k].pubDate == c
    ensures SortNewestFirst(s) == s
  {
    if s != [] {
      var init := s[..|s| - 1];
      SortAllEqual(init, c);
      assert s == init + [s[|s| - 1]];
    }
  }

  /** `x` goes right after the last item at least as new as it: every item
      behind that place is older. */
  lemma {:induction false} InsertAt(p: seq<Item>, j: nat, x: Item)
    requires j <= |p| && (j == 0 || p[j - 1].pubDate >= x.pubDate)
    requires forall k :: j <= k < |p| ==> p[k].pubDate < x.pubDate
    ensures Insert(p, x) == p[..j] + [x] + p[j..]
  {
    if j < |p| {
      var init := p[..|p| - 1];
      InsertAt(init, j, x);
      SnocSplit(p, j);
    } else {
      assert p[..j] == p && p[j..] == [];
    }
  }

  lemma SnocSplit<T>(p: seq<T>, j: nat)
    requires j < |p|
    ensures p[..|p| - 1][..j] == p[..j]
    ensures p[..|p| - 1][j..] + [p[|p| - 1]] == p[j..]
  {
  }

  /** One pass of insertion sort: moves `a[i]` left past every item of
      the sorted `a[..i]` that is older than it. */
  method InsertLast(a: array<Item>, i: nat)
    requires i < a.Length
    modifies a
    ensures a[..i + 1] == Insert(old(a[..i]), old(a[i]))
    ensures a[i + 1..] == old(a[i + 1..])
  {
    var x := a[i];
    ghost var p := a[..i];
    var j := ShiftOlder(a, i, x);
    a[j] := x;
    InsertAt(p, j, x);
    Assemble(a[..i + 1], p, j, x);
    assert a[i + 1..] == old(a[i + 1..]);
  }

  /** Shifts the items of `a[..i]` that are older than `x` one place to
      the right, from the back, and returns the hole left for `x`. */
  method ShiftOlder(a: array<Item>, i: nat, x: Item) returns (j: nat)
    requires i < a.Length
    modifies a
    ensures j <= i
    ensures forall k {:trigger a[k]} :: 0 <= k < j ==> a[k] == old(a[k])
    ensures forall k {:trigger a[k]} :: j < k <= i ==> a[k] == old(a[k - 1])
    ensures forall k {:trigger a[k]} :: i < k < a.Length ==> a[k] == old(a[k])
    ensures j == 0 || old(a[j - 1]).pubDate >= x.pubDate
    ensures forall k {:trigger old(a[k])} :: j <= k < i ==> old(a[k]).pubDate < x.pubDate
  {
    j := i;
    while j > 0 && a[j - 1].pubDate < x.pubDate
      invariant 0 <= j <= i
      invariant forall k {:trigger a[k]} :: 0 <= k < j ==> a[k] == old(a[k])
      invariant forall k {:trigger a[k]} :: j < k <= i ==> a[k] == old(a[k - 1])
      invariant forall k {:trigger a[k]} :: i < k < a.Length ==> a[k] == old(a[k])
      invariant forall k {:trigger old(a[k])} :: j <= k < i ==> old(a[k]).pubDate < x.pubDate
    {
      a[j] := a[j - 1];
      j := j - 1;
    }
  }

  lemma Assemble(b: seq<Item>, p: seq<Item>, j: nat, x: Item)
    requires |b| == |p| + 1 && j <= |p| && b[j] == x
    requires forall k {:trigger b[k]} :: 0 <= k < j ==> b[k] == p[k]
    requires forall k {:trigger b[k]} :: j < k <= |p| ==> b[k] == p[k - 1]
    ensures b == p[..j] + [x] + p[j..]
  {
  }

  /** Insertion sort in place on the array of unique items. */
  method SortInPlace(a: array<Item>)
    modifies a
    ensures a[..] == SortNewestFirst(old(a[..]))
  {
    ghost var s := a[..];
    for i := 0 to a.Length
      invariant a[..i] == SortNewestFirst(s[..i])
      invariant a[i..] == s[i..]
    {
      assert a[i] == s[i];
      InsertLast(a, i);
      assert s[..i + 1][..i] == s[..i];
    }
    assert s[..a.Length] == s;
  }

  // ---------------------------------------------------------------------
  // Recency and selection.

  /** Two days in milliseconds: `(now - pubDate) / (1000*60*60*24) <= 2`
      holds exactly when `now - pubDate <= WindowMs`. */
  const WindowMs: int := 2 * 24 * 60 * 60 * 1000

  predicate IsRecent(now: int, x: Item) {
    now - x.pubDate <= WindowMs
  }

  /** `uniqueArticles.filter(({pubDate}) => diffDays <= 2)`. */
  function Recent(s: seq<Item>, now: int): (r: seq<Item>)
    ensures |r| <= |s|
  {
    if s == [] then []
    else Recent(s[..|s| - 1], now) + (if IsRecent(now, s[|s| - 1]) then [s[|s| - 1]] else [])
  }

  lemma {:induction false} RecentAll(s: seq<Item>, now: int)
    requires forall k :: 0 <= k < |s| ==> IsRecent(now, s[k])
    ensures Recent(s, now) == s
  {
    if s != [] {
      RecentAll(s[..|s| - 1], now);
      assert s == s[..|s| - 1] + [s[|s| - 1]];
    }
  }

  lemma {:induction false} RecentNone(s: seq<Item>, now: int)
    requires forall k :: 0 <= k < |s| ==> !IsRecent(now, s[k])
    ensures Recent(s, now) == []
  {
    if s != [] {
      RecentNone(s[..|s| - 1], now);
    }
  }

  /** In a newest-first list the recent items form a prefix. */
  lemma {:induction false} RecentIsPrefix(s: seq<Item>, now: int)
    requires NewestFirst(s)
    ensures Recent(s, now) == s[..|Recent(s, now)|]
  {
    if s != [] {
      var init := s[..|s| - 1];
      var last := s[|s| - 1];
      RecentIsPrefix(init, now);
      if IsRecent(now, last) {
        assert forall k :: 0 <= k < |init| ==> init[k].pubDate >= last.pubDate;
        RecentAll(init, now);
        assert s == init + [last];
      }
    }
  }

  /** `slice(0, n)`. */
  function Take(s: seq<Item>, n: nat): (r: seq<Item>)
    ensures |r| == if |s| <= n then |s| else n
    ensures r == s[..|r|]
  {
    if |s| <= n then s else s[..n]
  }

  /** `recent.length >= n ? recent : uniqueArticles.slice(0, n)`. */
  function WindowOrTop(s: seq<Item>, now: int, n: nat): seq<Item> {
    var recent := Recent(s, now);
    if |recent| >= n then recent else Take(s, n)
  }

  /** On a newest-first list the selection is a prefix of the list that
      contains every recent item and at least `min(n, |s|)` items. */
  lemma WindowOrTopPrefix(s: seq<Item>, now: int, n: nat)
    requires NewestFirst(s)
    ensures var r := WindowOrTop(s, now, n);
      r == s[..|r|] && Recent(s, now) <= r && |r| >= (if |s| <= n then |s| else n)
  {
    RecentIsPrefix(s, now);
  }

  /** The items whose link is not in `links`, in order. */
  function NotLinked(s: seq<Item>, links: set<string>): seq<Item> {
    if s == [] then []
    else NotLinked(s[..|s| - 1], links) + (if s[|s| - 1].link in links then [] else [s[|s| - 1]])
  }

  /** The recent items followed by the other unique items, cut to `n`,
      unless there are at least `n` recent items. */
  function WindowThenRest(s: seq<Item>, now: int, n: nat): seq<Item> {
    var recent := Recent(s, now);
    if |recent| >= n then recent
    else Take(recent + NotLinked(s, Links(recent)), n)
  }

  lemma {:induction false} NotLinkedSuffix(s: seq<Item>, k: nat, m: nat)
    requires k <= m <= |s| && DistinctLinks(s)
    ensures NotLinked(s[..m], Links(s[..k])) == s[k..m]
  {
    var L := Links(s[..k]);
    if m == k {
      forall i | 0 <= i < k ensures s[..k][i].link in L {}
      NotLinkedAllIn(s[..k], L);
    } else {
      NotLinkedSuffix(s, k, m - 1);
      LaterNotLinked(s, k, m - 1);
      SliceSnoc(s, k, m);
    }
  }

  /** An item after the first `k` has a link none of them has. */
  lemma LaterNotLinked(s: seq<Item>, k: nat, j: nat)
    requires k <= j < |s| && DistinctLinks(s)
    ensures s[j].link !in Links(s[..k])
  {
    forall i | 0 <= i < k ensures s[..k][i].link != s[j].link {
      assert s[..k][i] == s[i];
    }
  }

  lemma SliceSnoc<T>(s: seq<T>, k: nat, m: nat)
    requires k < m <= |s|
    ensures s[..m][..m - 1] == s[..m - 1] && s[..m][m - 1] == s[m - 1]
    ensures s[k..m] == s[k..m - 1] + [s[m - 1]]
  {
  }

  lemma {:induction false} NotLinkedAllIn(s: seq<Item>, links: set<string>)
    requires forall i :: 0 <= i < |s| ==> s[i].link in links
    ensures NotLinked(s, links) == []
  {
    if s != [] {
      NotLinkedAllIn(s[..|s| - 1], links);
    }
  }

  /** On a newest-first list with distinct links, the recent-then-rest
      selection is the same as the window-or-top selection: both are the
      recent items when there are at least `n`, the first `n` otherwise. */
  lemma WindowThenRestIsWindowOrTop(s: seq<Item>, now: int, n: nat)
    requires NewestFirst(s) && DistinctLinks(s)
    ensures WindowThenRest(s, now, n) == WindowOrTop(s, now, n)
  {
    var recent := Recent(s, now);
    RecentIsPrefix(s, now);
    var k := |recent|;
    NotLinkedSuffix(s, k, |s|);
    assert s[..|s|] == s;
    assert recent + s[k..] == s;
  }

  // ---------------------------------------------------------------------
  // The whole listing stage.

  /** How a scraper narrows its unique items down. */
  datatype Selection =
    | All                       // `return uniqueArticles`
    | Top(n: nat)               // `slice(0, n)`
    | Window(n: nat)            // `recent.length >= n ? recent : slice(0, n)`
    | WindowRest(n: nat)        // recent items, then the rest, cut to n

  datatype Shape = Shape(dedup: bool, sort: bool, select: Selection)

  function Select(sel: Selection, s: seq<Item>, now: int): seq<Item> {
    match sel
    case All => s
    case Top(n) => Take(s, n)
    case Window(n) => WindowOrTop(s, now, n)
    case WindowRest(n) => WindowThenRest(s, now, n)
  }

  function Normalized(items: seq<Item>, shape: Shape, now: int): seq<Item> {
    var unique := if shape.dedup then Dedup(items) else items;
    var sorted := if shape.sort then SortNewestFirst(unique) else unique;
    Select(shape.select, sorted, now)
  }

  /** The listing of one scraper: collect, deduplicate, sort, select. */
  function Listed<R>(raws: seq<R>, extract: R -> Extracted, shape: Shape, now: int): Result<seq<Item>> {
    match Collected(raws, extract)
    case Err(e) => Err(e)
    case Ok(items) => Ok(Normalized(items, shape, now))
  }

  /** The listing code as the scrapers run it: the push loop, the `seen`
      filter, the in-place sort and the selection. */
  method BuildListing<R>(raws: seq<R>, extract: R -> Extracted, shape: Shape, now: int)
    returns (r: Result<seq<Item>>)
    ensures r == Listed(raws, extract, shape, now)
  {
    var collected := Collect(raws, extract);
    if collected.Err? {
      return Err(collected.error);
    }
    var unique := collected.value;
    if shape.dedup {
      unique := DedupByLink(unique);
    }
    if shape.sort {
      var a := new Item[|unique|](i requires 0 <= i < |unique| => unique[i]);
      assert a[..] == unique;
      SortInPlace(a);
      unique := a[..];
    }
    return Ok(Select(shape.select, unique, now));
  }

  /** Every listing the stage returns is duplicate-free when it
      deduplicates, and newest first when it sorts and then takes a prefix. */
  lemma ListedProperties<R>(raws: seq<R>, extract: R -> Extracted, shape: Shape, now: int)
    requires Listed(raws, extract, shape, now).Ok?
    ensures shape.dedup ==> DistinctLinks(Listed(raws, extract, shape, now).value)
    ensures shape.sort && !shape.select.WindowRest? ==> NewestFirst(Listed(raws, extract, shape, now).value)
  {
    var items := Collected(raws, extract).value;
    if shape.dedup {
      NormalizedDistinct(items, shape, now);
    }
    if shape.sort && !shape.select.WindowRest? {
      NormalizedOrdered(items, shape, now);
    }
  }

  lemma NormalizedDistinct(items: seq<Item>, shape: Shape, now: int)
    requires shape.dedup
    ensures DistinctLinks(Normalized(items, shape, now))
  {
    var unique := Dedup(items);
    var sorted := if shape.sort then SortNewestFirst(unique) else unique;
    DedupDistinct(items);
    if shape.sort {
      SortKeepsDistinct(unique);
    }
    match shape.select
    case All =>
    case Top(n) =>
    case Window(n) =>
      RecentSubseq(sorted, now);
    case WindowRest(n) =>
      WindowThenRestDistinct(sorted, now, n);
  }

  lemma NormalizedOrdered(items: seq<Item>, shape: Shape, now: int)
    requires shape.sort && !shape.select.WindowRest?
    ensures NewestFirst(Normalized(items, shape, now))
  {
    var unique := if shape.dedup then Dedup(items) else items;
    var sorted := SortNewestFirst(unique);
    SortNewestFirstOrdered(unique);
    if shape.select.Window? {
      RecentIsPrefix(sorted, now);
    }
  }

  lemma {:induction false} InsertLinks(p: seq<Item>, x: Item)
    ensures Links(Insert(p, x)) == Links(p) + {x.link}
    ensures DistinctLinks(p) && x.link !in Links(p) ==> DistinctLinks(Insert(p, x))
  {
    if p == [] {
      LinksAppend(p, x);
      assert p + [x] == [x];
    } else if p[|p| - 1].pubDate >= x.pubDate {
      LinksAppend(p, x);
    } else {
      var init := p[..|p| - 1];
      var last := p[|p| - 1];
      InsertLinks(init, x);
      LinksAppend(Insert(init, x), last);
      LinksSnoc(p);
      if DistinctLinks(p) && x.link !in Links(p) {
        assert last.link !in Links(init);
      }
    }
  }

  /** Sorting keeps the set of links and a duplicate-free list stays so. */
  lemma {:induction false} SortKeepsDistinct(s: seq<Item>)
    ensures Links(SortNewestFirst(s)) == Links(s)
    ensures DistinctLinks(s) ==> DistinctLinks(SortNewestFirst(s))
  {
    if s != [] {
      var init := s[..|s| - 1];
      var x := s[|s| - 1];
      SortKeepsDistinct(init);
      InsertLinks(SortNewestFirst(init), x);
      LinksSnoc(s);
    }
  }

  lemma {:induction false} RecentSubseq(s: seq<Item>, now: int)
    requires DistinctLinks(s)
    ensures DistinctLinks(Recent(s, now))
    ensures forall x :: x in Recent(s, now) ==> x in s
  {
    if s != [] {
      var init := s[..|s| - 1];
      RecentSubseq(init, now);
      assert forall x :: x in init ==> x in s;
      var last := s[|s| - 1];
      forall x | x in Recent(init, now)
        ensures x.link != last.link
      {
        var k :| 0 <= k < |init| && init[k] == x;
        assert s[k] == x;
      }
    }
  }

  lemma WindowThenRestDistinct(s: seq<Item>, now: int, n: nat)
    requires DistinctLinks(s)
    ensures DistinctLinks(WindowThenRest(s, now, n))
  {
    var recent := Recent(s, now);
    RecentSubseq(s, now);
    if |recent| < n {
      var rest := NotLinked(s, Links(recent));
      NotLinkedSubseq(s, Links(recent));
      var all := recent + rest;
      forall i, j | 0 <= i < j < |all|
        ensures all[i].link != all[j].link
      {
        if j < |recent| {
        } else if i >= |recent| {
          assert all[i] == rest[i - |recent|] && all[j] == rest[j - |recent|];
        } else {
          assert all[i] == recent[i];
          assert all[i].link in Links(recent);
          assert all[j] == rest[j - |recent|];
        }
      }
      assert Take(all, n) == all[..|Take(all, n)|];
    }
  }

  lemma {:induction false} NotLinkedSubseq(s: seq<Item>, links: set<string>)
    requires DistinctLinks(s)
    ensures DistinctLinks(NotLinked(s, links))
    ensures forall x :: x in NotLinked(s, links) ==> x.link !in links
  {
    if s != [] {
      var init := s[..|s| - 1];
      NotLinkedSubseq(init, links);
      NotLinkedMembers(init, links);
      var last := s[|s| - 1];
      forall x | x in NotLinked(init, links)
        ensures x.link != last.link
      {
        var k :| 0 <= k < |init| && init[k] == x;
        assert s[k] == x;
      }
    }
  }

  lemma {:induction false} NotLinkedMembers(s: seq<Item>, links: set<string>)
    ensures forall x :: x in NotLinked(s, links) ==> x in s
  {
    if s != [] {
      var init := s[..|s| - 1];
      NotLinkedMembers(init, links);
      assert forall x :: x in init ==> x in s;
    }
  }
}
