/** `Object.fromEntries(Object.entries(v).map(([k, x]) => [k.toLowerCase(), x]))`:
    the horoscope scraper's rewrite of a parsed reply so that every
    category key is in lower case. */
module Entries {
  import opened Common
  import opened Text

  type Entry = (string, Json)

  /** The entries `(String(i), vs[i])` of an array-like value. */
  function Indexed(vs: seq<Json>): (r: seq<Entry>)
    ensures |r| == |vs|
    ensures forall i :: 0 <= i < |vs| ==> r[i] == (NatToString(i), vs[i])
  {
    if vs == [] then [] else Indexed(vs[..|vs| - 1]) + [(NatToString(|vs| - 1), vs[|vs| - 1])]
  }

  /** The one-character strings of `s`. */
  function Chars(s: string): (r: seq<Json>)
    ensures |r| == |s|
    ensures forall i :: 0 <= i < |s| ==> r[i] == JStr([s[i]])
  {
    if s == [] then [] else Chars(s[..|s| - 1]) + [JStr([s[|s| - 1]])]
  }

  /** `Object.entries(v)` on a parsed value: `null` throws, a number or a
      boolean has no own enumerable properties, a string and an array have
      one per index, and an object lists its own properties. */
  function EntriesOf(v: Json): (r: Result<seq<Entry>>)
    ensures r.Err? <==> v.JNull?
    ensures v.JObj? ==> r == Ok(v.entries)
  {
    match v
    case JNull => Err(TypeError)
    case JBool(_) => Ok([])
    case JNum(_) => Ok([])
    case JStr(s) => Ok(Indexed(Chars(s)))
    case JArr(items) => Ok(Indexed(items))
    case JObj(es) => Ok(es)
  }

  function Keys(es: seq<Entry>): (r: seq<string>)
    ensures |r| == |es|
    ensures forall i :: 0 <= i < |es| ==> r[i] == es[i].0
  {
    if es == [] then [] else Keys(es[..|es| - 1]) + [es[|es| - 1].0]
  }

  predicate DistinctKeys(es: seq<Entry>) {
    forall i, j :: 0 <= i < j < |es| ==> es[i].0 != es[j].0
  }

  /** The position of the property named `k`, if there is one. */
  function Position(es: seq<Entry>, k: string): (r: Option<nat>)
    ensures r.Some? ==> r.value < |es| && es[r.value].0 == k
    ensures r.None? ==> forall i :: 0 <= i < |es| ==> es[i].0 != k
  {
    if es == [] then None
    else if es[|es| - 1].0 == k then Some(|es| - 1)
    else Position(es[..|es| - 1], k)
  }

  /** The value a property read finds: the last entry with the key. */
  function Lookup(es: seq<Entry>, k: string): Option<Json> {
    if es == [] then None
    else if es[|es| - 1].0 == k then Some(es[|es| - 1].1)
    else Lookup(es[..|es| - 1], k)
  }

  /** A read finds a value exactly when some entry has the key. */
  lemma {:induction false} LookupFound(es: seq<Entry>, k: string)
    ensures Lookup(es, k).Some? <==> k in Keys(es)
  {
    if es != [] {
      var init := es[..|es| - 1];
      LookupFound(init, k);
      assert Keys(es) == Keys(init) + [es[|es| - 1].0];
    }
  }

  /** `Object.fromEntries(es)`: each entry is a property assignment, so a
      repeated key keeps the place of its first assignment and the value of
      its last. */
  function FromEntries(es: seq<Entry>): (r: seq<Entry>)
    ensures |r| <= |es|
  {
    if es == [] then []
    else
      var p := FromEntries(es[..|es| - 1]);
      var e := es[|es| - 1];
      match Position(p, e.0)
      case Some(i) => p[i := e]
      case None => p + [e]
  }

  /** The key and value of every entry, with the key lowered. */
  function LowerKeys(es: seq<Entry>): (r: seq<Entry>)
    ensures |r| == |es|
    ensures forall i :: 0 <= i < |es| ==> r[i] == (ToLower(es[i].0), es[i].1)
  {
    if es == [] then [] else LowerKeys(es[..|es| - 1]) + [(ToLower(es[|es| - 1].0), es[|es| - 1].1)]
  }

  /** The whole rewrite; Err when `Object.entries` throws. */
  function LowercaseKeys(v: Json): (r: Result<Json>)
    ensures r.Err? <==> v.JNull?
    ensures r.Ok? ==> r.value.JObj?
  {
    match EntriesOf(v)
    case Err(e) => Err(e)
    case Ok(es) => Ok(JObj(FromEntries(LowerKeys(es))))
  }

  // ---------------------------------------------------------------------

  lemma KeysAppend(es: seq<Entry>, e: Entry)
    ensures Keys(es + [e]) == Keys(es) + [e.0]
  {
    assert (es + [e])[..|es|] == es;
  }

  /** `fromEntries` yields one property per distinct key, the keys being
      exactly those of its input. */
  lemma {:induction false} FromEntriesKeys(es: seq<Entry>)
    ensures DistinctKeys(FromEntries(es))
    ensures forall k :: k in Keys(FromEntries(es)) <==> k in Keys(es)
  {
    if es != [] {
      var init := es[..|es| - 1];
      var e := es[|es| - 1];
      var p := FromEntries(init);
      FromEntriesKeys(init);
      assert es == init + [e];
      KeysAppend(init, e);
      match Position(p, e.0)
      case Some(i) =>
        var q := p[i := e];
        assert forall j :: 0 <= j < |q| ==> q[j].0 == p[j].0;
        assert Keys(q) == Keys(p);
      case None =>
        KeysAppend(p, e);
    }
  }

  /** Each property of the result holds the value of the last entry with
      its key: a later entry wins. */
  lemma {:induction false} FromEntriesLookup(es: seq<Entry>, k: string)
    ensures Lookup(FromEntries(es), k) == Lookup(es, k)
  {
    if es != [] {
      var init := es[..|es| - 1];
      var e := es[|es| - 1];
      var p := FromEntries(init);
      FromEntriesLookup(init, k);
      match Position(p, e.0)
      case Some(i) =>
        if k == e.0 {
          FromEntriesKeys(init);
          LookupUpdatedKey(p, i, e);
        } else {
          LookupUpdate(p, i, e, k);
        }
      case None =>
        assert (p + [e])[..|p|] == p;
    }
  }

  /** Overwriting an entry whose key is not `k` does not change the value
      found for `k`. */
  lemma {:induction false} LookupUpdate(p: seq<Entry>, i: nat, e: Entry, k: string)
    requires i < |p| && p[i].0 == e.0 && e.0 != k
    ensures Lookup(p[i := e], k) == Lookup(p, k)
  {
    var n := |p|;
    UpdateInit(p, i, e);
    if i < n - 1 {
      LookupUpdate(p[..n - 1], i, e, k);
      LookupSameLast(p, p[i := e], k);
    } else {
      LookupSameInit(p, p[i := e], k);
    }
  }

  /** Two lists with the same last entry read alike when their other
      entries do. */
  lemma LookupSameLast(p: seq<Entry>, q: seq<Entry>, k: string)
    requires p != [] && |q| == |p| && q[|q| - 1] == p[|p| - 1]
    requires Lookup(q[..|q| - 1], k) == Lookup(p[..|p| - 1], k)
    ensures Lookup(q, k) == Lookup(p, k)
  {
    LookupLast(p, k);
    LookupLast(q, k);
  }

  /** Two lists with the same other entries read alike for a key neither
      last entry holds. */
  lemma LookupSameInit(p: seq<Entry>, q: seq<Entry>, k: string)
    requires p != [] && |q| == |p| && q[..|q| - 1] == p[..|p| - 1]
    requires p[|p| - 1].0 != k && q[|q| - 1].0 != k
    ensures Lookup(q, k) == Lookup(p, k)
  {
    LookupLast(p, k);
    LookupLast(q, k);
  }

  /** A read looks at the last entry first. */
  lemma LookupLast(p: seq<Entry>, k: string)
    requires p != []
    ensures Lookup(p, k) == if p[|p| - 1].0 == k then Some(p[|p| - 1].1) else Lookup(p[..|p| - 1], k)
  {
  }

  /** Where an overwritten entry leaves the last entry and the others. */
  lemma UpdateInit(p: seq<Entry>, i: nat, e: Entry)
    requires i < |p|
    ensures var n := |p|;
      p[i := e][n - 1] == (if i == n - 1 then e else p[n - 1]) &&
      p[i := e][..n - 1] == (if i == n - 1 then p[..n - 1] else p[..n - 1][i := e])
  {
  }

  /** Overwriting the entry of a key in a list of distinct keys gives the
      new value for that key. */
  lemma LookupUpdatedKey(p: seq<Entry>, i: nat, e: Entry)
    requires DistinctKeys(p) && i < |p| && p[i].0 == e.0
    ensures Lookup(p[i := e], e.0) == Some(e.1)
  {
    var q := p[i := e];
    assert forall j :: 0 <= j < |q| ==> q[j].0 == p[j].0;
    assert DistinctKeys(q);
    LookupDistinct(q, e.0);
    assert q[i].0 == e.0;
  }

  /** In an entry list with distinct keys, a key's value is the one at its
      position. */
  lemma {:induction false} LookupDistinct(es: seq<Entry>, k: string)
    requires DistinctKeys(es)
    ensures Position(es, k).Some? ==> Lookup(es, k) == Some(es[Position(es, k).value].1)
    ensures Position(es, k).None? ==> Lookup(es, k) == None
  {
    if es != [] {
      var init := es[..|es| - 1];
      LookupDistinct(init, k);
      if es[|es| - 1].0 != k {
        assert Keys(es) == Keys(init) + [es[|es| - 1].0];
      }
    }
  }

  /** Entries with distinct keys come back unchanged. */
  lemma {:induction false} FromEntriesDistinct(es: seq<Entry>)
    requires DistinctKeys(es)
    ensures FromEntries(es) == es
  {
    if es != [] {
      var init := es[..|es| - 1];
      var e := es[|es| - 1];
      FromEntriesDistinct(init);
      assert Position(init, e.0).None?;
      assert es == init + [e];
    }
  }

  predicate AllKeysLower(es: seq<Entry>) {
    forall i :: 0 <= i < |es| ==> IsLower(es[i].0)
  }

  lemma LowerKeysLower(es: seq<Entry>)
    ensures AllKeysLower(LowerKeys(es))
  {
    forall i | 0 <= i < |es|
      ensures IsLower(LowerKeys(es)[i].0)
    {
      ToLowerIdempotent(es[i].0);
    }
  }

  /** `fromEntries` introduces no key of its own. */
  lemma FromEntriesKeepsLower(es: seq<Entry>)
    requires AllKeysLower(es)
    ensures AllKeysLower(FromEntries(es))
  {
    FromEntriesKeys(es);
    var r := FromEntries(es);
    forall i | 0 <= i < |r|
      ensures IsLower(r[i].0)
    {
      assert Keys(r)[i] == r[i].0;
      assert r[i].0 in Keys(es);
    }
  }

  /** Every key of the rewritten value is in lower case. */
  lemma LowercaseKeysLower(v: Json)
    requires LowercaseKeys(v).Ok?
    ensures AllKeysLower(LowercaseKeys(v).value.entries)
  {
    LowerKeysLower(EntriesOf(v).value);
    FromEntriesKeepsLower(LowerKeys(EntriesOf(v).value));
  }

  /** The value under a lowered key is the value of the last entry whose key
      lowers to it; nothing else is changed. */
  lemma LowercaseKeysLookup(es: seq<Entry>, k: string)
    ensures Lookup(LowercaseKeys(JObj(es)).value.entries, k) == Lookup(LowerKeys(es), k)
  {
    FromEntriesLookup(LowerKeys(es), k);
  }

  /** When no two keys lower to the same string, the rewrite keeps every
      value in its place and only lowers the keys. */
  lemma LowercaseKeysInPlace(es: seq<Entry>)
    requires DistinctKeys(LowerKeys(es))
    ensures LowercaseKeys(JObj(es)) == Ok(JObj(LowerKeys(es)))
  {
    FromEntriesDistinct(LowerKeys(es));
  }

  /** Rewriting twice is rewriting once. */
  lemma LowercaseKeysIdempotent(v: Json)
    requires LowercaseKeys(v).Ok?
    ensures LowercaseKeys(LowercaseKeys(v).value) == LowercaseKeys(v)
  {
    var r := LowercaseKeys(v).value.entries;
    LowercaseKeysLower(v);
    FromEntriesKeys(LowerKeys(EntriesOf(v).value));
    var lr := LowerKeys(r);
    forall i | 0 <= i < |r|
      ensures lr[i] == r[i]
    {
      LowerOfLower(r[i].0);
    }
    assert lr == r;
    FromEntriesDistinct(r);
  }
}
