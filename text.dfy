/** String operations of ECMAScript that the scrapers rely on:
    `String.prototype.trim`, the fence-stripping `replace(/```json|```/g, "")`,
    `toLowerCase` on keys, `Array.prototype.join`, and decimal numerals. */
module Text {
  import opened Common

  /** WhiteSpace and LineTerminator code points that `trim` removes
      (section 22.1.3.32 of ECMA-262): TAB, LF, VT, FF, CR, SPACE, NBSP,
      the Zs category, LS, PS and the byte order mark. */
  predicate IsJsSpace(c: char) {
    c == '\t' || c == '\n' || c == '\U{000B}' || c == '\U{000C}' || c == '\r' ||
    c == ' ' || c == '\U{00A0}' || c == '\U{1680}' ||
    ('\U{2000}' <= c <= '\U{200A}') ||
    c == '\U{2028}' || c == '\U{2029}' || c == '\U{202F}' || c == '\U{205F}' ||
    c == '\U{3000}' || c == '\U{FEFF}'
  }

  /** The first position at or after `i` that does not hold white space,
      or `|s|`. */
  function SkipSpaces(s: string, i: nat): (j: nat)
    requires i <= |s|
    ensures i <= j <= |s|
    ensures forall k :: i <= k < j ==> IsJsSpace(s[k])
    ensures j < |s| ==> !IsJsSpace(s[j])
    decreases |s| - i
  {
    if i < |s| && IsJsSpace(s[i]) then SkipSpaces(s, i + 1) else i
  }

  /** The end of `s[i..j]` once its trailing white space is removed. */
  function BackSpaces(s: string, i: nat, j: nat): (e: nat)
    requires i <= j <= |s|
    ensures i <= e <= j
    ensures forall k :: e <= k < j ==> IsJsSpace(s[k])
    ensures i < e ==> !IsJsSpace(s[e - 1])
    decreases j
  {
    if i < j && IsJsSpace(s[j - 1]) then BackSpaces(s, i, j - 1) else j
  }

  /** Where the trim of `s` starts and ends. */
  function TrimStartAt(s: string): nat {
    SkipSpaces(s, 0)
  }

  function TrimEndAt(s: string): (e: nat)
    ensures TrimStartAt(s) <= e <= |s|
  {
    BackSpaces(s, TrimStartAt(s), |s|)
  }

  /** `s.trim()`: white space is removed from the front, then from the
      back. */
  function Trim(s: string): (r: string)
    ensures |r| <= |s|
    ensures r == [] || (!IsJsSpace(r[0]) && !IsJsSpace(r[|r| - 1]))
  {
    s[TrimStartAt(s)..TrimEndAt(s)]
  }

  /** The trim is a slice of `s` with only white space before and after
      it. */
  lemma TrimSlice(s: string)
    ensures var i := TrimStartAt(s); var e := TrimEndAt(s);
      Trim(s) == s[i..e] &&
      (forall k :: 0 <= k < i ==> IsJsSpace(s[k])) &&
      (forall k :: e <= k < |s| ==> IsJsSpace(s[k]))
  {
  }

  /** Any slice of `s` with only white space around it and none at its
      ends is the trim of `s`: `trim` removes all the white space at either
      end and nothing else. */
  lemma TrimUnique(s: string, i: nat, e: nat)
    requires i <= e <= |s|
    requires forall k :: 0 <= k < i ==> IsJsSpace(s[k])
    requires forall k :: e <= k < |s| ==> IsJsSpace(s[k])
    requires i < e ==> !IsJsSpace(s[i]) && !IsJsSpace(s[e - 1])
    ensures Trim(s) == s[i..e]
  {
    var i' := TrimStartAt(s);
    var e' := TrimEndAt(s);
    if i < e {
      assert !IsJsSpace(s[i]) && !IsJsSpace(s[e - 1]);
      assert i' == i;
      assert e' == e;
    } else {
      assert i' == |s|;
    }
  }

  /** A string with no white space at either end is its own trim. */
  lemma TrimOfTrimmed(s: string)
    requires s == [] || (!IsJsSpace(s[0]) && !IsJsSpace(s[|s| - 1]))
    ensures Trim(s) == s
  {
    TrimUnique(s, 0, |s|);
  }

  /** Trimming twice is trimming once. */
  lemma TrimIdempotent(s: string)
    ensures Trim(Trim(s)) == Trim(s)
  {
    TrimOfTrimmed(Trim(s));
  }

  predicate NoBacktick(s: string) {
    forall k :: 0 <= k < |s| ==> s[k] != '`'
  }

  /** `s.replace(/```json|```/g, "")`: scanning left to right, every match of
      the regular expression is removed; at a position where both
      alternatives match, the first one (```json) is taken. */
  function StripFences(s: string): (r: string)
    ensures |r| <= |s|
    ensures NoBacktick(s) ==> r == s
    decreases |s|
  {
    if |s| == 0 then ""
    else if |s| >= 7 && s[..7] == "```json" then
      assert s[0] == '`';
      StripFences(s[7..])
    else if |s| >= 3 && s[..3] == "```" then
      assert s[0] == '`';
      StripFences(s[3..])
    else
      [s[0]] + StripFences(s[1..])
  }

  /** The cleaning every scraper applies to the service's reply:
      `reply.replace(/```json|```/g, "").trim()`. */
  function Clean(reply: string): string {
    Trim(StripFences(reply))
  }

  /** A character other than a backtick is kept as it is. */
  lemma StripFencesPlain(s: string)
    requires s != [] && s[0] != '`'
    ensures StripFences(s) == [s[0]] + StripFences(s[1..])
  {
    assert |s| >= 7 ==> s[..7][0] != "```json"[0];
    assert |s| >= 3 ==> s[..3][0] != "```"[0];
  }

  lemma {:induction false} StripFencesBeforeClosing(b: string)
    requires NoBacktick(b)
    ensures StripFences(b + "```") == b
    decreases |b|
  {
    if b == [] {
      var s := b + "```";
      assert s == "```";
      assert s[..3] == "```" && s[3..] == [];
    } else {
      var s := b + "```";
      StripFencesPlain(s);
      assert s[1..] == b[1..] + "```";
      StripFencesBeforeClosing(b[1..]);
    }
  }

  /** A reply wrapped in a ```json fence cleans to the trimmed body. */
  lemma CleanFencedReply(b: string)
    requires NoBacktick(b)
    ensures Clean("```json" + b + "```") == Trim(b)
  {
    var s := "```json" + b + "```";
    assert s[..7] == "```json";
    assert s[7..] == b + "```";
    StripFencesBeforeClosing(b);
  }

  /** A reply wrapped in a bare ``` fence cleans to the trimmed body, unless
      the body starts with "json", which the first alternative swallows. */
  lemma CleanBareFencedReply(b: string)
    requires NoBacktick(b)
    requires !(|b| >= 4 && b[..4] == "json")
    ensures Clean("```" + b + "```") == Trim(b)
  {
    var s := "```" + b + "```";
    assert s[..3] == "```";
    assert s[3..] == b + "```";
    if |s| >= 7 {
      if |b| >= 4 {
        assert s[3..7] == b[..4];
        assert s[..7][3..7] == s[3..7];
      } else {
        assert s[3 + |b|] == '`';
        assert s[..7][3 + |b|] != "```json"[3 + |b|];
      }
    }
    assert StripFences(s) == StripFences(s[3..]);
    StripFencesBeforeClosing(b);
  }

  /** A reply without backticks is only trimmed. */
  lemma CleanPlainReply(b: string)
    requires NoBacktick(b)
    ensures Clean(b) == Trim(b)
  {
  }

  /** `toLowerCase` on the ASCII letters; every other character is kept. */
  function LowerChar(c: char): char {
    if 'A' <= c <= 'Z' then (c as int + 32) as char else c
  }

  function ToLower(s: string): (r: string)
    ensures |r| == |s|
    ensures forall k :: 0 <= k < |s| ==> r[k] == LowerChar(s[k])
  {
    if s == [] then [] else ToLower(s[..|s| - 1]) + [LowerChar(s[|s| - 1])]
  }

  predicate IsLower(s: string) {
    forall k :: 0 <= k < |s| ==> !('A' <= s[k] <= 'Z')
  }

  /** Lowercasing leaves no upper-case letter, and lowercasing again changes
      nothing. */
  lemma ToLowerIdempotent(s: string)
    ensures IsLower(ToLower(s))
    ensures ToLower(ToLower(s)) == ToLower(s)
  {
    var r := ToLower(s);
    assert forall k :: 0 <= k < |r| ==> LowerChar(r[k]) == r[k];
  }

  /** Lowering a string without upper-case letters changes nothing. */
  lemma LowerOfLower(s: string)
    requires IsLower(s)
    ensures ToLower(s) == s
  {
  }

  /** `parts.join(sep)`. */
  function Join(parts: seq<string>, sep: string): string {
    if |parts| == 0 then ""
    else if |parts| == 1 then parts[0]
    else Join(parts[..|parts| - 1], sep) + sep + parts[|parts| - 1]
  }

  /** Joining non-empty parts gives the empty string exactly when there are
      no parts. */
  lemma {:induction false} JoinEmptyIff(parts: seq<string>, sep: string)
    requires forall k :: 0 <= k < |parts| ==> parts[k] != ""
    ensures Join(parts, sep) == "" <==> parts == []
  {
    if |parts| >= 2 {
      assert |Join(parts, sep)| >= |parts[|parts| - 1]| > 0;
    }
  }

  predicate IsDigit(c: char) {
    '0' <= c <= '9'
  }

  predicate AllDigits(s: string) {
    forall k :: 0 <= k < |s| ==> IsDigit(s[k])
  }

  function DigitChar(d: nat): char
    requires d < 10
  {
    ('0' as int + d) as char
  }

  /** The decimal numeral of `n`, as `String(n)` prints it. */
  function NatToString(n: nat): (r: string)
    ensures r != [] && AllDigits(r)
  {
    if n < 10 then [DigitChar(n)] else NatToString(n / 10) + [DigitChar(n % 10)]
  }

  /** `parseInt(d, 10)` on a string of decimal digits. */
  function DecimalValue(d: string): nat
    requires AllDigits(d)
  {
    if d == [] then 0 else 10 * DecimalValue(d[..|d| - 1]) + (d[|d| - 1] as int - '0' as int)
  }

  /** Reading back a printed numeral gives the number. */
  lemma {:induction false} DecimalOfNatToString(n: nat)
    ensures DecimalValue(NatToString(n)) == n
  {
    if n >= 10 {
      var s := NatToString(n);
      assert s[..|s| - 1] == NatToString(n / 10);
      DecimalOfNatToString(n / 10);
    }
  }

  /** Distinct numbers print as distinct numerals (so array indexes give
      distinct property keys). */
  lemma NatToStringInjective(m: nat, n: nat)
    requires NatToString(m) == NatToString(n)
    ensures m == n
  {
    DecimalOfNatToString(m);
    DecimalOfNatToString(n);
  }

  /** `sep` occurs in `s` at index `m`. */
  predicate OccursAt(s: string, sep: string, m: int) {
    0 <= m && m + |sep| <= |s| && forall j :: 0 <= j < |sep| ==> s[m + j] == sep[j]
  }

  /** One mismatching character rules out an occurrence. */
  lemma Mismatch(s: string, sep: string, m: int, j: nat)
    requires j < |sep|
    requires 0 <= m && m + |sep| <= |s| ==> s[m + j] != sep[j]
    ensures !OccursAt(s, sep, m)
  {
  }

  predicate StartsWith(s: string, p: string) {
    |p| <= |s| && s[..|p|] == p
  }

  /** The leftmost occurrence of `sep` in `s` at or after index `i`
      (`s.indexOf(sep, i)`, with -1 as None). */
  function IndexFrom(s: string, sep: string, i: nat): (r: Option<nat>)
    requires sep != []
    ensures r.Some? ==> (i <= r.value && OccursAt(s, sep, r.value) &&
      forall m :: i <= m < r.value ==> !OccursAt(s, sep, m))
    ensures r.None? ==> forall m :: i <= m ==> !OccursAt(s, sep, m)
    decreases |s| - i
  {
    if i + |sep| > |s| then None
    else if OccursAt(s, sep, i) then Some(i)
    else IndexFrom(s, sep, i + 1)
  }

  /** `s.split(sep)` for a non-empty separator: the pieces between the
      successive leftmost occurrences of `sep`. */
  function Split(s: string, sep: string): (r: seq<string>)
    requires sep != []
    ensures |r| >= 1
    decreases |s|
  {
    match IndexFrom(s, sep, 0)
    case None => [s]
    case Some(k) => [s[..k]] + Split(s[k + |sep|..], sep)
  }

  lemma {:induction false} JoinCons(a: string, rest: seq<string>, sep: string)
    requires rest != []
    ensures Join([a] + rest, sep) == a + sep + Join(rest, sep)
    decreases |rest|
  {
    var parts := [a] + rest;
    if |rest| > 1 {
      assert parts[..|parts| - 1] == [a] + rest[..|rest| - 1];
      JoinCons(a, rest[..|rest| - 1], sep);
    }
  }

  /** Joining the pieces of a split with the same separator gives back the
      original string. */
  lemma {:induction false} JoinSplit(s: string, sep: string)
    requires sep != []
    ensures Join(Split(s, sep), sep) == s
    decreases |s|
  {
    match IndexFrom(s, sep, 0)
    case None =>
    case Some(k) =>
      var rest := s[k + |sep|..];
      assert Split(s, sep) == [s[..k]] + Split(rest, sep);
      JoinSplit(rest, sep);
      JoinCons(s[..k], Split(rest, sep), sep);
      Reassemble(s, sep, k);
  }

  /** Cutting out an occurrence of `sep` and putting it back. */
  lemma Reassemble(s: string, sep: string, k: nat)
    requires OccursAt(s, sep, k)
    ensures s[..k] + sep + s[k + |sep|..] == s
  {
    assert s == s[..k] + s[k..k + |sep|] + s[k + |sep|..];
  }

  /** A string without the separator splits into itself alone. */
  lemma SplitWithout(s: string, sep: string)
    requires sep != []
    requires forall m :: !OccursAt(s, sep, m)
    ensures Split(s, sep) == [s]
  {
  }

  /** A one-character separator occurs exactly where that character is. */
  lemma OccursChar(s: string, c: char, m: int)
    ensures OccursAt(s, [c], m) <==> 0 <= m < |s| && s[m] == c
  {
    if 0 <= m < |s| && s[m] != c {
      Mismatch(s, [c], m, 0);
    }
  }

  /** The leftmost occurrence is the one with no occurrence before it. */
  lemma FirstOccurrence(s: string, sep: string, k: nat)
    requires sep != [] && OccursAt(s, sep, k)
    requires forall m :: 0 <= m < k ==> !OccursAt(s, sep, m)
    ensures IndexFrom(s, sep, 0) == Some(k)
  {
  }

  /** A split at the leftmost occurrence `k`. */
  lemma SplitAt(s: string, sep: string, k: nat)
    requires sep != [] && k + |sep| <= |s| && IndexFrom(s, sep, 0) == Some(k)
    ensures Split(s, sep) == [s[..k]] + Split(s[k + |sep|..], sep)
  {
  }

  /** The first `c` of `a + [c] + b` is the first `c` of `a`, if any, or
      else the one between `a` and `b`. */
  lemma FirstCharAround(a: string, c: char, b: string, k: nat)
    requires k <= |a|
    requires forall m :: 0 <= m < k ==> a[m] != c
    requires k < |a| ==> a[k] == c
    ensures IndexFrom(a + [c] + b, [c], 0) == Some(k)
  {
    var s := a + [c] + b;
    forall m | 0 <= m < k
      ensures !OccursAt(s, [c], m)
    {
      OccursChar(s, c, m);
    }
    OccursChar(s, c, k);
    FirstOccurrence(s, [c], k);
  }

  /** Splitting on a single character distributes over a concatenation
      around that character. */
  lemma {:induction false} SplitAround(a: string, c: char, b: string)
    ensures Split(a + [c] + b, [c]) == Split(a, [c]) + Split(b, [c])
    decreases |a|
  {
    match IndexFrom(a, [c], 0)
    case None =>
      forall m | 0 <= m < |a|
        ensures a[m] != c
      {
        OccursChar(a, c, m);
      }
      SplitAroundFirst(a, c, b, |a|);
      assert a[..|a|] == a;
      assert Split(a, [c]) == [a];
    case Some(k) =>
      forall m | 0 <= m < k
        ensures a[m] != c
      {
        OccursChar(a, c, m);
      }
      OccursChar(a, c, k);
      SplitAt(a, [c], k);
      SplitAroundFirst(a, c, b, k);
      SplitAround(a[k + 1..], c, b);
      Regroup(a[..k], Split(a[k + 1..], [c]), Split(b, [c]));
  }

  /** The first piece of `a + [c] + b` ends at the first `c` of `a`, or at
      the `c` after `a`. */
  lemma SplitAroundFirst(a: string, c: char, b: string, k: nat)
    requires k <= |a|
    requires forall m :: 0 <= m < k ==> a[m] != c
    requires k < |a| ==> a[k] == c
    ensures Split(a + [c] + b, [c]) ==
      [a[..k]] + Split(if k < |a| then a[k + 1..] + [c] + b else b, [c])
  {
    var s := a + [c] + b;
    FirstCharAround(a, c, b, k);
    SplitAt(s, [c], k);
    assert s[..k] == a[..k];
    if k < |a| {
      assert s[k + 1..] == a[k + 1..] + [c] + b;
    } else {
      assert s[k + 1..] == b;
    }
  }

  lemma Regroup<T>(x: T, p: seq<T>, q: seq<T>)
    ensures [x] + (p + q) == ([x] + p) + q
  {
  }
}
