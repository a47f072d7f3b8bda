/** The text patterns the listing extractors apply to scraped strings: the
    three regular expressions that find publication dates, the split chain
    that derives a content id from an article URL, and the image URL
    rewrite of the cricket listing. Each regular expression is modelled by
    a matcher at one index and the leftmost-match search of ECMAScript's
    `String.prototype.match` (section 22.2 of ECMA-262). */
module Patterns {
  import opened Common
  import opened Text

  /** The leftmost index at or after `i` where `at` matches, with what it
      matched there. */
  function Search<T>(s: string, at: (string, nat) -> Option<T>, i: nat): (r: Option<(nat, T)>)
    ensures r.Some? ==> (i <= r.value.0 <= |s| && at(s, r.value.0) == Some(r.value.1) &&
      forall q :: i <= q < r.value.0 ==> at(s, q).None?)
    ensures r.None? ==> forall q :: i <= q <= |s| ==> at(s, q).None?
    decreases |s| + 1 - i
  {
    if i > |s| then None
    else match at(s, i)
      case Some(v) => Some((i, v))
      case None => Search(s, at, i + 1)
  }

  /** A matcher that fails everywhere before `p` and matches at `p`
      makes the search from `i` answer at `p`. */
  lemma SearchFinds<T>(s: string, at: (string, nat) -> Option<T>, i: nat, p: nat)
    requires i <= p <= |s| && at(s, p).Some?
    requires forall q :: i <= q < p ==> at(s, q).None?
    ensures Search(s, at, i) == Some((p, at(s, p).value))
  {
  }

  // ---------------------------------------------------------------------
  // /(Updated on|Published on) (.+?) IST/ on Hindustan Times date lines.

  /** The characters `.` does not match. */
  predicate IsLineTerminator(c: char) {
    c == '\n' || c == '\r' || c == '\U{2028}' || c == '\U{2029}'
  }

  predicate NoTerminator(t: string) {
    forall k :: 0 <= k < |t| ==> !IsLineTerminator(t[k])
  }

  /** The lazy group `(.+?)` followed by " IST" on `t`: the group lengths are
      tried upward from `n`; the group may not contain a line terminator. */
  function LazyGroup(t: string, n: nat): (r: Option<nat>)
    requires n >= 1 && n - 1 <= |t| && NoTerminator(t[..n - 1])
    ensures r.Some? ==> (n <= r.value && OccursAt(t, " IST", r.value) &&
      NoTerminator(t[..r.value]) &&
      forall m :: n <= m < r.value ==> !OccursAt(t, " IST", m))
    ensures r.None? ==>
      forall m :: n <= m <= |t| && NoTerminator(t[..m]) ==> !OccursAt(t, " IST", m)
    decreases |t| - n
  {
    if n > |t| then None
    else if IsLineTerminator(t[n - 1]) then
      assert forall m :: n <= m <= |t| ==> t[..m][n - 1] == t[n - 1];
      None
    else
      assert t[..n] == t[..n - 1] + [t[n - 1]];
      if OccursAt(t, " IST", n) then Some(n)
      else LazyGroup(t, n + 1)
  }

  /** What the date expression captures in its second group when the match
      starts at index `i`. */
  function HtMatchAt(s: string, i: nat): Option<string> {
    if i > |s| then None
    else
      var head := if StartsWith(s[i..], "Updated on ") then 11
                  else if StartsWith(s[i..], "Published on ") then 13
                  else 0;
      if head == 0 then None
      else match LazyGroup(s[i + head..], 1)
        case None => None
        case Some(n) => Some(s[i + head..i + head + n])
  }

  /** `s.match(/(Updated on|Published on) (.+?) IST/)?.[2]`. */
  function HtDate(s: string): Option<string> {
    match Search(s, HtMatchAt, 0)
    case None => None
    case Some((_, g)) => Some(g)
  }

  /** A date line rendered as "Updated on <date> IST" or "Published on
      <date> IST" yields the date back, provided the date is non-empty,
      has no line terminator and no capital I (so " IST" cannot occur
      inside it). */
  lemma HtDateOfRendered(marker: string, g: string)
    requires marker == "Updated on " || marker == "Published on "
    requires g != []
    requires forall k :: 0 <= k < |g| ==> g[k] != 'I' && !IsLineTerminator(g[k])
    ensures HtDate(marker + g + " IST") == Some(g)
  {
    var t := g + " IST";
    var s := marker + t;
    assert marker + g + " IST" == s;
    LazyGroupOfRendered(g);
    HtMatchAtMarker(marker, t, |g|);
    assert t[..|g|] == g;
    SearchFinds(s, HtMatchAt, 0, 0);
  }

  /** The lazy group on "<g> IST" stops at the end of `g`. */
  lemma LazyGroupOfRendered(g: string)
    requires g != []
    requires forall k :: 0 <= k < |g| ==> g[k] != 'I' && !IsLineTerminator(g[k])
    ensures LazyGroup(g + " IST", 1) == Some(|g|)
  {
    var t := g + " IST";
    assert t[..|g|] == g;
    assert OccursAt(t, " IST", |g|);
    forall m | 1 <= m < |g|
      ensures !OccursAt(t, " IST", m)
    {
      if m + 1 < |g| {
        assert t[m + 1] == g[m + 1];
      } else {
        assert t[m + 1] == ' ';
      }
      Mismatch(t, " IST", m, 1);
    }
    assert t[..0] == [];
  }

  /** After a marker at the start, the match captures what the lazy group
      takes of the rest. */
  lemma HtMatchAtMarker(marker: string, t: string, n: nat)
    requires marker == "Updated on " || marker == "Published on "
    requires LazyGroup(t, 1) == Some(n)
    ensures HtMatchAt(marker + t, 0) == Some(t[..n])
  {
    var s := marker + t;
    assert s[0..] == s;
    assert s[..|marker|] == marker;
    if marker == "Published on " {
      assert !StartsWith(s, "Updated on ") by {
        assert s[..11][0] == 'P';
      }
    }
    assert s[|marker|..] == t;
    assert s[|marker|..|marker| + n] == t[..n];
  }

  /** A date line that mentions neither "Updated on " nor "Published on "
      has no date. */
  lemma HtDateWithoutMarker(s: string)
    requires forall m :: !OccursAt(s, "Updated on ", m) && !OccursAt(s, "Published on ", m)
    ensures HtDate(s) == None
  {
    forall q | 0 <= q <= |s|
      ensures HtMatchAt(s, q).None?
    {
      assert !OccursAt(s, "Updated on ", q) && !OccursAt(s, "Published on ", q);
      if q + 11 <= |s| {
        assert s[q..q + 11] == s[q..][..11];
      }
      if q + 13 <= |s| {
        assert s[q..q + 13] == s[q..][..13];
      }
    }
  }

  /** One Hindustan Times listing card: the heading text, its `href` (None
      when absent), the date line text and the image `src`. */
  datatype HtCard = HtCard(title: string, href: Option<string>, dateText: string, image: Option<string>)

  /** `match ? new Date(match[2]) : new Date(0)`: the time of the captured
      date text, read by `parseDate`, or the epoch when nothing matches. */
  function HtPubDate(parseDate: string -> int, s: string): int {
    match HtDate(s)
    case Some(g) => parseDate(g)
    case None => 0
  }

  /** A date line with no marker gives the epoch. */
  lemma HtPubDateEpoch(parseDate: string -> int, s: string)
    requires forall m :: !OccursAt(s, "Updated on ", m) && !OccursAt(s, "Published on ", m)
    ensures HtPubDate(parseDate, s) == 0
  {
    HtDateWithoutMarker(s);
  }

  /** A rendered date line gives the time of its date text. */
  lemma HtPubDateRendered(parseDate: string -> int, marker: string, g: string)
    requires marker == "Updated on " || marker == "Published on "
    requires g != []
    requires forall k :: 0 <= k < |g| ==> g[k] != 'I' && !IsLineTerminator(g[k])
    ensures HtPubDate(parseDate, marker + g + " IST") == parseDate(g)
  {
    HtDateOfRendered(marker, g);
  }

  // ---------------------------------------------------------------------
  // /(\d+)(?:m ago|h ago|s ago)/ on cricbuzz time stamps.

  /** Length of the run of decimal digits starting at `i`. */
  function DigitRun(s: string, i: nat): (n: nat)
    requires i <= |s|
    ensures i + n <= |s|
    ensures forall k :: i <= k < i + n ==> IsDigit(s[k])
    ensures i + n < |s| ==> !IsDigit(s[i + n])
    decreases |s| - i
  {
    if i < |s| && IsDigit(s[i]) then 1 + DigitRun(s, i + 1) else 0
  }

  predicate UnitAt(s: string, k: int) {
    OccursAt(s, "m ago", k) || OccursAt(s, "h ago", k) || OccursAt(s, "s ago", k)
  }

  /** The number the expression captures when the match starts at `i`:
      greedy `\d+` takes the whole digit run; a shorter run is followed by a
      digit, where no unit can start, so backtracking never helps. */
  function AgoAt(s: string, i: nat): Option<nat> {
    if i > |s| then None
    else
      var n := DigitRun(s, i);
      if n >= 1 && UnitAt(s, i + n) then Some(DecimalValue(s[i..i + n])) else None
  }

  /** Backtracking `\d+` to a shorter run cannot reach a unit. */
  lemma ShorterRunsFail(s: string, i: nat, d: nat)
    requires i <= |s| && 1 <= d < DigitRun(s, i)
    ensures !UnitAt(s, i + d)
  {
    assert IsDigit(s[i + d]);
    Mismatch(s, "m ago", i + d, 0);
    Mismatch(s, "h ago", i + d, 0);
    Mismatch(s, "s ago", i + d, 0);
  }

  /** The age number of a cricbuzz time stamp, if it has one. */
  function AgoValue(s: string): Option<nat> {
    match Search(s, AgoAt, 0)
    case None => None
    case Some((_, v)) => Some(v)
  }

  /** A rendered time stamp "<n>m ago", "<n>h ago" or "<n>s ago" gives back
      `n`, whatever the unit. */
  lemma AgoValueOfRendered(n: nat, unit: char)
    requires unit == 'm' || unit == 'h' || unit == 's'
    ensures AgoValue(NatToString(n) + [unit] + " ago") == Some(n)
  {
    var d := NatToString(n);
    AgoAtRendered(d, unit);
    DecimalOfNatToString(n);
    SearchFinds(d + [unit] + " ago", AgoAt, 0, 0);
  }

  lemma AgoAtRendered(d: string, unit: char)
    requires d != [] && AllDigits(d)
    requires unit == 'm' || unit == 'h' || unit == 's'
    ensures AgoAt(d + [unit] + " ago", 0) == Some(DecimalValue(d))
  {
    var s := d + [unit] + " ago";
    DigitRunOfNumeral(d, [unit] + " ago");
    UnitAfter(d, unit);
    ConcatSlices(d, [unit] + " ago");
    assert s == d + ([unit] + " ago");
  }

  lemma UnitAfter(d: string, unit: char)
    requires unit == 'm' || unit == 'h' || unit == 's'
    ensures UnitAt(d + [unit] + " ago", |d|)
  {
    ConcatSlices(d, [unit] + " ago");
    assert d + [unit] + " ago" == d + ([unit] + " ago");
  }

  lemma ConcatSlices(a: string, b: string)
    ensures (a + b)[0..|a|] == a && (a + b)[|a|..|a| + |b|] == b
  {
  }

  lemma {:induction false} DigitRunOfNumeral(d: string, rest: string)
    requires AllDigits(d) && (rest == [] || !IsDigit(rest[0]))
    ensures DigitRun(d + rest, 0) == |d|
  {
    var s := d + rest;
    assert forall k :: 0 <= k < |d| ==> s[k] == d[k];
    if rest != [] {
      assert s[|d|] == rest[0];
    }
  }

  // ---------------------------------------------------------------------
  // /(\d{1,2} \w+ \d{4})/ on gadgets360 date lines.

  predicate IsWordChar(c: char) {
    'a' <= c <= 'z' || 'A' <= c <= 'Z' || IsDigit(c) || c == '_'
  }

  /** Length of the run of word characters starting at `i`. */
  function WordRun(s: string, i: nat): (n: nat)
    requires i <= |s|
    ensures i + n <= |s|
    ensures forall k :: i <= k < i + n ==> IsWordChar(s[k])
    ensures i + n < |s| ==> !IsWordChar(s[i + n])
    decreases |s| - i
  {
    if i < |s| && IsWordChar(s[i]) then 1 + WordRun(s, i + 1) else 0
  }

  /** The text the dateline expression matches at the start of `t`.
      `\d{1,2}` takes two digits when there are two (one digit would then be
      followed by a digit, not the space); greedy `\w+` takes the whole word
      run (a shorter run is followed by a word character, not the space);
      `\d{4}` takes exactly four digits. */
  function DatelineStart(t: string): Option<string> {
    if |t| == 0 || !IsDigit(t[0]) then None
    else
      var d := if 1 < |t| && IsDigit(t[1]) then 2 else 1;
      if d >= |t| || t[d] != ' ' then None
      else
        var n := WordRun(t, d + 1);
        var e := d + 1 + n;
        if n >= 1 && e + 5 <= |t| && t[e] == ' ' && AllDigits(t[e + 1..e + 5])
        then Some(t[..e + 5])
        else None
  }

  function DatelineAt(s: string, i: nat): Option<string> {
    if i > |s| then None else DatelineStart(s[i..])
  }

  /** `s.match(/(\d{1,2} \w+ \d{4})/)?.[1]`. */
  function Dateline(s: string): Option<string> {
    match Search(s, DatelineAt, 0)
    case None => None
    case Some((_, m)) => Some(m)
  }

  predicate NoDigit(s: string) {
    forall k :: 0 <= k < |s| ==> !IsDigit(s[k])
  }

  /** "<day> <Month> <year>" matches as a whole at its start. */
  lemma DatelineAtRendered(day: nat, month: string, year: string)
    requires day < 100
    requires month != [] && forall k :: 0 <= k < |month| ==> IsAsciiLetter(month[k])
    requires |year| == 4 && AllDigits(year)
    ensures var m := NatToString(day) + " " + month + " " + year;
      DatelineStart(m) == Some(m)
  {
    ShortNumeral(day);
    DatelineOfParts(NatToString(day), month, year);
  }

  /** A number below 100 has a numeral of one or two digits. */
  lemma ShortNumeral(day: nat)
    requires day < 100
    ensures 1 <= |NatToString(day)| <= 2
  {
    if day >= 10 {
      assert NatToString(day) == NatToString(day / 10) + [DigitChar(day % 10)];
    }
  }

  lemma DatelineOfParts(dd: string, month: string, year: string)
    requires 1 <= |dd| <= 2 && AllDigits(dd)
    requires month != [] && forall k :: 0 <= k < |month| ==> IsAsciiLetter(month[k])
    requires |year| == 4 && AllDigits(year)
    ensures var m := dd + " " + month + " " + year;
      DatelineStart(m) == Some(m)
  {
    var m := dd + " " + month + " " + year;
    SpacedLayout(dd, month, year);
    var w := |dd| + 1;
    var e := w + |month|;
    assert IsDigit(m[0]);
    assert |dd| == 2 ==> IsDigit(m[1]);
    assert |dd| == 1 ==> m[1] == ' ';
    assert m[|dd|] == ' ';
    WordRunOfWord(m, w, |month|);
    assert m[e] == ' ';
  }

  /** Where the parts of "a b c" sit. */
  lemma SpacedLayout(a: string, b: string, c: string)
    ensures var m := a + " " + b + " " + c;
      |m| == |a| + |b| + |c| + 2 &&
      (forall k :: 0 <= k < |a| ==> m[k] == a[k]) &&
      m[|a|] == ' ' &&
      (forall k :: 0 <= k < |b| ==> m[|a| + 1 + k] == b[k]) &&
      m[|a| + 1 + |b|] == ' ' &&
      m[|a| + |b| + 2..] == c &&
      m[..|m|] == m
  {
  }

  /** The word run from `w` is exactly `n` long when `n` word characters
      there are followed by the end or a non-word character. */
  lemma WordRunOfWord(m: string, w: nat, n: nat)
    requires w + n <= |m| && n >= 1
    requires forall k :: w <= k < w + n ==> IsAsciiLetter(m[k])
    requires w + n < |m| ==> m[w + n] == ' '
    ensures WordRun(m, w) == n
  {
    var r := WordRun(m, w);
    assert forall k :: w <= k < w + n ==> IsWordChar(m[k]);
    assert w + n < |m| ==> !IsWordChar(m[w + n]);
  }

  /** A date line "<anything without digits><day> <Month> <year>" matches
      exactly "<day> <Month> <year>", for a day of one or two digits, a
      month name of letters and a four-digit year. */
  lemma DatelineOfRendered(p: string, day: nat, month: string, year: string)
    requires NoDigit(p)
    requires day < 100
    requires month != [] && forall k :: 0 <= k < |month| ==> IsAsciiLetter(month[k])
    requires |year| == 4 && AllDigits(year)
    ensures Dateline(p + NatToString(day) + " " + month + " " + year)
      == Some(NatToString(day) + " " + month + " " + year)
  {
    var m := NatToString(day) + " " + month + " " + year;
    var s := p + m;
    assert s == p + NatToString(day) + " " + month + " " + year;
    forall q | 0 <= q < |p|
      ensures DatelineAt(s, q).None?
    {
      assert s[q] == p[q];
    }
    DatelineAtRendered(day, month, year);
    assert s[|p|..] == m;
    SearchFinds(s, DatelineAt, 0, |p|);
  }

  // ---------------------------------------------------------------------
  // The content id of an article URL:
  // url.split("/").slice(-1)[0].split(".")[0].split("article")[1]

  /** The id, or None where `split("article")` yields a single piece and
      index 1 is `undefined`. */
  function ContentId(url: string): Option<string> {
    var segments := Split(url, "/");
    var name := Split(segments[|segments| - 1], ".")[0];
    var parts := Split(name, "article");
    if |parts| >= 2 then Some(parts[1]) else None
  }

  /** The selector the content fetch uses: `#content-body-${id} p`, where an
      undefined id prints as "undefined". */
  function ContentSelector(url: string): string {
    "#content-body-" + (match ContentId(url) case Some(id) => id case None => "undefined") + " p"
  }

  predicate Without(s: string, c: char) {
    forall k :: 0 <= k < |s| ==> s[k] != c
  }

  /** A string without the character `c` has no occurrence of [c]. */
  lemma NoOccurrenceWithout(s: string, c: char)
    requires Without(s, c)
    ensures forall m :: !OccursAt(s, [c], m)
  {
    forall m
      ensures !OccursAt(s, [c], m)
    {
      Mismatch(s, [c], m, 0);
    }
  }

  /** The last "/"-segment of "<p>/<last>" is `last` when `last` has no "/". */
  lemma LastSegment(p: string, last: string)
    requires Without(last, '/')
    ensures var segments := Split(p + "/" + last, "/");
      segments[|segments| - 1] == last
  {
    assert p + "/" + last == p + ['/'] + last;
    SplitAround(p, '/', last);
    NoOccurrenceWithout(last, '/');
    SplitWithout(last, "/");
  }

  /** The first "."-piece of "<name>.<ext>" is `name` when `name` has no ".". */
  lemma FirstPiece(name: string, ext: string)
    requires Without(name, '.')
    ensures Split(name + "." + ext, ".")[0] == name
  {
    assert name + "." + ext == name + ['.'] + ext;
    SplitAround(name, '.', ext);
    NoOccurrenceWithout(name, '.');
    SplitWithout(name, ".");
  }

  /** "article" followed by digits splits on "article" into "" and the digits. */
  lemma SplitArticle(id: string)
    requires AllDigits(id)
    ensures Split("article" + id, "article") == ["", id]
  {
    var name := "article" + id;
    assert OccursAt(name, "article", 0);
    assert IndexFrom(name, "article", 0) == Some(0);
    assert name[7..] == id;
    forall m
      ensures !OccursAt(id, "article", m)
    {
      Mismatch(id, "article", m, 0);
    }
    SplitWithout(id, "article");
  }

  /** An article URL ".../article<digits>.<extension>" has the digits as
      its content id. */
  lemma ContentIdOfArticleUrl(p: string, id: string, ext: string)
    requires AllDigits(id) && Without(ext, '/')
    ensures ContentId(p + "/" + "article" + id + "." + ext) == Some(id)
  {
    var name := "article" + id;
    var last := name + "." + ext;
    forall k | 0 <= k < |last|
      ensures last[k] != '/'
    {
      if k < |name| {
        assert last[k] == name[k];
        if k >= 7 { assert name[k] == id[k - 7]; }
      } else if k > |name| {
        assert last[k] == ext[k - |name| - 1];
      }
    }
    assert p + "/" + "article" + id + "." + ext == p + "/" + last;
    LastSegment(p, last);
    forall k | 0 <= k < |name|
      ensures name[k] != '.'
    {
      if k >= 7 { assert name[k] == id[k - 7]; }
    }
    FirstPiece(name, ext);
    SplitArticle(id);
  }

  // ---------------------------------------------------------------------
  // The cricket image rewrite: origin + pathname + "?d=orig&p=det", with
  // `new URL` parsing an absolute URL as the URL Standard (WHATWG) does.

  predicate IsAsciiLetter(c: char) {
    'A' <= c <= 'Z' || 'a' <= c <= 'z'
  }

  predicate AllLetters(s: string) {
    forall k :: 0 <= k < |s| ==> IsAsciiLetter(s[k])
  }

  /** A character that may follow the leading letter of a scheme. */
  predicate IsSchemeChar(c: char) {
    IsAsciiLetter(c) || IsDigit(c) || c == '+' || c == '-' || c == '.'
  }

  /** Index of the first character at or after `i` that cannot be part of a
      scheme, or `|s|`. */
  function SchemeStop(s: string, i: nat): (r: nat)
    requires i <= |s|
    ensures i <= r <= |s|
    decreases |s| - i
  {
    if i == |s| || !IsSchemeChar(s[i]) then i else SchemeStop(s, i + 1)
  }

  /** Index of the first character at or after `i` that is in `stops`, or
      `|s|` when there is none. */
  function FirstOf(s: string, stops: set<char>, i: nat): (r: nat)
    requires i <= |s|
    ensures i <= r <= |s|
    decreases |s| - i
  {
    if i == |s| || s[i] in stops then i else FirstOf(s, stops, i + 1)
  }

  /** Index of the first character at or after `i` that is not in `skip`,
      or `|s|`. */
  function FirstNotIn(s: string, skip: set<char>, i: nat): (r: nat)
    requires i <= |s|
    ensures i <= r <= |s|
    decreases |s| - i
  {
    if i == |s| || s[i] !in skip then i else FirstNotIn(s, skip, i + 1)
  }

  /** Index of the first `c` in `s[i..hi]`, or `hi`. */
  function FirstBefore(s: string, c: char, i: nat, hi: nat): (r: nat)
    requires i <= hi <= |s|
    ensures i <= r <= hi
    decreases hi - i
  {
    if i == hi || s[i] == c then i else FirstBefore(s, c, i + 1, hi)
  }

  /** Index just after the last `c` in `s[lo..hi]`, or `lo` when there is
      none. */
  function AfterLast(s: string, c: char, lo: nat, hi: nat): (r: nat)
    requires lo <= hi <= |s|
    ensures lo <= r <= hi
    decreases hi - lo
  {
    if hi == lo then lo else if s[hi - 1] == c then hi else AfterLast(s, c, lo, hi - 1)
  }

  /** The special schemes whose origin is a tuple ("file" is special too,
      but its origin is opaque and it is parsed apart). */
  const TupleSchemes: set<string> := {"ftp", "http", "https", "ws", "wss"}

  /** The port a special scheme leaves out of its serialisation. */
  function DefaultPort(scheme: string): Option<nat> {
    if scheme == "http" || scheme == "ws" then Some(80)
    else if scheme == "https" || scheme == "wss" then Some(443)
    else if scheme == "ftp" then Some(21)
    else None
  }

  /** A code point that may not appear in an opaque host. */
  predicate ForbiddenHostChar(c: char) {
    c in {'\0', '\t', '\n', '\r', ' ', '#', '/', ':', '<', '>', '?', '@', '[', '\\', ']', '^', '|'}
  }

  /** A code point that may not appear in a domain. */
  predicate ForbiddenDomainChar(c: char) {
    ForbiddenHostChar(c) || c < ' ' || c == '%' || c == '\U{7f}'
  }

  /** A non-empty domain free of forbidden code points. */
  predicate ValidDomain(host: string) {
    host != [] && forall k :: 0 <= k < |host| ==> !ForbiddenDomainChar(host[k])
  }

  predicate ValidOpaqueHost(host: string) {
    forall k :: 0 <= k < |host| ==> !ForbiddenHostChar(host[k])
  }

  lemma DomainIsOpaqueHost(host: string)
    requires ValidDomain(host)
    ensures ValidOpaqueHost(host)
  {
  }

  /** Every backslash of a special URL's path read as a slash. */
  function Slashes(p: string): (r: string)
    ensures |r| == |p|
  {
    if p == [] then [] else Slashes(p[..|p| - 1]) + [if p[|p| - 1] == '\\' then '/' else p[|p| - 1]]
  }

  /** The parts of an absolute URL that the rewrite reads: the lower-cased
      scheme, the host, a port other than the scheme's default, and the
      pathname. */
  datatype Url = Url(scheme: string, host: string, port: Option<nat>, pathname: string)

  /** `new URL(s)` on an absolute URL: a scheme (a letter, then letters,
      digits, "+", "-" or "."), then ":"; what follows depends on the
      scheme. A string without such a scheme throws "Invalid URL". */
  function ParseUrl(s: string): Result<Url> {
    if s == [] || !IsAsciiLetter(s[0]) then Err(InvalidUrl(s))
    else
      var k := SchemeStop(s, 1);
      if k == |s| || s[k] != ':' then Err(InvalidUrl(s))
      else
        Dispatch(s, ToLower(s[..k]), k + 1)
  }

  /** The rest of `s` from index `i`, read as the scheme calls for. */
  function Dispatch(s: string, scheme: string, i: nat): Result<Url>
    requires i <= |s|
  {
    if scheme in TupleSchemes then ParseSpecial(s, scheme, i)
    else if scheme == "file" then ParseFile(s, i)
    else ParseOther(s, scheme, i)
  }

  /** An authority: whatever precedes its last "@" is userinfo and is
      dropped; then the host and, after the first ":", the port. */
  function Authority(auth: string, scheme: string, special: bool): Result<(string, Option<nat>)> {
    var b := AfterLast(auth, '@', 0, |auth|);
    var c := FirstBefore(auth, ':', b, |auth|);
    match HostAndPort(auth[b..c], if c < |auth| then auth[c + 1..] else "", scheme, special)
    case None => Err(InvalidUrl(auth))
    case Some(hp) => Ok(hp)
  }

  /** A host with no forbidden code point (lower-cased when the scheme is
      special) and a decimal port of at most 65535, left out when it is
      empty or the scheme's default. */
  function HostAndPort(host: string, port: string, scheme: string, special: bool): Option<(string, Option<nat>)> {
    if !(if special then ValidDomain(host) else ValidOpaqueHost(host)) then None
    else if !AllDigits(port) || (port != "" && DecimalValue(port) > 65535) then None
    else Some((if special then ToLower(host) else host,
               if port == "" || Some(DecimalValue(port)) == DefaultPort(scheme) then None
               else Some(DecimalValue(port))))
  }

  /** http, https, ws, wss and ftp: any run of "/" and "\" after the colon
      is skipped, the authority runs to the next "/", "\", "?" or "#", the
      host is lower-cased, and the path (backslashes read as slashes) runs
      to the next "?" or "#"; an empty path is "/". */
  function ParseSpecial(s: string, scheme: string, i: nat): Result<Url>
    requires i <= |s|
  {
    var a := FirstNotIn(s, {'/', '\\'}, i);
    var h := FirstOf(s, {'/', '\\', '?', '#'}, a);
    var e := FirstOf(s, {'?', '#'}, h);
    match Authority(s[a..h], scheme, true)
    case Err(_) => Err(InvalidUrl(s))
    case Ok((host, port)) => Ok(Url(scheme, host, port, if e == h then "/" else Slashes(s[h..e])))
  }

  /** file: after two slashes a host runs to the next "/", "\", "?" or "#"
      ("localhost" is no host); the path always starts with "/". */
  function ParseFile(s: string, i: nat): Result<Url>
    requires i <= |s|
  {
    var twoSlashes := i + 1 < |s| && s[i] in {'/', '\\'} && s[i + 1] in {'/', '\\'};
    var j := if twoSlashes then FirstOf(s, {'/', '\\', '?', '#'}, i + 2) else i;
    var host := if twoSlashes then s[i + 2..j] else "";
    var e := FirstOf(s, {'?', '#'}, j);
    var path := Slashes(s[j..e]);
    if host != [] && !ValidDomain(host) then Err(InvalidUrl(s))
    else Ok(Url("file", if ToLower(host) == "localhost" then "" else ToLower(host), None,
                if path != [] && path[0] == '/' then path else "/" + path))
  }

  /** Any other scheme: after "//" an authority runs to the next "/", "?"
      or "#" and keeps the host's case; otherwise the rest up to "?" or
      "#" is the path as written (for "data:" and "blob:", the opaque
      path). */
  function ParseOther(s: string, scheme: string, i: nat): Result<Url>
    requires i <= |s|
  {
    if i + 1 < |s| && s[i] == '/' && s[i + 1] == '/' then
      var h := FirstOf(s, {'/', '?', '#'}, i + 2);
      var e := FirstOf(s, {'?', '#'}, h);
      match Authority(s[i + 2..h], scheme, false)
      case Err(_) => Err(InvalidUrl(s))
      case Ok((host, port)) => Ok(Url(scheme, host, port, s[h..e]))
    else
      Ok(Url(scheme, "", None, s[i..FirstOf(s, {'?', '#'}, i)]))
  }

  /** ":port" when there is one. */
  function PortPart(port: Option<nat>): string {
    if port.Some? then ":" + NatToString(port.value) else ""
  }

  /** The origin of a URL of a tuple scheme: scheme, host and port. */
  function TupleOrigin(u: Url): string {
    u.scheme + "://" + u.host + PortPart(u.port)
  }

  /** The origin of a "blob:" URL: the origin of the URL its path spells
      when that is an http or https URL, and "null" otherwise. */
  function BlobOrigin(path: string): string {
    match ParseUrl(path)
    case Ok(inner) => if inner.scheme == "http" || inner.scheme == "https" then TupleOrigin(inner) else "null"
    case Err(_) => "null"
  }

  /** `urlObj.origin`: scheme, host and port for the tuple schemes, the
      inner origin for "blob:", and "null" for file and every other
      scheme. */
  function Origin(u: Url): string {
    if u.scheme in TupleSchemes then TupleOrigin(u)
    else if u.scheme == "blob" then BlobOrigin(u.pathname)
    else "null"
  }

  /** `urlObj.origin + urlObj.pathname + "?d=orig&p=det"`. */
  function RewriteImage(image: string): Result<string> {
    match ParseUrl(image)
    case Err(e) => Err(e)
    case Ok(u) => Ok(Origin(u) + u.pathname + "?d=orig&p=det")
  }

  /** `FirstOf` stops at the first character in `stops`. */
  lemma {:induction false} FirstOfAt(s: string, stops: set<char>, i: nat, e: nat)
    requires i <= e <= |s|
    requires forall j :: i <= j < e ==> s[j] !in stops
    requires e == |s| || s[e] in stops
    ensures FirstOf(s, stops, i) == e
    decreases e - i
  {
    if i < e {
      FirstOfAt(s, stops, i + 1, e);
    }
  }

  /** `FirstOf` skips only characters outside `stops` and stops on one in it. */
  lemma {:induction false} FirstOfStops(s: string, stops: set<char>, i: nat)
    requires i <= |s|
    ensures var r := FirstOf(s, stops, i);
      (forall k :: i <= k < r ==> s[k] !in stops) && (r < |s| ==> s[r] in stops)
    decreases |s| - i
  {
    if i < |s| && s[i] !in stops {
      FirstOfStops(s, stops, i + 1);
    }
  }

  /** `SchemeStop` stops at the first character that cannot be in a scheme. */
  lemma {:induction false} SchemeStopAt(s: string, i: nat, e: nat)
    requires i <= e <= |s|
    requires forall j :: i <= j < e ==> IsSchemeChar(s[j])
    requires e == |s| || !IsSchemeChar(s[e])
    ensures SchemeStop(s, i) == e
    decreases e - i
  {
    if i < e {
      SchemeStopAt(s, i + 1, e);
    }
  }

  lemma {:induction false} FirstBeforeAt(s: string, c: char, i: nat, hi: nat, e: nat)
    requires i <= e <= hi <= |s|
    requires forall j :: i <= j < e ==> s[j] != c
    requires e == hi || s[e] == c
    ensures FirstBefore(s, c, i, hi) == e
    decreases e - i
  {
    if i < e {
      FirstBeforeAt(s, c, i + 1, hi, e);
    }
  }

  lemma {:induction false} AfterLastAt(s: string, c: char, lo: nat, hi: nat, r: nat)
    requires lo <= r <= hi <= |s|
    requires r == lo || s[r - 1] == c
    requires forall j :: r <= j < hi ==> s[j] != c
    ensures AfterLast(s, c, lo, hi) == r
    decreases hi - lo
  {
    if r < hi {
      AfterLastAt(s, c, lo, hi - 1, r);
    }
  }

  /** `Slashes` turns each backslash into a slash and keeps every other
      character. */
  lemma {:induction false} SlashesAt(p: string)
    ensures forall k :: 0 <= k < |p| ==> Slashes(p)[k] == (if p[k] == '\\' then '/' else p[k])
  {
    if p != [] {
      SlashesAt(p[..|p| - 1]);
    }
  }

  /** Reading backslashes as slashes twice changes nothing more. */
  lemma SlashesIdempotent(p: string)
    ensures Slashes(Slashes(p)) == Slashes(p)
  {
    SlashesAt(p);
    SlashesAt(Slashes(p));
  }

  lemma SlashesKeepsDelimiters(p: string)
    requires PathChars(p)
    ensures PathChars(Slashes(p))
  {
    SlashesAt(p);
  }

  /** Lower-casing keeps a domain valid. */
  lemma LowerValidDomain(host: string)
    requires ValidDomain(host)
    ensures ValidDomain(ToLower(host))
  {
    var r := ToLower(host);
    forall k | 0 <= k < |r|
      ensures !ForbiddenDomainChar(r[k])
    {
      assert r[k] == LowerChar(host[k]);
    }
  }

  predicate UserChars(user: string) {
    forall k :: 0 <= k < |user| ==> user[k] !in {'/', '\\', '?', '#'}
  }

  predicate PathChars(path: string) {
    forall k :: 0 <= k < |path| ==> path[k] != '?' && path[k] != '#'
  }

  /** "user@" when there is userinfo. */
  function UserPart(user: Option<string>): string {
    if user.Some? then user.value + "@" else ""
  }

  /** The port that stays in the URL: none when it is the scheme's default. */
  function KeptPort(scheme: string, port: Option<nat>): Option<nat> {
    if port.Some? && Some(port.value) == DefaultPort(scheme) then None else port
  }

  /** A scheme as written: a letter, then letters, digits, "+", "-" or ".". */
  predicate SchemeName(scheme: string) {
    scheme != [] && IsAsciiLetter(scheme[0]) && forall k :: 0 <= k < |scheme| ==> IsSchemeChar(scheme[k])
  }

  /** The scheme of an absolute URL ends at the first character that cannot
      be in a scheme, and a ":" there sends the rest to the parser of the
      lower-cased scheme. */
  lemma ParseUrlScheme(s: string, k: nat)
    requires 0 < k < |s| && SchemeName(s[..k]) && s[k] == ':'
    ensures var scheme := ToLower(s[..k]);
      ParseUrl(s) == if scheme in TupleSchemes then ParseSpecial(s, scheme, k + 1)
                     else if scheme == "file" then ParseFile(s, k + 1)
                     else ParseOther(s, scheme, k + 1)
  {
    assert forall j :: 1 <= j < k ==> s[j] == s[..k][j];
    SchemeStopAt(s, 1, k);
  }

  /** The authority "userinfo@host:port". */
  function AuthorityText(user: Option<string>, host: string, port: Option<nat>): string {
    UserPart(user) + host + PortPart(port)
  }

  /** An authority "userinfo@host:port" parses to the host (lower-cased when
      the scheme is special) and the port, unless that is the default. */
  lemma AuthorityOf(scheme: string, special: bool, user: Option<string>, host: string, port: Option<nat>)
    requires if special then ValidDomain(host) else ValidOpaqueHost(host)
    requires port.Some? ==> port.value <= 65535
    ensures Authority(AuthorityText(user, host, port), scheme, special)
      == Ok((if special then ToLower(host) else host, KeptPort(scheme, port)))
  {
    if special {
      DomainIsOpaqueHost(host);
    }
    var auth := AuthorityText(user, host, port);
    var b := |UserPart(user)|;
    var c := b + |host|;
    var portText := if port.Some? then NatToString(port.value) else "";
    var r := (if special then ToLower(host) else host, KeptPort(scheme, port));
    AuthorityBounds(user, host, port, auth, b, c, portText);
    HostAndPortOf(host, port, scheme, special);
    AuthorityAt(auth, scheme, special, b, c, host, portText, r);
  }

  /** In "userinfo@host:port" the last "@" ends the userinfo and the first
      ":" after it ends the host. */
  lemma AuthorityBounds(user: Option<string>, host: string, port: Option<nat>, auth: string, b: nat, c: nat, portText: string)
    requires ValidOpaqueHost(host)
    requires auth == AuthorityText(user, host, port) && b == |UserPart(user)| && c == b + |host|
    requires portText == if port.Some? then NatToString(port.value) else ""
    ensures b <= c <= |auth| && AfterLast(auth, '@', 0, |auth|) == b && FirstBefore(auth, ':', b, |auth|) == c
    ensures auth[b..c] == host && (if c < |auth| then auth[c + 1..] else "") == portText
  {
    AuthorityScans(UserPart(user), host, PortPart(port));
    var u := UserPart(user);
    Middle(u, host, PortPart(port));
    if port.Some? {
      Tail(u + host, NatToString(port.value));
    }
  }

  /** In u + host + p, where u is empty or ends with "@", the host holds
      neither "@" nor ":" and p holds no "@", the last "@" ends u and the
      first ":" after it ends the host. */
  lemma AuthorityScans(u: string, host: string, p: string)
    requires u == [] || u[|u| - 1] == '@'
    requires ValidOpaqueHost(host)
    requires forall j :: 0 <= j < |p| ==> p[j] !in {'@'}
    requires p == [] || p[0] == ':'
    ensures var auth := u + host + p;
      AfterLast(auth, '@', 0, |auth|) == |u| && FirstBefore(auth, ':', |u|, |auth|) == |u| + |host|
  {
    var auth := u + host + p;
    var b := |u|;
    var c := b + |host|;
    HostNoDelimiter(host);
    CharsInMiddle(u, host, p, {'@', ':'});
    CharsAtEnd(u + host, p, {'@'});
    if u != [] {
      assert auth[b - 1] == u[|u| - 1];
    }
    AfterLastAt(auth, '@', 0, |auth|, b);
    FirstBeforeAt(auth, ':', b, |auth|, c);
  }

  /** `Authority` once the last "@" and the first ":" after it are known. */
  lemma AuthorityAt(auth: string, scheme: string, special: bool, b: nat, c: nat, host: string, portText: string, r: (string, Option<nat>))
    requires b <= c <= |auth|
    requires AfterLast(auth, '@', 0, |auth|) == b && FirstBefore(auth, ':', b, |auth|) == c
    requires auth[b..c] == host && (if c < |auth| then auth[c + 1..] else "") == portText
    requires HostAndPort(host, portText, scheme, special) == Some(r)
    ensures Authority(auth, scheme, special) == Ok(r)
  {
  }

  /** A valid host and a port in range are accepted; the port is dropped
      when it is the scheme's default. */
  lemma HostAndPortOf(host: string, port: Option<nat>, scheme: string, special: bool)
    requires if special then ValidDomain(host) else ValidOpaqueHost(host)
    requires port.Some? ==> port.value <= 65535
    ensures HostAndPort(host, if port.Some? then NatToString(port.value) else "", scheme, special)
      == Some((if special then ToLower(host) else host, KeptPort(scheme, port)))
  {
    if port.Some? {
      DecimalOfNatToString(port.value);
    }
  }

  lemma HostNoDelimiter(host: string)
    requires ValidOpaqueHost(host)
    ensures forall j :: 0 <= j < |host| ==> host[j] !in {'@', ':'}
  {
  }

  lemma PortNoAt(port: Option<nat>)
    ensures forall j :: 0 <= j < |PortPart(port)| ==> PortPart(port)[j] !in {'@'}
  {
  }

  lemma Middle(x: string, y: string, z: string)
    ensures (x + y + z)[|x|..|x| + |y|] == y
  {
  }

  lemma MiddleRight(x: string, y: string, z: string)
    ensures (x + (y + z))[|x|..|x| + |y|] == y
  {
  }

  lemma Tail(x: string, n: string)
    ensures (x + (":" + n))[|x| + 1..] == n
  {
  }

  lemma CharsInMiddle(x: string, y: string, z: string, stops: set<char>)
    requires forall j :: 0 <= j < |y| ==> y[j] !in stops
    ensures forall j :: |x| <= j < |x| + |y| ==> (x + y + z)[j] !in stops
  {
  }

  lemma CharsAtEnd(x: string, y: string, stops: set<char>)
    requires forall j :: 0 <= j < |y| ==> y[j] !in stops
    ensures forall j :: |x| <= j < |x| + |y| ==> (x + y)[j] !in stops
  {
  }

  lemma CharsInMiddleRight(x: string, y: string, z: string, stops: set<char>)
    requires forall j :: 0 <= j < |y| ==> y[j] !in stops
    ensures forall j :: |x| <= j < |x| + |y| ==> (x + (y + z))[j] !in stops
  {
  }

  /** No character of "userinfo@host:port" ends a special authority. */
  lemma AuthorityChars(user: Option<string>, host: string, port: Option<nat>)
    requires user.Some? ==> UserChars(user.value)
    requires ValidDomain(host)
    ensures var t := AuthorityText(user, host, port);
      t != [] && forall j :: 0 <= j < |t| ==> t[j] !in {'/', '\\', '?', '#'}
  {
    var u := UserPart(user);
    var p := PortPart(port);
    var t := u + host + p;
    forall j | 0 <= j < |t|
      ensures t[j] !in {'/', '\\', '?', '#'}
    {
      if j < |u| {
        assert t[j] == u[j];
      } else if j < |u| + |host| {
        assert t[j] == host[j - |u|];
      } else {
        assert t[j] == p[j - |u| - |host|];
      }
    }
  }

  /** Where the scheme of "scheme://authority" + path + suffix ends, and
      where its authority starts. */
  lemma SchemeBounds(scheme: string, t: string, r: string)
    requires t != [] && t[0] != '/' && t[0] != '\\'
    ensures var s := scheme + "://" + t + r;
      var k := |scheme|;
      k + 3 < |s| && s[..k] == scheme && s[k] == ':' && FirstNotIn(s, {'/', '\\'}, k + 1) == k + 3
  {
    var s := scheme + "://" + t + r;
    var k := |scheme|;
    Head(scheme, "://", t, r);
    assert s[k] == ':' && s[k + 1] == '/' && s[k + 2] == '/' && s[k + 3] == t[0];
    var skip := {'/', '\\'};
    assert FirstNotIn(s, skip, k + 3) == k + 3;
    assert FirstNotIn(s, skip, k + 2) == k + 3;
  }

  /** Where the authority and the path of w + authority + path + suffix end. */
  lemma SpecialBounds(w: string, t: string, path: string, suffix: string)
    requires forall j :: 0 <= j < |t| ==> t[j] !in {'/', '\\', '?', '#'}
    requires PathChars(path) && (path == [] || path[0] == '/' || path[0] == '\\')
    requires suffix == [] || suffix[0] == '?' || suffix[0] == '#'
    ensures var s := w + t + (path + suffix);
      var h := |w| + |t|;
      var e := h + |path|;
      e <= |s| && FirstOf(s, {'/', '\\', '?', '#'}, |w|) == h &&
      FirstOf(s, {'?', '#'}, h) == e && s[h..e] == path && s[|w|..h] == t
  {
    var r := path + suffix;
    var s := w + t + r;
    var h := |w| + |t|;
    var e := h + |path|;
    CharsInMiddle(w, t, r, {'/', '\\', '?', '#'});
    assert h < |s| ==> s[h] == r[0];
    FirstOfAt(s, {'/', '\\', '?', '#'}, |w|, h);
    CharsInMiddleRight(w + t, path, suffix, {'?', '#'});
    assert e < |s| ==> s[e] == suffix[0];
    FirstOfAt(s, {'?', '#'}, h, e);
    MiddleRight(w + t, path, suffix);
    Middle(w, t, r);
  }

  lemma Head(a: string, b: string, y: string, z: string)
    ensures (a + b + y + z)[..|a|] == a
  {
  }

  /** A URL of a special scheme other than file parses to its lower-cased
      scheme and host, its port unless that is the scheme's default, and its
      path with backslashes read as slashes ("/" when empty); userinfo,
      query and fragment are not kept. */
  lemma ParseUrlParts(scheme: string, sc: string, user: Option<string>, host: string, port: Option<nat>, path: string, suffix: string)
    requires SchemeName(scheme) && ToLower(scheme) == sc && sc in TupleSchemes
    requires user.Some? ==> UserChars(user.value)
    requires ValidDomain(host)
    requires port.Some? ==> port.value <= 65535
    requires PathChars(path) && (path == [] || path[0] == '/' || path[0] == '\\')
    requires suffix == [] || suffix[0] == '?' || suffix[0] == '#'
    ensures ParseUrl(scheme + "://" + AuthorityText(user, host, port) + (path + suffix))
      == Ok(Url(sc, ToLower(host), KeptPort(sc, port), if path == [] then "/" else Slashes(path)))
  {
    var t := AuthorityText(user, host, port);
    var s := scheme + "://" + t + (path + suffix);
    var k := |scheme|;
    var a := k + 3;
    var h := a + |t|;
    var e := h + |path|;
    AuthorityChars(user, host, port);
    SchemePositions(scheme, sc, t, path + suffix, s, k);
    AuthorityPositions(scheme + "://", t, path, suffix, s, a, h, e);
    AuthorityOf(sc, true, user, host, port);
    ParseSpecialAt(s, k, sc, a, h, e, t, ToLower(host), KeptPort(sc, port), path);
  }

  /** Where the scheme ends in "scheme://" + t + r. */
  lemma SchemePositions(scheme: string, sc: string, t: string, r: string, s: string, k: nat)
    requires s == scheme + "://" + t + r && k == |scheme|
    requires SchemeName(scheme) && ToLower(scheme) == sc
    requires t != [] && t[0] != '/' && t[0] != '\\'
    ensures 0 < k < |s| && SchemeName(s[..k]) && s[k] == ':' && ToLower(s[..k]) == sc
    ensures FirstNotIn(s, {'/', '\\'}, k + 1) == k + 3
  {
    SchemeBounds(scheme, t, r);
  }

  /** Where the authority and the path end in w + t + path + suffix. */
  lemma AuthorityPositions(w: string, t: string, path: string, suffix: string, s: string, a: nat, h: nat, e: nat)
    requires s == w + t + (path + suffix) && a == |w| && h == a + |t| && e == h + |path|
    requires forall j :: 0 <= j < |t| ==> t[j] !in {'/', '\\', '?', '#'}
    requires PathChars(path) && (path == [] || path[0] == '/' || path[0] == '\\')
    requires suffix == [] || suffix[0] == '?' || suffix[0] == '#'
    ensures a <= h <= e <= |s|
    ensures FirstOf(s, {'/', '\\', '?', '#'}, a) == h && FirstOf(s, {'?', '#'}, h) == e
    ensures s[a..h] == t && s[h..e] == path
  {
    SpecialBounds(w, t, path, suffix);
  }

  /** `new URL` on a special scheme other than file, once the ends of its
      parts are known. */
  lemma ParseSpecialAt(s: string, k: nat, sc: string, a: nat, h: nat, e: nat, t: string, host: string, port: Option<nat>, path: string)
    requires 0 < k < |s| && SchemeName(s[..k]) && s[k] == ':' && ToLower(s[..k]) == sc && sc in TupleSchemes
    requires k + 1 <= a <= h <= e <= |s|
    requires FirstNotIn(s, {'/', '\\'}, k + 1) == a && FirstOf(s, {'/', '\\', '?', '#'}, a) == h
    requires FirstOf(s, {'?', '#'}, h) == e && s[a..h] == t && s[h..e] == path
    requires Authority(t, sc, true) == Ok((host, port))
    ensures ParseUrl(s) == Ok(Url(sc, host, port, if path == [] then "/" else Slashes(path)))
  {
    ParseUrlScheme(s, k);
  }

  /** The rewrite keeps the origin (lower-cased scheme and host, a port that
      is not the default) and the path, drops userinfo, and replaces any
      query or fragment with "?d=orig&p=det". */
  lemma RewriteImageDropsQuery(scheme: string, sc: string, user: Option<string>, host: string, port: Option<nat>, path: string, suffix: string)
    requires SchemeName(scheme) && ToLower(scheme) == sc && sc in TupleSchemes
    requires user.Some? ==> UserChars(user.value)
    requires ValidDomain(host)
    requires port.Some? ==> port.value <= 65535
    requires PathChars(path) && (path == [] || path[0] == '/' || path[0] == '\\')
    requires suffix == [] || suffix[0] == '?' || suffix[0] == '#'
    ensures RewriteImage(scheme + "://" + AuthorityText(user, host, port) + (path + suffix))
      == Ok(sc + "://" + ToLower(host) + PortPart(KeptPort(sc, port)) + (if path == [] then "/" else Slashes(path)) + "?d=orig&p=det")
  {
    ParseUrlParts(scheme, sc, user, host, port, path, suffix);
  }

  /** What a parsed special authority holds: a valid lower-case domain and a
      port that is in range and not the default. */
  lemma AuthorityShape(auth: string, scheme: string, host: string, port: Option<nat>)
    requires Authority(auth, scheme, true) == Ok((host, port))
    ensures ValidDomain(host) && ToLower(host) == host
    ensures port.Some? ==> port.value <= 65535 && Some(port.value) != DefaultPort(scheme)
  {
    var b := AfterLast(auth, '@', 0, |auth|);
    var c := FirstBefore(auth, ':', b, |auth|);
    HostAndPortShape(auth[b..c], if c < |auth| then auth[c + 1..] else "", scheme, host, port);
  }

  lemma HostAndPortShape(h: string, p: string, scheme: string, host: string, port: Option<nat>)
    requires HostAndPort(h, p, scheme, true) == Some((host, port))
    ensures ValidDomain(host) && ToLower(host) == host
    ensures port.Some? ==> port.value <= 65535 && Some(port.value) != DefaultPort(scheme)
  {
    LowerValidDomain(h);
    ToLowerIdempotent(h);
  }

  /** The pathname of a special URL starts with "/" and holds no "?" or
      "#"; reading backslashes as slashes again changes nothing. */
  lemma PathShape(s: string, h: nat, e: nat, pathname: string)
    requires h <= e <= |s| && FirstOf(s, {'?', '#'}, h) == e
    requires h < |s| ==> s[h] in {'/', '\\', '?', '#'}
    requires pathname == if e == h then "/" else Slashes(s[h..e])
    ensures pathname != [] && pathname[0] == '/'
    ensures PathChars(pathname) && Slashes(pathname) == pathname
  {
    FirstOfStops(s, {'?', '#'}, h);
    if e > h {
      var p := s[h..e];
      forall k | 0 <= k < |p|
        ensures p[k] != '?' && p[k] != '#'
      {
        assert p[k] == s[h + k];
      }
      assert p[0] == s[h];
      SlashesAt(p);
      assert pathname[0] == '/';
      SlashesKeepsDelimiters(p);
      SlashesIdempotent(p);
    }
  }

  /** A parse that yields a special scheme other than file took the special
      branch. */
  lemma SpecialParse(s: string) returns (k: nat)
    requires ParseUrl(s).Ok? && ParseUrl(s).value.scheme in TupleSchemes
    ensures 0 < k < |s| && ParseUrl(s) == ParseSpecial(s, ParseUrl(s).value.scheme, k + 1)
  {
    var sc;
    k, sc := ParseUrlCases(s);
    var r := ParseUrl(s);
    if sc !in TupleSchemes {
      if sc == "file" {
        FileSchemeOf(s, k + 1);
        FileSchemeName();
      } else {
        OtherSchemeOf(s, sc, k + 1);
      }
    }
  }

  /** A URL that parses has a scheme ended by ":"; its lower-cased form
      selects the parser. */
  lemma ParseUrlCases(s: string) returns (k: nat, sc: string)
    requires ParseUrl(s).Ok?
    ensures 0 < k < |s| && sc == ToLower(s[..k])
    ensures sc in TupleSchemes ==> ParseUrl(s) == ParseSpecial(s, sc, k + 1)
    ensures sc !in TupleSchemes && sc == "file" ==> ParseUrl(s) == ParseFile(s, k + 1)
    ensures sc !in TupleSchemes && sc != "file" ==> ParseUrl(s) == ParseOther(s, sc, k + 1)
  {
    ParseUrlHasScheme(s);
    k := SchemeStop(s, 1);
    SchemeStopName(s);
    ParseUrlScheme(s, k);
    sc := ToLower(s[..k]);
  }

  /** Only a string with a scheme ended by ":" parses. */
  lemma ParseUrlHasScheme(s: string)
    requires ParseUrl(s).Ok?
    ensures s != [] && IsAsciiLetter(s[0]) && SchemeStop(s, 1) < |s| && s[SchemeStop(s, 1)] == ':'
  {
  }

  /** The characters before the scheme's end spell a scheme name. */
  lemma SchemeStopName(s: string)
    requires s != [] && IsAsciiLetter(s[0])
    ensures SchemeName(s[..SchemeStop(s, 1)])
  {
    var k := SchemeStop(s, 1);
    SchemeStopChars(s, 1);
    assert forall j :: 0 <= j < k ==> s[..k][j] == s[j];
  }

  lemma {:induction false} SchemeStopChars(s: string, i: nat)
    requires i <= |s|
    ensures forall j :: i <= j < SchemeStop(s, i) ==> IsSchemeChar(s[j])
    decreases |s| - i
  {
    if i < |s| && IsSchemeChar(s[i]) {
      SchemeStopChars(s, i + 1);
    }
  }

  lemma FileSchemeOf(s: string, i: nat)
    requires i <= |s| && ParseFile(s, i).Ok?
    ensures ParseFile(s, i).value.scheme == "file"
  {
  }

  lemma OtherSchemeOf(s: string, sc: string, i: nat)
    requires i <= |s| && ParseOther(s, sc, i).Ok?
    ensures ParseOther(s, sc, i).value.scheme == sc
  {
  }

  /** What `new URL` gives for a special scheme other than file. */
  lemma SpecialShape(s: string)
    requires ParseUrl(s).Ok? && ParseUrl(s).value.scheme in TupleSchemes
    ensures var u := ParseUrl(s).value;
      SchemeName(u.scheme) && ToLower(u.scheme) == u.scheme &&
      ValidDomain(u.host) && ToLower(u.host) == u.host &&
      (u.port.Some? ==> u.port.value <= 65535) && KeptPort(u.scheme, u.port) == u.port &&
      PathChars(u.pathname) && u.pathname != [] && u.pathname[0] == '/' && Slashes(u.pathname) == u.pathname
  {
    var u := ParseUrl(s).value;
    var k := SpecialParse(s);
    SpecialHostShape(s, u.scheme, k, u);
    SpecialPathShape(s, u.scheme, k, u);
    TupleSchemeLower(u.scheme);
  }

  lemma SpecialHostShape(s: string, sc: string, k: nat, u: Url)
    requires k < |s| && ParseSpecial(s, sc, k + 1) == Ok(u)
    ensures u.scheme == sc && ValidDomain(u.host) && ToLower(u.host) == u.host
    ensures u.port.Some? ==> u.port.value <= 65535 && Some(u.port.value) != DefaultPort(sc)
  {
    var a := FirstNotIn(s, {'/', '\\'}, k + 1);
    var h := FirstOf(s, {'/', '\\', '?', '#'}, a);
    var e := FirstOf(s, {'?', '#'}, h);
    SpecialResult(s, sc, k, a, h, e, u);
    AuthorityShape(s[a..h], sc, u.host, u.port);
  }

  lemma SpecialPathShape(s: string, sc: string, k: nat, u: Url)
    requires k < |s| && ParseSpecial(s, sc, k + 1) == Ok(u)
    ensures u.pathname != [] && u.pathname[0] == '/'
    ensures PathChars(u.pathname) && Slashes(u.pathname) == u.pathname
  {
    var a := FirstNotIn(s, {'/', '\\'}, k + 1);
    var h := FirstOf(s, {'/', '\\', '?', '#'}, a);
    var e := FirstOf(s, {'?', '#'}, h);
    SpecialResult(s, sc, k, a, h, e, u);
    FirstOfStops(s, {'/', '\\', '?', '#'}, a);
    PathShape(s, h, e, u.pathname);
  }

  /** The parts of a special URL, once the ends of its parts are known. */
  lemma SpecialResult(s: string, sc: string, k: nat, a: nat, h: nat, e: nat, u: Url)
    requires k < |s| && ParseSpecial(s, sc, k + 1) == Ok(u)
    requires a == FirstNotIn(s, {'/', '\\'}, k + 1) && h == FirstOf(s, {'/', '\\', '?', '#'}, a)
    requires e == FirstOf(s, {'?', '#'}, h)
    ensures a <= h <= e <= |s| && Authority(s[a..h], sc, true) == Ok((u.host, u.port))
    ensures u.scheme == sc && u.pathname == if e == h then "/" else Slashes(s[h..e])
  {
  }

  /** The tuple-origin schemes are lower-case scheme names. */
  lemma TupleSchemeLower(sc: string)
    requires sc in TupleSchemes
    ensures SchemeName(sc) && ToLower(sc) == sc
  {
    TupleSchemeName(sc);
    LowerOfLower(sc);
  }

  lemma TupleSchemeName(sc: string)
    requires sc in TupleSchemes
    ensures SchemeName(sc) && IsLower(sc)
  {
    assert sc == "ftp" || sc == "http" || sc == "https" || sc == "ws" || sc == "wss";
  }

  /** Rewriting an already rewritten image URL of a special scheme other
      than file changes nothing. */
  lemma RewriteImageIdempotent(s: string)
    requires ParseUrl(s).Ok? && ParseUrl(s).value.scheme in TupleSchemes
    ensures RewriteImage(RewriteImage(s).value) == RewriteImage(s)
  {
    var u := ParseUrl(s).value;
    SpecialShape(s);
    RewriteUrlAgain(u, u.scheme, u.host, u.port, u.pathname);
  }

  lemma RewriteUrlAgain(u: Url, sc: string, host: string, port: Option<nat>, pathname: string)
    requires u == Url(sc, host, port, pathname)
    requires SchemeName(sc) && ToLower(sc) == sc && sc in TupleSchemes
    requires ValidDomain(host) && ToLower(host) == host
    requires (port.Some? ==> port.value <= 65535) && KeptPort(sc, port) == port
    requires PathChars(pathname) && pathname != [] && pathname[0] == '/' && Slashes(pathname) == pathname
    ensures var r := Origin(u) + pathname + "?d=orig&p=det";
      RewriteImage(r) == Ok(r)
  {
    OriginText(u, "?d=orig&p=det");
    RewriteImageDropsQuery(sc, sc, None, host, port, pathname, "?d=orig&p=det");
  }

  /** The text of a special URL without userinfo. */
  lemma OriginText(u: Url, q: string)
    requires u.scheme in TupleSchemes
    ensures u.scheme + "://" + AuthorityText(None, u.host, u.port) + (u.pathname + q)
      == Origin(u) + u.pathname + q
  {
  }

  /** Any other scheme, without "//": the pathname is the text after the
      colon up to "?" or "#", and the origin is "null" except for "blob:",
      whose origin is read from that pathname. */
  lemma RewriteImageOpaque(scheme: string, body: string, suffix: string)
    requires SchemeName(scheme) && ToLower(scheme) !in TupleSchemes && ToLower(scheme) != "file"
    requires PathChars(body) && !(|body| >= 2 && body[0] == '/' && body[1] == '/')
    requires suffix == [] || suffix[0] == '?' || suffix[0] == '#'
    ensures RewriteImage(scheme + ":" + body + suffix)
      == Ok((if ToLower(scheme) == "blob" then BlobOrigin(body) else "null") + body + "?d=orig&p=det")
  {
    ParseOpaque(scheme, ToLower(scheme), body, suffix, scheme + ":" + body + suffix);
  }

  /** A URL of a scheme other than the special ones, without "//", parses to
      an opaque path. */
  lemma ParseOpaque(scheme: string, sc: string, body: string, suffix: string, s: string)
    requires SchemeName(scheme) && ToLower(scheme) == sc && sc !in TupleSchemes && sc != "file"
    requires PathChars(body) && !(|body| >= 2 && body[0] == '/' && body[1] == '/')
    requires suffix == [] || suffix[0] == '?' || suffix[0] == '#'
    requires s == scheme + ":" + body + suffix
    ensures ParseUrl(s) == Ok(Url(sc, "", None, body))
  {
    OpaqueScheme(scheme, sc, body, suffix, s);
    OpaqueRest(sc, scheme + ":", body, suffix, s);
  }

  /** A non-special scheme other than file hands the rest to ParseOther. */
  lemma OpaqueScheme(scheme: string, sc: string, body: string, suffix: string, s: string)
    requires SchemeName(scheme) && ToLower(scheme) == sc && sc !in TupleSchemes && sc != "file"
    requires s == scheme + ":" + body + suffix
    ensures |scheme| < |s| && ParseUrl(s) == ParseOther(s, sc, |scheme| + 1)
  {
    Head(scheme, ":", body, suffix);
    assert s[|scheme|] == ':';
    ParseUrlScheme(s, |scheme|);
  }

  /** An opaque path runs to the first "?" or "#". */
  lemma OpaqueRest(sc: string, p: string, body: string, suffix: string, s: string)
    requires PathChars(body) && !(|body| >= 2 && body[0] == '/' && body[1] == '/')
    requires suffix == [] || suffix[0] == '?' || suffix[0] == '#'
    requires s == p + body + suffix
    ensures ParseOther(s, sc, |p|) == Ok(Url(sc, "", None, body))
  {
    var i := |p|;
    CharsInMiddle(p, body, suffix, {'?', '#'});
    assert i + |body| < |s| ==> s[i + |body|] == suffix[0];
    FirstOfAt(s, {'?', '#'}, i, i + |body|);
    Middle(p, body, suffix);
  }

  /** A "data:" image, such as a lazy-loading placeholder, parses with an
      opaque path: it is rewritten to "null" followed by its media type and
      data. */
  lemma RewriteImageData(body: string)
    requires PathChars(body) && !(|body| >= 2 && body[0] == '/' && body[1] == '/')
    ensures RewriteImage("data:" + body) == Ok("null" + body + "?d=orig&p=det")
  {
    var s := "data:" + body;
    DataSchemeName();
    assert s == "data" + ":" + body + "";
    ParseOpaque("data", "data", body, "", s);
  }

  lemma DataSchemeName()
    ensures SchemeName("data") && ToLower("data") == "data" && "data" !in TupleSchemes
  {
    assert IsLower("data");
    LowerOfLower("data");
  }

  /** A "blob:" image whose path is an http or https URL takes that URL's
      origin, normalised, and keeps the whole path after "blob:" as its
      pathname. */
  lemma RewriteImageBlob(scheme: string, sc: string, user: Option<string>, host: string, port: Option<nat>, path: string, suffix: string)
    requires SchemeName(scheme) && ToLower(scheme) == sc && (sc == "http" || sc == "https")
    requires user.Some? ==> UserChars(user.value)
    requires ValidDomain(host)
    requires port.Some? ==> port.value <= 65535
    requires PathChars(path) && (path == [] || path[0] == '/' || path[0] == '\\')
    requires suffix == [] || suffix[0] == '?' || suffix[0] == '#'
    ensures var body := scheme + "://" + AuthorityText(user, host, port) + path;
      RewriteImage("blob:" + body + suffix)
        == Ok(sc + "://" + ToLower(host) + PortPart(KeptPort(sc, port)) + body + "?d=orig&p=det")
  {
    var body := scheme + "://" + AuthorityText(user, host, port) + path;
    var origin := sc + "://" + ToLower(host) + PortPart(KeptPort(sc, port));
    BlobBody(scheme, user, host, port, path, body);
    BlobOriginOf(scheme, sc, user, host, port, path, body);
    RewriteBlob(body, suffix, origin, "blob:" + body + suffix);
  }

  /** A "blob:" URL with an opaque path takes the origin read from it. */
  lemma RewriteBlob(body: string, suffix: string, origin: string, s: string)
    requires PathChars(body) && !(|body| >= 2 && body[0] == '/' && body[1] == '/')
    requires suffix == [] || suffix[0] == '?' || suffix[0] == '#'
    requires BlobOrigin(body) == origin && s == "blob:" + body + suffix
    ensures RewriteImage(s) == Ok(origin + body + "?d=orig&p=det")
  {
    BlobSchemeName();
    assert s == "blob" + ":" + body + suffix;
    ParseOpaque("blob", "blob", body, suffix, s);
  }

  /** The origin a "blob:" URL reads from an http or https URL. */
  lemma BlobOriginOf(scheme: string, sc: string, user: Option<string>, host: string, port: Option<nat>, path: string, body: string)
    requires SchemeName(scheme) && ToLower(scheme) == sc && (sc == "http" || sc == "https")
    requires user.Some? ==> UserChars(user.value)
    requires ValidDomain(host)
    requires port.Some? ==> port.value <= 65535
    requires PathChars(path) && (path == [] || path[0] == '/' || path[0] == '\\')
    requires body == scheme + "://" + AuthorityText(user, host, port) + path
    ensures BlobOrigin(body) == sc + "://" + ToLower(host) + PortPart(KeptPort(sc, port))
  {
    assert body == scheme + "://" + AuthorityText(user, host, port) + (path + "");
    ParseUrlParts(scheme, sc, user, host, port, path, "");
  }

  /** The path of such a "blob:" URL has no "?" or "#" and does not start
      with "//". */
  lemma BlobBody(scheme: string, user: Option<string>, host: string, port: Option<nat>, path: string, body: string)
    requires SchemeName(scheme)
    requires user.Some? ==> UserChars(user.value)
    requires ValidDomain(host)
    requires PathChars(path)
    requires body == scheme + "://" + AuthorityText(user, host, port) + path
    ensures PathChars(body) && !(|body| >= 2 && body[0] == '/' && body[1] == '/')
  {
    var t := AuthorityText(user, host, port);
    AuthorityChars(user, host, port);
    forall j | 0 <= j < |body|
      ensures body[j] != '?' && body[j] != '#'
    {
      if j < |scheme| {
        assert body[j] == scheme[j];
      } else if j < |scheme| + 3 {
        assert body[j] == "://"[j - |scheme|];
      } else if j < |scheme| + 3 + |t| {
        assert body[j] == t[j - |scheme| - 3];
      } else {
        assert body[j] == path[j - |scheme| - 3 - |t|];
      }
    }
    assert body[0] == scheme[0];
  }

  lemma BlobSchemeName()
    ensures SchemeName("blob") && ToLower("blob") == "blob" && "blob" !in TupleSchemes
  {
    assert IsLower("blob");
    LowerOfLower("blob");
  }

  /** file: the origin is "null" and the pathname is the path after the
      host, which always starts with "/". */
  lemma RewriteImageFile(host: string, path: string, suffix: string)
    requires host == [] || ValidDomain(host)
    requires PathChars(path) && (path == [] || path[0] == '/' || path[0] == '\\')
    requires suffix == [] || suffix[0] == '?' || suffix[0] == '#'
    ensures RewriteImage("file://" + host + (path + suffix))
      == Ok("null" + (if path == [] then "/" else Slashes(path)) + "?d=orig&p=det")
  {
    var s := "file://" + host + (path + suffix);
    var j := 7 + |host|;
    var e := j + |path|;
    FilePositions(host, path, suffix, s, j, e);
    ParseFileAt(s, j, e, host, path);
  }

  /** Where the scanners stop in "file://" + host + path + suffix. */
  lemma FilePositions(host: string, path: string, suffix: string, s: string, j: nat, e: nat)
    requires s == "file://" + host + (path + suffix)
    requires j == 7 + |host| && e == j + |path|
    requires host == [] || ValidDomain(host)
    requires PathChars(path) && (path == [] || path[0] == '/' || path[0] == '\\')
    requires suffix == [] || suffix[0] == '?' || suffix[0] == '#'
    ensures 7 <= j <= e <= |s| && s[..4] == "file" && s[4] == ':' && s[5] == '/' && s[6] == '/'
    ensures FirstOf(s, {'/', '\\', '?', '#'}, 7) == j && FirstOf(s, {'?', '#'}, j) == e
    ensures s[7..j] == host && s[j..e] == path
  {
    FileScheme(host, path + suffix);
    DomainNoStops(host);
    SpecialBounds("file://", host, path, suffix);
  }

  /** `new URL` on a file URL, once the ends of its parts are known. */
  lemma ParseFileAt(s: string, j: nat, e: nat, host: string, path: string)
    requires 7 <= j <= e <= |s| && s[..4] == "file" && s[4] == ':' && s[5] == '/' && s[6] == '/'
    requires FirstOf(s, {'/', '\\', '?', '#'}, 7) == j && FirstOf(s, {'?', '#'}, j) == e
    requires s[7..j] == host && s[j..e] == path
    requires host == [] || ValidDomain(host)
    requires path == [] || path[0] == '/' || path[0] == '\\'
    ensures RewriteImage(s) == Ok("null" + (if path == [] then "/" else Slashes(path)) + "?d=orig&p=det")
  {
    ParseUrlFile(s);
    FileOk(s, j, e, host, path);
    var u := ParseFile(s, 5).value;
    FileOrigin(u);
    RewriteOf(s, u);
  }

  /** A file URL has the opaque origin. */
  lemma FileOrigin(u: Url)
    requires u.scheme == "file"
    ensures Origin(u) == "null"
  {
    FileSchemeName();
  }

  /** The rewrite of a string that parses to `u`. */
  lemma RewriteOf(s: string, u: Url)
    requires ParseUrl(s) == Ok(u)
    ensures RewriteImage(s) == Ok(Origin(u) + u.pathname + "?d=orig&p=det")
  {
  }

  lemma ParseUrlFile(s: string)
    requires |s| > 4 && s[..4] == "file" && s[4] == ':'
    ensures ParseUrl(s) == ParseFile(s, 5)
  {
    FileSchemeName();
    ParseUrlScheme(s, 4);
  }

  lemma FileSchemeName()
    ensures SchemeName("file") && ToLower("file") == "file" && "file" !in TupleSchemes
  {
    LowerOfLower("file");
  }

  lemma FileOk(s: string, j: nat, e: nat, host: string, path: string)
    requires 7 <= j <= e <= |s| && s[5] == '/' && s[6] == '/'
    requires FirstOf(s, {'/', '\\', '?', '#'}, 7) == j && FirstOf(s, {'?', '#'}, j) == e
    requires s[7..j] == host && s[j..e] == path
    requires host == [] || ValidDomain(host)
    requires path == [] || path[0] == '/' || path[0] == '\\'
    ensures ParseFile(s, 5).Ok? && ParseFile(s, 5).value.scheme == "file"
    ensures ParseFile(s, 5).value.pathname == if path == [] then "/" else Slashes(path)
  {
    if path != [] {
      SlashesAt(path);
    }
  }

  lemma FileScheme(host: string, r: string)
    ensures var s := "file://" + host + r;
      |s| > 6 && s[..4] == "file" && s[4] == ':' && s[5] == '/' && s[6] == '/'
  {
    var s := "file://" + host + r;
    assert s[..4] == "file://"[..4];
  }

  lemma DomainNoStops(host: string)
    requires host == [] || ValidDomain(host)
    ensures forall j :: 0 <= j < |host| ==> host[j] !in {'/', '\\', '?', '#'}
  {
  }

  /** A relative image path is not a URL: the rewrite throws. */
  lemma RewriteImageRelative(path: string)
    requires Without(path, ':')
    ensures RewriteImage(path).Err?
  {
  }
}

