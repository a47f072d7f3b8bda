# gestify-scrappers in Dafny

A model of the batch news scraper gestify-scrappers. Each bot fetches a listing page, keeps
the entries that have the fields it needs, deduplicates them by link, sorts them newest first
where the bot sorts, and selects a recency window or a fixed number of them. It then fetches
every article page and keeps the records its content rule allows. It hands the batch to a
text-transformation service inside a bounded retry loop. The reply has its Markdown fences
stripped and is parsed as JSON; the loop either returns the value or writes it to a result file.
On exhaustion a bot throws or writes a diagnostic file, depending on the bot. `main.js` connects
to the database once, runs the scrapers one after another, saves only non-empty results
(horoscopes by upsert per sign, scores by delete then insert, the rest by insert), and always
exits with 0. `lib/db.js` memoises whether a connection was made.

Layout, one module per file:

- `common.dfy` (`Common`): Option, Result, the parsed JSON value, the errors, and what an awaited call settles to.
- `text.dfy` (`Text`): the ECMAScript string operations the bots use: `trim`, the fence-stripping `replace`, `toLowerCase`, `join`, `split`, decimal numerals.
- `patterns.dfy` (`Patterns`): the three regular expressions the listing callbacks apply, the content-id split chain, and the image URL rewrite with the `new URL` parse it relies on (scheme, authority and path as the URL Standard reads them).
- `listing.dfy` (`Listing`): the shared listing stage. It covers the push loop, the `seen`-set dedup, the in-place stable sort on an array, and the selections.
- `enrich.dfy` (`Enrich`): content extraction and the settled-record filter.
- `retry.dfy` (`Retry`): the retry loop with its `attempt`, `success`, `cleanedOutput` and `lastError` variables, parameterised by the per-bot constants.
- `entries.dfy` (`Entries`): `Object.entries`, `Object.fromEntries` and the lowercase-keys rewrite.
- `pipeline.dfy` (`Pipeline`): one scraper function as the composition of the stages.
- One module per bot, holding its constants and the properties of each instance: `astrology.dfy`, `ht_astrology.dfy`, `jobs.dfy`, `education.dfy`, `ht_education.dfy`, `cricbuzz.dfy`, `cricket.dfy`, `game_data.dfy`, `trending.dfy`, `livemint.dfy`, `tech.dfy`, `gadgets360.dfy`, `ia.dfy`, `thehindu.dfy`, `compare.dfy`.
- `db.dfy` (`Db`): the `Connection` class with its `isConnected` field.
- `main.dfy` (`Orchestrator`): the gate, the writers, the `Database` class the writers update, and the scraper loop.

Inputs that stand for external behaviour:

- A fetched page is a sequence of raw cards, or `Err` when the fetch rejects.
- An article page is a function from URL and selector to the element texts, with `None` when the fetch rejects.
- The transformation service is `ai: nat -> AiReply`, indexed by call number.
- `JSON.parse` is `parse: string -> Option<Json>`.
- `new Date(text)` is `parseDate: string -> int`, in milliseconds.
- The clock is an `int`.
- Each file write is a boolean outcome.
- `Math.random()` is `random: nat -> real` in `[0, 1)`.

Behaviour of the code that the model keeps as written:

- `main.js` exits with 0 even when the connection fails (`main.js:129-134`).
- `Object.keys` on a non-empty string is non-empty, so a string result would be saved (`main.js:104-108`).
- The bots without a date (`ia.js`, `thehindu.js`) sort with a comparator that always yields NaN, which the stable sort treats as "equal", so their order is unchanged.
- The content id is the text between the first and the second `"article"` of the file name, not everything after the first (`bots/international_affairs/ia.js:64-65`).

## Model

| member | source | states |
|---|---|---|
| Common.Truthy | bots/astrology/hindustantimes.js:73 | JavaScript truthiness of an attribute that is `undefined` or a string: only a non-empty string is truthy |
| Text.IsJsSpace | bots/careerjobs/jobs.js:33 | the characters `trim()` removes: the ECMAScript white space and line terminators |
| Text.SkipSpaces | bots/careerjobs/jobs.js:33 | the first non-white-space position at or after `i`, with only white space before it |
| Text.BackSpaces | bots/careerjobs/jobs.js:33 | the end of a slice once trailing white space is removed, with only white space after it |
| Text.Trim | bots/careerjobs/jobs.js:33 | `trim()` is no longer than its input and neither starts nor ends with white space |
| Text.TrimSlice | bots/careerjobs/jobs.js:33 | the trim is the slice of the input with only white space before and after it |
| Text.TrimUnique | bots/careerjobs/jobs.js:33 | any slice with only white space around it and none at its ends is the trim |
| Text.TrimOfTrimmed | bots/careerjobs/jobs.js:33 | a string with no white space at either end is its own trim |
| Text.TrimIdempotent | bots/careerjobs/jobs.js:114 | trimming twice is trimming once |
| Text.StripFences | bots/careerjobs/jobs.js:114 | the `/```json\|```/g` replacement never lengthens and leaves a backtick-free string unchanged |
| Text.StripFencesPlain | bots/careerjobs/jobs.js:114 | a non-backtick character is kept as it is |
| Text.StripFencesBeforeClosing | bots/careerjobs/jobs.js:114 | a backtick-free body followed by the closing fence loses only the fence |
| Text.CleanFencedReply | bots/careerjobs/jobs.js:114 | a reply fenced as ```json … ``` cleans to its trimmed body |
| Text.CleanBareFencedReply | bots/careerjobs/jobs.js:114 | a reply fenced as ``` … ``` cleans to its trimmed body unless the body starts with "json", which the first alternative removes |
| Text.CleanPlainReply | bots/careerjobs/jobs.js:114 | a reply without backticks is only trimmed |
| Text.Clean | bots/careerjobs/jobs.js:114 | the cleaning every scraper applies to a reply: the fence replacement followed by `trim()` |
| Text.ToLower | bots/astrology/astrology.js:97 | `toLowerCase` lowers ASCII letters, keeps every other character and keeps the length |
| Text.ToLowerIdempotent | bots/astrology/astrology.js:97 | a lowered key has no ASCII upper-case letter and lowering it again changes nothing |
| Text.LowerOfLower | bots/astrology/astrology.js:97 | a key without ASCII upper-case letters is its own lowering |
| Text.LowerChar | bots/astrology/astrology.js:97 | `toLowerCase` of one character: an ASCII capital becomes its small letter, anything else is kept |
| Text.IsLower | bots/astrology/astrology.js:97 | a key with no ASCII capital, the form every lowered key takes |
| Text.Join | bots/careerjobs/jobs.js:74-80 | `parts.join(sep)`: the parts in order with `sep` between neighbours |
| Text.JoinEmptyIff | bots/careerjobs/jobs.js:74-80 | joining non-empty paragraphs gives "" exactly when there are none |
| Text.NatToString | bots/sports/cricket/cricbuzz.js:41-43 | the decimal numeral of a number is a non-empty digit string |
| Text.DecimalOfNatToString | bots/sports/cricket/cricbuzz.js:43 | `parseInt` of a printed numeral gives the number back |
| Text.NatToStringInjective | bots/sports/cricket/cricbuzz.js:43 | distinct numbers print as distinct numerals |
| Text.DecimalValue | bots/sports/cricket/cricbuzz.js:43 | `parseInt(d, 10)` of a run of decimal digits |
| Text.OccursAt | bots/international_affairs/ia.js:64-65 | the separator occurs in the string starting at index `i` |
| Text.IndexFrom | bots/international_affairs/ia.js:64-65 | `indexOf` finds an occurrence at or after `i` with none before it, or reports there is none |
| Text.Split | bots/international_affairs/ia.js:64-65 | `split` with a non-empty separator yields at least one piece |
| Text.JoinSplit | bots/international_affairs/ia.js:64-65 | joining the pieces of a split with the separator gives back the string |
| Text.SplitWithout | bots/international_affairs/ia.js:64-65 | a string without the separator splits into itself alone |
| Text.OccursChar | bots/international_affairs/ia.js:64 | a one-character separator occurs exactly where that character is |
| Text.FirstOccurrence | bots/international_affairs/ia.js:64-65 | the leftmost occurrence is the one with no occurrence before it |
| Text.SplitAt | bots/international_affairs/ia.js:64-65 | the first piece ends at the leftmost occurrence and the rest is split again |
| Text.SplitAround | bots/international_affairs/ia.js:64 | splitting on one character distributes over a concatenation around it |
| Text.SplitAroundFirst | bots/international_affairs/ia.js:64 | the first piece of `a + c + b` ends at the first `c` |
| Text.Reassemble | bots/international_affairs/ia.js:64-65 | cutting an occurrence out and putting it back restores the string |
| Patterns.IsLineTerminator | bots/careerjobs/jobs.js:40 | the characters `.` in `(.+?)` does not match |
| Patterns.HtMatchAt | bots/careerjobs/jobs.js:40 | what `/(Updated on|Published on) (.+?) IST/` captures in its second group when the match starts at `i`: the shortest run of non-terminators up to " IST" |
| Patterns.HtDate | bots/careerjobs/jobs.js:40 | `text.match(...)?.[2]`: the capture of the leftmost match, or none |
| Patterns.HtPubDate | bots/careerjobs/jobs.js:40-41 | `match ? new Date(match[2]) : new Date(0)`: the parsed capture, or the epoch |
| Patterns.Search | bots/careerjobs/jobs.js:40 | `match` reports the leftmost position where the expression matches, or that it matches nowhere |
| Patterns.SearchFinds | bots/careerjobs/jobs.js:40 | a match at `p` with none before it is the one `match` finds |
| Patterns.LazyGroup | bots/careerjobs/jobs.js:40 | the lazy `(.+?)` stops at the first " IST" it can reach without crossing a line terminator |
| Patterns.HtDateOfRendered | bots/careerjobs/jobs.js:40 | "Updated on <g> IST" and "Published on <g> IST" capture exactly `g` |
| Patterns.LazyGroupOfRendered | bots/careerjobs/jobs.js:40 | the lazy group on "<g> IST" ends at the end of `g` |
| Patterns.HtMatchAtMarker | bots/careerjobs/jobs.js:40 | after a marker the capture is what the lazy group takes |
| Patterns.HtDateWithoutMarker | bots/careerjobs/jobs.js:40 | a date line with neither marker does not match |
| Patterns.HtPubDateEpoch | bots/careerjobs/jobs.js:40-41 | an unmatched date line gives `new Date(0)` |
| Patterns.HtPubDateRendered | bots/careerjobs/jobs.js:40-41 | a rendered date line is dated by its captured text |
| Patterns.UnitAt | bots/sports/cricket/cricbuzz.js:41 | one of "m ago", "h ago", "s ago" starts at `i` |
| Patterns.AgoAt | bots/sports/cricket/cricbuzz.js:41 | the number `/(\d+)(?:m ago\|h ago\|s ago)/` captures when the match starts at `i` |
| Patterns.AgoValue | bots/sports/cricket/cricbuzz.js:41-43 | `parseInt(match[1], 10)` of the leftmost match, or none when the stamp does not match |
| Patterns.DigitRun | bots/sports/cricket/cricbuzz.js:41 | `\d+` takes the maximal run of digits |
| Patterns.ShorterRunsFail | bots/sports/cricket/cricbuzz.js:41 | backtracking `\d+` to a shorter run never reaches a unit |
| Patterns.AgoValueOfRendered | bots/sports/cricket/cricbuzz.js:41-43 | "<n>m ago", "<n>h ago" and "<n>s ago" all read as `n` |
| Patterns.AgoAtRendered | bots/sports/cricket/cricbuzz.js:41-43 | a digit string followed by a unit and " ago" captures its value |
| Patterns.UnitAfter | bots/sports/cricket/cricbuzz.js:41 | the unit alternatives match right after the digits |
| Patterns.DigitRunOfNumeral | bots/sports/cricket/cricbuzz.js:41 | the digit run of a numeral followed by a non-digit is the numeral |
| Patterns.IsWordChar | bots/tech/tech.js:36 | the characters `\w` matches |
| Patterns.DatelineStart | bots/tech/tech.js:36 | the text `\d{1,2} \w+ \d{4}` matches at the start of a string: two digits when there are two, the whole word run, exactly four digits |
| Patterns.DatelineAt | bots/tech/tech.js:36 | what `/(\d{1,2} \w+ \d{4})/` captures when the match starts at `i` |
| Patterns.Dateline | bots/tech/tech.js:36-37 | `byline.match(...)?.[1]`: the capture of the leftmost match, or none |
| Patterns.WordRun | bots/tech/tech.js:36 | `\w+` takes the maximal run of word characters |
| Patterns.DatelineAtRendered | bots/tech/tech.js:36 | "<day> <Month> <year>" matches as a whole at its start |
| Patterns.ShortNumeral | bots/tech/tech.js:36 | a day below 100 has a one- or two-digit numeral, as `\d{1,2}` needs |
| Patterns.DatelineOfParts | bots/tech/tech.js:36 | one or two digits, a word and four digits match as a whole |
| Patterns.WordRunOfWord | bots/tech/tech.js:36 | a word followed by a space or the end is the whole word run |
| Patterns.DatelineOfRendered | bots/tech/tech.js:36-37 | a digit-free prefix followed by a date matches that date and nothing earlier |
| Patterns.NoOccurrenceWithout | bots/international_affairs/ia.js:64 | a string without a character has no occurrence of it |
| Patterns.LastSegment | bots/international_affairs/ia.js:64 | `split("/").slice(-1)[0]` is the text after the last "/" |
| Patterns.FirstPiece | bots/international_affairs/ia.js:64 | `split(".")[0]` is the text before the first "." |
| Patterns.SplitArticle | bots/international_affairs/ia.js:65 | "article<digits>" splits on "article" into "" and the digits |
| Patterns.ContentIdOfArticleUrl | bots/international_affairs/ia.js:64-66 | the id of ".../article<digits>.<ext>" is the digits |
| Patterns.ContentId | bots/international_affairs/ia.js:64-65 | `url.split("/").pop().split(".")[0].split("article")[1]`, none where that index is `undefined` |
| Patterns.ContentSelector | bots/international_affairs/ia.js:64-66 | `#content-body-${id} p`, with "undefined" printed for a missing id |
| Patterns.FirstOf | bots/sports/cricket/cricket.js:38 | the first delimiter of a URL part at or after `i`, or the end |
| Patterns.FirstOfAt | bots/sports/cricket/cricket.js:38 | the first delimiter is the one with none before it |
| Patterns.FirstBefore | bots/sports/cricket/cricket.js:38 | the position of the first `c` in a slice, where the host ends at its first ":" |
| Patterns.AfterLast | bots/sports/cricket/cricket.js:38 | the position just after the last "@" of the authority, where userinfo ends |
| Patterns.DefaultPort | bots/sports/cricket/cricket.js:38 | the default port of a special scheme: 21 for ftp, 80 for http and ws, 443 for https and wss |
| Patterns.KeptPort | bots/sports/cricket/cricket.js:38 | the port the URL keeps: none when it is the scheme's default |
| Patterns.ForbiddenHostChar | bots/sports/cricket/cricket.js:38 | the forbidden host code points of the URL Standard |
| Patterns.ForbiddenDomainChar | bots/sports/cricket/cricket.js:38 | the forbidden domain code points: the host ones, C0 controls, "%" and DEL |
| Patterns.ValidDomain | bots/sports/cricket/cricket.js:38 | a special URL's host: non-empty and free of forbidden domain code points |
| Patterns.ValidOpaqueHost | bots/sports/cricket/cricket.js:38 | a non-special URL's host: free of forbidden host code points |
| Patterns.Slashes | bots/sports/cricket/cricket.js:38 | a special URL's path with every backslash read as "/" |
| Patterns.Authority | bots/sports/cricket/cricket.js:38 | an authority read as userinfo (dropped, up to the last "@"), host and port |
| Patterns.HostAndPort | bots/sports/cricket/cricket.js:38 | the host (lower-cased for a special scheme) and the decimal port of at most 65535, none when empty or the default; failure otherwise |
| Patterns.ParseSpecial | bots/sports/cricket/cricket.js:38 | a URL of a tuple scheme after its colon: slashes skipped, authority, path up to "?" or "#", "/" when empty |
| Patterns.ParseFile | bots/sports/cricket/cricket.js:38 | a file: URL: an optional host ("localhost" is none) and a path that always starts with "/" |
| Patterns.ParseOther | bots/sports/cricket/cricket.js:38 | any other scheme: an authority after "//", otherwise the opaque path up to "?" or "#" |
| Patterns.Dispatch | bots/sports/cricket/cricket.js:38 | the parse after the scheme's colon: the special parser for a tuple scheme, the file parser for "file", the generic one otherwise |
| Patterns.ParseUrl | bots/sports/cricket/cricket.js:38 | `new URL(src)` on an absolute URL: the lower-cased scheme, then the parse its scheme calls for; "Invalid URL" without a scheme |
| Patterns.PortPart | bots/sports/cricket/cricket.js:39 | ":port" when the URL keeps a port, else nothing |
| Patterns.TupleOrigin | bots/sports/cricket/cricket.js:39 | the origin of a tuple-scheme URL: scheme, "://", host and kept port |
| Patterns.BlobOrigin | bots/sports/cricket/cricket.js:39 | the origin of a "blob:" URL: that of the URL its path spells when it parses as http or https, else "null" |
| Patterns.Origin | bots/sports/cricket/cricket.js:39 | `urlObj.origin`: the tuple origin, the inner origin for "blob:", and "null" for file: and every other scheme |
| Patterns.RewriteImage | bots/sports/cricket/cricket.js:37-40 | `urlObj.origin + urlObj.pathname + "?d=orig&p=det"` of the parsed `src`, or the parse error |
| Patterns.ParseUrlScheme | bots/sports/cricket/cricket.js:38 | `new URL` reads a scheme up to the first character that cannot be in one, needs a ":" there, and parses the rest by the lower-cased scheme |
| Patterns.AuthorityOf | bots/sports/cricket/cricket.js:38 | "userinfo@host:port" parses to the host, lower-cased for a special scheme, and to the port unless it is the scheme's default; the userinfo is dropped |
| Patterns.AuthorityShape | bots/sports/cricket/cricket.js:38 | a parsed special authority is a lower-case domain free of forbidden code points, with a port of at most 65535 that is not the default |
| Patterns.ParseUrlParts | bots/sports/cricket/cricket.js:38 | an http, https, ws, wss or ftp URL of any letter case, with or without userinfo and port, parses to the lower-cased scheme and host, the non-default port, and the path with backslashes read as slashes ("/" when empty) |
| Patterns.RewriteImageDropsQuery | bots/sports/cricket/cricket.js:37-40 | the rewrite of such a URL is its normalised origin and path followed by "?d=orig&p=det", whatever query or fragment it had |
| Patterns.SpecialShape | bots/sports/cricket/cricket.js:38 | every parse of a tuple-origin URL has a lower-case scheme and host, an in-range non-default port and a pathname that starts with "/" |
| Patterns.RewriteImageIdempotent | bots/sports/cricket/cricket.js:37-40 | rewriting a rewritten http, https, ws, wss or ftp image URL gives it back unchanged |
| Patterns.RewriteImageOpaque | bots/sports/cricket/cricket.js:37-40 | a URL of a non-special scheme without "//" rewrites to its origin ("null", or for "blob:" the origin of the URL after the colon) followed by its text after the colon as the pathname |
| Patterns.RewriteImageData | bots/sports/cricket/cricket.js:37-40 | a "data:" image is rewritten to "null" followed by its media type and data, and "?d=orig&p=det" |
| Patterns.ParseOpaque | bots/sports/cricket/cricket.js:38 | a URL of a non-special scheme with no "//" after the colon parses to that scheme lowered, no host, no port and the text up to "?" or "#" as its pathname |
| Patterns.BlobOriginOf | bots/sports/cricket/cricket.js:39 | the origin of a "blob:" URL whose inner URL is http or https is the inner URL's scheme, lowered host and non-default port |
| Patterns.RewriteBlob | bots/sports/cricket/cricket.js:37-40 | a "blob:" URL rewrites to its origin, its opaque path and "?d=orig&p=det", the query and fragment dropped |
| Patterns.RewriteImageBlob | bots/sports/cricket/cricket.js:37-40 | `blob:http(s)://…` rewrites to the inner URL's origin followed by the whole inner URL text and "?d=orig&p=det" |
| Patterns.RewriteImageFile | bots/sports/cricket/cricket.js:37-40 | a file URL has origin "null" and a pathname that starts with "/" |
| Patterns.RewriteImageRelative | bots/sports/cricket/cricket.js:38 | a relative image path makes `new URL` throw |
| Listing.Links | bots/careerjobs/jobs.js:49-54 | the links of a list of entries, the set `seen` holds after them |
| Listing.DistinctLinks | bots/careerjobs/jobs.js:49-54 | no two entries share a link |
| Listing.Collected | bots/careerjobs/jobs.js:31-46 | the push loop yields no more items than entries, or the first callback error |
| Listing.CollectedErrPersists | bots/sports/cricket/cricket.js:32-53 | once an entry has thrown, the whole listing rejects with that error |
| Listing.CollectedAbort | bots/sports/cricket/cricket.js:32-53 | an entry whose callback throws rejects the listing wherever it is |
| Listing.Collect | bots/careerjobs/jobs.js:31-46 | the `each` loop pushing items computes `Collected` |
| Listing.CollectedSatisfies | bots/careerjobs/jobs.js:38-44 | a property of every pushed item holds of every collected item |
| Listing.CollectedOk | bots/careerjobs/jobs.js:31-46 | when no callback throws, the listing is collected |
| Listing.CollectedAllPush | bots/trending/trending.js:33-38 | when every entry pushes, the items are the entries' items in order |
| Listing.Dedup | bots/careerjobs/jobs.js:49-54 | the `seen`-set filter: an entry is kept exactly when no earlier entry has its link |
| Listing.DedupLinks | bots/careerjobs/jobs.js:49-54 | deduplication loses no link |
| Listing.DedupDistinct | bots/careerjobs/jobs.js:49-54 | each link appears at most once after deduplication |
| Listing.DedupSubset | bots/careerjobs/jobs.js:49-54 | deduplication keeps only items of its input |
| Listing.DedupKeepsFirst | bots/careerjobs/jobs.js:49-54 | the first item with a link is kept |
| Listing.DedupMonotone | bots/careerjobs/jobs.js:49-54 | what is kept of a prefix comes first, in the same order |
| Listing.DedupDistinctIdentity | bots/careerjobs/jobs.js:49-54 | a listing whose links are distinct is left as it is |
| Listing.DedupByLink | bots/careerjobs/jobs.js:49-54 | the filter with its `seen` set computes `Dedup` |
| Listing.PrefixLinks | bots/education/hindustantimes.js:54-56 | prefixing keeps every item in place and puts the prefix in front of its link |
| Listing.PrefixedLinks | bots/education/hindustantimes.js:54-56 | a prefixed link is present exactly when the unprefixed one was |
| Listing.DedupPrefixCommute | bots/careerjobs/jobs.js:42-54 | prefixing links before deduplication or after it gives the same items |
| Listing.NewestFirst | bots/careerjobs/jobs.js:57 | the order `(a, b) => b.pubDate - a.pubDate` sorts into: publication times never increase |
| Listing.Insert | bots/careerjobs/jobs.js:57 | an entry inserted after every entry at least as new, as a stable sort places it |
| Listing.SortNewestFirst | bots/careerjobs/jobs.js:57 | the stable newest-first order of the entries, built by insertion |
| Listing.WithDate | bots/careerjobs/jobs.js:57 | the entries with one publication time in their order, which a stable sort keeps |
| Listing.InsertPermutes | bots/careerjobs/jobs.js:57 | inserting adds the item and nothing else |
| Listing.InsertNewestFirst | bots/careerjobs/jobs.js:57 | inserting into a newest-first list keeps it newest first |
| Listing.InsertStable | bots/careerjobs/jobs.js:57 | inserting keeps the items of each time in order, the new one last |
| Listing.SortNewestFirstOrdered | bots/careerjobs/jobs.js:57 | the sort orders by `pubDate` descending |
| Listing.SortNewestFirstPermutes | bots/careerjobs/jobs.js:57 | the sort is a permutation |
| Listing.SortNewestFirstStable | bots/careerjobs/jobs.js:57 | items with equal times keep their extraction order |
| Listing.SortAllEqual | bots/international_affairs/ia.js:52 | when every comparison says equal, the sort leaves the order unchanged |
| Listing.InsertAt | bots/careerjobs/jobs.js:57 | the item goes right after the last item at least as new as it |
| Listing.InsertLast | bots/careerjobs/jobs.js:57 | one insertion pass on the array inserts `a[i]` into the sorted `a[..i]` and leaves the rest |
| Listing.ShiftOlder | bots/careerjobs/jobs.js:57 | the older items are shifted one place right and a hole is left where the item belongs |
| Listing.SortInPlace | bots/careerjobs/jobs.js:57 | the in-place sort leaves the array holding the stable newest-first order of its contents |
| Listing.IsRecent | bots/careerjobs/jobs.js:59-63 | `diffDays <= 2`: the entry is at most two days old at `now` |
| Listing.Recent | bots/careerjobs/jobs.js:59-63 | the two-day filter keeps a subsequence |
| Listing.RecentAll | bots/careerjobs/jobs.js:59-63 | when every item is recent the filter keeps all |
| Listing.RecentNone | bots/careerjobs/jobs.js:59-63 | when no item is recent the filter keeps none |
| Listing.RecentIsPrefix | bots/careerjobs/jobs.js:57-63 | in a newest-first list the recent items form a prefix |
| Listing.Take | bots/careerjobs/jobs.js:65 | `slice(0, n)` is the prefix of length `min(n, |s|)` |
| Listing.WindowOrTop | bots/careerjobs/jobs.js:59-65 | `recent.length >= n ? recent : uniqueArticles.slice(0, n)` |
| Listing.WindowOrTopPrefix | bots/careerjobs/jobs.js:65 | the window-or-top selection is a prefix holding every recent item and at least `min(n, |s|)` items |
| Listing.NotLinked | bots/education/hindustantimes.js:45-51 | the entries whose link is not among the recent ones, in order |
| Listing.WindowThenRest | bots/education/hindustantimes.js:40-52 | the recent entries, followed by the other entries and cut to `n`, unless at least `n` are recent |
| Listing.NotLinkedSuffix | bots/education/hindustantimes.js:45-51 | on distinct links, the items not linked by the first `k` are the items after them |
| Listing.LaterNotLinked | bots/education/hindustantimes.js:45-51 | an item after the first `k` has a link none of them has |
| Listing.NotLinkedAllIn | bots/education/hindustantimes.js:51 | when every link is in the set, nothing is left |
| Listing.WindowThenRestIsWindowOrTop | bots/education/hindustantimes.js:40-52 | recent items then the rest cut to `n` equals the window-or-top selection on a sorted duplicate-free list |
| Listing.Select | bots/careerjobs/jobs.js:59-65 | the selection each scraper applies: all, the first `n`, the recency window, or the window then the rest |
| Listing.Normalized | bots/careerjobs/jobs.js:49-65 | dedup, then sort, then selection, each as the scraper's shape says |
| Listing.Listed | bots/careerjobs/jobs.js:26-66 | the listing helper: the collected entries normalised, or the error the callback threw |
| Listing.BuildListing | bots/careerjobs/jobs.js:26-66 | the push loop, the filter, the in-place sort and the selection compute `Listed` |
| Listing.ListedProperties | bots/careerjobs/jobs.js:26-66 | a listing is duplicate-free when deduplicated and newest first when sorted and cut |
| Listing.NormalizedDistinct | bots/careerjobs/jobs.js:49-65 | every selection of a deduplicated listing is duplicate-free |
| Listing.NormalizedOrdered | bots/careerjobs/jobs.js:57-65 | every prefix selection of a sorted listing is newest first |
| Listing.InsertLinks | bots/careerjobs/jobs.js:57 | inserting adds exactly the item's link and keeps links distinct |
| Listing.SortKeepsDistinct | bots/careerjobs/jobs.js:57 | sorting keeps the link set and distinctness |
| Listing.RecentSubseq | bots/careerjobs/jobs.js:59-63 | the recent items of a duplicate-free list are duplicate-free items of it |
| Listing.WindowThenRestDistinct | bots/education/hindustantimes.js:45-52 | recent items then the rest never repeats a link |
| Listing.NotLinkedSubseq | bots/education/hindustantimes.js:51 | the rest filter keeps distinct links, none of them in the set |
| Listing.NotLinkedMembers | bots/education/hindustantimes.js:51 | the rest filter keeps only items of its input |
| Enrich.NonEmptyTrimmed | bots/careerjobs/jobs.js:75-78 | only trimmed non-empty paragraphs are kept, never more than there were |
| Enrich.AllBlank | bots/careerjobs/jobs.js:75-78 | every matched element's text is white space only |
| Enrich.NonEmptyTrimmedEmpty | bots/careerjobs/jobs.js:75-78 | nothing is kept exactly when every text is blank |
| Enrich.NonEmptyTrimmedNonEmpty | bots/careerjobs/jobs.js:75-78 | every kept paragraph is non-empty |
| Enrich.Extract | bots/careerjobs/jobs.js:74-80 | the content text: the element texts joined, or their non-empty trims joined |
| Enrich.TrimmedContentEmpty | bots/careerjobs/jobs.js:74-80 | the joined content is empty exactly when every matched text is blank |
| Enrich.Content | bots/careerjobs/jobs.js:68-84 | a content helper rejects, gives `null` or gives text exactly as its failure handling says |
| Enrich.Settle | bots/careerjobs/jobs.js:89-105 | what one record settles to under `Promise.allSettled` and the `fulfilled && value` filter |
| Enrich.Survivors | bots/careerjobs/jobs.js:89-105 | the settled records passed on are no more than the listing |
| Enrich.SurvivorsAppend | bots/careerjobs/jobs.js:89-105 | each item is settled on its own and the order of the listing is kept |
| Enrich.SurvivorsOne | bots/careerjobs/jobs.js:89-105 | one item survives exactly when it settles to a record |
| Enrich.SurvivorsFaithful | bots/careerjobs/jobs.js:89-105 | every survivor carries its own item and page content, non-empty when content must be truthy |
| Enrich.SurvivorsKeepAll | bots/tech/tech.js:88-106 | with no rejecting helper and every record kept, the survivors are the listing one for one |
| Enrich.DroppedItem | bots/careerjobs/jobs.js:91-92 | a rejected or falsy-content item contributes nothing |
| Enrich.PrepareInOrder | bots/astrology/hindustantimes.js:113-121 | the index loop awaiting each page pushes exactly the survivors |
| Retry.TryOnce | bots/sports/cricket/cricbuzz.js:128-142 | an attempt succeeds only on a text reply that parses and, when the bot writes, is written; a failed attempt keeps the cleaned text exactly when there was a text |
| Retry.Handle | bots/sports/cricket/cricbuzz.js:130-134 | an attempt after cleaning: the parse error with the cleaned text, a key-lowering or write failure, or the data |
| Retry.Attempts | bots/sports/cricket/cricbuzz.js:128-142 | attempt `k` of the loop: the `k`-th reply handled by one pass of the `try` block |
| Retry.RunFrom | bots/sports/cricket/cricbuzz.js:127-143 | the loop from attempt `k`: stop at the first success (return or write), rethrow on the last failure where the bot throws, go on otherwise |
| Retry.AfterLoop | bots/sports/cricket/cricbuzz.js:145-155 | the code after the loop: `return []` where the bot throws, else the diagnostic write of `cleanedOutput \|\| "No valid AI output received."`, or a TypeError when no attempt ran |
| Retry.Retried | bots/sports/cricket/cricbuzz.js:121-156 | the whole loop from `attempt = 0`, `cleanedOutput = ""`, `lastError = null` |
| Retry.RetryLoop | bots/sports/cricket/cricbuzz.js:121-155 | the loop with its `attempt`, `success`, `cleanedOutput` and `lastError` variables computes `Retried` |
| Retry.RunFromSucceeds | bots/sports/cricket/cricbuzz.js:127-143 | from any attempt, the first later success ends the loop |
| Retry.RetrySucceeds | bots/trending/trending.js:104-122 | the first successful attempt ends the loop with `j+1` calls and its value returned or written |
| Retry.Succeeds | bots/sports/cricket/cricbuzz.js:128-134 | attempt `k` reaches `success = true` |
| Retry.ErrorOf | bots/sports/cricket/cricbuzz.js:135-137 | the error attempt `k` throws, which becomes `lastError` |
| Retry.Cleaned | bots/sports/cricket/cricbuzz.js:124-130 | the text `cleanedOutput` holds after `n` attempts: the latest one that reached the cleaning step, or "" |
| Retry.LastCleaned | bots/sports/cricket/cricbuzz.js:124-130 | `cleanedOutput` after the first `n` attempts of the scraper's loop |
| Retry.AfterFailures | bots/sports/cricket/cricbuzz.js:127-155 | what the loop comes to when every attempt fails: the prefixed last error, or the diagnostic write |
| Retry.RunFromExhausted | bots/sports/cricket/cricbuzz.js:127-155 | from any attempt, all failures lead to the exhaustion ending |
| Retry.Exhaustion | bots/sports/cricket/cricbuzz.js:145-155 | exhaustion in the scraper's terms: the last attempt's error behind the prefix, or the last cleaned text written |
| Retry.RetryExhausted | bots/sports/cricket/cricbuzz.js:145-155 | when every attempt fails, exactly `maxAttempts` calls are made and the bot throws or writes the diagnostic |
| Retry.AllFail | bots/sports/cricket/cricbuzz.js:127-155 | from the start, all failures lead to the exhaustion ending |
| Retry.RunFromCalls | bots/sports/cricket/cricbuzz.js:127 | the calls made from attempt `k` stay within the bound |
| Retry.RetryCalls | bots/trending/trending.js:104 | between one and `maxAttempts` calls are made |
| Retry.RunFromUnsaved | bots/trending/trending.js:104-122 | a bot that writes no result file saves nothing, from any attempt |
| Retry.RetryUnsaved | bots/trending/trending.js:104-122 | a bot that writes no result file saves nothing |
| Retry.RunFromReturned | bots/trending/trending.js:104-122 | a returned value, from any attempt, is the value of a successful attempt |
| Retry.RetryReturned | bots/trending/trending.js:104-122 | a returned value is the value of some successful attempt |
| Retry.RunFromDiagnosed | bots/sports/cricket/cricbuzz.js:127-155 | a diagnosing bot ends in a written value or a diagnostic, never both, from any attempt |
| Retry.DiagnoseNeverThrows | bots/sports/cricket/cricbuzz.js:145-155 | a diagnosing bot never throws and ends with the value written or the diagnostic written |
| Retry.SaveOrDump | bots/astrology/hindustantimes.js:123-142 | one unretried reply is saved when its text parses and the write succeeds; a text that does not is dumped cleaned when the dump succeeds; the call never rejects |
| Retry.WriteFailureFails | bots/sports/cricket/cricbuzz.js:131-135 | a parsed reply whose result file cannot be written is a failed attempt that keeps its cleaned text |
| Retry.HandleWriteFails | bots/sports/cricket/cricbuzz.js:131-135 | after cleaning, a failed write fails the attempt |
| Retry.PlainSuccess | bots/trending/trending.js:106-111 | a success's value is the parsed cleaned reply, and a writing bot was able to write it |
| Retry.HandlePlain | bots/trending/trending.js:107-111 | after cleaning, a success's value is the parsed text |
| Retry.FencedReplySucceeds | bots/trending/trending.js:106-111 | a ```json-fenced reply whose body parses succeeds with the body's value |
| Retry.LowercasedSuccess | bots/astrology/astrology.js:93-99 | under the key rewrite, a success is an object whose keys are all lower case |
| Retry.LowercasedData | bots/astrology/astrology.js:93-99 | under the key rewrite, a success is the rewrite of the parsed reply |
| Entries.Indexed | bots/astrology/astrology.js:97 | `Object.entries` on an array-like value pairs each index numeral with its element |
| Entries.Chars | bots/astrology/astrology.js:97 | a string's entries are its one-character strings |
| Entries.EntriesOf | bots/astrology/astrology.js:97 | `Object.entries` throws exactly on `null` and lists an object's own properties |
| Entries.Keys | bots/astrology/astrology.js:97 | the keys of the entries, in order |
| Entries.DistinctKeys | bots/astrology/astrology.js:96-98 | no two properties share a key |
| Entries.Lookup | bots/astrology/astrology.js:96-98 | a property read: the value of the last entry with the key |
| Entries.Position | bots/astrology/astrology.js:96-98 | the index of the property with a key, or none has it |
| Entries.LookupFound | bots/astrology/astrology.js:96-98 | a property read finds a value exactly when some entry has the key |
| Entries.FromEntries | bots/astrology/astrology.js:96 | `Object.fromEntries` yields no more properties than entries |
| Entries.LowerKeys | bots/astrology/astrology.js:97 | every key lowered, values unchanged, in order |
| Entries.LowercaseKeys | bots/astrology/astrology.js:96-98 | the rewrite throws exactly on `null` and otherwise yields an object |
| Entries.FromEntriesKeys | bots/astrology/astrology.js:96 | one property per distinct key, the keys being those of the input |
| Entries.FromEntriesLookup | bots/astrology/astrology.js:96 | each property holds the value of the last entry with its key |
| Entries.LookupUpdate | bots/astrology/astrology.js:96 | overwriting another key's property does not change a read |
| Entries.LookupUpdatedKey | bots/astrology/astrology.js:96 | overwriting a key's property gives the new value for it |
| Entries.LookupDistinct | bots/astrology/astrology.js:96 | with distinct keys, a read gives the value at the key's position |
| Entries.FromEntriesDistinct | bots/astrology/astrology.js:96 | entries with distinct keys come back unchanged |
| Entries.AllKeysLower | bots/astrology/astrology.js:97 | every key has no ASCII capital |
| Entries.LowerKeysLower | bots/astrology/astrology.js:97 | every lowered key is lower case |
| Entries.FromEntriesKeepsLower | bots/astrology/astrology.js:96 | `fromEntries` introduces no key of its own |
| Entries.LowercaseKeysLower | bots/astrology/astrology.js:96-98 | every key of the rewritten value is lower case |
| Entries.LowercaseKeysLookup | bots/astrology/astrology.js:96-98 | the value under a lowered key is that of the last entry whose key lowers to it |
| Entries.LowercaseKeysInPlace | bots/astrology/astrology.js:96-98 | when no two keys lower alike, only the keys change |
| Entries.LowercaseKeysIdempotent | bots/astrology/astrology.js:96-98 | rewriting twice is rewriting once |
| Pipeline.ListingOf | bots/careerjobs/jobs.js:87 | the listing a scraper function works on: the normalised listing, or `[]` where the helper catches its failure, or the error |
| Pipeline.BatchOf | bots/careerjobs/jobs.js:87-107 | the prepared records handed to the service, or the listing error |
| Pipeline.Run | bots/careerjobs/jobs.js:86-128 | one call of a scraper function: the listing error, the early `undefined` on an empty batch, or the retry loop |
| Pipeline.Ordered | bots/careerjobs/jobs.js:49-57 | the unique entries, sorted where the scraper sorts |
| Pipeline.RunScraper | bots/careerjobs/jobs.js:86-128 | listing, settled content fetches, early return and retry loop compute `Run` |
| Pipeline.ListingFailureRejects | bots/careerjobs/jobs.js:87 | a listing failure rejects the call before any page or service call |
| Pipeline.EmptyBatchNoCall | bots/careerjobs/jobs.js:107 | an empty batch returns the bot's fixed value with no service call |
| Pipeline.RunCalls | bots/careerjobs/jobs.js:109-124 | a run makes at most `maxAttempts` calls, and at least one once it reaches the loop |
| Pipeline.RunReachesLoop | bots/careerjobs/jobs.js:107-124 | a run that reaches the service ends with the loop's outcome |
| Pipeline.RunSucceeds | bots/careerjobs/jobs.js:111-115 | the first successful attempt decides the run |
| Pipeline.RunExhausted | bots/careerjobs/jobs.js:116-121 | a run whose attempts all fail ends in the loop's exhaustion |
| Pipeline.WindowListing | bots/careerjobs/jobs.js:49-65 | a window listing is a duplicate-free newest-first prefix of the sorted unique items: all recent ones or the first `n` |
| Pipeline.TopListing | bots/tech/tech.js:50-58 | a capped listing is the first `n` unique items, duplicate-free |
| Pipeline.BatchFaithful | bots/careerjobs/jobs.js:89-105 | the batch carries listed items with their own page content, in listing order |
| Astrology.ExtractStory | bots/astrology/astrology.js:49-52 | a story needs its title and link attributes |
| Astrology.GetAstro | bots/astrology/astrology.js:77-106 | `getAstro()`: listing, batch and the four-attempt loop with lowered keys |
| Astrology.AstroListing | bots/astrology/astrology.js:43-59 | the listing is the first 13 stories with both attributes, or `[]` when the fetch fails |
| Astrology.AstroBatch | bots/astrology/astrology.js:61-86 | every listed story is sent in order with its space-joined text, or "" when its page failed |
| Astrology.AstroRetry | bots/astrology/astrology.js:88-104 | between one and four calls, even for an empty batch; a returned value has lower-case keys; four failures throw "AI processing failed: " |
| Astrology.AstroCalls | bots/astrology/astrology.js:88-104 | between one and four calls are made |
| Astrology.AstroExhausted | bots/astrology/astrology.js:100-103 | four failures throw "AI processing failed: " with the last error |
| Astrology.AstroLower | bots/astrology/astrology.js:95-99 | a returned value is an object with only lower-case keys |
| HtAstrology.Stories | bots/astrology/hindustantimes.js:63-81 | `getUrlsAndHeading`: every card with title and link, `[]` when the fetch fails |
| HtAstrology.Batch | bots/astrology/hindustantimes.js:109-121 | every story with its content, "" when its page fails |
| HtAstrology.Run | bots/astrology/hindustantimes.js:109-143 | `getAstrology()`: the one call, saved or dumped, never rejecting |
| HtAstrology.GetAstrology | bots/astrology/hindustantimes.js:109-143 | the index loop builds the batch and the single call is saved or dumped |
| HtAstrology.StoriesAll | bots/astrology/hindustantimes.js:64-81 | every story with both attributes is listed, duplicates kept; a failed fetch gives none |
| HtAstrology.BatchAll | bots/astrology/hindustantimes.js:88-121 | the prepared list has the listing's length and order, with "" for a failed page |
| HtAstrology.OneCall | bots/astrology/hindustantimes.js:123-142 | exactly one call, no rejection, the reply saved or dumped |
| CareerJobs.ExtractCard | bots/careerjobs/jobs.js:32-45 | a card needs a trimmed title, a link and a date line; the link is prefixed; an unmatched date gives the epoch |
| CareerJobs.Extractor | bots/careerjobs/jobs.js:32-46 | the card callback with `new Date` given as `parseDate` |
| CareerJobs.GetJobs | bots/careerjobs/jobs.js:86-128 | `getJobs()`: the windowed listing, the batch and the four-attempt throwing loop |
| CareerJobs.JobsListing | bots/careerjobs/jobs.js:26-66 | all recent unique cards when at least ten, otherwise the first ten newest |
| CareerJobs.JobsBatch | bots/careerjobs/jobs.js:89-107 | every sent record has content; no survivors returns `[]` with no call |
| CareerJobs.JobsRetry | bots/careerjobs/jobs.js:109-124 | at most four calls; four failures throw "AI processing failed: " |
| CareerJobs.JobsFirstSuccess | bots/careerjobs/jobs.js:111-115 | the first reply that parses is returned |
| Education.OrNA | bots/education/education.js:37-38 | `text() \|\| "NA"` is never empty and keeps a non-empty text |
| Education.ExtractCard | bots/education/education.js:34-45 | only title and link are required; the link is prefixed before dedup |
| Education.Extractor | bots/education/education.js:34-45 | the card callback with `new Date` given as `parseDate` |
| Education.GetEdu | bots/education/education.js:87-139 | `getEdu()`: listing, batch and the four-attempt throwing loop |
| Education.MissingDateIsEpoch | bots/education/education.js:37-42 | a card without a date line is dated to the epoch |
| Education.NADateIsEpoch | bots/education/education.js:37-42 | the "NA" fallback matches no marker and gives the epoch |
| Education.EduListing | bots/education/education.js:48-62 | the ten newest unique cards, with no recency window |
| Education.EduBatch | bots/education/education.js:90-111 | every sent record has content; no survivors returns nothing |
| Education.EduRetry | bots/education/education.js:113-136 | at most four calls; four failures throw "AI processing failed: " |
| HtEducation.ExtractCard | bots/education/hindustantimes.js:13-22 | a card needs title, link, date line and image |
| HtEducation.Extractor | bots/education/hindustantimes.js:13-22 | the card callback with `new Date` given as `parseDate` |
| HtEducation.EduListing | bots/education/hindustantimes.js:7-59 | the listing helper: the selection with the site origin prefixed to every link |
| HtEducation.PrefixAll | bots/education/hindustantimes.js:54-56 | the `forEach` prefixes every selected link |
| HtEducation.AiRetriesFrom | bots/education/hindustantimes.js:76-88 | the wrapper from call `k`: the first reply that does not reject, the last rejection, or `undefined` with no call |
| HtEducation.AiRetries | bots/education/hindustantimes.js:76-88 | `withAiRetries(input, prompt, 3)` from the first call |
| HtEducation.WithAiRetries | bots/education/hindustantimes.js:76-88 | the wrapper's loop computes `AiRetries` |
| HtEducation.AiRetriesFromFirst | bots/education/hindustantimes.js:76-88 | from any attempt, the first non-rejected call, or the last allowed one, settles the wrapper |
| HtEducation.AiRetriesFirst | bots/education/hindustantimes.js:76-88 | the first call that does not reject decides the wrapper, and the last rejection is rethrown |
| HtEducation.AiRetriesFromCalls | bots/education/hindustantimes.js:76-88 | the calls from any attempt stay within `retries` |
| HtEducation.AiRetriesCalls | bots/education/hindustantimes.js:76-88 | between one and `retries` calls; a rejection is rethrown only after all of them |
| HtEducation.Run | bots/education/hindustantimes.js:111-157 | one call: the listing error, `undefined` on an empty batch, or the wrapper's reply saved or dumped |
| HtEducation.GetCleanedArticles | bots/education/hindustantimes.js:111-157 | the whole function computes `Run` |
| HtEducation.PrefixKeepsDistinct | bots/education/hindustantimes.js:54-56 | prefixing keeps links distinct |
| HtEducation.EduListingShape | bots/education/hindustantimes.js:24-56 | the listing is the window-or-newest selection of the sorted unique cards, each link prefixed once |
| HtEducation.EduSelection | bots/education/hindustantimes.js:40-56 | the selection before prefixing is duplicate-free and equals the window-or-top selection |
| HtEducation.SortedSelection | bots/education/hindustantimes.js:38-52 | recent then rest, cut to ten, equals window-or-top on the sorted unique items |
| HtEducation.RunEffects | bots/education/hindustantimes.js:141-156 | once cards are sent, the reply is saved or dumped, or three rejections are caught |
| HtEducation.FirstReplyUnparsed | bots/education/hindustantimes.js:145-152 | an unparsable first reply is dumped cleaned after one call |
| HtEducation.DumpsUnparsed | bots/education/hindustantimes.js:149-152 | an unparsable reply is written cleaned to the diagnostic file |
| HtEducation.AllRejected | bots/education/hindustantimes.js:154-156 | three rejections write nothing and return nothing |
| HtEducation.EduBatch | bots/education/hindustantimes.js:114-134 | every sent card is listed and its page was read, so a failed page drops it; its content is the page's text joined, even when empty |
| Cricbuzz.TrimAttr | bots/sports/cricket/cricbuzz.js:36-37 | `attr(...)?.trim()`: `undefined` stays `undefined` |
| Cricbuzz.ExtractCard | bots/sports/cricket/cricbuzz.js:34-57 | a card needs a title, a link and an age stamp; its time is the clock minus `n` minutes |
| Cricbuzz.Extractor | bots/sports/cricket/cricbuzz.js:34-57 | the card callback with the clock `new Date()` at `t` |
| Cricbuzz.GetCleanedArticles | bots/sports/cricket/cricbuzz.js:97-156 | one call: the listing, the batch and the three-attempt diagnosing loop |
| Cricbuzz.AgeIgnoresUnit | bots/sports/cricket/cricbuzz.js:41-45 | "5h ago" and "5s ago" date a card five minutes back, like "5m ago" |
| Cricbuzz.StampAge | bots/sports/cricket/cricbuzz.js:39-43 | a rendered stamp needs no trimming and reads as its number |
| Cricbuzz.NewsListing | bots/sports/cricket/cricbuzz.js:59-75 | all recent unique cards when at least ten, else the first ten newest |
| Cricbuzz.NewsBatch | bots/sports/cricket/cricbuzz.js:99-119 | every sent record has content; no survivors means no call |
| Cricbuzz.NewsFirstSuccess | bots/sports/cricket/cricbuzz.js:127-143 | the first attempt that parses and writes ends the loop with the value written |
| Cricbuzz.NewsExhausted | bots/sports/cricket/cricbuzz.js:145-155 | three failures throw nothing and write the last cleaned reply or the fallback text |
| Cricket.TrimAttr | bots/sports/cricket/cricket.js:35-36 | `attr(...)?.trim()` trims a present attribute |
| Cricket.ExtractCard | bots/sports/cricket/cricket.js:35-52 | a present image that `new URL` rejects rejects the listing, and otherwise is rewritten; title and link are required and the link is prefixed |
| Cricket.Extractor | bots/sports/cricket/cricket.js:35-52 | the card callback with today's date |
| Cricket.GetCricket | bots/sports/cricket/cricket.js:86-131 | `getCricket()`: the listing, the batch and the four-attempt throwing loop |
| Cricket.CricketListing | bots/sports/cricket/cricket.js:55-61 | the first fifteen unique cards in page order |
| Cricket.RelativeImageRejects | bots/sports/cricket/cricket.js:37-39 | a relative image anywhere rejects the whole call with no service call |
| Cricket.DataImagePushed | bots/sports/cricket/cricket.js:37-52 | a card whose image is a "data:" placeholder is pushed, with the image "null" followed by the media type and data |
| Cricket.BlobImagePushed | bots/sports/cricket/cricket.js:37-52 | a card whose image is a "blob:" URL is pushed, with the origin of the URL after "blob:" (or "null") in front of that URL |
| Cricket.CricketBatch | bots/sports/cricket/cricket.js:89-107 | every sent record has content; no survivors means no call |
| Cricket.CricketRetry | bots/sports/cricket/cricket.js:109-129 | at most four calls; four failures throw "Failed after 4 attempts: " |
| GameData.ExtractLink | bots/sports/cricket/game_data.js:47-54 | a link needs title and href and is prefixed |
| GameData.OnSite | bots/sports/cricket/game_data.js:47-54 | a link starts with the cricbuzz origin the callback prefixes |
| GameData.GetScore | bots/sports/cricket/game_data.js:89-136 | `getScore()`: the links, the batch and the four-attempt throwing loop |
| GameData.ScoreListing | bots/sports/cricket/game_data.js:42-65 | every distinct result link in page order, on the cricbuzz site, no cap |
| GameData.ScoreBatch | bots/sports/cricket/game_data.js:91-111 | every sent record has content; no survivors means no call |
| GameData.ScoreRetry | bots/sports/cricket/game_data.js:113-134 | at most four calls; four failures throw "Failed after 4 attempts: " |
| GameData.ScoreFirstSuccess | bots/sports/cricket/game_data.js:118-123 | the first reply that parses is returned |
| Trending.ExtractFeedItem | bots/trending/trending.js:33-38 | every feed item is mapped; a falsy image becomes `null` |
| Trending.FeedAllKept | bots/trending/trending.js:33-38 | the listing keeps every feed item in order |
| Trending.FeedListing | bots/trending/trending.js:39-52 | the first fifteen unique items newest first, whatever the clock |
| Trending.GetTrending | bots/trending/trending.js:74-124 | `getTrending()`: the feed, the batch and the four-attempt throwing loop |
| Trending.TrendingBatch | bots/trending/trending.js:76-96 | every sent record has content; no survivors means no call |
| Trending.TrendingRetry | bots/trending/trending.js:98-122 | at most four calls; four failures throw "Failed after 4 attempts: " |
| Trending.TrendingFirstSuccess | bots/trending/trending.js:104-111 | the first reply that parses is returned |
| Livemint.LivemintListing | bots/trending/livemint.js:33-52 | the first fifteen unique items newest first, whatever the clock |
| Livemint.GetCleanedArticles | bots/trending/livemint.js:74-133 | one call: the feed, the batch and the three-attempt diagnosing loop |
| Livemint.LivemintBatch | bots/trending/livemint.js:76-96 | every sent record has content; no survivors means no call |
| Livemint.LivemintRetry | bots/trending/livemint.js:98-120 | at most three calls, no rejection; a success writes the value |
| Livemint.LivemintExhausted | bots/trending/livemint.js:122-132 | three failures write the last cleaned reply or the fallback text |
| Tech.ExtractCard | bots/tech/tech.js:32-49 | a card needs a link, a title and a dateline match, and is dated by the match |
| Tech.Extractor | bots/tech/tech.js:32-49 | the card callback with `new Date` given as `parseDate` |
| Tech.GetTech | bots/tech/tech.js:86-138 | `getTech()`: the ten newest cards, the batch and the four-attempt throwing loop |
| Tech.BylineDated | bots/tech/tech.js:35-37 | "Written by <author>, <day> <Month> <year>" dates the card by that date |
| Tech.ExtractDated | bots/tech/tech.js:36-44 | a matched dateline dates the pushed card |
| Tech.BylineNoDigit | bots/tech/tech.js:36 | a digit-free author keeps the byline prefix digit-free |
| Tech.BylineTrimmed | bots/tech/tech.js:35 | a byline ending in a digit is its own trim |
| Tech.TechListing | bots/tech/tech.js:50-58 | the ten newest unique cards |
| Tech.TechBatch | bots/tech/tech.js:88-111 | every listed card is sent in order, with `null` content when its page failed |
| Tech.TechRetry | bots/tech/tech.js:113-134 | at most four calls; four failures throw "Failed after 4 attempts: " |
| Tech.TechFirstSuccess | bots/tech/tech.js:118-123 | the first reply that parses is returned |
| Gadgets360.GetCleanedArticles | bots/tech/gadgets360.js:97-159 | one call: the listing, the batch and the three-attempt diagnosing loop |
| Gadgets360.GadgetsBatch | bots/tech/gadgets360.js:61-117 | the ten newest unique cards, each sent, with `null` content when its page failed |
| Gadgets360.GadgetsRetry | bots/tech/gadgets360.js:124-158 | at most three calls, no rejection; a value is written exactly when no diagnostic is |
| Gadgets360.GadgetsExhausted | bots/tech/gadgets360.js:148-158 | three failures write the last cleaned reply or the fallback text |
| InternationalAffairs.ExtractRow | bots/international_affairs/ia.js:32-43 | a row needs a trimmed title and a link |
| InternationalAffairs.RowListing | bots/international_affairs/ia.js:45-54 | no row is dated, so the listing is the first fifteen unique rows in page order |
| InternationalAffairs.GetIA | bots/international_affairs/ia.js:80-132 | `getIA()`: the rows, the batch read by content id and the four-attempt throwing loop |
| InternationalAffairs.ArticleSelector | bots/international_affairs/ia.js:64-66 | an article URL's content is read from the body named by its digits |
| InternationalAffairs.IABatch | bots/international_affairs/ia.js:83-106 | every sent record has content; no survivors means no call |
| InternationalAffairs.IARetry | bots/international_affairs/ia.js:108-130 | at most four calls; four failures throw "AI processing failed: " |
| TheHindu.HinduListing | bots/politics/thehindu/thehindu.js:34-56 | the first fifteen unique rows in page order |
| TheHindu.GetCleanedArticles | bots/politics/thehindu/thehindu.js:82-146 | one call: the rows, the batch and the three-attempt diagnosing loop |
| TheHindu.HinduRetry | bots/politics/thehindu/thehindu.js:116-145 | at most three calls, no rejection; a success is written and returned |
| TheHindu.HinduExhausted | bots/politics/thehindu/thehindu.js:135-145 | three failures write the last cleaned reply or the fallback text and return nothing |
| Compare.Labelled | bots/politics/comparison/compare.js:77-86 | a group is `{source, articles}`, the `articles` key missing when the result is undefined |
| Compare.Batch | bots/politics/comparison/compare.js:77-86 | "The Hindu" comes first, then "The Print" |
| Compare.CallsWith | bots/politics/comparison/compare.js:94-96 | every call of the loop is made with the same two-source batch |
| Compare.CalcDiff | bots/politics/comparison/compare.js:74-124 | `calcDiff()`: a rejection of either source first, else the three-attempt loop that returns and writes, or writes the diagnostic |
| Compare.CalcDiffLoop | bots/politics/comparison/compare.js:74-124 | the function as written computes `CalcDiff` |
| Compare.SourceRejects | bots/politics/comparison/compare.js:75-76 | a rejected source rejects the call before any service call |
| Compare.CompareEnds | bots/politics/comparison/compare.js:88-124 | at most three calls, all with the same batch; the value is written and returned, or the diagnostic is written |
| Compare.CompareFirstSuccess | bots/politics/comparison/compare.js:94-102 | the first attempt that parses and writes returns its value |
| Compare.CompareExhausted | bots/politics/comparison/compare.js:113-123 | three failures write the last cleaned reply or the fallback text |
| Db.ConnectStep | lib/db.js:5-16 | a set flag returns at once; otherwise a connect is attempted and either sets the flag or rethrows with it unset |
| Db.Connection.constructor | lib/db.js:3 | the flag starts unset, with no attempt made |
| Db.Connection.Connect | lib/db.js:5-16 | `dbConnect` updates the flag as `ConnectStep` says and counts attempts |
| Db.FlagAfter | lib/db.js:3-16 | `isConnected` after a sequence of `dbConnect()` calls |
| Db.Established | lib/db.js:9-10 | how many calls connected and left the flag truthy |
| Db.Attempts | lib/db.js:6-9 | how many calls got past `if (isConnected) return` and called `mongoose.connect` |
| Db.ConnectedStays | lib/db.js:6 | once the flag is set, it never changes and no call connects again |
| Db.EstablishedAtMostOnce | lib/db.js:3-16 | at most one call establishes a connection |
| Db.FailureRetried | lib/db.js:12-15 | a failed connect leaves the flag unset, so the next call tries again |
| Orchestrator.IsValid | main.js:104-105 | `Array.isArray(data) ? data.length > 0 : Object.keys(data).length > 0`, with the TypeError `Object.keys` throws on `undefined` and `null` |
| Orchestrator.JsTruthy | main.js:107 | JavaScript truthiness of the settled value |
| Orchestrator.Gate | main.js:101-115 | what the loop body does with a result: save it, log it as empty, or catch the error |
| Orchestrator.NonEmpty | main.js:104-107 | the values worth saving: a non-empty array, object or string |
| Orchestrator.GateIff | main.js:103-115 | data is saved exactly when it is a non-empty array, object or string; `undefined` and `null` are caught |
| Orchestrator.ValidIsTruthy | main.js:104-107 | whatever passes the length test is truthy |
| Orchestrator.Stored | main.js:53 | the documents of one collection, none before the first insert |
| Orchestrator.AsDocs | main.js:53 | the documents `insertMany(data)` inserts: an array's elements, or the value itself |
| Orchestrator.ToDoc | main.js:44 | an object literal has exactly the entries' keys, each with the last value assigned |
| Orchestrator.Spread | main.js:44 | the properties `...article` spreads, none for `null` |
| Orchestrator.Fields | main.js:44 | `{ sign: sign.toLowerCase(), ...article }` |
| Orchestrator.HasSign | main.js:43 | a document matches the filter `{ sign }` |
| Orchestrator.FindSign | main.js:42-46 | the first stored horoscope with the sign, or none has it |
| Orchestrator.Upsert | main.js:42-46 | `updateOne({ sign }, fields, { upsert: true })`: the fields set on the first match, or a new document |
| Orchestrator.UpsertEntry | main.js:41-46 | the upsert of one `[sign, article]` entry |
| Orchestrator.UpsertFrom | main.js:41-47 | the horoscope writer from entry `j` on, stopping at the first failed update |
| Orchestrator.Saving | main.js:40-97 | what each scraper's `save(data)` does to the database and whether it rejects |
| Orchestrator.RunTask | main.js:101-115 | one loop pass reports once; it changes nothing unless it saves, and a throw is reported |
| Orchestrator.RunTasks | main.js:100-120 | one report per scraper |
| Orchestrator.Program | main.js:33-134 | the whole program: a failed connection before any scraper, else the loop over the scrapers |
| Orchestrator.Target | main.js:36-98 | the one collection each writer touches |
| Orchestrator.DistinctSigns | main.js:41-47 | no two stored horoscopes carry the same sign |
| Orchestrator.KeepsSign | main.js:43-44 | the upsert's fields keep the filter's sign |
| Orchestrator.NoSignProperty | main.js:44 | no article carries its own `sign` property that the spread would put over the lowered one |
| Orchestrator.OwnSign | main.js:44 | an article has a `sign` property of its own |
| Orchestrator.SavingTouchesOnlyTarget | main.js:36-98 | a writer changes only its own collection |
| Orchestrator.AppendKeepsOld | main.js:53 | an insert keeps stored documents in front and adds the data's documents |
| Orchestrator.ReplaceDropsOld | main.js:73-76 | after a successful delete no old score is kept; a failed delete changes nothing |
| Orchestrator.UpsertSetsFields | main.js:42-46 | an upsert updates the one document with the sign or adds one, leaving the others |
| Orchestrator.UpsertKeepsDistinct | main.js:42-46 | upserts keep the signs distinct |
| Orchestrator.LaterUpsertWins | main.js:41-47 | a second upsert of the same sign updates the same document, so the later fields win |
| Orchestrator.FieldsKeepSign | main.js:44 | with no own `sign` property, the spread keeps the lowered sign |
| Orchestrator.LookupAfter | main.js:44 | a key the spread lacks keeps its earlier value |
| Orchestrator.UpsertFromKeepsDistinct | main.js:41-47 | the horoscope writer keeps one record per sign however far it gets |
| Orchestrator.EachScraperRuns | main.js:100-120 | each scraper's report depends only on its own result and the store before it |
| Orchestrator.ConnectionGatesScrapers | main.js:33-36 | a failed connection rejects before any scraper; otherwise all ten run |
| Orchestrator.Database.Snapshot | main.js:7-16 | the horoscope documents and the collections the database holds |
| Orchestrator.Database.constructor | main.js:7-16 | the database starts empty |
| Orchestrator.Database.UpdateOne | main.js:42-46 | `updateOne` upserts the horoscope or fails leaving it unchanged |
| Orchestrator.Database.InsertMany | main.js:53 | `insertMany` appends the documents or fails leaving the collection unchanged |
| Orchestrator.Database.DeleteMany | main.js:74 | `deleteMany({})` empties the collection or fails |
| Orchestrator.Database.UpsertHoroscopes | main.js:41-47 | the upsert loop computes `UpsertFrom` and leaves the collections alone |
| Orchestrator.Database.Save | main.js:40-97 | a scraper's `save` changes the store as `Saving` says |
| Orchestrator.Database.Replace | main.js:73-76 | delete then insert: nothing on a failed delete, empty on a failed insert, the data otherwise |
| Orchestrator.RunScraper | main.js:101-115 | the loop body changes the store and reports as `RunTask` says |
| Orchestrator.RunScrapers | main.js:100-120 | the loop computes `RunTasks`, with each pause in [3000, 3999] ms, the last one included |
| Orchestrator.RunAllScrapers | main.js:33-134 | connect, run every scraper, close, and exit with 0 on both paths |

## Left out

- Network access and HTML parsing (`fetch`, cheerio selectors) are replaced by inputs: the raw cards of a page and the element texts of an article page.
- The transformation service (`aiAgent` in `Agent/index.js`, a call into a hosted language-model library) is an input indexed by call number. Its `response.text` may be `undefined`, and that case is kept as `AiUndefined`.
- The grammar of `JSON.parse` is an input of type `string -> Option<Json>`. `JSON.stringify` and the file contents are not modelled. A write is a boolean outcome.
- `new Date(text)` of free text is an input of type `string -> int`. An Invalid Date (NaN) is not modelled, because it would break the sort order.
- `toISOString` and the `date` fields derived from it are not modelled.
- Timers, logging and `setTimeout` are left out. `Math.random()` is an input in `[0, 1)`.
- Concurrency of `Promise.allSettled` is not modelled: each record settles on its own and order is kept.
- Cricbuzz.ExtractCard: every card is read at the same clock time `t`. The source calls `new Date()` once per card, a few milliseconds apart.
- Orchestrator.Database.InsertMany: `insertMany(..., { ordered: false })` is all or nothing. Partial inserts, Mongoose casting and schema validation are not modelled.
- Orchestrator.RunAllScrapers: `mongoose.connection.close()` is taken to resolve. A rejected close would leave an unhandled rejection before `process.exit(0)`.
- `getChess` (`bots/sports/chess/chess.js`) and `getPolitics` (`bots/politics/comparison/politics.js`) are not part of this model; their results are inputs of the orchestrator. `bots/sports/chess/chess.com.js` builds no listing, so it has no pipeline to model.
- `bots/politics/indian_express/indianexpress.js` is not part of this model; its result is an input of the comparison step, like the result of `thehindu.js`.
- A rejected write of the diagnostic file is not modelled: it would reject the scraper call, which the orchestrator catches like any other error.
- Text.StripFences: modelled on the whole string. Only fenced and backtick-free replies have proved results; arbitrary inputs with backticks have none.
- The Mongoose schemas in `lib/models/*.js` are not modelled. Their enums constrain only what the service returns.
- Text.ToLower: lowers the ASCII letters A to Z only. Non-ASCII case mappings (for example "É" to "é", or "İ", which lengthens the string) are not modelled; the sign keys of a reply are ASCII words.
- Text.ToLowerIdempotent: "lower case" means no ASCII upper-case letter, as a consequence of the ASCII-only `Text.ToLower`.
- Entries.EntriesOf: an object's properties are listed in the order its entries were stored. JavaScript lists integer-like keys first in ascending order, and a key repeated in the parsed JSON keeps its first position.
- Patterns.ParseUrl: the URL Standard's percent-encoding of the path, host and userinfo, dot segments ("." and ".."), IDNA and punycode of non-ASCII hosts, IPv4 and IPv6 hosts (a "[" is rejected), the stripping of tab, newline and leading or trailing C0 control characters, and Windows drive letters in file URLs are not modelled.
- Patterns.RewriteImage: inherits the gaps of Patterns.ParseUrl; the rewrite is proved for special-scheme, file, opaque ("data:" and "blob:") and relative inputs only. The blob URL store behind `URL.createObjectURL` plays no part in `new URL`, so it is not modelled.
- Patterns.ParseUrlParts: covers hosts that need no percent-encoding, IDNA or IP parsing and paths without dot segments, as listed for Patterns.ParseUrl.
- Patterns.RewriteImageDropsQuery: same input class as Patterns.ParseUrlParts.
- Patterns.RewriteImageIdempotent: proved for the tuple-origin schemes only. A file or opaque URL rewrites to a string starting with "null", and "blob:https://x.com/y.jpg" to "https://x.comhttps://x.com/y.jpg?d=orig&p=det"; neither is a fixed point. "null/x.jpg?d=orig&p=det" has no scheme and throws on a second rewrite, and the blob result parses with the host "x.comhttps".
- Cricket.ExtractCard: an image is rejected or rewritten exactly as Patterns.RewriteImage says, with the gaps listed for Patterns.ParseUrl.
