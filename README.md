# rwsbl — a Dafny model of the Benford's-Law scraper's core

rwsbl crawls the web from a seed URL to a bounded depth. It pulls every
number out of each page's text and tallies the first and last significant
digits of those numbers, which is the data Benford's Law is about. This
project models the sequential core of that program and proves its
properties:

- **Number canonicalisation** (`treat_number`). A numeric token loses its
  dots, then its trailing `'0'`s, then its leading `'0'`s. `Process.TreatNumber`
  is the loop-based method. `Process.Canonical` is the function that
  specifies it, and it is characterised as the zero-free slice of the dot-free
  token.
- **Per-page statistics** (`get_data`). For every number on a page, the
  length of its canonical form is inserted into a counting multiset. When
  that form is non-empty, its first and last digits raise one bucket each of
  two nine-bucket histograms. `Process.GetData` is proved against the
  specification functions `Histogram` and `LengthCount`, and lemmas relate
  those functions to per-digit occurrence counts and to the number of
  non-empty tokens.
- **The depth-bounded crawl** (`build_stats`). Links are fetched, parsed,
  turned into pages, crawled one level deeper and recorded into a fresh
  `Stats`, which is finally merged into the incoming one. The HTTP fetch,
  `Url::parse`, link extraction and the number regex are oracles: the fields
  of the `Process.Web` datatype. Each recorded page is read back from its
  arrays and multiset as a `Process.PageRecord` (URL, child links, both
  histograms, length counts). The records a crawl appends are characterised
  by the recursive function `Process.CrawlPages`.
- **Accumulators** (`Stats`, `ArrayMap`, `BenfordStats`) are classes whose
  methods update fields and arrays in place.
- **The counting multiset** (`Multiset`) is a class over a map from key to
  count.
- **The frontier splitter** (`split`) cuts a list into chunks of
  `len / chunks + 1` items.

Modules follow the source files: `Multisets` (src/multiset.rs),
`Statistics` (src/stats.rs), `Util` (src/util.rs) and `Process`
(src/process.rs). `Wrappers` holds the `Option` type.

### Merges that do not add

A merge would be expected to sum; the code does not:

- `Stats::merge` appends the other report's pages, but it adds each of
  this report's counters to itself (src/stats.rs:29-30). The counters
  therefore come back doubled, and the other report's counters are dropped.
  As a consequence, `build_stats` at a positive depth returns exactly twice
  the incoming counters, which is 0 for a fresh report. The pages it
  returns are still complete.
- `ArrayMap::merge` copies the other histogram bucket by bucket instead of
  summing it (src/stats.rs:53).

`Statistics.MergeTest` and `Statistics.ArrayMapMergeTest` pin down both
behaviours on concrete values.

## Model

| member | source | states |
|---|---|---|
| Multisets.Multiset.constructor | src/multiset.rs:13-15 | `new()` holds no key: the map is empty and every count is at least 1 |
| Multisets.Multiset.Default | src/multiset.rs:54-56 | `default()` holds no key: the map is empty and every count is at least 1 |
| Multisets.Multiset.Multiplicity | src/multiset.rs:35-37 | the stored count of a present key, 0 for an absent one; in a valid multiset it is 0 exactly when the key is absent |
| Multisets.Multiset.Insert | src/multiset.rs:23-32 | a vacant key gets count 1 and an occupied key gets +1; the key's multiplicity rises by exactly 1; every other key's multiplicity is unchanged; every count stays at least 1 |
| Multisets.NewIsEmptyTest | src/multiset.rs:13-15 | both a `new()` and a `default()` multiset give multiplicity 0 for any key |
| Multisets.InsertStringTest | src/multiset.rs:64-71 | ten inserts of "Hello" give multiplicity 10 for "Hello" and 0 for "Hallo" |
| Multisets.InsertIntTest | src/multiset.rs:76-84 | inserting i % 20 for i in 0..100 gives multiplicity 5 to 0, 11 and 19 |
| Statistics.Zeros | src/stats.rs:108 | the empty histogram: nine buckets, all 0 |
| Statistics.ArrayMap.Zero | src/stats.rs:108 | `ArrayMap([0; 9])`: a fresh array of nine zero buckets |
| Statistics.ArrayMap.Merge | src/stats.rs:51-55 | afterwards this map's buckets equal the other map's buckets as they were before, i.e. a copy, not a sum |
| Statistics.BenfordStats.Default | src/stats.rs:103-113 | empty URL, no child links, all 18 buckets 0 in two distinct fresh arrays, and an empty length multiset |
| Statistics.BenfordStats.Page | src/process.rs:92-94 | `default()` with the URL and the child links assigned: those two as given, everything else as in Default |
| Statistics.BenfordStats.Add | src/stats.rs:91-100 | key 0 changes nothing; key d in 1..9 raises exactly bucket d-1 of the chosen histogram by one and leaves the other histogram unchanged |
| Statistics.Stats.constructor | src/stats.rs:14-19 | no pages, success 0 and fail 0 |
| Statistics.Stats.Add | src/stats.rs:22-25 | the page is appended at the end, success rises by 1, and fail is unchanged |
| Statistics.Stats.Merge | src/stats.rs:27-32 | the pages become this report's pages followed by the other's; success and fail become twice this report's own; the same object is returned |
| Statistics.Stats.Fail | src/stats.rs:34-36 | fail rises by 1; success and the pages are unchanged |
| Statistics.Stats.Pass | src/stats.rs:38-40 | success rises by 1; fail and the pages are unchanged |
| Statistics.MergeTest | src/stats.rs:27-32 | merging a report with one success and one failure with a report of three pages gives success 2, fail 2 and 4 pages |
| Statistics.ArrayMapMergeTest | src/stats.rs:51-55 | merging a histogram with bucket 0 at 2 with one whose bucket 0 is 3 gives 3 there, not 5 |
| Statistics.BenfordAddTest | src/stats.rs:91-100 | adding key 0 changes nothing; adding 3 to Start and 7 to End raises exactly bucket 2 of the start histogram and bucket 6 of the end histogram |
| Util.Split | src/util.rs:22-36 | an empty source gives no chunk; the chunks laid end to end are exactly the source; for a non-empty source, each chunk but the last has `len / chunks + 1` items and the last has `len % size` (so fewer, and none exactly when the size divides the length); the number of chunks is `len / size + 1`, between 1 and `chunks` |
| Util.SplitEmptyTest | src/util.rs:23-25 | splitting an empty frontier gives no chunk |
| Process.RemoveDots | src/process.rs:128 | the result contains no '.' and is no longer than the input |
| Process.RemoveDotsKeepsOthers | src/process.rs:128 | only the dots are removed: every other character keeps its number of occurrences |
| Process.RemoveDotsAppend | src/process.rs:128 | removing the dots of a concatenation removes them from each part, in order |
| Process.TrimTrailingZeros | src/process.rs:129-131 | the result is a prefix of the input, only '0's were removed, and it does not end in '0' |
| Process.LeadingZeros | src/process.rs:132-135 | the final value of the `start` counter: every character before it is '0', and the one at it, if any, is not |
| Process.TrimLeadingZeros | src/process.rs:136-138 | the input drained of its leading '0's does not start with '0' |
| Process.Canonical | src/process.rs:127-140 | the canonical form contains no '.' and is empty or neither starts nor ends with '0' |
| Process.TreatNumber | src/process.rs:127-140 | the pop loop, the start-counting loop and the drain compute exactly the canonical form |
| Process.CanonicalSlice | src/process.rs:128-138 | the canonical form is a contiguous slice of the dot-free token, with only '0's on either side of it |
| Process.CanonicalUnique | src/process.rs:128-138 | conversely, any such slice with no '0' at either end is the canonical form |
| Process.CanonicalIdempotent | src/process.rs:127-140 | canonicalising a canonical form changes nothing |
| Process.TreatNumberTest | src/process.rs:146-156 | the nine unit-test inputs all come out as "123" |
| Process.Example123 | src/process.rs:118 | "123" canonicalises to "123" |
| Process.Example12300 | src/process.rs:119 | "12300" canonicalises to "123" |
| Process.Example12_3 | src/process.rs:120 | "12.3" canonicalises to "123" |
| Process.Example123_0 | src/process.rs:121 | "123.0" canonicalises to "123" |
| Process.Example_123 | src/process.rs:122 | ".123" canonicalises to "123" |
| Process.Example0_123 | src/process.rs:123 | "0.123" canonicalises to "123" |
| Process.Example00_123 | src/process.rs:124 | "00.123" canonicalises to "123" |
| Process.Example0_0123 | src/process.rs:125 | "0.0123" canonicalises to "123" |
| Process.Example00123 | src/process.rs:126 | "00123" canonicalises to "123" |
| Process.ToDigit | src/process.rs:103-104 | `to_digit(10)` is defined exactly on '0'..'9', is at most 9, is 0 exactly for '0', and the character is the numeral of the value it gives |
| Process.TokenDigitNonZero | src/process.rs:99-107 | a digit read off a canonical form is between 1 and 9 |
| Process.TokenDigitOfNumber | src/process.rs:99-108 | for a regex number, a first (or last) digit is counted exactly when the canonical form is non-empty, and it is 1..9, so the key-0 branch of `add` is never taken |
| Process.HistogramCounts | src/process.rs:99-108 | bucket d-1 of the first-digit (or last-digit) histogram equals the number of tokens whose first (or last) digit is d |
| Process.HistogramSum | src/process.rs:99-108 | the buckets of each histogram sum to the number of regex numbers with a non-empty canonical form |
| Process.LengthZeroCount | src/process.rs:97-99 | the tokens recorded under length 0 plus those with a non-empty canonical form are all the tokens: every token is recorded |
| Process.Tally | src/process.rs:97 | one more occurrence of a length: its count rises by one (from 0 when absent), and every other length keeps its presence and its count |
| Process.SizeCountsAt | src/process.rs:95-97 | the length map of a page holds a length exactly when some number has a canonical form of that length, and then with the number of such numbers |
| Process.RecordNumber | src/process.rs:96-110 | one token: the length map becomes `Tally` of the old one at the canonical length; each histogram gains the token's digit bucket, or nothing when there is none |
| Process.GetData | src/process.rs:91-114 | a fresh, valid page whose arrays and multiset are fresh too; read back, it is exactly `PageOf` the page: the given URL, the oracle's child links, `Histogram` of the page's numbers for each kind, and the length map `SizeCounts`; every length's multiplicity is the number of numbers whose canonical form has that length |
| Process.Two123s | src/process.rs:95-110 | two numbers that both canonicalise to "123" give bucket 0 of the first-digit histogram 2, bucket 2 of the last-digit histogram 2, all other buckets 0, and length 3 a count of 2 |
| Process.GetDataTest | src/process.rs:91-114 | a page holding 12300 and 0.123 gets first-digit buckets `[2, 0, …]`, last-digit buckets `[0, 0, 2, 0, …]` and multiplicity 2 for length 3 |
| Process.RecordsAppend | src/stats.rs:22-25 | the records of two page lists laid end to end are the records of each, in order |
| Process.AppendPage | src/process.rs:41 | `result.add(data)` read back as records: the page is appended, success rises by 1, and the records gain the page's record last |
| Process.DescendAndRecord | src/process.rs:40-41 | the sub-crawl from the page's child links, then the page: the old records are kept as a prefix, followed by `CrawlPages` of the child links and the page's own record; the counters are doubled when the sub-crawl had positive depth, and success then rises by 1 |
| Process.RecordPage | src/process.rs:38-42 | for a link that fetched and parsed: the old records are kept as a prefix, followed by the records of the sub-crawl one level shallower from the page's child links, then `PageOf` the page itself (URL, links, both histograms, length map); the counters are doubled when that sub-crawl had positive depth, and success then rises by 1 |
| Process.VisitLink | src/process.rs:37-50 | the old records are kept as a prefix and gain exactly `VisitPages` of the link; a failed fetch or parse counts one failure and leaves success unchanged; otherwise the counters are as in RecordPage |
| Process.BuildStats | src/process.rs:25-54 | at depth 0 the incoming report is returned untouched; otherwise the incoming records are kept as a prefix, followed by `CrawlPages` of the links, and success and fail become twice the incoming ones |
| Process.CrawlAppend | src/process.rs:36-52 | crawling two link lists in turn records the first list's pages, then the second's |
| Process.CrawlLeaves | src/process.rs:36-52 | when every link fetches, parses to itself and has no children, any positive-depth crawl records each link once, in order |
| Process.CrawlUnreachable | src/process.rs:47-50 | when no link can be fetched, a crawl records no page |
| Process.CrawlChunksFlatten | src/main.rs:85-90 | crawling the chunks one after another records the same pages as crawling the concatenated chunks |
| Process.SplitCrawl | src/main.rs:85-90 | crawling the chunks that `split` makes of a frontier records exactly the pages of crawling the frontier: the split loses and reorders no page |

## Left out

- The HTTP fetch (`get_html`, src/process.rs:57-62), `Url::parse`, link extraction (`get_links`, src/process.rs:68-88, including its `#` and `http` filters) and `number_regex` are not modelled. They are the fields of the `Process.Web` oracle, so a URL is assumed to fetch to the same page each time it is requested.
- `thread_process`, the thread spawning and joining in src/main.rs, and the command line of src/cli.rs are left out. They are concurrency and I/O glue. Only the fact that splitting the frontier loses no page is stated (`Process.SplitCrawl`).
- `print!`, `flush`, the one-second `sleep` and the `Display` implementations are output only and are not modelled.
- Counters (`u128`, `usize`) and lengths (`u64`) are unbounded naturals, so overflow is not modelled.
- `String::len()` counts bytes, while the model counts characters. The two agree on the ASCII digits and dots that the number regex captures.
- A `HashSet<String>` of child links is a sequence in the set's iteration order, which the oracle chooses.
- Statistics.Stats.constructor: the capacity argument only sizes the vector's allocation and has no modelled effect.
- Statistics.BenfordStats.Default: `url` and `child_urls` are constants. get_data assigns them once, right after `default()`, and nothing changes them afterwards (`Statistics.BenfordStats.Page`).
- Statistics.BenfordStats.Add: a key above 9 indexes out of bounds and panics in the source. The model instead requires `key <= 9`.
- Util.Split: `chunks == 0` with a non-empty source divides by zero in the source. The model instead requires `chunks > 0` for a non-empty source.
- `Multiset::with_capacity`, `inner` and `into_inner` are allocation hints and accessors only, and are not modelled.
