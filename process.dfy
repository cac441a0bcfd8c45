/** The page processing of src/process.rs: canonicalising numeric tokens,
    building one page's statistics, and the depth-bounded recursive crawl. */
module Process {
  import opened Wrappers
  import opened Multisets
  import opened Statistics
  import Util

  // ---------------------------------------------------------------------------
  // Number canonicalisation (treat_number)
  // ---------------------------------------------------------------------------

  /** `s` with every '.' removed (String::replace(".", "")). */
  function RemoveDots(s: string): (r: string)
    ensures |r| <= |s|
    ensures forall k :: 0 <= k < |r| ==> r[k] != '.'
  {
    if s == [] then []
    else (if s[0] == '.' then [] else [s[0]]) + RemoveDots(s[1..])
  }

  /** Only the dots go: every other character keeps its number of
      occurrences. */
  lemma {:induction false} RemoveDotsKeepsOthers(s: string)
    ensures multiset(RemoveDots(s)) == multiset(s)['.' := 0]
  {
    if s != [] {
      assert s == [s[0]] + s[1..];
      RemoveDotsKeepsOthers(s[1..]);
    }
  }

  /** Dots are dropped character by character, so dropping them from a
      concatenation drops them from each part. */
  lemma {:induction false} RemoveDotsAppend(a: string, b: string)
    ensures RemoveDots(a + b) == RemoveDots(a) + RemoveDots(b)
    decreases |a|
  {
    if a != [] {
      assert (a + b)[1..] == a[1..] + b;
      RemoveDotsAppend(a[1..], b);
    } else {
      assert a + b == b;
    }
  }

  /** `s` without its run of trailing '0's. */
  function TrimTrailingZeros(s: string): (r: string)
    ensures r <= s
    ensures forall k :: |r| <= k < |s| ==> s[k] == '0'
    ensures r == [] || r[|r| - 1] != '0'
  {
    if s != [] && s[|s| - 1] == '0' then TrimTrailingZeros(s[..|s| - 1]) else s
  }

  /** The length of the run of leading '0's of `s`. */
  function LeadingZeros(s: string): (n: nat)
    ensures n <= |s|
    ensures forall k :: 0 <= k < n ==> s[k] == '0'
    ensures n == |s| || s[n] != '0'
  {
    if s != [] && s[0] == '0' then 1 + LeadingZeros(s[1..]) else 0
  }

  /** `s` without its run of leading '0's. */
  function TrimLeadingZeros(s: string): (r: string)
    ensures r == [] || r[0] != '0'
  {
    s[LeadingZeros(s)..]
  }

  /** The canonical form of a numeric token: no dot, and neither a leading nor
      a trailing '0'. It may be empty ("0.0" has no significant digit). */
  function Canonical(s: string): (r: string)
    ensures '.' !in r
    ensures r == [] || (r[0] != '0' && r[|r| - 1] != '0')
  {
    TrimLeadingZeros(TrimTrailingZeros(RemoveDots(s)))
  }

  /** treat_number: drops the dots, pops trailing '0's one at a time, then
      counts the leading '0's and drains them. */
  method TreatNumber(number: string) returns (r: string)
    ensures r == Canonical(number)
  {
    var n := RemoveDots(number);
    while |n| > 0 && n[|n| - 1] == '0'
      invariant TrimTrailingZeros(n) == TrimTrailingZeros(RemoveDots(number))
    {
      n := n[..|n| - 1];
    }
    assert TrimTrailingZeros(n) == n;
    var start := 0;
    // `chars().nth(start)` is None past the end, which stops the loop
    while |n| > 0 && start < |n| && n[start] == '0'
      invariant 0 <= start <= |n|
      invariant forall k :: 0 <= k < start ==> n[k] == '0'
    {
      start := start + 1;
    }
    TrimLeadingZerosAt(n, start);
    if |n| > 0 {
      n := n[start..];
    }
    r := n;
  }

  /** Removing dots from a dot-free string changes nothing. */
  lemma {:induction false} RemoveDotsWithoutDots(s: string)
    requires '.' !in s
    ensures RemoveDots(s) == s
  {
    if s != [] {
      assert s == [s[0]] + s[1..];
      RemoveDotsWithoutDots(s[1..]);
    }
  }

  /** Trimming trailing zeros yields d[..j] whenever d[j..] is all '0' and the
      digit before it (if any) is not. */
  lemma {:induction false} TrimTrailingZerosAt(d: string, j: nat)
    requires j <= |d|
    requires forall k :: j <= k < |d| ==> d[k] == '0'
    requires j == 0 || d[j - 1] != '0'
    ensures TrimTrailingZeros(d) == d[..j]
    decreases |d|
  {
    if |d| > j {
      assert d[..|d| - 1][..j] == d[..j];
      TrimTrailingZerosAt(d[..|d| - 1], j);
    } else {
      assert d[..j] == d;
    }
  }

  /** Trimming leading zeros yields t[i..] whenever t[..i] is all '0' and the
      digit after it (if any) is not. */
  lemma TrimLeadingZerosAt(t: string, i: nat)
    requires i <= |t|
    requires forall k :: 0 <= k < i ==> t[k] == '0'
    requires i == |t| || t[i] != '0'
    ensures TrimLeadingZeros(t) == t[i..]
  {
  }

  /** Digits are only removed from the two ends: the canonical form is the
      slice d[i..j] of the dot-free token d, with only '0's outside it. */
  lemma CanonicalSlice(s: string) returns (i: nat, j: nat)
    ensures i <= j <= |RemoveDots(s)|
    ensures Canonical(s) == RemoveDots(s)[i..j]
    ensures forall k :: 0 <= k < i ==> RemoveDots(s)[k] == '0'
    ensures forall k :: j <= k < |RemoveDots(s)| ==> RemoveDots(s)[k] == '0'
  {
    var d := RemoveDots(s);
    var t := TrimTrailingZeros(d);
    j := |t|;
    i := LeadingZeros(t);
    assert t == d[..j];
    assert TrimLeadingZeros(t) == d[i..j];
  }

  /** Conversely, any such slice with no zero at either end IS the canonical
      form: the three properties above characterise Canonical. */
  lemma CanonicalUnique(s: string, i: nat, j: nat)
    requires i <= j <= |RemoveDots(s)|
    requires forall k :: 0 <= k < i ==> RemoveDots(s)[k] == '0'
    requires forall k :: j <= k < |RemoveDots(s)| ==> RemoveDots(s)[k] == '0'
    requires i == j || (RemoveDots(s)[i] != '0' && RemoveDots(s)[j - 1] != '0')
    ensures Canonical(s) == RemoveDots(s)[i..j]
  {
    var d := RemoveDots(s);
    if i == j {
      TrimTrailingZerosAt(d, 0);
      assert Canonical(s) == [];
    } else {
      TrimTrailingZerosAt(d, j);
      var t := d[..j];
      TrimLeadingZerosAt(t, i);
      assert t[i..] == d[i..j];
    }
  }

  /** treat_number is idempotent on its own output. */
  lemma CanonicalIdempotent(s: string)
    ensures Canonical(Canonical(s)) == Canonical(s)
  {
    var c := Canonical(s);
    RemoveDotsWithoutDots(c);
  }

  /** The examples documented on treat_number, and its unit test. */
  method TreatNumberTest() returns (results: seq<string>)
    ensures results == ["123", "123", "123", "123", "123", "123", "123", "123", "123"]
  {
    var a := TreatNumber("123");
    Example123();
    var b := TreatNumber("12300");
    Example12300();
    var c := TreatNumber("12.3");
    Example12_3();
    var d := TreatNumber("123.0");
    Example123_0();
    var e := TreatNumber(".123");
    Example_123();
    var f := TreatNumber("0.123");
    Example0_123();
    var g := TreatNumber("00.123");
    Example00_123();
    var h := TreatNumber("0.0123");
    Example0_0123();
    var i := TreatNumber("00123");
    Example00123();
    results := [a, b, c, d, e, f, g, h, i];
  }

  lemma Example123()
    ensures Canonical("123") == "123"
  {
    assert RemoveDots("123") == "123";
    CanonicalUnique("123", 0, 3);
  }

  lemma Example12300()
    ensures Canonical("12300") == "123"
  {
    assert RemoveDots("12300") == "12300";
    CanonicalUnique("12300", 0, 3);
  }

  lemma Example12_3()
    ensures Canonical("12.3") == "123"
  {
    assert RemoveDots("12.3") == "123";
    CanonicalUnique("12.3", 0, 3);
  }

  lemma Example123_0()
    ensures Canonical("123.0") == "123"
  {
    assert RemoveDots("123.0") == "1230";
    CanonicalUnique("123.0", 0, 3);
  }

  lemma Example_123()
    ensures Canonical(".123") == "123"
  {
    assert RemoveDots(".123") == "123";
    CanonicalUnique(".123", 0, 3);
  }

  lemma Example0_123()
    ensures Canonical("0.123") == "123"
  {
    assert RemoveDots("0.123") == "0123";
    CanonicalUnique("0.123", 1, 4);
  }

  lemma Example00_123()
    ensures Canonical("00.123") == "123"
  {
    assert RemoveDots("00.123") == "00123";
    CanonicalUnique("00.123", 2, 5);
  }

  lemma Example0_0123()
    ensures Canonical("0.0123") == "123"
  {
    assert RemoveDots("0.0123") == "00123";
    CanonicalUnique("0.0123", 2, 5);
  }

  lemma Example00123()
    ensures Canonical("00123") == "123"
  {
    assert RemoveDots("00123") == "00123";
    CanonicalUnique("00123", 2, 5);
  }

  // ---------------------------------------------------------------------------
  // Per-page statistics (get_data)
  // ---------------------------------------------------------------------------

  /** A capture of number_regex(): only digits and dots; looser than the
      regex, which allows one dot. */
  ghost predicate IsNumberToken(token: string)
  {
    forall k :: 0 <= k < |token| ==> token[k] == '.' || '0' <= token[k] <= '9'
  }

  /** char::to_digit(10). */
  function ToDigit(c: char): (d: Option<nat>)
    ensures d.Some? <==> '0' <= c <= '9'
    ensures d.Some? ==> d.value <= 9 && (d.value == 0 <==> c == '0')
    ensures d.Some? ==> c == "0123456789"[d.value]
  {
    if '0' <= c <= '9' then Some((c as int - '0' as int) as nat) else None
  }

  /** The first and last digits read off a canonical number: present when the
      number is non-empty and both characters are decimal digits. */
  function EdgeDigits(number: string): Option<(nat, nat)>
  {
    if |number| == 0 then None
    else match (ToDigit(number[0]), ToDigit(number[|number| - 1]))
      case (Some(first), Some(last)) => Some((first, last))
      case _ => None
  }

  /** The digit a token adds to the first-digit (Start) or last-digit (End)
      histogram, if any. */
  function TokenDigit(token: string, freqType: FreqType): Option<nat>
  {
    match EdgeDigits(Canonical(token))
    case None => None
    case Some((first, last)) => Some(if freqType == Start then first else last)
  }

  /** How many of `tokens` add digit d to the histogram of kind freqType. */
  function Occurrences(tokens: seq<string>, freqType: FreqType, d: nat): nat
  {
    if tokens == [] then 0
    else
      Occurrences(tokens[..|tokens| - 1], freqType, d)
      + (if TokenDigit(tokens[|tokens| - 1], freqType) == Some(d) then 1 else 0)
  }

  /** `h` with the bucket of digit d raised, when d names a bucket. */
  function Bumped(h: seq<nat>, d: Option<nat>): (r: seq<nat>)
    ensures |r| == |h|
  {
    if d.Some? && 1 <= d.value <= |h| then h[d.value - 1 := h[d.value - 1] + 1] else h
  }

  lemma BumpedAt(h: seq<nat>, d: Option<nat>, k: nat)
    requires k < |h|
    requires d.Some? ==> 1 <= d.value <= |h|
    ensures Bumped(h, d)[k] == h[k] + (if d == Some(k + 1) then 1 else 0)
  {
  }

  /** The histogram of kind freqType that get_data builds from `tokens`: nine
      buckets, each token raising the bucket of its digit. */
  function Histogram(tokens: seq<string>, freqType: FreqType): (h: seq<nat>)
    ensures |h| == Buckets
  {
    if tokens == [] then Zeros()
    else Bumped(Histogram(tokens[..|tokens| - 1], freqType), TokenDigit(tokens[|tokens| - 1], freqType))
  }

  /** Histogram over one more token. */
  lemma HistogramSnoc(tokens: seq<string>, i: nat, freqType: FreqType)
    requires i < |tokens|
    ensures Histogram(tokens[..i + 1], freqType)
         == Bumped(Histogram(tokens[..i], freqType), TokenDigit(tokens[i], freqType))
  {
    assert tokens[..i + 1][..i] == tokens[..i];
  }

  /** A token's digit is never 0: canonical numbers have no edge zero. */
  lemma TokenDigitNonZero(token: string, freqType: FreqType)
    ensures TokenDigit(token, freqType).Some? ==> 1 <= TokenDigit(token, freqType).value <= 9
  {
    var c := Canonical(token);
    if c != [] {
      var _ := ToDigit(c[0]);
      var _ := ToDigit(c[|c| - 1]);
    }
  }

  /** Bucket d - 1 of the histogram counts exactly the tokens whose digit is d. */
  lemma {:induction false} HistogramCounts(tokens: seq<string>, freqType: FreqType, d: nat)
    requires 1 <= d <= Buckets
    ensures Histogram(tokens, freqType)[d - 1] == Occurrences(tokens, freqType, d)
  {
    if tokens != [] {
      var init := tokens[..|tokens| - 1];
      HistogramCounts(init, freqType, d);
      TokenDigitNonZero(tokens[|tokens| - 1], freqType);
      BumpedAt(Histogram(init, freqType), TokenDigit(tokens[|tokens| - 1], freqType), d - 1);
    }
  }

  /** The digits get_data reads off a token's canonical form are the token's
      TokenDigit values. */
  lemma TokenDigitsOf(token: string, number: string)
    requires number == Canonical(token)
    ensures var both := |number| > 0 && ToDigit(number[0]).Some? && ToDigit(number[|number| - 1]).Some?;
      && TokenDigit(token, Start) == (if both then ToDigit(number[0]) else None)
      && TokenDigit(token, End) == (if both then ToDigit(number[|number| - 1]) else None)
  {
  }

  /** How many of `tokens` have a canonical form of length n. */
  function LengthCount(tokens: seq<string>, n: nat): nat
  {
    if tokens == [] then 0
    else
      LengthCount(tokens[..|tokens| - 1], n)
      + (if |Canonical(tokens[|tokens| - 1])| == n then 1 else 0)
  }

  /** `counts` after one more occurrence of length n. */
  function Tally(counts: map<nat, nat>, n: nat): (r: map<nat, nat>)
    ensures n in r && r[n] == (if n in counts then counts[n] else 0) + 1
    ensures forall m :: m != n ==> (m in r <==> m in counts)
    ensures forall m :: m != n && m in counts ==> r[m] == counts[m]
  {
    counts[n := (if n in counts then counts[n] else 0) + 1]
  }

  /** The size_freq map get_data builds from `tokens`: each canonical length
      mapped to the number of tokens of that length, absent when there is none. */
  function SizeCounts(tokens: seq<string>): map<nat, nat>
  {
    if tokens == [] then map[]
    else Tally(SizeCounts(tokens[..|tokens| - 1]), |Canonical(tokens[|tokens| - 1])|)
  }

  /** SizeCounts over one more token. */
  lemma SizeCountsSnoc(tokens: seq<string>, i: nat)
    requires i < |tokens|
    ensures SizeCounts(tokens[..i + 1]) == Tally(SizeCounts(tokens[..i]), |Canonical(tokens[i])|)
  {
    assert tokens[..i + 1][..i] == tokens[..i];
  }

  /** The map holds exactly the length counts: a length is present when some
      token has it, and then with the number of such tokens. */
  lemma {:induction false} SizeCountsAt(tokens: seq<string>, n: nat)
    ensures n in SizeCounts(tokens) <==> LengthCount(tokens, n) > 0
    ensures n in SizeCounts(tokens) ==> SizeCounts(tokens)[n] == LengthCount(tokens, n)
  {
    if tokens != [] {
      SizeCountsAt(tokens[..|tokens| - 1], n);
    }
  }

  /** How many of `tokens` have a non-empty canonical form. */
  function NonEmptyCount(tokens: seq<string>): nat
  {
    if tokens == [] then 0
    else NonEmptyCount(tokens[..|tokens| - 1]) + (if Canonical(tokens[|tokens| - 1]) != [] then 1 else 0)
  }

  function Sum(s: seq<nat>): nat
  {
    if s == [] then 0 else s[0] + Sum(s[1..])
  }

  /** Raising one bucket raises the total by one. */
  lemma {:induction false} SumBumped(h: seq<nat>, d: Option<nat>)
    requires d.Some? ==> 1 <= d.value <= |h|
    ensures Sum(Bumped(h, d)) == Sum(h) + (if d.Some? then 1 else 0)
  {
    if d.Some? {
      var b := Bumped(h, d);
      if d.value == 1 {
        assert b[1..] == h[1..];
      } else {
        assert b[1..] == Bumped(h[1..], Some(d.value - 1));
        SumBumped(h[1..], Some(d.value - 1));
      }
    }
  }

  /** Dropping the dots of a number token leaves decimal digits only. */
  lemma {:induction false} RemoveDotsDigits(s: string)
    requires IsNumberToken(s)
    ensures forall k :: 0 <= k < |RemoveDots(s)| ==> '0' <= RemoveDots(s)[k] <= '9'
  {
    if s != [] {
      assert IsNumberToken(s[1..]) by {
        forall k | 0 <= k < |s[1..]| ensures s[1..][k] == '.' || '0' <= s[1..][k] <= '9' {
          assert s[1..][k] == s[k + 1];
        }
      }
      RemoveDotsDigits(s[1..]);
    }
  }

  /** For a number token, a digit is counted exactly when the canonical form is
      non-empty, and it is never 0, so the key-0 guard of BenfordStats.Add is
      never taken. */
  lemma TokenDigitOfNumber(token: string, freqType: FreqType)
    requires IsNumberToken(token)
    ensures TokenDigit(token, freqType).Some? <==> Canonical(token) != []
    ensures TokenDigit(token, freqType).Some? ==> 1 <= TokenDigit(token, freqType).value <= 9
  {
    var c := Canonical(token);
    var i, j := CanonicalSlice(token);
    RemoveDotsDigits(token);
    TokenDigitNonZero(token, freqType);
    if c != [] {
      assert c[0] == RemoveDots(token)[i] && c[|c| - 1] == RemoveDots(token)[j - 1];
    }
  }

  /** Each histogram holds one count per number whose canonical form is
      non-empty: the first-digit (and the last-digit) buckets sum to that. */
  lemma {:induction false} HistogramSum(tokens: seq<string>, freqType: FreqType)
    requires forall t :: t in tokens ==> IsNumberToken(t)
    ensures Sum(Histogram(tokens, freqType)) == NonEmptyCount(tokens)
  {
    if tokens != [] {
      var init, last := tokens[..|tokens| - 1], tokens[|tokens| - 1];
      assert forall t :: t in init ==> t in tokens;
      HistogramSum(init, freqType);
      TokenDigitOfNumber(last, freqType);
      SumBumped(Histogram(init, freqType), TokenDigit(last, freqType));
    }
  }

  /** Every number is recorded in size_freq: those with an empty canonical form
      under length 0, the others under a positive length. */
  lemma {:induction false} LengthZeroCount(tokens: seq<string>)
    ensures LengthCount(tokens, 0) + NonEmptyCount(tokens) == |tokens|
  {
    if tokens != [] {
      LengthZeroCount(tokens[..|tokens| - 1]);
    }
  }

  /** The oracles a crawl talks to, as functions of their inputs: the HTTP
      fetch, Url::parse, link extraction and the number regex. */
  datatype Web = Web(
    /** get_html: the body text of a URL, or None when the request or the
        decoding of its body fails. */
    fetch: string -> Option<string>,
    /** Url::parse followed by as_str(): the normalised URL, or None. */
    parse: string -> Option<string>,
    /** get_links(html, url): the page's child URLs, in the iteration order of
        the HashSet that holds them (so without duplicates). */
    links: (string, string) -> seq<string>,
    /** The capture-group matches of number_regex() in the page text. */
    numbers: string -> seq<string>)

  /** What one recorded page holds, as plain values. */
  datatype PageRecord = PageRecord(
    url: string,
    childUrls: seq<string>,
    freqStart: seq<nat>,
    freqEnd: seq<nat>,
    sizeFreq: map<nat, nat>)

  /** The page get_data makes of the text `html` of the page at `url`. */
  function PageOf(web: Web, html: string, url: string): PageRecord
  {
    var numbers := web.numbers(html);
    PageRecord(url, web.links(html, url), Histogram(numbers, Start), Histogram(numbers, End), SizeCounts(numbers))
  }

  /** The current contents of a BenfordStats object. */
  function RecordOf(page: BenfordStats): PageRecord
    reads page.freqStart.buckets, page.freqEnd.buckets, page.sizeFreq
  {
    PageRecord(page.url, page.childUrls, page.freqStart.buckets[..], page.freqEnd.buckets[..], page.sizeFreq.counts)
  }

  /** The current contents of a list of recorded pages, in order. */
  function Records(pages: seq<BenfordStats>): seq<PageRecord>
    reads set p | p in pages :: p.freqStart.buckets
    reads set p | p in pages :: p.freqEnd.buckets
    reads set p | p in pages :: p.sizeFreq
  {
    if pages == [] then [] else Records(pages[..|pages| - 1]) + [RecordOf(pages[|pages| - 1])]
  }

  lemma RecordsSingleton(page: BenfordStats)
    ensures Records([page]) == [RecordOf(page)]
  {
    assert [page][..0] == [];
  }

  lemma {:induction false} RecordsAppend(a: seq<BenfordStats>, b: seq<BenfordStats>)
    ensures Records(a + b) == Records(a) + Records(b)
    decreases |b|
  {
    if b == [] {
      assert a + b == a;
    } else {
      assert (a + b)[..|a + b| - 1] == a + b[..|b| - 1];
      RecordsAppend(a, b[..|b| - 1]);
    }
  }

  /** The body of get_data's loop over the captures: one token recorded. */
  method RecordNumber(stats: BenfordStats, token: string)
    requires stats.Valid()
    modifies stats.freqStart.buckets, stats.freqEnd.buckets, stats.sizeFreq
    ensures stats.Valid()
    ensures stats.freqStart.buckets[..] == Bumped(old(stats.freqStart.buckets[..]), TokenDigit(token, Start))
    ensures stats.freqEnd.buckets[..] == Bumped(old(stats.freqEnd.buckets[..]), TokenDigit(token, End))
    ensures stats.sizeFreq.counts == Tally(old(stats.sizeFreq.counts), |Canonical(token)|)
  {
    var number := TreatNumber(token);
    TokenDigitsOf(token, number);
    TokenDigitNonZero(token, Start);
    TokenDigitNonZero(token, End);
    ghost var counts := stats.sizeFreq.counts;
    stats.sizeFreq.Insert(|number|);
    assert stats.sizeFreq.counts == Tally(counts, |number|);
    // chars().nth(0) and nth(len - 1) are always Some on a non-empty string
    if |number| > 0 {
      var first := ToDigit(number[0]);
      var last := ToDigit(number[|number| - 1]);
      if first.Some? && last.Some? {
        stats.Add(first.value, Start);
        stats.Add(last.value, End);
      }
    }
  }

  /** get_data: the page's URL and child links, then, for every number in the
      page, its canonical length recorded in size_freq and, when it has
      significant digits, its first and last digit counted. */
  method GetData(web: Web, html: string, url: string) returns (result: BenfordStats)
    ensures fresh(result) && result.Valid()
    ensures fresh(result.freqStart.buckets) && fresh(result.freqEnd.buckets) && fresh(result.sizeFreq)
    ensures RecordOf(result) == PageOf(web, html, url)
    ensures forall n :: result.sizeFreq.Multiplicity(n) == LengthCount(web.numbers(html), n)
  {
    result := new BenfordStats.Page(url, web.links(html, url));
    var tokens := web.numbers(html);
    for i := 0 to |tokens|
      invariant result.Valid()
      invariant result.freqStart.buckets[..] == Histogram(tokens[..i], Start)
      invariant result.freqEnd.buckets[..] == Histogram(tokens[..i], End)
      invariant result.sizeFreq.counts == SizeCounts(tokens[..i])
    {
      HistogramSnoc(tokens, i, Start);
      HistogramSnoc(tokens, i, End);
      SizeCountsSnoc(tokens, i);
      RecordNumber(result, tokens[i]);
    }
    assert tokens[..|tokens|] == tokens;
    forall n
      ensures result.sizeFreq.Multiplicity(n) == LengthCount(tokens, n)
    {
      SizeCountsAt(tokens, n);
    }
  }

  /** A token whose canonical form is "123" adds digit 1 to the first-digit
      histogram and digit 3 to the last-digit one. */
  lemma Digits123(token: string)
    requires Canonical(token) == "123"
    ensures TokenDigit(token, Start) == Some(1) && TokenDigit(token, End) == Some(3)
  {
    assert EdgeDigits("123") == Some((1, 3));
  }

  /** The histograms and length counts of a page with two numbers. */
  lemma {:induction false} TwoTokens(a: string, b: string, freqType: FreqType, n: nat)
    ensures Histogram([a, b], freqType)
         == Bumped(Bumped(Zeros(), TokenDigit(a, freqType)), TokenDigit(b, freqType))
    ensures LengthCount([a, b], n)
         == (if |Canonical(a)| == n then 1 else 0) + (if |Canonical(b)| == n then 1 else 0)
  {
    assert [a, b][..1] == [a];
    assert [a][..0] == [];
    assert Histogram([a], freqType) == Bumped(Zeros(), TokenDigit(a, freqType));
    assert LengthCount([a], n) == if |Canonical(a)| == n then 1 else 0;
  }

  /** Two tokens that both canonicalise to "123" count digit 1 twice as a
      first digit, digit 3 twice as a last digit, and length 3 twice. */
  lemma Two123s(a: string, b: string)
    requires Canonical(a) == "123" && Canonical(b) == "123"
    ensures Histogram([a, b], Start) == Zeros()[0 := 2]
    ensures Histogram([a, b], End) == Zeros()[2 := 2]
    ensures LengthCount([a, b], 3) == 2
  {
    Digits123(a);
    Digits123(b);
    assert Histogram([a, b], Start) == Zeros()[0 := 2] by {
      TwoTokens(a, b, Start, 3);
      BumpedTwice(1);
    }
    assert Histogram([a, b], End) == Zeros()[2 := 2] by {
      TwoTokens(a, b, End, 3);
      BumpedTwice(3);
    }
    assert LengthCount([a, b], 3) == 2 by {
      TwoTokens(a, b, Start, 3);
    }
  }

  lemma BumpedTwice(d: nat)
    requires 1 <= d <= Buckets
    ensures Bumped(Bumped(Zeros(), Some(d)), Some(d)) == Zeros()[d - 1 := 2]
  {
  }

  /** A page holding the numbers 12300 and 0.123 counts digit 1 twice as a
      first digit, digit 3 twice as a last digit, and length 3 twice. */
  method GetDataTest() returns (page: BenfordStats)
    ensures page.freqStart.buckets[..] == Zeros()[0 := 2]
    ensures page.freqEnd.buckets[..] == Zeros()[2 := 2]
    ensures page.sizeFreq.Multiplicity(3) == 2
  {
    var web := Web(_ => None, _ => None, (html, url) => [], html => ["12300", "0.123"]);
    page := GetData(web, "<p>12300 and 0.123</p>", "https://example.org/");
    Example12300();
    Example0_123();
    Two123s("12300", "0.123");
  }

  // ---------------------------------------------------------------------------
  // The depth-bounded crawl (build_stats)
  // ---------------------------------------------------------------------------

  /** The pages a crawl of `links` records, in the order build_stats appends
      them: the pages of each link in turn. Depth 0 records nothing. */
  function CrawlPages(web: Web, links: seq<string>, depth: nat): seq<PageRecord>
    decreases depth, |links|
  {
    if depth == 0 || links == [] then []
    else CrawlPages(web, links[..|links| - 1], depth) + VisitPages(web, links[|links| - 1], depth)
  }

  /** The pages recorded for one link at a positive depth: nothing when its
      fetch or its parse fails; otherwise the pages of its own sub-crawl one
      level shallower, then the page itself. */
  function VisitPages(web: Web, link: string, depth: nat): seq<PageRecord>
    requires depth > 0
    decreases depth, 0
  {
    match web.fetch(link)
    case None => []
    case Some(html) =>
      match web.parse(link)
      case None => []
      case Some(url) => CrawlPages(web, web.links(html, url), depth - 1) + [PageOf(web, html, url)]
  }

  lemma CrawlPagesSnoc(web: Web, links: seq<string>, i: nat, depth: nat)
    requires i < |links| && depth > 0
    ensures CrawlPages(web, links[..i + 1], depth)
         == CrawlPages(web, links[..i], depth) + VisitPages(web, links[i], depth)
  {
    assert links[..i + 1][..i] == links[..i];
  }

  /** Crawling two link lists one after the other records the pages of the
      first, then those of the second. */
  lemma {:induction false} CrawlAppend(web: Web, a: seq<string>, b: seq<string>, depth: nat)
    ensures CrawlPages(web, a + b, depth) == CrawlPages(web, a, depth) + CrawlPages(web, b, depth)
    decreases |b|
  {
    if b == [] {
      assert a + b == a;
    } else if depth > 0 {
      var init := b[..|b| - 1];
      assert (a + b)[..|a + b| - 1] == a + init;
      assert (a + b)[|a + b| - 1] == b[|b| - 1];
      CrawlAppend(web, a, init, depth);
    }
  }

  /** The URLs of page records, in order. */
  function Urls(pages: seq<PageRecord>): seq<string>
  {
    if pages == [] then [] else Urls(pages[..|pages| - 1]) + [pages[|pages| - 1].url]
  }

  lemma UrlsSnoc(pages: seq<PageRecord>, page: PageRecord)
    ensures Urls(pages + [page]) == Urls(pages) + [page.url]
  {
    assert (pages + [page])[..|pages|] == pages;
  }

  /** A link that fetches, parses to itself and has no child link. */
  predicate IsLeaf(web: Web, link: string)
  {
    && web.fetch(link).Some? && web.parse(link) == Some(link)
    && web.links(web.fetch(link).value, link) == []
  }

  /** When every link fetches, parses to itself and has no child link, a
      crawl of any positive depth records each link once, in order. */
  lemma {:induction false} CrawlLeaves(web: Web, links: seq<string>, depth: nat)
    requires depth > 0
    requires forall k :: 0 <= k < |links| ==> IsLeaf(web, links[k])
    ensures Urls(CrawlPages(web, links, depth)) == links
    decreases |links|
  {
    if links != [] {
      var init := links[..|links| - 1];
      var last := links[|links| - 1];
      var page := PageOf(web, web.fetch(last).value, last);
      assert CrawlPages(web, links, depth) == CrawlPages(web, init, depth) + [page] by {
        assert VisitPages(web, last, depth) == [page];
      }
      assert Urls(CrawlPages(web, init, depth)) == init by {
        CrawlLeaves(web, init, depth);
      }
      UrlsSnoc(CrawlPages(web, init, depth), page);
      Util.InitLast(links);
    }
  }

  /** When no link can be fetched, a crawl records nothing. */
  lemma {:induction false} CrawlUnreachable(web: Web, links: seq<string>, depth: nat)
    requires forall k :: 0 <= k < |links| ==> web.fetch(links[k]).None?
    ensures CrawlPages(web, links, depth) == []
    decreases |links|
  {
    if depth > 0 && links != [] {
      CrawlUnreachable(web, links[..|links| - 1], depth);
    }
  }

  /** The pages of crawling each chunk in turn, as the worker threads' results
      laid end to end. */
  function CrawlChunks(web: Web, chunks: seq<seq<string>>, depth: nat): seq<PageRecord>
  {
    if chunks == [] then []
    else CrawlChunks(web, chunks[..|chunks| - 1], depth) + CrawlPages(web, chunks[|chunks| - 1], depth)
  }

  /** Cutting the frontier into chunks loses and reorders no page: crawling
      the chunks one after another records exactly the pages of crawling the
      whole frontier. */
  lemma {:induction false} CrawlChunksFlatten(web: Web, chunks: seq<seq<string>>, depth: nat)
    ensures CrawlChunks(web, chunks, depth) == CrawlPages(web, Util.Flatten(chunks), depth)
    decreases |chunks|
  {
    if chunks != [] {
      var init := chunks[..|chunks| - 1];
      CrawlChunksFlatten(web, init, depth);
      CrawlAppend(web, Util.Flatten(init), chunks[|chunks| - 1], depth);
    }
  }

  /** The chunks `split` makes of a frontier crawl to the same pages as the
      frontier itself. */
  method SplitCrawl(web: Web, links: seq<string>, threads: nat, depth: nat)
    returns (chunks: seq<seq<string>>)
    requires links != [] ==> threads > 0
    ensures CrawlChunks(web, chunks, depth) == CrawlPages(web, links, depth)
  {
    chunks := Util.Split(links, threads);
    CrawlChunksFlatten(web, chunks, depth);
  }

  /** The successful branch of build_stats' loop, for a link that fetched as
      `html` and parsed to `url`: the page is gathered, `result` is crawled
      one level shallower from the page's child links (so, below depth 1, its
      counters are doubled by the literal merge), and the page is recorded
      last, as one success. */
  method RecordPage(web: Web, result: Stats, html: string, url: string, depth: nat) returns (r: Stats)
    requires depth > 0
    modifies result
    decreases depth, 0
    ensures r == result
    ensures old(result.urlStats) <= r.urlStats
    ensures Records(r.urlStats)
         == old(Records(result.urlStats)) + CrawlPages(web, web.links(html, url), depth - 1) + [PageOf(web, html, url)]
    ensures r.success == (if depth > 1 then 2 * old(result.success) else old(result.success)) + 1
    ensures r.fail == (if depth > 1 then 2 * old(result.fail) else old(result.fail))
  {
    ghost var before := Records(result.urlStats);
    var data := GetData(web, html, url);
    assert Records(result.urlStats) == before;
    r := DescendAndRecord(web, result, data, depth - 1);
  }

  /** The sub-crawl of a gathered page followed by the page itself: `result`
      is crawled from the page's child links at `depth`, then the page is
      appended as one success. */
  method DescendAndRecord(web: Web, result: Stats, page: BenfordStats, depth: nat) returns (r: Stats)
    modifies result
    decreases depth, 3
    ensures r == result
    ensures old(result.urlStats) <= r.urlStats
    ensures Records(r.urlStats)
         == old(Records(result.urlStats)) + CrawlPages(web, page.childUrls, depth) + [old(RecordOf(page))]
    ensures r.success == (if depth > 0 then 2 * old(result.success) else old(result.success)) + 1
    ensures r.fail == (if depth > 0 then 2 * old(result.fail) else old(result.fail))
  {
    ghost var record := RecordOf(page);
    r := BuildStats(web, result, page.childUrls, depth);
    assert RecordOf(page) == record;
    AppendPage(r, page);
  }

  /** Stats::add seen through the page records: the page's current record
      comes last. */
  method AppendPage(stats: Stats, page: BenfordStats)
    modifies stats
    ensures stats.urlStats == old(stats.urlStats) + [page]
    ensures stats.success == old(stats.success) + 1 && stats.fail == old(stats.fail)
    ensures Records(stats.urlStats) == old(Records(stats.urlStats)) + [old(RecordOf(page))]
  {
    ghost var pages := stats.urlStats;
    ghost var before := Records(pages);
    ghost var record := RecordOf(page);
    stats.Add(page);
    assert Records(pages) == before;
    assert RecordOf(page) == record;
    RecordsAppend(pages, [page]);
    RecordsSingleton(page);
  }

  /** One pass of build_stats' loop over `link`: a failed fetch or parse
      counts one failure and records nothing; otherwise the page is recorded
      as RecordPage says. */
  method VisitLink(web: Web, result: Stats, link: string, depth: nat) returns (r: Stats)
    requires depth > 0
    modifies result
    decreases depth, 1
    ensures r == result
    ensures old(result.urlStats) <= r.urlStats
    ensures Records(r.urlStats) == old(Records(result.urlStats)) + VisitPages(web, link, depth)
    ensures web.fetch(link).None? || web.parse(link).None? ==>
      r.success == old(result.success) && r.fail == old(result.fail) + 1
    ensures web.fetch(link).Some? && web.parse(link).Some? ==>
      && r.success == (if depth > 1 then 2 * old(result.success) else old(result.success)) + 1
      && r.fail == (if depth > 1 then 2 * old(result.fail) else old(result.fail))
  {
    r := result;
    match web.fetch(link) {
      case Some(html) =>
        match web.parse(link) {
          case Some(url) =>
            r := RecordPage(web, r, html, url, depth);
          case None =>
            r.Fail();
        }
      case None =>
        r.Fail();
    }
  }

  /** build_stats: at depth 0 the incoming stats are returned untouched and
      nothing is fetched. Otherwise every link is visited in turn, into a
      fresh Stats that is finally merged into the incoming one. Because of
      the literal merge, the incoming counters come back doubled and the
      fresh ones are lost, while the pages are appended in crawl order. */
  method BuildStats(web: Web, stats: Stats, links: seq<string>, depth: nat) returns (r: Stats)
    modifies stats
    decreases depth, 2
    ensures r == stats
    ensures depth == 0 ==> unchanged(stats)
    ensures old(stats.urlStats) <= r.urlStats
    ensures Records(r.urlStats) == old(Records(stats.urlStats)) + CrawlPages(web, links, depth)
    ensures depth > 0 ==> r.success == 2 * old(stats.success) && r.fail == 2 * old(stats.fail)
  {
    if depth == 0 {
      return stats;
    }
    ghost var before := Records(stats.urlStats);
    var result := new Stats(Some(|links|));
    for i := 0 to |links|
      invariant fresh(result)
      invariant unchanged(stats)
      invariant Records(result.urlStats) == CrawlPages(web, links[..i], depth)
    {
      CrawlPagesSnoc(web, links, i, depth);
      result := VisitLink(web, result, links[i], depth);
    }
    assert links[..|links|] == links;
    assert Records(stats.urlStats) == before;
    ghost var all := stats.urlStats + result.urlStats;
    RecordsAppend(stats.urlStats, result.urlStats);
    ghost var allRecords := Records(all);
    r := stats.Merge(result);
    assert Records(all) == allRecords;
  }
}
