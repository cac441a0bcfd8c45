/** The accumulators of src/stats.rs: the per-page BenfordStats with its two
    nine-bucket digit histograms, and the crawl-wide Stats counters. */
module Statistics {
  import opened Wrappers
  import opened Multisets

  /** Number of histogram buckets: digits 1 to 9, bucket d - 1 for digit d. */
  const Buckets: nat := 9

  /** Nine empty buckets. */
  function Zeros(): (h: seq<nat>)
    ensures |h| == Buckets && forall i :: 0 <= i < Buckets ==> h[i] == 0
  {
    [0, 0, 0, 0, 0, 0, 0, 0, 0]
  }

  /** Which histogram BenfordStats.Add raises. */
  datatype FreqType = Start | End

  /** A fixed array of nine counters. */
  class ArrayMap {
    const buckets: array<nat>

    ghost predicate Valid()
    {
      buckets.Length == Buckets
    }

    /** ArrayMap([0; 9]) */
    constructor Zero()
      ensures Valid() && fresh(buckets) && buckets[..] == Zeros()
    {
      buckets := new nat[Buckets](_ => 0);
    }

    /** ArrayMap::merge as written: bucket i is overwritten with other's bucket i,
        so afterwards this map equals `other`; nothing is summed. */
    method Merge(other: ArrayMap)
      requires Valid() && other.Valid()
      modifies buckets
      ensures buckets[..] == old(other.buckets[..])
    {
      for i := 0 to buckets.Length
        invariant forall k :: 0 <= k < i ==> buckets[k] == old(other.buckets[k])
        invariant forall k :: i <= k < Buckets ==> other.buckets[k] == old(other.buckets[k])
      {
        buckets[i] := other.buckets[i];
      }
    }
  }

  /** What was gathered about one page. */
  class BenfordStats {
    /** The page's own URL; written once, before any counting. */
    const url: string
    /** The page's child links (a HashSet, held in its iteration order);
        written once, before any counting. */
    const childUrls: seq<string>
    /** First-digit frequencies; digit 0 has no bucket. */
    const freqStart: ArrayMap
    /** Last-digit frequencies; digit 0 has no bucket. */
    const freqEnd: ArrayMap
    /** Canonical-number length frequencies. */
    const sizeFreq: Multiset<nat>

    ghost predicate Valid()
      reads sizeFreq
    {
      && freqStart.Valid() && freqEnd.Valid()
      && freqStart.buckets != freqEnd.buckets
      && sizeFreq.Valid()
    }

    /** BenfordStats::default(): empty URL and links, all 18 buckets 0, no lengths. */
    constructor Default()
      ensures Valid()
      ensures fresh(freqStart) && fresh(freqEnd) && fresh(sizeFreq)
      ensures fresh(freqStart.buckets) && fresh(freqEnd.buckets)
      ensures url == [] && childUrls == []
      ensures freqStart.buckets[..] == Zeros() && freqEnd.buckets[..] == Zeros()
      ensures sizeFreq.counts == map[]
    {
      url := [];
      childUrls := [];
      freqStart := new ArrayMap.Zero();
      freqEnd := new ArrayMap.Zero();
      sizeFreq := new Multiset<nat>.Default();
    }

    /** BenfordStats::default() with the URL and the child links then
        assigned, as get_data does before counting anything. */
    constructor Page(url: string, childUrls: seq<string>)
      ensures Valid()
      ensures fresh(freqStart) && fresh(freqEnd) && fresh(sizeFreq)
      ensures fresh(freqStart.buckets) && fresh(freqEnd.buckets)
      ensures this.url == url && this.childUrls == childUrls
      ensures freqStart.buckets[..] == Zeros() && freqEnd.buckets[..] == Zeros()
      ensures sizeFreq.counts == map[]
    {
      this.url := url;
      this.childUrls := childUrls;
      freqStart := new ArrayMap.Zero();
      freqEnd := new ArrayMap.Zero();
      sizeFreq := new Multiset<nat>.Default();
    }

    /** Key 0 is ignored; key d in 1..9 raises bucket d - 1 of the chosen
        histogram by one. A key above 9 would index out of bounds. */
    method Add(key: nat, freqType: FreqType)
      requires Valid() && key <= Buckets
      modifies freqStart.buckets, freqEnd.buckets
      ensures Valid()
      ensures freqStart.buckets[..] ==
        if key > 0 && freqType == Start
        then old(freqStart.buckets[..])[key - 1 := old(freqStart.buckets[key - 1]) + 1]
        else old(freqStart.buckets[..])
      ensures freqEnd.buckets[..] ==
        if key > 0 && freqType == End
        then old(freqEnd.buckets[..])[key - 1 := old(freqEnd.buckets[key - 1]) + 1]
        else old(freqEnd.buckets[..])
    {
      if key == 0 {
        return;
      }
      match freqType {
        case Start => freqStart.buckets[key - 1] := freqStart.buckets[key - 1] + 1;
        case End => freqEnd.buckets[key - 1] := freqEnd.buckets[key - 1] + 1;
      }
    }
  }

  /** What a crawl gathered: one BenfordStats per page, and two counters. */
  class Stats {
    var urlStats: seq<BenfordStats>
    var success: nat
    var fail: nat

    /** Stats::new: the capacity only sizes the vector's allocation. */
    constructor (capacity: Option<nat>)
      ensures urlStats == [] && success == 0 && fail == 0
    {
      urlStats := [];
      success := 0;
      fail := 0;
    }

    /** Records one processed page: appended last, counted as a success. */
    method Add(stats: BenfordStats)
      modifies this
      ensures urlStats == old(urlStats) + [stats]
      ensures success == old(success) + 1 && fail == old(fail)
    {
      urlStats := urlStats + [stats];
      Pass();
    }

    /** Stats::merge as written: the pages of `other` are appended after this
        one's, but each counter is added to itself, so `other`'s counters are
        dropped and this one's doubled. Returns this (Rust moves self). */
    method Merge(other: Stats) returns (merged: Stats)
      modifies this
      ensures merged == this
      ensures urlStats == old(urlStats) + old(other.urlStats)
      ensures success == 2 * old(success) && fail == 2 * old(fail)
    {
      urlStats := urlStats + other.urlStats;
      success := success + success;
      fail := fail + fail;
      merged := this;
    }

    /** Counts one failed page. */
    method Fail()
      modifies this
      ensures fail == old(fail) + 1
      ensures success == old(success) && urlStats == old(urlStats)
    {
      fail := fail + 1;
    }

    /** Counts one successful page. */
    method Pass()
      modifies this
      ensures success == old(success) + 1
      ensures fail == old(fail) && urlStats == old(urlStats)
    {
      success := success + 1;
    }
  }

  /** Merging a report with one success and one failure into itself-plus-three
      successes gives two successes and two failures, not four and one. */
  method MergeTest() returns (success: nat, fail: nat, pages: nat)
    ensures success == 2 && fail == 2 && pages == 4
  {
    var a := new Stats(None);
    var b := new Stats(Some(3));
    var page := new BenfordStats.Default();
    a.Add(page);
    a.Fail();
    b.Add(page);
    b.Add(page);
    b.Add(page);
    var merged := a.Merge(b);
    success, fail, pages := merged.success, merged.fail, |merged.urlStats|;
  }

  /** Merging two histograms leaves a copy of the second, not the sum. */
  method ArrayMapMergeTest() returns (merged: seq<nat>)
    ensures merged == Zeros()[0 := 3]
  {
    var a := new ArrayMap.Zero();
    var b := new ArrayMap.Zero();
    a.buckets[0] := 2;
    b.buckets[0] := 3;
    a.Merge(b);
    merged := a.buckets[..];
  }

  /** Adding key 0 changes no bucket; adding 3 as a start digit then 7 as an
      end digit raises exactly those two buckets. */
  method BenfordAddTest() returns (start: seq<nat>, end: seq<nat>)
    ensures start == Zeros()[2 := 1] && end == Zeros()[6 := 1]
  {
    var page := new BenfordStats.Default();
    page.Add(0, Start);
    page.Add(0, End);
    page.Add(3, Start);
    page.Add(7, End);
    start, end := page.freqStart.buckets[..], page.freqEnd.buckets[..];
  }
}
