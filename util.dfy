/** The frontier splitter of src/util.rs: cuts a list of links into chunks,
    one chunk per worker thread. */
module Util {

  /** The chunks laid end to end, in order. */
  function Flatten<T>(chunks: seq<seq<T>>): (r: seq<T>)
  {
    if chunks == [] then [] else Flatten(chunks[..|chunks| - 1]) + chunks[|chunks| - 1]
  }

  /** A non-empty sequence is its prefix followed by its last item. */
  lemma InitLast<T>(s: seq<T>)
    requires s != []
    ensures s[..|s| - 1] + [s[|s| - 1]] == s
  {
  }

  /** The total number of items is the sum of the chunk sizes; with all but
      the last chunk of size `size`, that is (chunks - 1) * size + |last|. */
  lemma {:induction false} FlattenLength<T>(chunks: seq<seq<T>>, size: nat)
    requires chunks != []
    requires forall k :: 0 <= k < |chunks| - 1 ==> |chunks[k]| == size
    ensures |Flatten(chunks)| == (|chunks| - 1) * size + |chunks[|chunks| - 1]|
    decreases |chunks|
  {
    if |chunks| > 1 {
      var init := chunks[..|chunks| - 1];
      FlattenLength(init, size);
    }
  }

  /** Division is determined by any decomposition n == q * d + r with 0 <= r < d. */
  lemma DivModUnique(n: nat, d: nat, q: nat, r: nat)
    requires 0 <= r < d && n == q * d + r
    ensures n / d == q && n % d == r
  {
    var k := q - n / d;
    assert k * d == n % d - r;
    MulBetween(k, d);
  }

  /** A multiple of d strictly between -d and d is 0. */
  lemma MulBetween(k: int, d: int)
    requires 0 - d < k * d < d
    ensures k == 0
  {
  }

  /** With size = n / c + 1 (c >= 1), fewer than c full chunks fit in n items. */
  lemma FullChunksBelowCount(n: nat, c: nat)
    requires c > 0
    ensures n / (n / c + 1) < c
  {
  }

  /** split(source, chunks): greedily fills chunks of `source.len() / chunks + 1`
      items, opening a new (possibly last, empty) chunk each time one fills up. */
  method Split<T>(source: seq<T>, chunks: nat) returns (result: seq<seq<T>>)
    requires source != [] ==> chunks > 0
    ensures source == [] ==> result == []
    ensures Flatten(result) == source
    ensures source != [] ==>
      var size := |source| / chunks + 1;
      && |result| == |source| / size + 1
      && (forall k :: 0 <= k < |result| - 1 ==> |result[k]| == size)
      && |result[|result| - 1]| == |source| % size
    ensures source != [] ==> 1 <= |result| <= chunks
  {
    if |source| == 0 {
      return [];
    }
    var size := |source| / chunks + 1;
    result := [[]];
    for i := 0 to |source|
      invariant |result| >= 1
      invariant Flatten(result) == source[..i]
      invariant forall k :: 0 <= k < |result| - 1 ==> |result[k]| == size
      invariant |result[|result| - 1]| < size
    {
      var last := |result| - 1;
      var before := result;
      result := result[last := result[last] + [source[i]]];
      assert result[..last] == before[..last];
      assert source[..i + 1] == source[..i] + [source[i]];
      if |result[last]| == size {
        var full := result;
        result := result + [[]];
        assert result[..|result| - 1] == full;
      }
    }
    assert source[..|source|] == source;
    FlattenLength(result, size);
    DivModUnique(|source|, size, |result| - 1, |result[|result| - 1]|);
    FullChunksBelowCount(|source|, chunks);
  }

  /** Splitting an empty frontier spawns no worker. */
  method SplitEmptyTest(chunks: nat) returns (result: seq<seq<string>>)
    ensures result == []
  {
    result := Split([], chunks);
  }
}
