/**
 * Model of src/ainfo/chunking.py: splitting a string into consecutive
 * slices of at most `size` characters, eagerly (chunk_text) and as a
 * generator (stream_chunks).
 */
module Chunking {
  import opened Wrappers

  /** The exception both functions raise for a size they cannot use. */
  datatype ChunkError = ValueError

  function Min(a: int, b: int): int { if a <= b then a else b }

  /** Concatenation of a list of strings, `"".join(parts)`. */
  function Concat(parts: seq<string>): string
    decreases |parts|
  {
    if parts == [] then "" else Concat(parts[..|parts| - 1]) + parts[|parts| - 1]
  }

  /** Number of elements of `range(0, n, size)` for a positive `size`. */
  function RangeLength(n: nat, size: nat): nat
    requires size > 0
  {
    (n + size - 1) / size
  }

  /** `RangeLength` is the ceiling of `n / size`. */
  lemma RangeLengthIsCeiling(n: nat, size: nat)
    requires size > 0
    ensures RangeLength(n, size) * size >= n
    ensures RangeLength(n, size) > 0 ==> (RangeLength(n, size) - 1) * size < n
    ensures RangeLength(n, size) == 0 <==> n == 0
  {
    var c := RangeLength(n, size);
    var r := (n + size - 1) % size;
    assert n + size - 1 == c * size + r;
    if c > 0 {
      assert (c - 1) * size == c * size - size;
    }
  }

  /** Every offset `k * size` produced by the range lies inside the text. */
  lemma OffsetInside(n: nat, size: nat, k: nat)
    requires size > 0 && k < RangeLength(n, size)
    ensures k * size < n
    ensures k + 1 < RangeLength(n, size) ==> (k + 1) * size < n
  {
    RangeLengthIsCeiling(n, size);
    var c := RangeLength(n, size);
    MulMonotone(k, c - 1, size);
    if k + 1 < c {
      MulMonotone(k + 1, c - 1, size);
    }
  }

  lemma MulMonotone(a: nat, b: nat, s: nat)
    requires a <= b
    ensures a * s <= b * s
  {
    assert b * s == a * s + (b - a) * s;
  }

  /** `text[i : i + size]` for the offset `i = k * size`; Python clamps the end. */
  function Chunk(text: string, size: nat, k: nat): string
    requires size > 0 && k < RangeLength(|text|, size)
  {
    OffsetInside(|text|, size, k);
    text[k * size .. Min(k * size + size, |text|)]
  }

  /**
   * `chunk_text(text, size)`: a `ValueError` for a size that is not positive,
   * otherwise one slice per offset of `range(0, len(text), size)`.
   */
  function ChunkText(text: string, size: int): (r: Result<seq<string>, ChunkError>)
    ensures r.Failure? <==> size <= 0
    ensures r.Failure? ==> r.error == ValueError
  {
    if size <= 0 then Failure(ValueError)
    else
      var n := RangeLength(|text|, size);
      Success(seq(n, k requires 0 <= k < n => Chunk(text, size, k)))
  }

  /**
   * Shape of the chunks: there are ceil(len(text) / size) of them, none is
   * empty, none is longer than `size`, and all but the last are exactly `size`.
   */
  lemma ChunkTextShape(text: string, size: int)
    requires size > 0
    ensures var chunks := ChunkText(text, size).value;
      && |chunks| * size >= |text|
      && (chunks != [] ==> (|chunks| - 1) * size < |text|)
      && (chunks == [] <==> text == [])
      && (forall k :: 0 <= k < |chunks| ==> 0 < |chunks[k]| <= size)
      && (forall k :: 0 <= k < |chunks| - 1 ==> |chunks[k]| == size)
  {
    var chunks := ChunkText(text, size).value;
    RangeLengthIsCeiling(|text|, size);
    forall k | 0 <= k < |chunks|
      ensures 0 < |chunks[k]| <= size
      ensures k < |chunks| - 1 ==> |chunks[k]| == size
    {
      OffsetInside(|text|, size, k);
    }
  }

  /** Slice `k` is the text between offsets `k * size` and `(k + 1) * size`. */
  lemma ChunkAt(text: string, size: int, k: nat)
    requires size > 0 && k < |ChunkText(text, size).value|
    ensures k * size < |text|
    ensures ChunkText(text, size).value[k] == text[k * size .. Min(k * size + size, |text|)]
  {
    OffsetInside(|text|, size, k);
  }

  lemma MulSucc(k: nat, size: nat)
    ensures (k + 1) * size == k * size + size
  {
  }

  /**
   * Consecutive chunks are adjacent: chunk `k + 1` starts at offset
   * `k * size + size`, exactly where chunk `k` (of full length) ends, so
   * the chunks are in order and do not overlap.
   */
  lemma ChunksAdjacent(text: string, size: int, k: nat)
    requires size > 0 && k + 1 < |ChunkText(text, size).value|
    ensures var chunks := ChunkText(text, size).value;
      && k * size + size < |text|
      && chunks[k] == text[k * size .. k * size + size]
      && chunks[k + 1] == text[k * size + size .. Min(k * size + 2 * size, |text|)]
  {
    ChunkAt(text, size, k);
    ChunkAt(text, size, k + 1);
    OffsetInside(|text|, size, k);
    MulSucc(k, size);
  }

  /** The first `k` chunks concatenate to the first `k * size` characters. */
  lemma {:induction false} ConcatPrefix(text: string, size: int, k: nat)
    requires size > 0 && k <= |ChunkText(text, size).value|
    ensures Concat(ChunkText(text, size).value[..k]) == text[..Min(k * size, |text|)]
  {
    var chunks := ChunkText(text, size).value;
    if k > 0 {
      var j := k - 1;
      ConcatPrefix(text, size, j);
      ChunkAt(text, size, j);
      MulSucc(j, size);
      var lo := j * size;
      var hi := Min(k * size, |text|);
      assert chunks[j] == text[lo..hi];
      assert Concat(chunks[..j]) == text[..lo];
      assert chunks[..k][..j] == chunks[..j];
      assert Concat(chunks[..k]) == Concat(chunks[..j]) + chunks[j];
      assert text[..lo] + text[lo..hi] == text[..hi];
    }
  }

  /** Round trip: for a positive size the chunks concatenate back to the text. */
  lemma ChunkTextRoundTrip(text: string, size: int)
    requires size > 0
    ensures ChunkText(text, size).Success?
    ensures Concat(ChunkText(text, size).value) == text
  {
    var chunks := ChunkText(text, size).value;
    var n := |chunks|;
    assert n == RangeLength(|text|, size);
    RangeLengthIsCeiling(|text|, size);
    assert Min(n * size, |text|) == |text|;
    ConcatPrefix(text, size, n);
    assert chunks[..n] == chunks;
  }

  /**
   * `stream_chunks(text, size)`, drained: the generator's loop over
   * `range(0, len(text), size)`, collecting what it yields. A zero size makes
   * `range` raise `ValueError`; a negative size gives an empty range, so the
   * generator yields nothing.
   */
  method StreamChunks(text: string, size: int) returns (r: Result<seq<string>, ChunkError>)
    ensures size == 0 ==> r == Failure(ValueError)
    ensures size < 0 ==> r == Success([])
    ensures size > 0 ==> r == ChunkText(text, size)
  {
    if size == 0 {
      return Failure(ValueError);
    }
    var yielded: seq<string> := [];
    if size > 0 {
      ghost var expected := ChunkText(text, size).value;
      ghost var c := |expected|;
      assert c == RangeLength(|text|, size);
      RangeLengthIsCeiling(|text|, size);
      var i := 0;
      while i < |text|
        invariant 0 <= i && |yielded| <= c
        invariant i == |yielded| * size
        invariant |yielded| < c <==> i < |text|
        invariant yielded == expected[..|yielded|]
        decreases |text| - i
      {
        ghost var k := |yielded|;
        ChunkAt(text, size, k);
        MulSucc(k, size);
        if k + 1 < c {
          OffsetInside(|text|, size, k);
          assert (k + 1) * size < |text|;
        } else {
          assert c * size >= |text|;
          assert k + 1 == c;
        }
        yielded := yielded + [text[i..Min(i + size, |text|)]];
        i := i + size;
        assert i == (k + 1) * size;
        assert yielded == expected[..k + 1];
      }
      assert yielded == expected;
      assert ChunkText(text, size) == Success(expected);
    }
    r := Success(yielded);
  }

  /** The two examples of tests/test_chunking.py. */
  lemma ChunkExamples()
    ensures ChunkText("abcdefg", 3) == Success(["abc", "def", "g"])
    ensures ChunkText("abcdefg", 2) == Success(["ab", "cd", "ef", "g"])
  {
    var t := "abcdefg";
    assert t[0..3] == "abc" && t[3..6] == "def" && t[6..7] == "g";
    assert t[0..2] == "ab" && t[2..4] == "cd" && t[4..6] == "ef";
    var a := ChunkText(t, 3).value;
    assert |a| == 3;
    ChunkAt(t, 3, 0); ChunkAt(t, 3, 1); ChunkAt(t, 3, 2);
    assert a == ["abc", "def", "g"];
    var b := ChunkText(t, 2).value;
    assert |b| == 4;
    ChunkAt(t, 2, 0); ChunkAt(t, 2, 1); ChunkAt(t, 2, 2); ChunkAt(t, 2, 3);
    assert b == ["ab", "cd", "ef", "g"];
  }
}
