/** The fixed-size character chunker of the question-answering pipeline:
    `[text[i : i + chunk_size] for i in range(0, len(text), chunk_size)]`. */
module Chunker {
  import opened Py

  /** The windows of `size` characters that start at 0, size, 2*size, ...
      below `|text|`; the last one is cut off by the end of the text. */
  function Chunks(text: string, size: nat): (r: seq<string>)
    requires size >= 1
    ensures forall j :: 0 <= j < |r| ==> |r[j]| <= size
  {
    var starts := Steps(|text|, size);
    seq(|starts|, k requires 0 <= k < |starts| => Slice(text, starts[k], starts[k] + size))
  }

  /** Chunk `j` is the text from `j * size` up to `(j + 1) * size` or the end,
      whichever comes first, and it starts inside the text. */
  lemma ChunkAt(text: string, size: nat, j: nat)
    requires size >= 1 && j < |Chunks(text, size)|
    ensures j * size < |text|
    ensures Chunks(text, size)[j] == text[j * size .. Min(j * size + size, |text|)]
  {
  }

  /** The Python call as written: a zero step makes `range` raise, a negative
      step makes the range over `0 .. len(text)` empty. */
  function SplitIntoChunks(text: string, chunkSize: int): (r: Result<seq<string>>)
    ensures r.Err? <==> chunkSize == 0
    ensures r.Err? ==> r.error == ZeroStep
    ensures chunkSize < 0 ==> r == Ok([])
    ensures chunkSize > 0 ==> r.Ok? && IsFixedPartition(r.value, text, chunkSize)
  {
    if chunkSize == 0 then Err(ZeroStep)
    else if chunkSize < 0 then Ok([])
    else
      ChunksArePartition(text, chunkSize);
      Ok(Chunks(text, chunkSize))
  }

  /** The chunks written one after the other. */
  function Concat(chunks: seq<string>): string
  {
    if chunks == [] then [] else chunks[0] + Concat(chunks[1..])
  }

  /** `chunks` cut `text` into consecutive pieces, all of length `size`
      except the last, which is not empty and at most `size` long. */
  ghost predicate IsFixedPartition(chunks: seq<string>, text: string, size: nat)
  {
    && Concat(chunks) == text
    && (forall j :: 0 <= j < |chunks| - 1 ==> |chunks[j]| == size)
    && (|chunks| > 0 ==> 1 <= |chunks[|chunks| - 1]| <= size)
  }

  /** The number of chunks is the ceiling of |text| / size; no text, no chunks. */
  lemma ChunkCount(text: string, size: nat)
    requires size >= 1
    ensures Chunks(text, size) == [] <==> text == []
    ensures |Chunks(text, size)| * size >= |text|
    ensures |Chunks(text, size)| > 0 ==> (|Chunks(text, size)| - 1) * size < |text|
  {
  }

  /** Every chunk but the last is `size` long; the last holds the remainder,
      or a full `size` when `size` divides |text|. */
  lemma ChunkLengths(text: string, size: nat)
    requires size >= 1
    ensures var r := Chunks(text, size);
      forall j :: 0 <= j < |r| - 1 ==> |r[j]| == size
    ensures var r := Chunks(text, size);
      |r| > 0 ==>
        && 1 <= |r[|r| - 1]| <= size
        && |r[|r| - 1]| == (if |text| % size == 0 then size else |text| % size)
  {
    var r := Chunks(text, size);
    var n := |r|;
    ChunkCount(text, size);
    forall j | 0 <= j < n - 1
      ensures |r[j]| == size
    {
      ChunkAt(text, size, j);
      MulMono(j + 1, n - 1, size);
      assert (j + 1) * size == j * size + size;
    }
    if n > 0 {
      var base := (n - 1) * size;
      ChunkAt(text, size, n - 1);
      assert base + size == n * size;
      assert |r[n - 1]| == |text| - base;
      ModOfRemainder(|text|, n - 1, |text| - base, size);
    }
  }

  lemma ModOfRemainder(t: nat, q: nat, l: nat, d: nat)
    requires d >= 1 && 1 <= l <= d && t == q * d + l
    ensures t % d == (if l == d then 0 else l)
  {
    if l == d {
      assert t == (q + 1) * d + 0;
      ModUnique(t, q + 1, 0, d);
    } else {
      ModUnique(t, q, l, d);
    }
  }

  /** Chunking takes one window off the front and chunks the rest. */
  lemma ChunksUnfold(text: string, size: nat)
    requires size >= 1 && |text| > 0
    ensures Chunks(text, size) ==
      if |text| <= size then [text] else [text[..size]] + Chunks(text[size..], size)
  {
    var r := Chunks(text, size);
    ChunkCount(text, size);
    ChunkAt(text, size, 0);
    if |text| <= size {
      CeilUnique(|text|, size, |r|, 1);
      assert r[0] == text;
    } else {
      var rest := text[size..];
      var r' := Chunks(rest, size);
      ChunkCount(rest, size);
      assert (|r'| + 1) * size == |r'| * size + size;
      CeilUnique(|text|, size, |r|, |r'| + 1);
      forall j | 1 <= j < |r|
        ensures r[j] == r'[j - 1]
      {
        ChunkShift(text, size, j);
      }
    }
  }

  /** Chunk `j` of the text is chunk `j - 1` of the text without its first window. */
  lemma ChunkShift(text: string, size: nat, j: nat)
    requires size >= 1 && |text| > size
    requires 1 <= j < |Chunks(text, size)| && j - 1 < |Chunks(text[size..], size)|
    ensures Chunks(text, size)[j] == Chunks(text[size..], size)[j - 1]
  {
    var rest := text[size..];
    ChunkAt(text, size, j);
    ChunkAt(rest, size, j - 1);
    var lo := (j - 1) * size;
    StepBack(j, size);
    var hi := Min(lo + size, |rest|);
    SliceAfterDrop(text, size, lo, hi);
  }

  lemma StepBack(j: nat, size: nat)
    requires j >= 1
    ensures (j - 1) * size + size == j * size
  {
  }

  lemma SliceAfterDrop(t: string, d: nat, lo: nat, hi: nat)
    requires d <= |t| && lo <= hi <= |t| - d
    ensures t[d..][lo..hi] == t[d + lo .. d + hi]
  {
  }

  /** Writing the chunks back to back gives the text: no overlap, no loss. */
  lemma {:induction false} ConcatChunks(text: string, size: nat)
    requires size >= 1
    ensures Concat(Chunks(text, size)) == text
    decreases |text|
  {
    ChunkCount(text, size);
    if |text| > 0 {
      ChunksUnfold(text, size);
      if |text| > size {
        var rest := Chunks(text[size..], size);
        var r := [text[..size]] + rest;
        assert r[0] == text[..size] && r[1..] == rest;
        ConcatChunks(text[size..], size);
        assert text[..size] + text[size..] == text;
      } else {
        assert [text][1..] == [];
      }
    }
  }

  lemma ChunksArePartition(text: string, size: nat)
    requires size >= 1
    ensures IsFixedPartition(Chunks(text, size), text, size)
  {
    ConcatChunks(text, size);
    ChunkLengths(text, size);
  }

  /** The chunker's output is the only fixed-size partition of the text. */
  lemma {:induction false} PartitionUnique(chunks: seq<string>, text: string, size: nat)
    requires size >= 1
    requires IsFixedPartition(chunks, text, size)
    ensures chunks == Chunks(text, size)
    decreases |chunks|
  {
    ChunkCount(text, size);
    if |chunks| == 1 {
      assert Concat(chunks) == chunks[0] + Concat([]);
      ChunksUnfold(text, size);
    } else if |chunks| > 1 {
      var head, tail := chunks[0], chunks[1..];
      assert Concat(chunks) == head + Concat(tail);
      assert |head| == size;
      assert head == text[..size];
      assert Concat(tail) == text[size..];
      assert IsFixedPartition(tail, text[size..], size) by {
        forall j | 0 <= j < |tail| - 1
          ensures |tail[j]| == size
        {
          assert tail[j] == chunks[j + 1];
        }
        assert tail[|tail| - 1] == chunks[|chunks| - 1];
      }
      PartitionUnique(tail, text[size..], size);
      ConcatLength(tail);
      ChunksUnfold(text, size);
      assert chunks == [head] + tail;
    }
  }

  lemma {:induction false} ConcatLength(chunks: seq<string>)
    requires |chunks| > 0 && |chunks[|chunks| - 1]| > 0
    ensures |Concat(chunks)| > 0
    decreases |chunks|
  {
    if |chunks| > 1 {
      ConcatLength(chunks[1..]);
    }
  }

  /** A chunk size of one splits the text into its characters. */
  lemma SingleCharacters(text: string)
    ensures |Chunks(text, 1)| == |text|
    ensures forall j :: 0 <= j < |text| ==> Chunks(text, 1)[j] == [text[j]]
  {
  }

  /** The worked example of the test suite: 37 characters in windows of 10. */
  lemma TestDocumentExample()
    ensures Chunks("This is a test document for chunking.", 10)
      == ["This is a ", "test docum", "ent for ch", "unking."]
  {
    var text := "This is a test document for chunking.";
    var a, b, c, d := "This is a ", "test docum", "ent for ch", "unking.";
    assert text == a + b + c + d;
    assert Concat([a, b, c, d]) == a + b + c + d by {
      assert Concat([d]) == d + Concat([]);
      assert Concat([c, d]) == c + Concat([d]);
      assert Concat([b, c, d]) == b + Concat([c, d]);
      assert Concat([a, b, c, d]) == a + Concat([b, c, d]);
    }
    PartitionUnique([a, b, c, d], text, 10);
  }
}
