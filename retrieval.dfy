/** Turning the positions found by the nearest-neighbour search back into
    chunks: `[chunks[i] for i in I[0]]`. The search itself is not modelled;
    its row of positions is an input. */
module Retrieval {
  import opened Py

  /** Every position is an index into a list of `n` chunks that Python
      accepts, counting negative ones from the end. */
  predicate AllIndexable(positions: seq<int>, n: nat)
  {
    forall m :: 0 <= m < |positions| ==> InIndexRange(n, positions[m])
  }

  /** Every position lies in `0 .. n - 1`. */
  predicate AllInRange(positions: seq<int>, n: nat)
  {
    forall m :: 0 <= m < |positions| ==> 0 <= positions[m] < n
  }

  /** The chunks at the given positions, in the order the search returned
      them; one position Python cannot index raises IndexError. */
  function RetrieveChunks(chunks: seq<string>, positions: seq<int>): (r: Result<seq<string>>)
    ensures r.Ok? <==> AllIndexable(positions, |chunks|)
    ensures r.Err? ==> r.error == IndexOutOfRange
    ensures r.Ok? ==> |r.value| == |positions|
    ensures r.Ok? ==> forall m :: 0 <= m < |r.value| ==> r.value[m] in chunks
    ensures r.Ok? ==> forall m :: 0 <= m < |positions| ==> r.value[m] == Index(chunks, positions[m])
  {
    if AllIndexable(positions, |chunks|) then
      Ok(seq(|positions|, m requires 0 <= m < |positions| => Index(chunks, positions[m])))
    else
      Err(IndexOutOfRange)
  }

  /** With every position in range, retrieved item `m` is `chunks[positions[m]]`. */
  lemma RetrieveInRange(chunks: seq<string>, positions: seq<int>)
    requires AllInRange(positions, |chunks|)
    ensures var r := RetrieveChunks(chunks, positions);
      && r.Ok?
      && |r.value| == |positions|
      && forall m :: 0 <= m < |positions| ==> r.value[m] == chunks[positions[m]]
  {
  }

  /** A negative position selects a chunk counted from the end, so `-1`
      gives the last chunk rather than an error. */
  lemma RetrieveNegative(chunks: seq<string>, positions: seq<int>, m: nat)
    requires AllIndexable(positions, |chunks|)
    requires m < |positions| && positions[m] < 0
    ensures RetrieveChunks(chunks, positions).value[m] == chunks[|chunks| + positions[m]]
  {
  }

  /** A row mixing a position and `-1` over a single chunk retrieves that
      chunk twice. */
  lemma RetrieveMixedRow(chunk: string)
    ensures RetrieveChunks([chunk], [0, -1]) == Ok([chunk, chunk])
  {
    var positions: seq<int> := [0, -1];
    assert AllIndexable(positions, 1) by {
      forall m | 0 <= m < |positions| ensures InIndexRange(1, positions[m]) {
      }
    }
    var r := RetrieveChunks([chunk], positions);
    assert r.value[0] == Index([chunk], 0) == chunk;
    assert r.value[1] == Index([chunk], -1) == chunk;
    assert r.value == [chunk, chunk];
  }

  /** No chunks: any non-empty row of positions fails. */
  lemma RetrieveFromNothing(positions: seq<int>)
    requires positions != []
    ensures RetrieveChunks([], positions) == Err(IndexOutOfRange)
  {
    assert !InIndexRange(0, positions[0]);
  }

  /** Retrieval keeps the search order: retrieving a row split in two gives
      the two retrievals one after the other. */
  lemma RetrieveAppend(chunks: seq<string>, p: seq<int>, q: seq<int>)
    requires AllIndexable(p + q, |chunks|)
    ensures RetrieveChunks(chunks, p).Ok? && RetrieveChunks(chunks, q).Ok?
    ensures RetrieveChunks(chunks, p + q).value
      == RetrieveChunks(chunks, p).value + RetrieveChunks(chunks, q).value
  {
    assert AllIndexable(p, |chunks|) by {
      forall m | 0 <= m < |p| ensures InIndexRange(|chunks|, p[m]) {
        assert p[m] == (p + q)[m];
      }
    }
    assert AllIndexable(q, |chunks|) by {
      forall m | 0 <= m < |q| ensures InIndexRange(|chunks|, q[m]) {
        assert q[m] == (p + q)[|p| + m];
      }
    }
  }
}
