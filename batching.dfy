/** Splitting a list of messages into contiguous chunks of `batch_size` and
    putting the per-chunk results back together, as both batch executors do. */
module Batching {
  import opened Scoring

  function Min(a: int, b: int): int {
    if a <= b then a else b
  }

  /** `[xs[i:i + size] for i in range(start, len(xs), size)]`. A Python slice
      stops at the end of the list, so the last chunk may be shorter. */
  function ChunksFrom<T>(xs: seq<T>, start: nat, size: nat): (cs: seq<seq<T>>)
    requires size > 0
    ensures forall k :: 0 <= k < |cs| ==> 1 <= |cs[k]| <= size
    decreases |xs| - start
  {
    if start >= |xs| then []
    else [xs[start..Min(start + size, |xs|)]] + ChunksFrom(xs, start + size, size)
  }

  /** The chunks of a whole list, starting at index 0. */
  function Chunks<T>(xs: seq<T>, size: nat): seq<seq<T>>
    requires size > 0
  {
    ChunksFrom(xs, 0, size)
  }

  /** Concatenation of a list of lists, in order (repeated `extend`). */
  function Flatten<T>(xss: seq<seq<T>>): seq<T> {
    if xss == [] then [] else xss[0] + Flatten(xss[1..])
  }

  lemma {:induction false} FlattenAppend<T>(a: seq<seq<T>>, b: seq<seq<T>>)
    ensures Flatten(a + b) == Flatten(a) + Flatten(b)
    decreases |a|
  {
    if a == [] {
      assert a + b == b;
    } else {
      assert (a + b)[0] == a[0];
      assert (a + b)[1..] == a[1..] + b;
      FlattenAppend(a[1..], b);
    }
  }

  /** Every chunk but the last holds exactly `size` elements. */
  lemma {:induction false} ChunksFromFull<T>(xs: seq<T>, start: nat, size: nat)
    requires size > 0
    ensures var cs := ChunksFrom(xs, start, size);
      forall k :: 0 <= k < |cs| - 1 ==> |cs[k]| == size
    decreases |xs| - start
  {
    if start < |xs| {
      ChunksFromFull(xs, start + size, size);
      var cs := ChunksFrom(xs, start, size);
      assert cs[1..] == ChunksFrom(xs, start + size, size);
      if |cs| > 1 {
        assert start + size < |xs|;
      }
    }
  }

  /** The chunks from `start` on, put back together, are the list from
      `start` on. */
  lemma {:induction false} ChunksFromCover<T>(xs: seq<T>, start: nat, size: nat)
    requires size > 0 && start <= |xs|
    ensures Flatten(ChunksFrom(xs, start, size)) == xs[start..]
    decreases |xs| - start
  {
    if start < |xs| {
      var hi := Min(start + size, |xs|);
      ChunksFromCover(xs, hi, size);
      if hi < start + size {
        assert ChunksFrom(xs, start + size, size) == [];
        assert ChunksFrom(xs, hi, size) == [];
      }
      assert ChunksFrom(xs, start + size, size) == ChunksFrom(xs, hi, size);
      assert xs[start..] == xs[start..hi] + xs[hi..];
    }
  }

  /** Chunking loses, reorders and duplicates nothing. */
  lemma ChunksCover<T>(xs: seq<T>, size: nat)
    requires size > 0
    ensures Flatten(Chunks(xs, size)) == xs
  {
    ChunksFromCover(xs, 0, size);
  }

  /** The scores of each chunk, in chunk order. */
  function ScoreEach(chunks: seq<seq<string>>): seq<seq<int>> {
    seq(|chunks|, k requires 0 <= k < |chunks| => ScoreAll(chunks[k]))
  }

  /** Scoring chunk by chunk and concatenating is scoring the concatenation. */
  lemma {:induction false} FlattenScoreEach(chunks: seq<seq<string>>)
    ensures Flatten(ScoreEach(chunks)) == ScoreAll(Flatten(chunks))
    decreases |chunks|
  {
    if chunks != [] {
      FlattenScoreEach(chunks[1..]);
      assert ScoreEach(chunks)[1..] == ScoreEach(chunks[1..]);
      ScoreAllAppend(chunks[0], Flatten(chunks[1..]));
    }
  }

  /** Chunk boundaries change no score: for every positive batch size the
      concatenated chunk results are the message-by-message scores. */
  lemma ChunkedScoresAgree(messages: seq<string>, size: nat)
    requires size > 0
    ensures Flatten(ScoreEach(Chunks(messages, size))) == ScoreAll(messages)
  {
    FlattenScoreEach(Chunks(messages, size));
    ChunksCover(messages, size);
  }

  /** Any two positive batch sizes give the same list. */
  lemma BatchSizeIrrelevant(messages: seq<string>, size1: nat, size2: nat)
    requires size1 > 0 && size2 > 0
    ensures Flatten(ScoreEach(Chunks(messages, size1)))
         == Flatten(ScoreEach(Chunks(messages, size2)))
  {
    ChunkedScoresAgree(messages, size1);
    ChunkedScoresAgree(messages, size2);
  }
}
