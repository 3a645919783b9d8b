/**
 * Splitting query targets into batches: fixed-size slicing of id lists,
 * and the greedy character-budget chunking of element symbols used for
 * the server-side exclude lists.
 */
module Batching {
  import opened Text

  function Flatten<T>(chunks: seq<seq<T>>): (r: seq<T>) {
    if chunks == [] then [] else chunks[0] + Flatten(chunks[1..])
  }

  lemma {:induction false} FlattenSnoc<T>(chunks: seq<seq<T>>, c: seq<T>)
    ensures Flatten(chunks + [c]) == Flatten(chunks) + c
  {
    if chunks != [] {
      assert (chunks + [c])[1..] == chunks[1..] + [c];
      FlattenSnoc(chunks[1..], c);
    }
  }

  // ---------------------------------------------------------------------
  // Fixed-size slicing: xs[i:i + size] for i in range(0, len(xs), size)
  // ---------------------------------------------------------------------

  function Slices<T>(xs: seq<T>, size: nat): (r: seq<seq<T>>)
    requires size > 0
    decreases |xs|
  {
    if xs == [] then []
    else
      var n := if |xs| < size then |xs| else size;
      [xs[..n]] + Slices(xs[n..], size)
  }

  /**
   * The slices cover the list exactly and in order; each holds between one
   * and `size` ids, and every slice but the last holds exactly `size`.
   */
  lemma {:induction false} SlicesPartition<T>(xs: seq<T>, size: nat)
    requires size > 0
    ensures Flatten(Slices(xs, size)) == xs
    ensures forall k | 0 <= k < |Slices(xs, size)| :: 0 < |Slices(xs, size)[k]| <= size
    ensures forall k | 0 <= k < |Slices(xs, size)| - 1 :: |Slices(xs, size)[k]| == size
    decreases |xs|
  {
    if xs != [] {
      var n := if |xs| < size then |xs| else size;
      SlicesPartition(xs[n..], size);
      assert xs == xs[..n] + xs[n..];
    }
  }

  // ---------------------------------------------------------------------
  // Greedy chunking under a character budget (chunk_list)
  // ---------------------------------------------------------------------

  /** Length of the chunk's comma-joined text: item lengths plus one separator between neighbours. */
  function Width(chunk: seq<string>): nat {
    |Join(",", chunk)|
  }

  lemma {:induction false} WidthSnoc(chunk: seq<string>, x: string)
    ensures Width(chunk + [x]) == Width(chunk) + |x| + (if chunk == [] then 0 else 1)
  {
    if chunk != [] {
      JoinSnoc(",", chunk, x);
    } else {
      assert chunk + [x] == [x];
    }
  }

  /** A non-empty prefix of a chunk is no wider than the chunk. */
  lemma {:induction false} WidthPrefix(chunk: seq<string>, j: nat)
    requires 1 <= j <= |chunk|
    ensures Width(chunk[..j]) <= Width(chunk)
    decreases |chunk| - j
  {
    if j < |chunk| {
      assert chunk[..j + 1] == chunk[..j] + [chunk[j]];
      WidthSnoc(chunk[..j], chunk[j]);
      WidthPrefix(chunk, j + 1);
    } else {
      assert chunk[..j] == chunk;
    }
  }

  /**
   * `chunks` is what greedy chunking under `maxChars` produces for `lst`:
   * the chunks concatenate to `lst`; every chunk is non-empty except a
   * leading empty chunk that only the first call (`first`) may produce and
   * only when more chunks follow; a chunk of two or more items (or the
   * first chunk of the first call) fits the budget; and no chunk could have
   * taken the first item of the next one.
   */
  predicate Greedy(lst: seq<string>, maxChars: int, chunks: seq<seq<string>>, first: bool) {
    && Flatten(chunks) == lst
    && (forall k | 0 <= k < |chunks| :: chunks[k] != [] || (first && k == 0 && |chunks| > 1))
    && (forall k | 0 <= k < |chunks| ::
          (|chunks[k]| >= 2 || (first && k == 0 && chunks[k] != [])) ==> Width(chunks[k]) <= maxChars)
    && (forall k | 0 <= k < |chunks| - 1 :: Width(chunks[k] + [chunks[k + 1][0]]) > maxChars)
  }

  /**
   * Loop state of chunk_list: the chunks closed so far followed by the
   * open chunk form a greedy chunking of the items consumed so far.
   */
  predicate ChunkState(consumed: seq<string>, maxChars: int, chunks: seq<seq<string>>, current: seq<string>) {
    if current == [] then chunks == [] && consumed == []
    else Greedy(consumed, maxChars, chunks + [current], true)
  }

  /** Appending an item to the open chunk when it still fits keeps the chunking greedy. */
  lemma ChunkExtend(consumed: seq<string>, maxChars: int, chunks: seq<seq<string>>, current: seq<string>, x: string)
    requires ChunkState(consumed, maxChars, chunks, current)
    requires Width(current + [x]) <= maxChars
    ensures ChunkState(consumed + [x], maxChars, chunks, current + [x])
  {
    var before := chunks + [current];
    var after := chunks + [current + [x]];
    FlattenSnoc(chunks, current);
    FlattenSnoc(chunks, current + [x]);
    if current == [] {
      assert current + [x] == [x];
      assert after == [[x]];
    } else {
      assert |after| == |before|;
      forall k | 0 <= k < |after|
        ensures after[k] != [] || (k == 0 && |after| > 1)
        ensures (|after[k]| >= 2 || (k == 0 && after[k] != [])) ==> Width(after[k]) <= maxChars
      {
        if k < |chunks| {
          assert after[k] == before[k];
        }
      }
      forall k | 0 <= k < |after| - 1
        ensures Width(after[k] + [after[k + 1][0]]) > maxChars
      {
        assert after[k] == before[k];
        assert after[k + 1][0] == before[k + 1][0];
      }
    }
  }

  /** Closing the open chunk and starting a new one with an item that does not fit keeps the chunking greedy. */
  lemma ChunkBreak(consumed: seq<string>, maxChars: int, chunks: seq<seq<string>>, current: seq<string>, x: string)
    requires ChunkState(consumed, maxChars, chunks, current)
    requires Width(current + [x]) > maxChars
    ensures ChunkState(consumed + [x], maxChars, chunks + [current], [x])
  {
    var before := chunks + [current];
    var after := before + [[x]];
    FlattenSnoc(chunks, current);
    FlattenSnoc(before, [x]);
    forall k | 0 <= k < |after|
      ensures after[k] != [] || (k == 0 && |after| > 1)
      ensures (|after[k]| >= 2 || (k == 0 && after[k] != [])) ==> Width(after[k]) <= maxChars
    {
      if k < |before| {
        assert after[k] == before[k];
      }
    }
    forall k | 0 <= k < |after| - 1
      ensures Width(after[k] + [after[k + 1][0]]) > maxChars
    {
      if k < |before| - 1 {
        assert after[k] == before[k];
        assert after[k + 1] == before[k + 1];
      } else {
        assert after[k] == current;
        assert after[k + 1] == [x];
      }
    }
  }

  /** chunk_list: greedy, order-preserving chunking; the running length is the joined width. */
  method ChunkList(lst: seq<string>, maxChars: int) returns (chunks: seq<seq<string>>)
    ensures Greedy(lst, maxChars, chunks, true)
    ensures lst == [] ==> chunks == []
  {
    chunks := [];
    var current: seq<string> := [];
    var currentLength := 0;
    var i := 0;
    while i < |lst|
      invariant 0 <= i <= |lst|
      invariant currentLength == Width(current)
      invariant ChunkState(lst[..i], maxChars, chunks, current)
      invariant current == [] <==> i == 0
    {
      var item := lst[i];
      var addLen := |item| + (if current != [] then 1 else 0);
      WidthSnoc(current, item);
      assert lst[..i + 1] == lst[..i] + [item];
      if currentLength + addLen > maxChars {
        ChunkBreak(lst[..i], maxChars, chunks, current, item);
        chunks := chunks + [current];
        current := [item];
        currentLength := |item|;
        assert Join(",", [item]) == item;
      } else {
        ChunkExtend(lst[..i], maxChars, chunks, current, item);
        current := current + [item];
        currentLength := currentLength + addLen;
      }
      i := i + 1;
    }
    assert lst[..i] == lst;
    if current != [] {
      chunks := chunks + [current];
    }
  }

  /** A greedy chunking of an empty list has no chunks. */
  lemma GreedyOfEmpty(maxChars: int, chunks: seq<seq<string>>, first: bool)
    requires Greedy([], maxChars, chunks, first)
    ensures chunks == []
  {
    if chunks != [] {
      var j := if chunks[0] == [] then 1 else 0;
      InFlatten(chunks, j, 0);
    }
  }

  /** Dropping the first chunk leaves a greedy chunking of the rest of the list. */
  lemma GreedyTail(lst: seq<string>, maxChars: int, chunks: seq<seq<string>>, first: bool)
    requires Greedy(lst, maxChars, chunks, first)
    requires chunks != []
    ensures lst == chunks[0] + Flatten(chunks[1..])
    ensures Greedy(lst[|chunks[0]|..], maxChars, chunks[1..], false)
  {
    var rest := chunks[1..];
    forall k | 0 <= k < |rest|
      ensures rest[k] != []
      ensures |rest[k]| >= 2 ==> Width(rest[k]) <= maxChars
    {
      assert rest[k] == chunks[k + 1];
    }
    forall k | 0 <= k < |rest| - 1
      ensures Width(rest[k] + [rest[k + 1][0]]) > maxChars
    {
      assert rest[k] == chunks[k + 1];
      assert rest[k + 1] == chunks[k + 2];
    }
  }

  /** Greedy chunking never closes its first chunk earlier than another greedy chunking of the same list. */
  lemma FirstChunkMaximal(lst: seq<string>, maxChars: int, a: seq<seq<string>>, b: seq<seq<string>>, first: bool)
    requires Greedy(lst, maxChars, a, first) && Greedy(lst, maxChars, b, first)
    requires a != [] && b != []
    ensures |a[0]| >= |b[0]|
  {
    GreedyTail(lst, maxChars, a, first);
    GreedyTail(lst, maxChars, b, first);
    var n := |a[0]|;
    if n < |b[0]| {
      assert lst[..n] == a[0];
      assert b[0][..n] == lst[..n];
      assert Flatten(a[1..]) != [];
      assert |a| >= 2;
      assert Flatten(a[1..]) == a[1] + Flatten(a[2..]);
      assert a[1][0] == lst[n] == b[0][n];
      assert b[0][..n + 1] == a[0] + [a[1][0]];
      WidthPrefix(b[0], n + 1);
    }
  }

  /** The greedy chunking of a list is unique: the chunking predicate determines chunk_list's output. */
  lemma {:induction false} GreedyUnique(lst: seq<string>, maxChars: int, a: seq<seq<string>>, b: seq<seq<string>>, first: bool)
    requires Greedy(lst, maxChars, a, first) && Greedy(lst, maxChars, b, first)
    ensures a == b
    decreases |a|
  {
    if a == [] {
      GreedyOfEmpty(maxChars, b, first);
    } else if b == [] {
      GreedyOfEmpty(maxChars, a, first);
    } else {
      FirstChunkMaximal(lst, maxChars, a, b, first);
      FirstChunkMaximal(lst, maxChars, b, a, first);
      GreedyTail(lst, maxChars, a, first);
      GreedyTail(lst, maxChars, b, first);
      assert a[0] == lst[..|a[0]|] == b[0];
      GreedyUnique(lst[|a[0]|..], maxChars, a[1..], b[1..], false);
      assert a == [a[0]] + a[1..];
      assert b == [b[0]] + b[1..];
    }
  }

  /** Every item of a chunk is an item of the flattened list. */
  lemma {:induction false} InFlatten<T>(chunks: seq<seq<T>>, k: nat, j: nat)
    requires k < |chunks| && j < |chunks[k]|
    ensures chunks[k][j] in Flatten(chunks)
  {
    if k > 0 {
      InFlatten(chunks[1..], k - 1, j);
    }
  }

  /** When every item fits the budget on its own, every chunk is non-empty and fits the budget. */
  lemma ChunksWithinBudget(lst: seq<string>, maxChars: int, chunks: seq<seq<string>>)
    requires Greedy(lst, maxChars, chunks, true)
    requires forall x <- lst :: |x| <= maxChars
    ensures forall k | 0 <= k < |chunks| :: chunks[k] != [] && Width(chunks[k]) <= maxChars
  {
    forall k | 0 <= k < |chunks| ensures chunks[k] != [] && Width(chunks[k]) <= maxChars {
      if k == 0 && chunks[0] == [] {
        InFlatten(chunks, 1, 0);
      }
      if |chunks[k]| == 1 {
        InFlatten(chunks, k, 0);
        assert chunks[k] == [chunks[k][0]];
      }
    }
  }

  /** The leading empty chunk appears exactly when the first item alone exceeds the budget. */
  lemma LeadingEmptyChunk(lst: seq<string>, maxChars: int, chunks: seq<seq<string>>)
    requires Greedy(lst, maxChars, chunks, true)
    requires lst != []
    ensures chunks != [] && (chunks[0] == [] <==> |lst[0]| > maxChars)
  {
    assert chunks != [];
    if chunks[0] == [] {
      assert Flatten(chunks) == Flatten(chunks[1..]);
      assert [] + [chunks[1][0]] == [chunks[1][0]];
      assert Join(",", [chunks[1][0]]) == chunks[1][0];
    } else {
      assert lst[0] == chunks[0][0];
      WidthPrefix(chunks[0], 1);
      assert chunks[0][..1] == [lst[0]];
      assert Join(",", [lst[0]]) == lst[0];
    }
  }
}
