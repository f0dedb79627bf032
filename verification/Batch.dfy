/** Chunking of work queues (internal/util/batch.go). */
module Batch {

  /** Length of the next chunk of a non-empty queue; a size that is not positive means "all of it". */
  function ChunkLength(n: nat, size: int): (k: nat)
    requires n > 0
    ensures 0 < k <= n
    ensures size > 0 ==> k <= size
  {
    if size <= 0 || size > n then n else size
  }

  function Chunks<T>(items: seq<T>, size: int): seq<seq<T>> {
    if items == [] then []
    else
      var k := ChunkLength(|items|, size);
      [items[..k]] + Chunks(items[k..], size)
  }

  function Concat<T>(parts: seq<seq<T>>): seq<T> {
    if parts == [] then [] else parts[0] + Concat(parts[1..])
  }

  lemma {:induction false} ConcatAppend<T>(a: seq<seq<T>>, b: seq<seq<T>>)
    ensures Concat(a + b) == Concat(a) + Concat(b)
  {
    if a == [] {
      assert a + b == b;
    } else {
      assert (a + b)[1..] == a[1..] + b;
      ConcatAppend(a[1..], b);
    }
  }

  /** Chunking loses nothing, adds nothing and keeps the order; only the last chunk may be short. */
  lemma {:induction false} ChunksConserve<T>(items: seq<T>, size: int)
    ensures Concat(Chunks(items, size)) == items
    ensures forall c :: c in Chunks(items, size) ==> c != [] && (size > 0 ==> |c| <= size)
    ensures forall i :: 0 <= i < |Chunks(items, size)| - 1 && size > 0 ==> |Chunks(items, size)[i]| == size
    ensures size <= 0 && items != [] ==> Chunks(items, size) == [items]
  {
    if items != [] {
      var k := ChunkLength(|items|, size);
      ChunksConserve(items[k..], size);
      assert items[..k] + items[k..] == items;
      if size <= 0 {
        assert items[..k] == items && items[k..] == [];
      }
    }
  }

  /** The chunk that starts at position `start` of a queue. */
  lemma ChunkAt<T>(items: seq<T>, start: nat, size: int)
    requires start < |items|
    ensures var end := start + ChunkLength(|items| - start, size);
            Chunks(items[start..], size) == [items[start..end]] + Chunks(items[end..], size)
  {
    var k := ChunkLength(|items| - start, size);
    assert items[start..][..k] == items[start..start + k];
    assert items[start..][k..] == items[start + k..];
  }

  /** util.Batch: the loop over start, with a size that is not positive replaced once before it. */
  method Split<T>(items: seq<T>, size: int) returns (out: seq<seq<T>>)
    ensures out == Chunks(items, size)
  {
    out := [];
    if |items| == 0 {
      return;
    }
    var step := size;
    if step <= 0 {
      step := |items|;
    }
    var start := 0;
    ghost var todo := Chunks(items, size);
    assert items[0..] == items;
    while start < |items|
      invariant start >= 0 && (size <= 0 ==> start == 0 || start >= |items|)
      invariant todo == if start < |items| then Chunks(items[start..], size) else []
      invariant out + todo == Chunks(items, size)
      decreases |items| - start
    {
      var end := start + step;
      if end > |items| {
        end := |items|;
      }
      ChunkAt(items, start, size);
      assert items[|items|..] == [];
      out := out + [items[start..end]];
      todo := todo[1..];
      start := start + step;
    }
  }
}
