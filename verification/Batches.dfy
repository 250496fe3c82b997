/** Cutting a list of requests into consecutive batches. */
module Batches {

  function Flatten<T>(ss: seq<seq<T>>): seq<T> {
    if ss == [] then [] else Flatten(ss[..|ss| - 1]) + ss[|ss| - 1]
  }

  lemma FlattenAppend<T>(ss: seq<seq<T>>, s: seq<T>)
    ensures Flatten(ss + [s]) == Flatten(ss) + s
  {
    assert (ss + [s])[..|ss|] == ss;
  }

  /** The list in order, in non-empty batches of at most the given size. */
  predicate CutInto<T(==)>(batches: seq<seq<T>>, items: seq<T>, size: nat) {
    && Flatten(batches) == items
    && forall i | 0 <= i < |batches| :: 1 <= |batches[i]| <= size
  }

  lemma CutStep<T>(batches: seq<seq<T>>, items: seq<T>, size: nat, start: nat, end: nat)
    requires start < end <= |items| && end - start <= size && CutInto(batches, items[..start], size)
    ensures CutInto(batches + [items[start..end]], items[..end], size)
  {
    FlattenAppend(batches, items[start..end]);
    assert items[..end] == items[..start] + items[start..end];
  }

  /** As many batches as needed and no more: all but the last are full. */
  method ChunkRequests<T>(items: seq<T>, size: nat) returns (chunks: seq<seq<T>>)
    requires size > 0
    ensures CutInto(chunks, items, size)
    ensures forall i | 0 <= i < |chunks| - 1 :: |chunks[i]| == size
  {
    chunks := [];
    var index := 0;
    while index < |items|
      invariant CutInto(chunks, items[..if index < |items| then index else |items|], size)
      invariant forall i | 0 <= i < |chunks| - 1 :: |chunks[i]| == size
      invariant index < |items| ==> forall i | 0 <= i < |chunks| :: |chunks[i]| == size
    {
      var end := if index + size < |items| then index + size else |items|;
      CutStep(chunks, items, size, index, end);
      chunks := chunks + [items[index..end]];
      index := index + size;
    }
    assert items[..|items|] == items;
  }
}
