/** Splitting the accepted delegations into submission batches. */
module Batches {
  import opened Lists

  const TWO_64: nat := 0x1_0000_0000_0000_0000
  const TWO_63: nat := 0x8000_0000_0000_0000

  /** Addition of Go uint64 values. */
  function AddUint64(a: nat, b: nat): nat { (a + b) % TWO_64 }

  lemma AddFits(a: nat, b: nat)
    requires a + b < TWO_64
    ensures AddUint64(a, b) == a + b
  {
  }

  /** Batches of `size`, cut off the front until at most one batch is left. */
  function Split<D>(dels: seq<D>, size: nat): seq<seq<D>>
    requires size > 0
  {
    if dels == [] then []
    else if |dels| <= size then [dels]
    else [dels[..size]] + Split(dels[size..], size)
  }

  /** The loop counter is a uint64 that is advanced without an overflow check. It never wraps, for any batch size of at
      least one, however large. */
  method DelegationsToBatches<D>(dels: seq<D>, batchSize: nat) returns (batches: seq<seq<D>>)
    requires 0 < batchSize < TWO_64 && |dels| < TWO_63
    ensures batches == Split(dels, batchSize)
  {
    batches := [];
    var i := 0;
    ghost var rest := dels;
    while i < |dels|
      invariant i == 0 || batchSize <= i
      invariant rest == if i < |dels| then dels[i..] else []
      invariant Split(dels, batchSize) == batches + Split(rest, batchSize)
      decreases |dels| - i
    {
      AddFits(i, batchSize);
      var end := AddUint64(i, batchSize);
      if end > |dels| {
        end := |dels|;
      }
      SplitFront(rest, batchSize, end - i);
      assert rest[..end - i] == dels[i..end];
      ConcatSnoc(batches, dels[i..end], Split(rest[end - i..], batchSize));
      batches := batches + [dels[i..end]];
      rest := rest[end - i..];
      i := AddUint64(i, batchSize);
    }
  }

  lemma SplitFront<D>(dels: seq<D>, size: nat, n: nat)
    requires size > 0 && dels != [] && n == if size < |dels| then size else |dels|
    ensures Split(dels, size) == [dels[..n]] + Split(dels[n..], size)
  {
    assert n == |dels| ==> dels[..n] == dels && dels[n..] == [];
  }

  lemma FirstBatchAndRest<D>(dels: seq<D>, size: nat, p: nat, q: nat, ok: D -> bool)
    returns (batch: seq<D>, rest: seq<D>, j: nat)
    requires q < size <= p < |dels| && dels[p] == dels[q] && forall i | 0 <= i < |dels| :: ok(dels[i])
    ensures Split(dels, size) == [batch] + Split(rest, size) && |batch| == size
    ensures q < |batch| && j < |rest| && batch[q] == rest[j]
    ensures forall i | 0 <= i < |batch| :: ok(batch[i])
    ensures forall i | 0 <= i < |rest| :: ok(rest[i])
  {
    SplitFront(dels, size, size);
    batch, rest, j := dels[..size], dels[size..], p - size;
  }

  lemma {:induction false} SplitFlattens<D>(dels: seq<D>, size: nat)
    requires size > 0
    ensures Flatten(Split(dels, size)) == dels
    decreases |dels|
  {
    if |dels| > size {
      SplitFlattens(dels[size..], size);
      assert Split(dels, size)[1..] == Split(dels[size..], size);
      assert dels[..size] + dels[size..] == dels;
    } else if dels != [] {
      assert Flatten([dels]) == dels + Flatten([]);
    }
  }

  lemma {:induction false} SplitSizes<D>(dels: seq<D>, size: nat, k: nat)
    requires size > 0 && k < |Split(dels, size)|
    ensures 0 < |Split(dels, size)[k]| <= size
    ensures k < |Split(dels, size)| - 1 ==> |Split(dels, size)[k]| == size
    decreases |dels|
  {
    if |dels| > size && k > 0 {
      SplitSizes(dels[size..], size, k - 1);
    }
  }

  lemma {:induction false} SplitCount<D>(dels: seq<D>, size: nat)
    requires size > 0 && dels != []
    ensures var count := |Split(dels, size)|;
            count > 0 && (count - 1) * size < |dels| <= count * size
    decreases |dels|
  {
    if |dels| > size {
      SplitCount(dels[size..], size);
      var rest := |Split(dels[size..], size)|;
      assert (rest + 1) * size == rest * size + size;
      assert rest * size == (rest - 1) * size + size;
    }
  }

  /** Nothing is lost or reordered, no batch is empty or too large, all but the last are full, and the number of
      batches is the ceiling of the quotient. */
  lemma SplitCuts<D>(dels: seq<D>, size: nat)
    requires size > 0
    ensures var batches := Split(dels, size);
            && Flatten(batches) == dels
            && (forall k | 0 <= k < |batches| :: 0 < |batches[k]| <= size)
            && (forall k | 0 <= k < |batches| - 1 :: |batches[k]| == size)
            && (dels == [] <==> batches == [])
            && (dels != [] ==> (|batches| - 1) * size < |dels| <= |batches| * size)
  {
    SplitFlattens(dels, size);
    forall k | 0 <= k < |Split(dels, size)|
      ensures 0 < |Split(dels, size)[k]| <= size
      ensures k < |Split(dels, size)| - 1 ==> |Split(dels, size)[k]| == size
    {
      SplitSizes(dels, size, k);
    }
    if dels != [] {
      SplitCount(dels, size);
    }
  }
}
