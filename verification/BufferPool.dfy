/** pkg/bufferpool: a stack of byte buffers, and an index of the addresses they start at. */
module BufferPools {
  import opened Common
  import opened Outcomes
  import opened Util

  /** Get takes the buffer that an accepted Return has just put on top, and leaves the rest as it was. */
  lemma GetUndoesReturn<K>(buffers: seq<K>, capacity: nat, k: K)
    requires k !in buffers && |buffers| < capacity
    ensures var after := Returned(buffers, capacity, k);
      after[|after| - 1] == k && after[..|after| - 1] == buffers
  {
  }

  /** Returning keeps the list free of duplicates and within capacity, whoever returns what. */
  lemma {:induction false} ReturningKeepsDistinct<K>(buffers: seq<K>, capacity: nat, ks: seq<K>, n: nat)
    requires n <= |ks|
    requires |buffers| <= capacity && forall i, j :: 0 <= i < j < |buffers| ==> buffers[i] != buffers[j]
    ensures var after := ReturnedAll(buffers, capacity, ks, n);
      && buffers <= after && |after| <= capacity
      && (forall i, j :: 0 <= i < j < |after| ==> after[i] != after[j])
      && (forall k :: k in after ==> k in buffers || k in ks[..n])
      && (|after| < capacity ==> forall k :: k in ks[..n] ==> k in after)
  {
    if n > 0 {
      ReturningKeepsDistinct(buffers, capacity, ks, n - 1);
      assert ks[..n] == ks[..n - 1] + [ks[n - 1]];
    }
  }

  /** A pointer to a slice variable that is never reassigned; buffers are handed around as such pointers. */
  class SlicePointer {
    const slice: Slice

    constructor (slice: Slice)
      ensures this.slice == slice
    {
      this.slice := slice;
    }
  }

  /** Where a slice starts. */
  datatype Address = Address(store: array<byte>, offset: nat)

  ghost predicate NonEmpty(p: SlicePointer) {
    p.slice.Valid() && p.slice.lo < p.slice.hi
  }

  /** The slice is the whole of a store of the given size. */
  ghost predicate Whole(p: SlicePointer, size: nat) {
    p.slice.lo == 0 && p.slice.hi == p.slice.store.Length == size
  }

  /** The address of the first byte; taking it of an empty slice is a runtime panic. */
  function Head(p: SlicePointer): Address {
    Address(p.slice.store, p.slice.lo)
  }

  class BufferPool {
    var buffers: seq<SlicePointer>
    const capacity: nat
    var bufferHeadHash: map<Address, bool>

    ghost function Heads(): (heads: seq<Address>)
      reads this
      ensures |heads| == |buffers| && forall i :: 0 <= i < |heads| ==> heads[i] == Head(buffers[i])
    {
      seq(|buffers|, i requires 0 <= i < |buffers| reads this => Head(buffers[i]))
    }

    /** The index agrees with the list: its keys are the heads, which are distinct and within capacity. */
    ghost predicate Valid()
      reads this
    {
      && |buffers| <= capacity
      && (forall p <- buffers :: NonEmpty(p))
      && (forall i, j :: 0 <= i < j < |buffers| ==> Heads()[i] != Heads()[j])
      && (forall a <- bufferHeadHash :: a in Heads())
      && (forall a <- Heads() :: a in bufferHeadHash)
    }

    constructor (bufferLimit: nat, bufferSize: nat)
      requires bufferLimit == 0 || bufferSize > 0
      ensures Valid() && capacity == |buffers| == bufferLimit
      ensures forall p <- buffers :: fresh(p) && fresh(p.slice.store) && Whole(p, bufferSize)
    {
      capacity := bufferLimit;
      buffers, bufferHeadHash := [], map[];
      new;
      for i := 0 to bufferLimit
        invariant Valid() && |buffers| == i
        invariant forall p <- buffers :: fresh(p) && fresh(p.slice.store) && Whole(p, bufferSize)
      {
        var store := new byte[bufferSize](_ => 0);
        var buf := new SlicePointer(Slice(store, 0, bufferSize));
        Push(buf);
      }
    }

    /** Lists a buffer and indexes its head. */
    method Push(buf: SlicePointer)
      requires Valid() && NonEmpty(buf) && Head(buf) !in Heads() && |buffers| < capacity
      modifies this
      ensures Valid() && buffers == old(buffers) + [buf] && Heads() == old(Heads()) + [Head(buf)]
    {
      ghost var heads := Heads();
      buffers := buffers + [buf];
      bufferHeadHash := bufferHeadHash[Head(buf) := true];
      assert Heads() == heads + [Head(buf)];
    }

    /** Takes the buffer returned last, or gives nil. */
    method Get() returns (buf: SlicePointer?)
      requires Valid()
      modifies this
      ensures Valid()
      ensures old(buffers) == [] ==> buf == null && buffers == []
      ensures old(buffers) != [] ==> buf == old(buffers[|buffers| - 1]) && buffers == old(buffers[..|buffers| - 1])
      ensures buf != null ==> NonEmpty(buf) && Head(buf) !in Heads()
    {
      buf := null;
      if |buffers| > 0 {
        ghost var heads := Heads();
        buf := buffers[|buffers| - 1];
        buffers := buffers[..|buffers| - 1];
        var head := Head(buf);
        bufferHeadHash := map a | a in bufferHeadHash && a != head :: bufferHeadHash[a];
        assert Heads() == heads[..|heads| - 1];
        assert heads == Heads() + [head];
      }
    }

    /** Puts the buffer on top, unless one with its head is listed or the pool is full. */
    method Return(buf: SlicePointer)
      requires Valid() && NonEmpty(buf)
      modifies this
      ensures Valid()
      ensures Heads() == Returned(old(Heads()), capacity, Head(buf))
      ensures buffers
           == if Head(buf) in old(Heads()) || |old(buffers)| >= capacity then old(buffers) else old(buffers) + [buf]
    {
      if Head(buf) in bufferHeadHash {
        return;
      }
      if |buffers| < capacity {
        Push(buf);
      }
    }

    method CurrentBuffersLen() returns (n: nat)
      ensures n == |buffers|
    {
      n := |buffers|;
    }
  }
}
