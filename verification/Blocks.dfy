/**
 One block of the queue-of-queues: a circular buffer that wastes one slot, with the two
 shadow indices each thread keeps of the other thread's index.  Also the queue that a
 ring of such blocks stands for.  Both the step system and the heap class use these.
 */
module Blocks {

  /** `size` is sizeMask + 1.  `live[i]` says that slot i holds a constructed element.  `data[i]`
      keeps what was last constructed there, so that it can be talked about after the element was
      moved out. */
  datatype Block<T> = Block(
    size: nat, front: nat, localTail: nat, tail: nat, localFront: nat,
    data: seq<T>, live: seq<bool>)
  {
    /** The number of unread elements: (tail - front) & sizeMask. */
    function Len(): nat
      requires front < size && tail < size
    {
      Dist(front, tail, size)
    }

    /** Every index addresses a slot; nothing about their order. */
    ghost predicate Typed() {
      && front < size && localTail < size && tail < size && localFront < size
      && |data| == size == |live|
    }

    /** Going round from localFront one meets front, then localTail, then tail, within one lap. */
    ghost predicate Ok() {
      && Typed()
      && size >= 2
      && Dist(front, localTail, size) <= Len()
      && Dist(localFront, front, size) + Len() < size
    }

    /** The producer, going by its shadow of front, sees a free slot. */
    ghost predicate Room()
      requires Typed()
    {
      Dist(localFront, front, size) + Len() + 1 < size
    }

    ghost predicate Occupied(i: nat)
      requires Typed() && i < size
    {
      Dist(front, i, size) < Len()
    }

    function Items(): (r: seq<T>)
      requires Typed()
      ensures |r| == Len()
    {
      seq(Len(), k requires 0 <= k < Len() => data[At(front, k, size)])
    }
  }

  /** (i + 1) & (size - 1), for a power of two size; BitTricks.NextIsMasked. */
  function Next(i: nat, size: nat): nat {
    if i + 1 == size then 0 else i + 1
  }

  /** (to - from) & (size - 1); BitTricks.DistIsMasked. */
  function Dist(from: nat, to: nat, size: nat): nat
    requires from < size && to < size
  {
    if from <= to then to - from else size - from + to
  }

  /** The slot k places after i. */
  function At(i: nat, k: nat, size: nat): nat {
    if i + k < size then i + k else i + k - size
  }


  // ---------- effect of the index stores on the contents ----------

  /** Storing tail, and perhaps with it the consumer's shadow of tail, reads in one more element. */
  lemma ItemsTail<T>(b: Block<T>, b': Block<T>)
    requires b.Ok() && b.Room()
    requires b'.localTail < b.size && Dist(b.front, b'.localTail, b.size) <= b.Len() + 1
    requires b' == b.(tail := Next(b.tail, b.size), localTail := b'.localTail)
    ensures b'.Ok() && b'.Len() == b.Len() + 1
    ensures b'.Items() == b.Items() + [b.data[b.tail]]
  {
    assert At(b.front, b.Len(), b.size) == b.tail;
  }

  lemma ItemsFront<T>(b: Block<T>, b': Block<T>)
    requires b.Ok() && b.Len() > 0
    requires b'.Typed() && b'.front == Next(b.front, b.size)
    requires b' == b.(front := b'.front, live := b'.live)
    requires Dist(b.front, b.localTail, b.size) > 0
    ensures b'.Ok() && b'.Len() == b.Len() - 1
    ensures b.Items()[0] == b.data[b.front]
    ensures b'.Items() == b.Items()[1..]
  {
    forall k | 0 <= k < b'.Len()
      ensures At(b'.front, k, b.size) == At(b.front, k + 1, b.size)
    {
    }
  }

  /** Writing the slot at tail does not touch an unread element. */
  lemma ItemsWrite<T>(b: Block<T>, e: T, live': seq<bool>)
    requires b.Ok() && b.Len() + 1 < b.size && |live'| == b.size
    ensures b.(data := b.data[b.tail := e], live := live').Ok()
    ensures b.(data := b.data[b.tail := e], live := live').Items() == b.Items()
  {
    forall k | 0 <= k < b.Len() ensures At(b.front, k, b.size) != b.tail {
    }
  }

  // ---------- the queue a ring stands for ----------

  /** The unread elements of the first n blocks, oldest first. */
  ghost function RingItems<T>(bs: seq<Block<T>>, n: nat): seq<T>
    requires n <= |bs| && forall i | 0 <= i < n :: bs[i].Typed()
  {
    if n == 0 then [] else RingItems(bs, n - 1) + bs[n - 1].Items()
  }

  lemma {:induction false} RingItemsSame<T>(a: seq<Block<T>>, b: seq<Block<T>>, n: nat)
    requires n <= |a| && n <= |b|
    requires forall i | 0 <= i < n :: a[i].Typed() && b[i].Typed() && a[i].Items() == b[i].Items()
    ensures RingItems(a, n) == RingItems(b, n)
  {
    if n > 0 {
      RingItemsSame(a, b, n - 1);
    }
  }

  /** The first block may be split off. */
  lemma {:induction false} RingItemsFirst<T>(bs: seq<Block<T>>, n: nat)
    requires 1 <= n <= |bs| && forall i | 0 <= i < n :: bs[i].Typed()
    ensures RingItems(bs, n) == bs[0].Items() + RingItems(bs[1..], n - 1)
  {
    if n > 1 {
      RingItemsFirst(bs, n - 1);
      assert bs[1..][n - 2] == bs[n - 1];
    }
  }

  lemma {:induction false} RingItemsEmpty<T>(bs: seq<Block<T>>, n: nat)
    requires n <= |bs| && forall i | 0 <= i < n :: bs[i].Typed() && bs[i].Len() == 0
    ensures RingItems(bs, n) == []
  {
    if n > 0 {
      RingItemsEmpty(bs, n - 1);
    }
  }

  /** Taking the first element of the first block takes the first element of the ring. */
  lemma {:induction false} RingItemsPop<T>(a: seq<Block<T>>, b: seq<Block<T>>, n: nat, x: T)
    requires 1 <= n <= |a| == |b|
    requires forall i :: 0 <= i < n ==> a[i].Typed() && b[i].Typed()
    requires forall i :: 1 <= i < n ==> b[i] == a[i]
    requires a[0].Items() == [x] + b[0].Items()
    ensures RingItems(a, n) == [x] + RingItems(b, n)
  {
    if n == 1 {
      assert RingItems(a, 1) == RingItems(a, 0) + a[0].Items();
      assert RingItems(b, 1) == RingItems(b, 0) + b[0].Items();
    } else {
      RingItemsPop(a, b, n - 1, x);
      ConcatAssoc([x], RingItems(b, n - 1), a[n - 1].Items());
    }
  }

  lemma ConcatAssoc<T>(a: seq<T>, b: seq<T>, c: seq<T>)
    ensures (a + b) + c == a + (b + c)
  {
  }
}
