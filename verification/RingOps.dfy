/** The queue's operations on a ring of blocks seen as values, first block first. */
module RingOps {
  import opened Blocks
  import opened Capacity

  /** Blocks between front and tail are full, the tail block has something unless it is also
      the front block, and the blocks past it are empty. */
  ghost predicate RingOk<T>(bs: seq<Block<T>>, tp: nat) {
    && tp < |bs|
    && (forall i :: 0 <= i < |bs| ==> bs[i].Ok())
    && (forall i :: 0 < i < tp ==> bs[i].Len() == bs[i].size - 1)
    && (tp > 0 ==> bs[tp].Len() > 0)
    && (forall i :: tp < i < |bs| ==> bs[i].Len() == 0)
  }

  ghost function Contents<T>(bs: seq<Block<T>>, tp: nat): seq<T>
    requires RingOk(bs, tp)
  {
    RingItems(bs, tp + 1)
  }

  /** The block after e is written at its tail. */
  ghost function Pushed<T>(b: Block<T>, e: T): Block<T>
    requires b.Typed()
  {
    b.(data := b.data[b.tail := e], tail := Next(b.tail, b.size))
  }

  lemma PushBlock<T>(b: Block<T>, e: T)
    requires b.Ok() && b.Room()
    ensures Pushed(b, e).Ok() && Pushed(b, e).Len() == b.Len() + 1 && Pushed(b, e).Items() == b.Items() + [e]
  {
    ItemsWrite(b, e, b.live);
    ItemsTail(b.(data := b.data[b.tail := e]), Pushed(b, e));
  }

  /** What is left of the front block once its head is taken. */
  ghost function Popped<T>(b: Block<T>): Block<T> {
    b.(front := Next(b.front, b.size))
  }

  /** A shadow may be refreshed at any time. */
  lemma Refresh<T>(bs: seq<Block<T>>, bs': seq<Block<T>>, tp: nat)
    requires RingOk(bs, tp) && |bs'| == |bs|
    requires forall i :: 0 <= i < |bs| ==>
      bs'[i].Ok() && bs'[i] == bs[i].(localTail := bs'[i].localTail, localFront := bs'[i].localFront)
    ensures RingOk(bs', tp) && Contents(bs', tp) == Contents(bs, tp)
  {
    assert forall i :: 0 <= i < |bs| ==> bs'[i].Items() == bs[i].Items();
    RingItemsSame(bs, bs', tp + 1);
  }

  lemma Push<T>(bs: seq<Block<T>>, bs': seq<Block<T>>, tp: nat, e: T)
    requires RingOk(bs, tp) && bs[tp].Room() && bs' == bs[tp := Pushed(bs[tp], e)]
    ensures RingOk(bs', tp) && Contents(bs', tp) == Contents(bs, tp) + [e]
  {
    PushBlock(bs[tp], e);
    RingItemsSame(bs, bs', tp);
  }

  /** The tail block is full: the empty block after it becomes the tail block. */
  lemma PushNext<T>(bs: seq<Block<T>>, bs': seq<Block<T>>, tp: nat, e: T)
    requires RingOk(bs, tp) && tp + 1 < |bs| && bs[tp].Len() == bs[tp].size - 1 && bs[tp + 1].Room()
    requires bs' == bs[tp + 1 := Pushed(bs[tp + 1], e)]
    ensures RingOk(bs', tp + 1) && Contents(bs', tp + 1) == Contents(bs, tp) + [e]
  {
    PushBlock(bs[tp + 1], e);
    RingItemsSame(bs, bs', tp + 1);
  }

  /** The tail block is full: a new block becomes the tail block. */
  lemma PushNew<T>(bs: seq<Block<T>>, bs': seq<Block<T>>, tp: nat, nb: Block<T>, e: T)
    requires RingOk(bs, tp) && bs[tp].Len() == bs[tp].size - 1
    requires nb.Ok() && nb.Items() == [e]
    requires bs' == bs[..tp + 1] + [nb] + bs[tp + 1..]
    ensures RingOk(bs', tp + 1) && Contents(bs', tp + 1) == Contents(bs, tp) + [e]
  {
    forall i | tp + 1 < i < |bs'| ensures bs'[i].Len() == 0 {
      assert bs'[i] == bs[i - 1];
    }
    RingItemsSame(bs, bs', tp + 1);
  }

  lemma Pop<T>(bs: seq<Block<T>>, bs': seq<Block<T>>, tp: nat)
    requires RingOk(bs, tp) && bs[0].front != bs[0].localTail && bs' == bs[0 := Popped(bs[0])]
    ensures RingOk(bs', tp) && Contents(bs, tp) == [bs[0].data[bs[0].front]] + Contents(bs', tp)
  {
    var b := bs[0];
    ItemsFront(b, Popped(b));
    assert b.Items() == [b.data[b.front]] + Popped(b).Items();
    RingItemsPop(bs, bs', tp + 1, b.data[b.front]);
  }

  /** The front block is drained: the next one becomes the front block. */
  lemma Rotate<T>(bs: seq<Block<T>>, bs': seq<Block<T>>, tp: nat)
    requires RingOk(bs, tp) && tp > 0 && bs[0].Len() == 0 && bs' == bs[1..] + [bs[0]]
    ensures RingOk(bs', tp - 1) && Contents(bs', tp - 1) == Contents(bs, tp) && bs[1].Len() > 0
  {
    RingItemsFirst(bs, tp + 1);
    assert bs[0].Items() == [];
    RingItemsSame(bs[1..], bs', tp);
    if tp > 1 {
      assert bs[1].Len() == bs[1].size - 1;
    }
  }

  lemma HeadFirst<T>(bs: seq<Block<T>>, tp: nat)
    requires RingOk(bs, tp) && bs[0].Len() > 0
    ensures Contents(bs, tp) != [] && Contents(bs, tp)[0] == bs[0].data[bs[0].front]
  {
    RingItemsFirst(bs, tp + 1);
    assert bs[0].Items()[0] == bs[0].data[bs[0].front];
  }

  lemma HeadSecond<T>(bs: seq<Block<T>>, tp: nat)
    requires RingOk(bs, tp) && tp > 0 && bs[0].Len() == 0
    ensures Contents(bs, tp) != [] && Contents(bs, tp)[0] == bs[1].data[bs[1].front]
  {
    var bs' := bs[1..] + [bs[0]];
    Rotate(bs, bs', tp);
    HeadFirst(bs', tp - 1);
  }

  lemma Empty<T>(bs: seq<Block<T>>, tp: nat)
    requires RingOk(bs, tp) && tp == 0 && bs[0].Len() == 0
    ensures Contents(bs, tp) == []
  {
    RingItemsEmpty(bs, 1);
  }

  /** Past the tail block there is nothing, so the whole ring holds the queue. */
  lemma {:induction false} AllItems<T>(bs: seq<Block<T>>, tp: nat, n: nat)
    requires RingOk(bs, tp) && tp < n <= |bs|
    ensures RingItems(bs, n) == Contents(bs, tp)
  {
    if n > tp + 1 {
      AllItems(bs, tp, n - 1);
      assert bs[n - 1].Items() == [];
    }
  }

  // ---------- with room for what the constructor was asked for ----------

  /** How many elements each block can hold. */
  ghost function Capacities<T>(bs: seq<Block<T>>): (r: seq<nat>)
    requires forall i :: 0 <= i < |bs| ==> bs[i].Ok()
    ensures |r| == |bs|
  {
    seq(|bs|, i requires 0 <= i < |bs| && bs[i].Ok() => bs[i].size - 1)
  }

  ghost predicate Sound<T>(bs: seq<Block<T>>, tp: nat, requested: nat, largest: nat) {
    && RingOk(bs, tp) && Holds(Capacities(bs), requested)
    && forall i :: 0 <= i < |bs| ==> bs[i].size <= largest
  }

  lemma SameSizes<T>(bs: seq<Block<T>>, bs': seq<Block<T>>, tp: nat, tp': nat, requested: nat, largest: nat)
    requires Sound(bs, tp, requested, largest) && RingOk(bs', tp') && |bs'| == |bs|
    requires forall i :: 0 <= i < |bs| ==> bs'[i].size == bs[i].size
    ensures Sound(bs', tp', requested, largest)
  {
    assert Capacities(bs') == Capacities(bs);
  }

  lemma RotateSound<T>(bs: seq<Block<T>>, bs': seq<Block<T>>, tp: nat, requested: nat, largest: nat)
    requires Sound(bs, tp, requested, largest) && tp > 0 && bs[0].Len() == 0 && bs' == bs[1..] + [bs[0]]
    ensures Sound(bs', tp - 1, requested, largest) && Contents(bs', tp - 1) == Contents(bs, tp) && bs[1].Len() > 0
  {
    Rotate(bs, bs', tp);
    RotateHolds(Capacities(bs), requested);
    assert Capacities(bs') == Capacities(bs)[1..] + [Capacities(bs)[0]];
  }

  lemma PushNewSound<T>(
    bs: seq<Block<T>>, bs': seq<Block<T>>, tp: nat, nb: Block<T>, e: T, requested: nat, largest: nat)
    requires Sound(bs, tp, requested, largest) && bs[tp].Len() == bs[tp].size - 1
    requires nb.Ok() && nb.Items() == [e] && nb.size >= largest
    requires bs' == bs[..tp + 1] + [nb] + bs[tp + 1..]
    ensures Sound(bs', tp + 1, requested, nb.size) && Contents(bs', tp + 1) == Contents(bs, tp) + [e]
  {
    PushNew(bs, bs', tp, nb, e);
    PushNewHolds(bs, bs', tp, nb, requested);
  }

  lemma PushNewHolds<T>(bs: seq<Block<T>>, bs': seq<Block<T>>, tp: nat, nb: Block<T>, requested: nat)
    requires tp < |bs| && nb.Ok() && forall i :: 0 <= i < |bs| ==> bs[i].Ok() && bs[i].size <= nb.size
    requires bs' == bs[..tp + 1] + [nb] + bs[tp + 1..] && Holds(Capacities(bs), requested)
    ensures forall i :: 0 <= i < |bs'| ==> bs'[i].Ok()
    ensures Holds(Capacities(bs'), requested)
  {
    InsertHolds(Capacities(bs), tp + 1, nb.size - 1, requested);
    assert Capacities(bs') == Capacities(bs)[..tp + 1] + [nb.size - 1] + Capacities(bs)[tp + 1..];
  }

  /** With the tail block full and the front block right after it, `requested` elements are queued. */
  lemma FullRing<T>(bs: seq<Block<T>>, tp: nat, requested: nat, largest: nat)
    requires Sound(bs, tp, requested, largest) && tp + 1 == |bs| && bs[tp].Len() == bs[tp].size - 1
    ensures |Contents(bs, tp)| >= requested
  {
    FullBlocks(bs, Capacities(bs), |bs|);
    assert Capacities(bs)[..|bs|] == Capacities(bs);
    if |bs| == 1 {
      assert Capacities(bs) == [Capacities(bs)[0]];
    }
  }

  /** The contents of n blocks of which all but perhaps the first are full. */
  lemma {:induction false} FullBlocks<T>(bs: seq<Block<T>>, caps: seq<nat>, n: nat)
    requires 1 <= n <= |bs| == |caps|
    requires forall i :: 0 <= i < n ==>
      bs[i].Typed() && caps[i] == bs[i].size - 1 && (i > 0 ==> bs[i].Len() == caps[i])
    ensures |RingItems(bs, n)| == Sum(caps[..n]) - caps[0] + bs[0].Len()
  {
    if n == 1 {
      assert RingItems(bs, 1) == RingItems(bs, 0) + bs[0].Items();
      assert caps[..1] == [caps[0]];
    } else {
      FullBlocks(bs, caps, n - 1);
      assert caps[..n] == caps[..n - 1] + [caps[n - 1]];
      SumSplit(caps[..n - 1], [caps[n - 1]]);
    }
  }

  lemma {:induction false} Within<T>(bs: seq<Block<T>>, caps: seq<nat>, n: nat)
    requires n <= |bs| == |caps| && forall i :: 0 <= i < n ==> bs[i].Typed() && caps[i] == bs[i].size - 1
    ensures |RingItems(bs, n)| <= Sum(caps[..n])
  {
    if n > 0 {
      Within(bs, caps, n - 1);
      SumSnoc(caps, n - 1);
    }
  }

  lemma RefreshTail<T>(bs: seq<Block<T>>, bs': seq<Block<T>>, tp: nat, i: nat, requested: nat, largest: nat)
    requires Sound(bs, tp, requested, largest) && i < |bs|
    requires bs' == bs[i := bs[i].(localTail := bs[i].tail)]
    ensures Sound(bs', tp, requested, largest) && Contents(bs', tp) == Contents(bs, tp)
  {
    Refresh(bs, bs', tp);
    SameSizes(bs, bs', tp, tp, requested, largest);
  }

  lemma RefreshFront<T>(bs: seq<Block<T>>, bs': seq<Block<T>>, tp: nat, i: nat, requested: nat, largest: nat)
    requires Sound(bs, tp, requested, largest) && i < |bs|
    requires bs' == bs[i := bs[i].(localFront := bs[i].front)]
    ensures Sound(bs', tp, requested, largest) && Contents(bs', tp) == Contents(bs, tp)
  {
    Refresh(bs, bs', tp);
    SameSizes(bs, bs', tp, tp, requested, largest);
  }

  lemma PushSound<T>(bs: seq<Block<T>>, bs': seq<Block<T>>, tp: nat, e: T, requested: nat, largest: nat)
    requires Sound(bs, tp, requested, largest) && bs[tp].Room() && bs' == bs[tp := Pushed(bs[tp], e)]
    ensures Sound(bs', tp, requested, largest) && Contents(bs', tp) == Contents(bs, tp) + [e]
  {
    Push(bs, bs', tp, e);
    SameSizes(bs, bs', tp, tp, requested, largest);
  }

  lemma PushNextSound<T>(bs: seq<Block<T>>, bs': seq<Block<T>>, tp: nat, e: T, requested: nat, largest: nat)
    requires Sound(bs, tp, requested, largest)
    requires tp + 1 < |bs| && bs[tp].Len() == bs[tp].size - 1 && bs[tp + 1].Room()
    requires bs' == bs[tp + 1 := Pushed(bs[tp + 1], e)]
    ensures Sound(bs', tp + 1, requested, largest) && Contents(bs', tp + 1) == Contents(bs, tp) + [e]
  {
    PushNext(bs, bs', tp, e);
    SameSizes(bs, bs', tp, tp + 1, requested, largest);
  }

  lemma PopSound<T>(bs: seq<Block<T>>, bs': seq<Block<T>>, tp: nat, requested: nat, largest: nat)
    requires Sound(bs, tp, requested, largest)
    requires bs[0].front != bs[0].localTail && bs' == bs[0 := Popped(bs[0])]
    ensures Sound(bs', tp, requested, largest)
    ensures Contents(bs, tp) == [bs[0].data[bs[0].front]] + Contents(bs', tp)
  {
    Pop(bs, bs', tp);
    SameSizes(bs, bs', tp, tp, requested, largest);
  }
}
