/**
 ReaderWriterQueue used by one thread at a time: heap blocks in a circular list, refining the
 sequence of queued elements.
 */
module SpscQueue {
  import opened Wrappers
  import opened Blocks
  import opened Capacity
  import R = RingOps
  import B = BitTricks

  /** readerwriterqueue.h:695-741. */
  class Node<T> {
    const size: nat
    var data: seq<T>
    var front: nat
    var localTail: nat
    var tail: nat
    var localFront: nat
    var next: Node?<T>

    constructor (data: seq<T>)
      ensures size == Span(|data|) && this.data == data
      ensures front == localTail == tail == localFront == 0 && next == null
    {
      size, this.data := Span(|data|), data;
      front, localTail, tail, localFront := 0, 0, 0, 0;
      next := null;
    }

    /** The block's fields are those of b, and its slots hold what b's do. */
    ghost predicate Shows(b: Block<T>)
      reads this
    {
      && size == b.size && front == b.front && localTail == b.localTail && tail == b.tail
      && localFront == b.localFront && data == b.data
    }
  }

  /** Construct e in the slot at tail of b, then move tail on. */
  method Store<T>(n: Node<T>, e: T, ghost b: Block<T>)
    requires n.Shows(b) && b.Typed()
    modifies n`data, n`tail
    ensures n.Shows(R.Pushed(b, e))
  {
    n.data := n.data[n.tail := e];
    n.tail := Next(n.tail, n.size);
  }

  lemma Ledger<T>(constructed: seq<T>, destroyed: seq<T>, q: seq<T>, q': seq<T>, e: T)
    requires constructed == destroyed + q && q' == q + [e]
    ensures constructed + [e] == destroyed + q'
  {
  }

  class Queue<T> {
    const maxBlockSize: nat
    var frontBlock: Node<T>
    var tailBlock: Node<T>
    var largestBlockSize: nat

    ghost var ring: seq<Node<T>>   // in order of next, from the front block
    ghost var bs: seq<Block<T>>    // what those nodes hold
    ghost var tp: nat              // where the tail block is
    ghost var constructed: seq<T>  // elements ever constructed in a slot, oldest first
    ghost var destroyed: seq<T>    // elements whose destructor has run, oldest first
    ghost const requested: nat     // the constructor's size

    /** Distinct nodes, in `next` order round a circle, and what they hold. */
    static ghost predicate Circle(nodes: seq<Node<T>>, bs: seq<Block<T>>)
      reads nodes
    {
      && |bs| == |nodes|
      && (forall i, j :: 0 <= i < j < |nodes| ==> nodes[i] != nodes[j])
      && (forall i {:trigger nodes[i].next} :: 0 <= i < |nodes| ==> nodes[i].next == nodes[Next(i, |nodes|)])
      && (forall i :: 0 <= i < |nodes| ==> nodes[i].Shows(bs[i]))
    }

    ghost predicate Linked()
      reads this, ring
    {
      Circle(ring, bs) && tp < |ring| && frontBlock == ring[0] && tailBlock == ring[tp]
    }

    ghost predicate Valid()
      reads this, ring
    {
      && Linked()
      && R.Sound(bs, tp, requested, largestBlockSize) && maxBlockSize >= 2
      && constructed == destroyed + Contents()
    }

    /** The queue, oldest element first. */
    ghost function Contents(): seq<T>
      reads this
      requires R.RingOk(bs, tp)
    {
      R.Contents(bs, tp)
    }

    /** readerwriterqueue.h:105-161.  `memory` is what fresh memory happens to hold. */
    constructor (size: nat, maxBlockSize: nat, memory: nat -> T)
      requires size < B.WORD && MaxOk(maxBlockSize)
      ensures Linked() && fresh(ring) && requested == size && constructed == destroyed == []
      ensures |ring| == BlockCount(size, maxBlockSize)
      ensures forall i :: 0 <= i < |ring| ==>
        ring[i].size == Span(|ring[i].data|) && |ring[i].data| == BlockSize(size, maxBlockSize)
      ensures Valid() <==> Usable(size)
      ensures Usable(size) ==> Contents() == []
    {
      BlockCountOk(size, maxBlockSize);
      var largest := BlockSize(size, maxBlockSize);
      var first, nodes, views := MakeRing(BlockCount(size, maxBlockSize), largest, memory);
      this.maxBlockSize := maxBlockSize;
      frontBlock, tailBlock, largestBlockSize := first, first, largest;
      ring, bs, tp, requested, destroyed, constructed := nodes, views, 0, size, [], [];
      if Usable(size) {
        FreshSound(views, size, maxBlockSize);
      }
    }

    /** n empty blocks in a circle. */
    static method MakeRing(n: nat, largest: nat, memory: nat -> T)
      returns (first: Node<T>, ghost nodes: seq<Node<T>>, ghost views: seq<Block<T>>)
      requires n >= 1
      ensures |nodes| == |views| == n && nodes[0] == first && fresh(nodes)
      ensures forall j :: 0 <= j < n ==> nodes[j].Shows(views[j])
      ensures forall j :: 0 <= j < n ==> |views[j].data| == largest && views[j] == Fresh(views[j].data)
      ensures forall j, k :: 0 <= j < k < n ==> nodes[j] != nodes[k]
      ensures forall j {:trigger nodes[j].next} :: 0 <= j < n ==> nodes[j].next == nodes[Next(j, n)]
    {
      first := new Node<T>(seq(largest, memory));
      first.next := first;
      var last := first;
      nodes, views := [first], [Fresh(first.data)];
      for i := 1 to n
        invariant |nodes| == |views| == i && nodes[0] == first && nodes[i - 1] == last && fresh(nodes)
        invariant forall j :: 0 <= j < i ==> nodes[j].Shows(views[j])
        invariant forall j :: 0 <= j < i ==> |views[j].data| == largest && views[j] == Fresh(views[j].data)
        invariant forall j, k :: 0 <= j < k < i ==> nodes[j] != nodes[k]
        invariant forall j {:trigger nodes[j].next} :: 0 <= j < i ==> nodes[j].next == nodes[Next(j, i)]
      {
        var block := new Node<T>(seq(largest, memory));
        last.next := block;
        last := block;
        block.next := first;
        nodes, views := nodes + [block], views + [Fresh(block.data)];
      }
    }

    static ghost function Fresh(data: seq<T>): Block<T> {
      Block(Span(|data|), 0, 0, 0, 0, data, seq(|data|, _ => false))
    }

    static lemma FreshSound(bs: seq<Block<T>>, size: nat, max: nat)
      requires Usable(size) && max >= 2 && |bs| == BlockCount(size, max)
      requires forall i :: 0 <= i < |bs| ==> |bs[i].data| == BlockSize(size, max) && bs[i] == Fresh(bs[i].data)
      ensures R.Sound(bs, 0, size, BlockSize(size, max)) && R.Contents(bs, 0) == []
    {
      BlockSizeOk(size, max);
      assert forall i :: 0 <= i < |bs| ==> bs[i].Ok() && bs[i].Len() == 0;
      R.Empty(bs, 0);
      SameHold(R.Capacities(bs), BlockSize(size, max) - 1, size);
    }

    /** readerwriterqueue.h:384-421. */
    method Peek() returns (r: Option<T>)
      requires Valid()
      modifies this`bs, frontBlock`localTail
      ensures Valid() && Contents() == old(Contents())
      ensures r == if Contents() == [] then None else Some(Contents()[0])
    {
      var fb := frontBlock;
      var some := FrontHasSome();
      if some {
        R.HeadFirst(bs, tp);
        return Some(fb.data[fb.front]);
      }
      if fb != tailBlock {
        var nb := fb.next;
        assert nb == ring[Next(0, |ring|)];
        R.HeadSecond(bs, tp);
        return Some(nb.data[nb.front]);
      }
      R.Empty(bs, tp);
      return None;
    }

    /** By the consumer's shadow of tail, or else by tail itself, the front block is not empty. */
    method FrontHasSome() returns (some: bool)
      requires Valid()
      modifies this`bs, frontBlock`localTail
      ensures Valid() && Contents() == old(Contents())
      ensures some == (frontBlock.front != frontBlock.localTail) == (bs[0].Len() > 0)
    {
      var fb := frontBlock;
      if fb.front == fb.localTail {
        LoadTail(0, fb);
      }
      return fb.front != fb.localTail;
    }

    /** The consumer refreshes its shadow of a block's tail. */
    method LoadTail(ghost i: nat, b: Node<T>)
      requires Valid() && i < |ring| && b == ring[i]
      modifies b`localTail, this`bs
      ensures Valid() && Contents() == old(Contents()) && b.localTail == b.tail
      ensures bs == old(bs)[i := old(bs)[i].(localTail := b.tail)]
    {
      ghost var before := bs;
      CopyTail(i, b);
      R.RefreshTail(before, bs, tp, i, requested, largestBlockSize);
    }

    method CopyTail(ghost i: nat, b: Node<T>)
      requires Linked() && i < |ring| && b == ring[i]
      modifies b`localTail, this`bs
      ensures Linked() && b.localTail == b.tail
      ensures bs == old(bs)[i := old(bs)[i].(localTail := old(bs)[i].tail)] && old(bs)[i].tail == b.tail
    {
      b.localTail := b.tail;
      bs := bs[i := bs[i].(localTail := bs[i].tail)];
    }

    /** The producer refreshes its shadow of a block's front. */
    method LoadFront(ghost i: nat, b: Node<T>)
      requires Valid() && i < |ring| && b == ring[i]
      modifies b`localFront, this`bs
      ensures Valid() && Contents() == old(Contents()) && b.localFront == b.front
      ensures bs == old(bs)[i := old(bs)[i].(localFront := b.front)]
    {
      ghost var before := bs;
      CopyFront(i, b);
      R.RefreshFront(before, bs, tp, i, requested, largestBlockSize);
    }

    method CopyFront(ghost i: nat, b: Node<T>)
      requires Linked() && i < |ring| && b == ring[i]
      modifies b`localFront, this`bs
      ensures Linked() && b.localFront == b.front
      ensures bs == old(bs)[i := old(bs)[i].(localFront := old(bs)[i].front)] && old(bs)[i].front == b.front
    {
      b.localFront := b.front;
      bs := bs[i := bs[i].(localFront := bs[i].front)];
    }

    /** readerwriterqueue.h:285-376.  The second look at the front block's tail only matters to a
        producer at work meanwhile: SpscProtocol has it. */
    method TryDequeue() returns (r: Option<T>)
      requires Valid()
      modifies this`frontBlock, this`ring, this`bs, this`tp, this`destroyed, ring
      ensures Valid() && constructed == old(constructed)
      ensures ring == old(ring) || ring == old(ring[1..] + [ring[0]])
      ensures old(Contents()) == [] ==> r == None && Contents() == [] && destroyed == old(destroyed)
      ensures old(Contents()) != [] ==>
        && r == Some(old(Contents())[0]) && Contents() == old(Contents())[1..]
        && destroyed == old(destroyed) + [old(Contents())[0]]
    {
      var fb := frontBlock;
      var some := FrontHasSome();
      if some {
        var v := Take(fb);
        return Some(v);
      }
      if fb != tailBlock {
        Advance();
        var v := Take(frontBlock);
        return Some(v);
      }
      R.Empty(bs, tp);
      return None;
    }

    /** The consumer moves on to the block after the drained front block. */
    method Advance()
      requires Valid() && frontBlock != tailBlock && bs[0].Len() == 0
      modifies this`frontBlock, this`ring, this`bs, this`tp, frontBlock.next`localTail
      ensures Valid() && Contents() == old(Contents()) && ring == old(ring[1..] + [ring[0]])
      ensures frontBlock.front != frontBlock.localTail
    {
      var nb := frontBlock.next;
      assert nb == ring[Next(0, |ring|)];
      LoadTail(1, nb);
      StoreFrontBlock(nb);
    }

    /** Move the head out of the front block, destroy it there, and move front on. */
    method Take(fb: Node<T>) returns (v: T)
      requires Valid() && fb == frontBlock && fb.front != fb.localTail
      modifies fb`front, this`bs, this`destroyed
      ensures Valid()
      ensures old(Contents()) == [v] + Contents() && destroyed == old(destroyed) + [v]
    {
      v := fb.data[fb.front];
      destroyed := destroyed + [v];
      fb.front := Next(fb.front, fb.size);
      ghost var before := bs;
      bs := bs[0 := R.Popped(bs[0])];
      R.PopSound(before, bs, tp, requested, largestBlockSize);
      assert old(destroyed) + ([v] + Contents()) == destroyed + Contents();
    }

    /** The front block is drained: the next one becomes the front block. */
    method StoreFrontBlock(nb: Node<T>)
      requires Valid() && tp > 0 && bs[0].Len() == 0 && nb == ring[1]
      modifies this`frontBlock, this`ring, this`bs, this`tp
      ensures Valid() && Contents() == old(Contents()) && frontBlock == nb && ring == old(ring[1..] + [ring[0]])
      ensures bs[0] == old(bs)[1] && bs[0].Len() > 0
    {
      ghost var bs' := bs[1..] + [bs[0]];
      RotateCircle(ring, bs);
      R.RotateSound(bs, bs', tp, requested, largestBlockSize);
      SetFront(nb, bs');
    }

    method SetFront(nb: Node<T>, ghost bs': seq<Block<T>>)
      requires 0 < tp < |ring| && nb == ring[1] && tailBlock == ring[tp] && maxBlockSize >= 2
      requires Circle(ring[1..] + [ring[0]], bs') && R.Sound(bs', tp - 1, requested, largestBlockSize)
      requires constructed == destroyed + R.Contents(bs', tp - 1)
      modifies this`frontBlock, this`ring, this`bs, this`tp
      ensures Valid() && bs == bs' && tp == old(tp) - 1
      ensures frontBlock == nb && ring == old(ring[1..] + [ring[0]])
    {
      frontBlock, bs, tp := nb, bs', tp - 1;
      ring := ring[1..] + [ring[0]];
    }

    static lemma RotateCircle(nodes: seq<Node<T>>, bs: seq<Block<T>>)
      requires |nodes| > 0 && Circle(nodes, bs)
      ensures Circle(nodes[1..] + [nodes[0]], bs[1..] + [bs[0]])
    {
      var n, nodes', bs' := |nodes|, nodes[1..] + [nodes[0]], bs[1..] + [bs[0]];
      forall i | 0 <= i < n ensures nodes'[i].next == nodes'[Next(i, n)] {
        assert nodes[Next(i, n)].next == nodes[Next(Next(i, n), n)];
      }
      forall i | 0 <= i < n ensures nodes'[i].Shows(bs'[i]) {
        assert nodes[Next(i, n)].Shows(bs[Next(i, n)]);
      }
    }

    /** readerwriterqueue.h:426-490: the element is destroyed where it is. */
    method Pop() returns (ok: bool)
      requires Valid()
      modifies this`frontBlock, this`ring, this`bs, this`tp, this`destroyed, ring
      ensures Valid() && constructed == old(constructed) && ok == (old(Contents()) != [])
      ensures ring == old(ring) || ring == old(ring[1..] + [ring[0]])
      ensures Contents() == if ok then old(Contents())[1..] else []
      ensures destroyed == old(destroyed) + if ok then [old(Contents())[0]] else []
    {
      var r := TryDequeue();
      return r.Some?;
    }

    /** readerwriterqueue.h:493-506. */
    method SizeApprox() returns (result: nat)
      requires Valid()
      ensures result == |Contents()|
    {
      var block := frontBlock;
      result := Dist(block.front, block.tail, block.size);
      ghost var i := 1;
      assert result == |RingItems(bs, 1)| by {
        RingItemsOne(bs);
      }
      block := block.next;
      assert block == ring[Next(0, |ring|)];
      while block != frontBlock
        invariant 1 <= i <= |ring| && block == ring[if i == |ring| then 0 else i]
        invariant result == |RingItems(bs, i)|
        decreases |ring| - i
      {
        result := result + Dist(block.front, block.tail, block.size);
        block := block.next;
        assert block == ring[Next(i, |ring|)];
        i := i + 1;
      }
      R.AllItems(bs, tp, |ring|);
    }

    /** readerwriterqueue.h:517-527. */
    method MaxCapacity() returns (result: nat)
      requires Valid()
      ensures result == Sum(R.Capacities(bs)) && |Contents()| <= result
    {
      ghost var caps := R.Capacities(bs);
      var block := frontBlock;
      result := block.size - 1;
      ghost var i := 1;
      assert caps[..1] == [caps[0]];
      block := block.next;
      assert block == ring[Next(0, |ring|)];
      while block != frontBlock
        invariant 1 <= i <= |ring| && block == ring[if i == |ring| then 0 else i]
        invariant result == Sum(caps[..i])
        decreases |ring| - i
      {
        result := result + (block.size - 1);
        SumSnoc(caps, i);
        block := block.next;
        assert block == ring[Next(i, |ring|)];
        i := i + 1;
      }
      assert caps[..i] == caps;
      R.AllItems(bs, tp, |ring|);
      R.Within(bs, caps, |ring|);
    }

    /** readerwriterqueue.h:204-228: destroy what is left. */
    method Destroy()
      requires Valid()
      modifies this`destroyed
      ensures destroyed == old(destroyed) + Contents() == constructed
    {
      DestroyRing();
      R.AllItems(bs, tp, |ring|);
    }

    /** Block by block, from the front block round to it again. */
    method DestroyRing()
      requires Linked() && forall i :: 0 <= i < |bs| ==> bs[i].Typed()
      modifies this`destroyed
      ensures destroyed == old(destroyed) + RingItems(bs, |ring|)
    {
      ghost var i := 0;
      var block := frontBlock;
      var nextBlock := block.next;
      DestroyBlock(block, bs[0]);
      RingItemsOne(bs);
      i := 1;
      block := nextBlock;
      assert block == ring[Next(0, |ring|)];
      while block != frontBlock
        invariant 1 <= i <= |ring| && block == ring[if i == |ring| then 0 else i]
        invariant destroyed == old(destroyed) + RingItems(bs, i)
        decreases |ring| - i
      {
        nextBlock := block.next;
        DestroyBlock(block, bs[i]);
        ConcatAssoc(old(destroyed), RingItems(bs, i), bs[i].Items());
        block := nextBlock;
        assert block == ring[Next(i, |ring|)];
        i := i + 1;
      }
    }

    /** From front to tail, each element's destructor. */
    method DestroyBlock(block: Node<T>, ghost b: Block<T>)
      requires block.Shows(b) && b.Typed()
      modifies this`destroyed
      ensures destroyed == old(destroyed) + b.Items()
    {
      var i := block.front;
      ghost var k := 0;
      while i != block.tail
        invariant k <= b.Len() && i == At(b.front, k, b.size)
        invariant destroyed == old(destroyed) + b.Items()[..k]
        decreases b.Len() - k
      {
        destroyed := destroyed + [block.data[i]];
        ItemsSnoc(b, k);
        ConcatAssoc(old(destroyed), b.Items()[..k], [block.data[i]]);
        i := Next(i, block.size);
        k := k + 1;
      }
      assert b.Items()[..k] == b.Items();
    }

    static lemma ItemsSnoc(b: Block<T>, k: nat)
      requires b.Typed() && k < b.Len()
      ensures b.Items()[..k] + [b.data[At(b.front, k, b.size)]] == b.Items()[..k + 1]
    {
    }

    static lemma RingItemsOne(bs: seq<Block<T>>)
      requires |bs| >= 1 && bs[0].Typed()
      ensures RingItems(bs, 1) == bs[0].Items()
    {
      assert RingItems(bs, 1) == RingItems(bs, 0) + bs[0].Items();
    }

    /** The tail block is full, going by front itself, and the front block comes right after it. */
    ghost predicate AtCapacity()
      reads this, tailBlock
    {
      Next(tailBlock.tail, tailBlock.size) == tailBlock.front && tailBlock.next == frontBlock
    }

    /** readerwriterqueue.h:535-644.  `memory` is None if malloc would fail. */
    method InnerEnqueue(e: T, canAlloc: bool, memory: Option<nat -> T>) returns (ok: bool)
      requires Valid()
      modifies this, ring
      ensures Valid() && destroyed == old(destroyed)
      ensures ok <==> !old(AtCapacity()) || (canAlloc && memory.Some?)
      ensures if old(AtCapacity()) && ok then
          && fresh(tailBlock) && ring == old(ring[..tp + 1]) + [tailBlock] + old(ring[tp + 1..])
          && largestBlockSize == tailBlock.size == |tailBlock.data|
          && largestBlockSize == old(largestBlockSize) * if old(largestBlockSize) < maxBlockSize then 2 else 1
        else ring == old(ring) && largestBlockSize == old(largestBlockSize)
      ensures ok ==> Contents() == old(Contents()) + [e] && constructed == old(constructed) + [e]
      ensures !ok ==> Contents() == old(Contents()) && constructed == old(constructed)
      ensures !ok ==> |Contents()| >= requested
    {
      var room := HasRoom();
      if room {
        PushTail(e);
        return true;
      }
      ok := EnqueuePast(e, canAlloc, memory);
    }

    /** By the producer's shadow of front, or else by front itself, the tail block is not full. */
    method HasRoom() returns (room: bool)
      requires Valid()
      modifies this`bs, tailBlock`localFront
      ensures Valid() && Contents() == old(Contents())
      ensures if room then bs[tp].Room() && Next(tailBlock.tail, tailBlock.size) != tailBlock.front
        else bs[tp].Len() == bs[tp].size - 1
    {
      var tb := tailBlock;
      var next := Next(tb.tail, tb.size);
      if next == tb.localFront {
        LoadFront(tp, tb);
      }
      return next != tb.localFront;
    }

    /** The tail block is full. */
    method EnqueuePast(e: T, canAlloc: bool, memory: Option<nat -> T>) returns (ok: bool)
      requires Valid() && bs[tp].Len() == bs[tp].size - 1
      modifies this, ring
      ensures Valid() && destroyed == old(destroyed)
      ensures ok <==> !old(AtCapacity()) || (canAlloc && memory.Some?)
      ensures if old(AtCapacity()) && ok then
          && fresh(tailBlock) && ring == old(ring[..tp + 1]) + [tailBlock] + old(ring[tp + 1..])
          && largestBlockSize == tailBlock.size == |tailBlock.data|
          && largestBlockSize == old(largestBlockSize) * if old(largestBlockSize) < maxBlockSize then 2 else 1
        else ring == old(ring) && largestBlockSize == old(largestBlockSize)
      ensures ok ==> Contents() == old(Contents()) + [e] && constructed == old(constructed) + [e]
      ensures !ok ==> Contents() == old(Contents()) && constructed == old(constructed)
      ensures !ok ==> |Contents()| >= requested
    {
      TailFull();
      if tailBlock.next != frontBlock {
        PushNext(e);
        return true;
      }
      R.FullRing(bs, tp, requested, largestBlockSize);
      if !canAlloc || memory == None {
        return false;
      }
      PushNew(e, memory.value);
      return true;
    }

    lemma TailFull()
      requires Valid() && bs[tp].Len() == bs[tp].size - 1
      ensures Next(tailBlock.tail, tailBlock.size) == tailBlock.front
      ensures tailBlock.next == frontBlock <==> tp + 1 == |ring|
    {
      assert tailBlock.next == ring[Next(tp, |ring|)];
    }

    method PushTail(e: T)
      requires Valid() && bs[tp].Room()
      modifies tailBlock`data, tailBlock`tail, this`bs, this`constructed
      ensures Valid() && Contents() == old(Contents()) + [e] && constructed == old(constructed) + [e]
    {
      ghost var bs' := bs[tp := R.Pushed(bs[tp], e)];
      Store(tailBlock, e, bs[tp]);
      R.PushSound(bs, bs', tp, e, requested, largestBlockSize);
      Ledger(constructed, destroyed, R.Contents(bs, tp), R.Contents(bs', tp), e);
      bs := bs';
      constructed := constructed + [e];
    }

    /** The tail block is full and the block after it is not the front block: use that. */
    method PushNext(e: T)
      requires Valid() && tp + 1 < |ring| && bs[tp].Len() == bs[tp].size - 1
      modifies this`tailBlock, this`largestBlockSize, this`tp, this`bs, this`constructed, ring[tp + 1]
      ensures Valid() && Contents() == old(Contents()) + [e] && constructed == old(constructed) + [e]
      ensures largestBlockSize == old(largestBlockSize)
    {
      var nb := tailBlock.next;
      assert nb == ring[Next(tp, |ring|)];
      LoadFront(tp + 1, nb);
      StoreNext(e, nb);
    }

    method StoreNext(e: T, nb: Node<T>)
      requires Valid() && tp + 1 < |ring| && bs[tp].Len() == bs[tp].size - 1
      requires nb == ring[tp + 1] && nb.localFront == nb.front
      modifies this`tailBlock, this`largestBlockSize, this`tp, this`bs, this`constructed, nb`data, nb`tail
      ensures Valid() && Contents() == old(Contents()) + [e] && constructed == old(constructed) + [e]
      ensures largestBlockSize == old(largestBlockSize)
    {
      ghost var q, bs' := Contents(), bs[tp + 1 := R.Pushed(bs[tp + 1], e)];
      R.PushNextSound(bs, bs', tp, e, requested, largestBlockSize);
      Ledger(constructed, destroyed, q, q + [e], e);
      StoreAhead(e, nb);
      Publish(nb, bs', largestBlockSize, e);
    }

    method StoreAhead(e: T, nb: Node<T>)
      requires Circle(ring, bs) && tp + 1 < |ring| && nb == ring[tp + 1] && bs[tp + 1].Typed()
      modifies nb`data, nb`tail
      ensures Circle(ring, bs[tp + 1 := R.Pushed(bs[tp + 1], e)])
    {
      Store(nb, e, bs[tp + 1]);
    }

    /** tailBlock moves on to the block after it, where e is, and the ring is as bs' says. */
    method Publish(nb: Node<T>, ghost bs': seq<Block<T>>, size: nat, e: T)
      requires Circle(ring, bs') && tp + 1 < |ring| && ring[tp + 1] == nb
      requires frontBlock == ring[0] && maxBlockSize >= 2
      requires R.Sound(bs', tp + 1, requested, size)
      requires constructed + [e] == destroyed + R.Contents(bs', tp + 1)
      modifies this`tailBlock, this`largestBlockSize, this`tp, this`bs, this`constructed
      ensures Valid() && constructed == old(constructed) + [e]
      ensures bs == bs' && tp == old(tp) + 1 && tailBlock == nb && largestBlockSize == size
      ensures Contents() == R.Contents(bs', old(tp) + 1)
    {
      bs, tp, tailBlock, largestBlockSize := bs', tp + 1, nb, size;
      constructed := constructed + [e];
    }

    /** The tail block is full and the front block comes right after it: link a new block. */
    method PushNew(e: T, memory: nat -> T)
      requires Valid() && bs[tp].Len() == bs[tp].size - 1
      modifies this`tailBlock, this`largestBlockSize, this`ring, this`tp, this`bs, this`constructed, tailBlock`next
      ensures Valid() && Contents() == old(Contents()) + [e] && constructed == old(constructed) + [e]
      ensures fresh(tailBlock) && ring == old(ring[..tp + 1]) + [tailBlock] + old(ring[tp + 1..])
      ensures largestBlockSize == tailBlock.size == |tailBlock.data|
      ensures largestBlockSize == old(largestBlockSize) * if old(largestBlockSize) < maxBlockSize then 2 else 1
    {
      var size := if largestBlockSize >= maxBlockSize then largestBlockSize else largestBlockSize * 2;
      var nb, bs' := Grow(size, e, memory);
      Publish(nb, bs', size, e);
    }

    method Grow(size: nat, e: T, memory: nat -> T) returns (nb: Node<T>, ghost bs': seq<Block<T>>)
      requires Valid() && bs[tp].Len() == bs[tp].size - 1 && size >= largestBlockSize
      modifies this`ring, tailBlock`next
      ensures fresh(nb) && ring == old(ring[..tp + 1]) + [nb] + old(ring[tp + 1..])
      ensures nb.size == |nb.data| == size
      ensures Circle(ring, bs') && R.Sound(bs', tp + 1, requested, size)
      ensures R.Contents(bs', tp + 1) == old(Contents()) + [e]
      ensures constructed + [e] == destroyed + R.Contents(bs', tp + 1)
    {
      GrowLedger(e);
      assert bs[tp].Ok() && bs[tp].size <= largestBlockSize;
      ghost var b := bs[tp];
      nb, b, bs' := LinkNew(size, e, memory);
      R.PushNewSound(bs, bs', tp, b, e, requested, largestBlockSize);
    }

    lemma GrowLedger(e: T)
      requires Valid()
      ensures constructed + [e] == destroyed + (Contents() + [e])
    {
      Ledger(constructed, destroyed, Contents(), Contents() + [e], e);
    }

    method LinkNew(size: nat, e: T, memory: nat -> T)
      returns (nb: Node<T>, ghost b: Block<T>, ghost bs': seq<Block<T>>)
      requires Linked() && size >= 2
      modifies this`ring, tailBlock`next
      ensures fresh(nb) && nb.size == |nb.data| == size && b.Ok() && b.size == size && b.Items() == [e]
      ensures ring == old(ring[..tp + 1]) + [nb] + old(ring[tp + 1..])
      ensures bs' == bs[..tp + 1] + [b] + bs[tp + 1..] && Circle(ring, bs')
    {
      nb, b := NewTail(size, e, memory);
      bs' := bs[..tp + 1] + [b] + bs[tp + 1..];
      nb.next := tailBlock.next;
      Splice(nb, b);
    }

    /** A block that holds just e. */
    static method NewTail(size: nat, e: T, memory: nat -> T) returns (nb: Node<T>, ghost b: Block<T>)
      requires size >= 2
      ensures fresh(nb) && nb.size == |nb.data| == size
      ensures nb.Shows(b) && b.Ok() && b.size == size && b.Items() == [e]
    {
      nb := new Node<T>(seq(size, memory));
      nb.data := nb.data[0 := e];
      nb.tail, nb.localTail := 1, 1;
      b := Block(size, 0, 1, 1, 0, nb.data, seq(size, _ => false));
    }

    method Splice(nb: Node<T>, ghost b: Block<T>)
      requires Linked() && nb !in ring && nb.next == tailBlock.next && nb.Shows(b)
      modifies tailBlock`next, this`ring
      ensures ring == old(ring[..tp + 1]) + [nb] + old(ring[tp + 1..])
      ensures Circle(ring, bs[..tp + 1] + [b] + bs[tp + 1..])
    {
      ghost var nodes := ring;
      assert nodes[tp].next == nodes[Next(tp, |nodes|)];
      tailBlock.next := nb;
      ring := ring[..tp + 1] + [nb] + ring[tp + 1..];
      InsertLinks(nodes, tp, nb);
    }

    static lemma InsertLinks(nodes: seq<Node<T>>, tp: nat, nb: Node<T>)
      requires tp < |nodes| && nb !in nodes
      requires forall i, j :: 0 <= i < j < |nodes| ==> nodes[i] != nodes[j]
      requires forall i {:trigger nodes[i].next} :: 0 <= i < |nodes| && i != tp ==>
        nodes[i].next == nodes[Next(i, |nodes|)]
      requires nodes[tp].next == nb && nb.next == nodes[Next(tp, |nodes|)]
      ensures var nodes' := nodes[..tp + 1] + [nb] + nodes[tp + 1..];
        && (forall i, j :: 0 <= i < j < |nodes'| ==> nodes'[i] != nodes'[j])
        && (forall i {:trigger nodes'[i].next} :: 0 <= i < |nodes'| ==> nodes'[i].next == nodes'[Next(i, |nodes'|)])
    {
      var nodes' := nodes[..tp + 1] + [nb] + nodes[tp + 1..];
      forall i | 0 <= i < |nodes'| ensures nodes'[i].next == nodes'[Next(i, |nodes'|)] {
        if i < tp {
          assert nodes[i].next == nodes[Next(i, |nodes|)];
        } else if i > tp + 1 {
          assert nodes[i - 1].next == nodes[Next(i - 1, |nodes|)];
        }
      }
    }
  }
}
