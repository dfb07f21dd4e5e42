/** The inductive invariant of the queue's step system, and what each step does to the contents. */
module SpscInvariant {
  import opened Blocks
  import opened SpscProtocol

  // ---------- the invariant ----------

  /** `ring` lists the linked blocks in `next` order from the front block; the tail block is at tp. */
  ghost predicate Linked<T>(s: State<T>) {
    && s.tp < |s.ring| && |s.next| == |s.blocks|
    && (forall i :: 0 <= i < |s.ring| ==> s.ring[i] < |s.blocks|)
    && (forall i, j :: 0 <= i < j < |s.ring| ==> s.ring[i] != s.ring[j])
    && s.ring[0] == s.frontBlock && s.ring[s.tp] == s.tailBlock
    && (forall i {:trigger s.next[s.ring[i]]} :: 0 <= i < |s.ring| ==> s.next[s.ring[i]] == s.ring[Next(i, |s.ring|)])
  }

  /** The producer has found the tail block full and is on its way to another block. */
  predicate Leaving<T>(p: Producer<T>) {
    match p
    case PLoadNext(_, _, _) => true
    case PLoadFrontBlock(_, _, _, _) => true
    case PReloadNext(_, _) => true
    case PLoadNextFront(_, _, _) => true
    case PLoadNextTail(_, _, _, _) => true
    case PConstructNext(_, _, _, _) => true
    case PStoreNextTail(_, _, _, _) => true
    case PAlloc(_, _) => true
    case PConstructNew(_, _, _) => true
    case PStoreNewTail(_, _, _) => true
    case PLinkNew(_, _, _) => true
    case PSplice(_, _, _) => true
    case PStoreTailBlock(_, _, _) => true
    case _ => false
  }

  /** Blocks strictly between front and tail are full, blocks past the tail are empty, except
      that the next tail block holds the one element about to be published. */
  ghost predicate Filled<T>(s: State<T>)
    requires MemoryTyped(s) && Linked(s)
  {
    && (forall b :: 0 <= b < |s.blocks| ==> s.blocks[b].Ok())
    && (forall i :: 0 < i < s.tp ==> s.blocks[s.ring[i]].Len() == s.blocks[s.ring[i]].size - 1)
    && (s.tp > 0 ==> s.blocks[s.tailBlock].Len() > 0)
    && (s.tp > 0 && Leaving(s.p) ==> s.blocks[s.tailBlock].Len() == s.blocks[s.tailBlock].size - 1)
    && (forall i :: s.tp < i < |s.ring| ==>
          s.blocks[s.ring[i]].Len() == if s.p.PStoreTailBlock? && i == s.tp + 1 then 1 else 0)
  }

  /** Slot i of block b was constructed by the producer, which has not yet stored tail. */
  predicate Pending<T>(p: Producer<T>, b: nat, i: nat) {
    match p
    case PStoreTail(_, tb, bt) => b == tb && i == bt
    case PStoreNextTail(_, _, nb, nbt) => b == nb && i == nbt
    case PStoreNewTail(_, _, nb) => b == nb && i == 0
    case _ => false
  }

  /** Slot i of block b was destroyed by the consumer, which has not yet stored front. */
  predicate Taken<T>(c: Consumer<T>, b: nat, i: nat) {
    c.CStoreFront? && c.b == b && c.bf == i
  }

  /** The slots that hold a constructed element are exactly the unread ones, up to the one slot
      each thread is working on. */
  ghost predicate LiveBlock<T>(blk: Block<T>, b: nat, p: Producer<T>, c: Consumer<T>)
    requires blk.Typed()
  {
    forall i :: 0 <= i < blk.size ==>
      blk.live[i] == ((blk.Occupied(i) && !Taken(c, b, i)) || Pending(p, b, i))
  }

  ghost predicate Live<T>(s: State<T>)
    requires MemoryTyped(s)
  {
    forall b :: 0 <= b < |s.blocks| ==> LiveBlock(s.blocks[b], b, s.p, s.c)
  }

  /** nb is the block after the tail block. */
  ghost predicate IsNext<T>(s: State<T>, nb: nat)
    requires Linked(s)
  {
    s.tp + 1 < |s.ring| && s.ring[s.tp + 1] == nb
  }

  /** nb is allocated but not yet linked. */
  ghost predicate IsPrivate<T>(s: State<T>, nb: nat) {
    nb < |s.blocks| && nb !in s.ring
  }

  ghost predicate ProducerOk<T>(s: State<T>)
    requires MemoryTyped(s) && Linked(s)
  {
    var tail := s.blocks[s.tailBlock];
    match s.p
    case PLoadTail(_, _, tb, bf) => tb == s.tailBlock && bf == tail.localFront
    case PLoadFront(_, _, tb, bt) => tb == s.tailBlock && bt == tail.tail
    case PConstruct(_, tb, bt) => tb == s.tailBlock && bt == tail.tail && tail.Room()
    case PStoreTail(e, tb, bt) =>
      tb == s.tailBlock && bt == tail.tail && tail.Room() && tail.data[bt] == e
    case PLoadNext(_, _, tb) => tb == s.tailBlock
    case PLoadFrontBlock(_, _, tb, nx) => tb == s.tailBlock && nx == s.next[tb]
    case PReloadNext(_, tb) => tb == s.tailBlock && s.tp + 1 < |s.ring|
    case PLoadNextFront(_, tb, nb) => tb == s.tailBlock && IsNext(s, nb)
    case PLoadNextTail(_, tb, nb, nbf) =>
      tb == s.tailBlock && IsNext(s, nb) && s.blocks[nb].front == nbf == s.blocks[nb].localFront
    case PConstructNext(_, tb, nb, nbt) =>
      tb == s.tailBlock && IsNext(s, nb) && s.blocks[nb].tail == nbt && s.blocks[nb].Room()
    case PStoreNextTail(e, tb, nb, nbt) =>
      && tb == s.tailBlock && IsNext(s, nb) && s.blocks[nb].tail == nbt && s.blocks[nb].Room()
      && s.blocks[nb].data[nbt] == e
    case PAlloc(_, tb) => tb == s.tailBlock
    case PConstructNew(_, tb, nb) => tb == s.tailBlock && IsPrivate(s, nb) && IsFresh(s.blocks[nb])
    case PStoreNewTail(e, tb, nb) =>
      tb == s.tailBlock && IsPrivate(s, nb) && IsFresh(s.blocks[nb]) && s.blocks[nb].data[0] == e
    case PLinkNew(e, tb, nb) =>
      tb == s.tailBlock && IsPrivate(s, nb) && s.blocks[nb].Ok() && s.blocks[nb].Items() == [e]
    case PSplice(e, tb, nb) =>
      && tb == s.tailBlock && IsPrivate(s, nb) && s.blocks[nb].Ok() && s.blocks[nb].Items() == [e]
      && s.next[nb] == s.next[tb]
    case PStoreTailBlock(e, tb, nb) =>
      tb == s.tailBlock && IsNext(s, nb) && s.blocks[nb].Items() == [e]
    case PFault => false
    case _ => true
  }

  ghost predicate IsFresh<T>(b: Block<T>) {
    b.front == b.tail == b.localTail == b.localFront == 0 && b.Ok()
  }

  ghost predicate ConsumerOk<T>(s: State<T>)
    requires MemoryTyped(s) && Linked(s)
  {
    var front := s.blocks[s.frontBlock];
    match s.c
    case CLoadFront(_, fb, lt) => fb == s.frontBlock && lt == front.localTail
    case CLoadTail(_, fb, bf) => fb == s.frontBlock && bf == front.front
    case CLoadTailBlock(_, fb) => fb == s.frontBlock
    case CReloadFrontBlock(_) => s.tp > 0
    case CReloadTail(_, fb) => fb == s.frontBlock && s.tp > 0
    case CReloadFront(_, fb, bt) => fb == s.frontBlock && s.tp > 0 && bt == front.tail == front.localTail
    case CLoadNext(_, fb) => fb == s.frontBlock && Drained(s)
    case CLoadNextFront(_, nb) => Drained(s) && nb == s.ring[1]
    case CLoadNextTail(_, nb, nbf) => Drained(s) && nb == s.ring[1] && nbf == s.blocks[nb].front
    case CStoreFrontBlock(op, nb, nbf) => !op.Peek? && Drained(s) && nb == s.ring[1] && AtHead(s.blocks[nb], nbf)
    case CTake(op, b, bf) =>
      && b < |s.blocks| && bf == s.blocks[b].front && s.blocks[b].Len() > 0
      && (if b == s.frontBlock then AtHead(front, bf) else op.Peek? && Drained(s) && b == s.ring[1])
    case CStoreFront(op, b, bf, v) => !op.Peek? && b == s.frontBlock && AtHead(front, bf) && v == front.data[bf]
    case CFault => false
    case _ => true
  }

  /** The front block is empty and there is a block ahead of it. */
  ghost predicate Drained<T>(s: State<T>)
    requires MemoryTyped(s) && Linked(s)
  {
    s.tp > 0 && s.blocks[s.frontBlock].Len() == 0
  }

  /** bf is the front of b, and by the consumer's own shadow b is not empty. */
  ghost predicate AtHead<T>(b: Block<T>, bf: nat)
    requires b.Typed()
  {
    bf == b.front && b.front != b.localTail
  }

  ghost predicate Inv<T>(s: State<T>) {
    && Typed(s) && Linked(s) && Filled(s) && Live(s) && ProducerOk(s) && ConsumerOk(s)
  }

  // ---------- the contents ----------

  ghost function View<T>(s: State<T>): (r: seq<Block<T>>)
    requires Linked(s)
    ensures |r| == |s.ring|
  {
    seq(|s.ring|, i requires 0 <= i < |s.ring| => s.blocks[s.ring[i]])
  }

  /** The queue: the unread elements from the front block up to and including the tail block. */
  ghost function Queue<T>(s: State<T>): seq<T>
    requires MemoryTyped(s) && Linked(s)
  {
    RingItems(View(s), s.tp + 1)
  }

  // ---------- what the other thread may rely on ----------

  /** What the consumer may rely on while the producer takes a step. */
  ghost predicate HeadKept<T>(b: Block<T>, b': Block<T>)
    requires b.Typed()
  {
    && b'.Typed() && b'.size == b.size && b'.front == b.front && b'.localTail == b.localTail
    && b'.Len() >= b.Len()
    && (b.Len() > 0 ==> b'.data[b.front] == b.data[b.front])
  }

  ghost predicate ProducerFrame<T>(s: State<T>, s': State<T>)
    requires MemoryTyped(s) && Linked(s) && MemoryTyped(s') && Linked(s')
  {
    && s'.c == s.c && s'.frontBlock == s.frontBlock
    && |s.blocks| <= |s'.blocks|
    && HeadKept(s.blocks[s.frontBlock], s'.blocks[s.frontBlock])
    && (s.tp > 0 ==>
          && s'.tp > 0 && s'.ring[1] == s.ring[1]
          && s'.blocks[s.frontBlock].tail == s.blocks[s.frontBlock].tail
          && HeadKept(s.blocks[s.ring[1]], s'.blocks[s.ring[1]]))
  }

  lemma ProducerFrameKeepsConsumer<T>(s: State<T>, s': State<T>)
    requires Inv(s) && MemoryTyped(s') && Linked(s') && ProducerFrame(s, s')
    ensures ConsumerTyped(s') && ConsumerOk(s')
  {
  }

  /** What the producer may rely on while the consumer takes a step. */
  ghost predicate TailKept<T>(b: Block<T>, b': Block<T>)
    requires b.Typed()
  {
    && b'.Typed() && b'.size == b.size && b'.tail == b.tail && b'.localFront == b.localFront
    && b'.data == b.data
    && Dist(b.localFront, b'.front, b.size) + b'.Len() == Dist(b.localFront, b.front, b.size) + b.Len()
  }

  ghost predicate ConsumerFrame<T>(s: State<T>, s': State<T>)
    requires MemoryTyped(s) && Linked(s) && MemoryTyped(s') && Linked(s')
  {
    && s'.p == s.p && s'.tailBlock == s.tailBlock && s'.next == s.next
    && s'.largest == s.largest && s'.maxBlock == s.maxBlock
    && |s.blocks| == |s'.blocks| && |s.ring| == |s'.ring|
    && s'.tp <= s.tp && (s.tp + 1 < |s.ring| ==> s'.ring[s'.tp + 1] == s.ring[s.tp + 1])
    && (forall b :: b in s'.ring ==> b in s.ring)
    && TailKept(s.blocks[s.tailBlock], s'.blocks[s.tailBlock])
    && (forall b :: 0 <= b < |s.blocks| && b != s.ring[0] && (s.tp > 0 ==> b != s.ring[1]) ==>
          s'.blocks[b] == s.blocks[b])
  }

  lemma ConsumerFrameKeepsProducer<T>(s: State<T>, s': State<T>)
    requires Inv(s) && MemoryTyped(s') && Linked(s') && ConsumerFrame(s, s')
    ensures ProducerTyped(s') && ProducerOk(s')
  {
    if s.tp + 1 < |s.ring| {
      assert s'.blocks[s.ring[s.tp + 1]] == s.blocks[s.ring[s.tp + 1]];
    }
    forall nb: nat | IsPrivate(s, nb) ensures IsPrivate(s', nb) && s'.blocks[nb] == s.blocks[nb] {
      assert s.ring[0] in s.ring;
    }
  }
}
