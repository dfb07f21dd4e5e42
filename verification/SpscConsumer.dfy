/** Each step of try_dequeue, pop and peek keeps the invariant; only the store of front removes. */
module SpscConsumer {
  import opened Wrappers
  import opened Blocks
  import opened SpscProtocol
  import opened SpscInvariant
  import P = SpscProducer

  /** The state after the consumer moves to c and sets its shadow of block x's tail. */
  ghost function Shadowed<T>(s: State<T>, x: nat, lt: nat, c: Consumer<T>): State<T>
    requires x < |s.blocks|
  {
    s.(blocks := s.blocks[x := s.blocks[x].(localTail := lt)], c := c)
  }

  /** Blocks whose shadow of tail the consumer may set: the front block and, if it lags behind
      the tail block, the one after it. */
  ghost predicate Reachable<T>(s: State<T>, x: nat)
    requires Linked(s)
  {
    x == s.frontBlock || (s.tp > 0 && x == s.ring[1])
  }

  lemma ShadowedMemory<T>(s: State<T>, x: nat, lt: nat, c: Consumer<T>)
    requires MemoryTyped(s) && Linked(s) && Filled(s) && x < |s.blocks| && s.blocks[x].(localTail := lt).Ok()
    ensures var s' := Shadowed(s, x, lt, c);
      && MemoryTyped(s') && Linked(s') && Filled(s')
      && forall b :: 0 <= b < |s.blocks| ==> s'.blocks[b].Items() == s.blocks[b].Items()
  {
  }

  lemma QuietLive<T>(s: State<T>, c: Consumer<T>)
    requires MemoryTyped(s) && Live(s) && !s.c.CStoreFront? && !c.CStoreFront?
    ensures forall b :: 0 <= b < |s.blocks| ==> LiveBlock(s.blocks[b], b, s.p, c)
  {
    forall b | 0 <= b < |s.blocks| ensures LiveBlock(s.blocks[b], b, s.p, c) {
      LiveElsewhere(s.blocks[b], b, s.p, s.c, c);
    }
  }

  lemma LiveElsewhere<T>(b: Block<T>, x: nat, p: Producer<T>, c: Consumer<T>, c': Consumer<T>)
    requires b.Typed() && LiveBlock(b, x, p, c)
    requires forall i :: !Taken(c, x, i) && !Taken(c', x, i)
    ensures LiveBlock(b, x, p, c')
  {
  }

  lemma ShadowedLive<T>(s: State<T>, x: nat, lt: nat, c: Consumer<T>)
    requires MemoryTyped(s) && Live(s) && !s.c.CStoreFront? && !c.CStoreFront?
    requires x < |s.blocks| && s.blocks[x].(localTail := lt).Ok()
    ensures MemoryTyped(Shadowed(s, x, lt, c)) && Live(Shadowed(s, x, lt, c))
  {
    QuietLive(s, c);
    var s' := Shadowed(s, x, lt, c);
    forall b | 0 <= b < |s.blocks| ensures LiveBlock(s'.blocks[b], b, s.p, c) {
      assert LiveBlock(s.blocks[b], b, s.p, c);
    }
  }

  lemma ShadowedFrame<T>(s: State<T>, x: nat, lt: nat, c: Consumer<T>)
    requires MemoryTyped(s) && Linked(s) && Filled(s) && x < |s.blocks| && s.blocks[x].(localTail := lt).Ok()
    requires Reachable(s, x)
    ensures var s' := Shadowed(s, x, lt, c);
      MemoryTyped(s') && Linked(s') && ConsumerFrame(s, s') && Queue(s') == Queue(s)
  {
    ShadowedMemory(s, x, lt, c);
    P.QueueSame(s, Shadowed(s, x, lt, c));
  }

  /** Steps that move the program counter and refresh a shadow of tail. */
  lemma ShadowStep<T>(s: State<T>, x: nat, lt: nat, c: Consumer<T>)
    requires Inv(s) && x < |s.blocks| && s.blocks[x].(localTail := lt).Ok() && Reachable(s, x)
    requires !s.c.CStoreFront? && !c.CStoreFront?
    requires var s' := Shadowed(s, x, lt, c);
      MemoryTyped(s') && Linked(s') ==> ConsumerTyped(s') && ConsumerOk(s')
    ensures Inv(Shadowed(s, x, lt, c)) && Queue(Shadowed(s, x, lt, c)) == Queue(s)
  {
    ShadowedMemory(s, x, lt, c);
    ShadowedLive(s, x, lt, c);
    ShadowedFrame(s, x, lt, c);
    ConsumerFrameKeepsProducer(s, Shadowed(s, x, lt, c));
  }

  lemma CounterStep<T>(s: State<T>, c: Consumer<T>)
    requires Inv(s) && !s.c.CStoreFront? && !c.CStoreFront?
    requires ConsumerTyped(s.(c := c)) && ConsumerOk(s.(c := c))
    ensures Inv(s.(c := c)) && Queue(s.(c := c)) == Queue(s)
  {
    var lt := s.blocks[s.frontBlock].localTail;
    assert Shadowed(s, s.frontBlock, lt, c) == s.(c := c);
    ShadowStep(s, s.frontBlock, lt, c);
  }

  lemma LoadTailStep<T>(s: State<T>)
    requires Inv(s) && s.c.CLoadTail?
    ensures Inv(ConsumerStep'(s)) && Queue(ConsumerStep'(s)) == Queue(s)
  {
    ShadowStep(s, s.c.fb, s.blocks[s.c.fb].tail, ConsumerStep'(s).c);
  }

  lemma ReloadTailStep<T>(s: State<T>)
    requires Inv(s) && s.c.CReloadTail?
    ensures Inv(ConsumerStep'(s)) && Queue(ConsumerStep'(s)) == Queue(s)
  {
    ShadowStep(s, s.c.fb, s.blocks[s.c.fb].tail, ConsumerStep'(s).c);
  }

  /** The block after a drained front block is never empty. */
  lemma NextNotEmpty<T>(s: State<T>)
    requires Inv(s) && Drained(s)
    ensures s.blocks[s.ring[1]].Len() > 0
  {
    if s.tp > 1 {
      assert s.blocks[s.ring[1]].Len() == s.blocks[s.ring[1]].size - 1;
    }
  }

  lemma LoadNextTailStep<T>(s: State<T>)
    requires Inv(s) && s.c.CLoadNextTail?
    ensures Inv(ConsumerStep'(s)) && Queue(ConsumerStep'(s)) == Queue(s)
  {
    NextNotEmpty(s);
    if s.c.op.Peek? {
      CounterStep(s, ConsumerStep'(s).c);
    } else {
      ShadowStep(s, s.c.nb, s.blocks[s.c.nb].tail, ConsumerStep'(s).c);
    }
  }

  lemma ReloadFrontStep<T>(s: State<T>)
    requires Inv(s) && s.c.CReloadFront?
    ensures Inv(ConsumerStep'(s)) && Queue(ConsumerStep'(s)) == Queue(s)
  {
    CounterStep(s, ConsumerStep'(s).c);
  }

  lemma CounterSteps<T>(s: State<T>)
    requires Inv(s)
    requires s.c.CLoadFrontBlock? || s.c.CLoadFront? || s.c.CLoadTailBlock? || s.c.CReloadFrontBlock?
      || s.c.CReturn?
    ensures Inv(ConsumerStep'(s)) && Queue(ConsumerStep'(s)) == Queue(s)
  {
    CounterStep(s, ConsumerStep'(s).c);
  }

  lemma CounterSteps2<T>(s: State<T>)
    requires Inv(s)
    requires s.c.CLoadNext? || s.c.CLoadNextFront? || (s.c.CTake? && s.c.op.Peek?)
    ensures Inv(ConsumerStep'(s)) && Queue(ConsumerStep'(s)) == Queue(s)
  {
    if s.c.CLoadNext? {
      assert s.next[s.ring[0]] == s.ring[Next(0, |s.ring|)];
    }
    CounterStep(s, ConsumerStep'(s).c);
  }

  // ---------- moving on to the next block ----------

  /** Rotating `ring` by one keeps it in step with `next`. */
  lemma RotateLinked(ring: seq<nat>, next: seq<nat>)
    requires |ring| > 0
    requires forall i :: 0 <= i < |ring| ==> ring[i] < |next|
    requires forall i, j :: 0 <= i < j < |ring| ==> ring[i] != ring[j]
    requires forall i {:trigger next[ring[i]]} :: 0 <= i < |ring| ==> next[ring[i]] == ring[Next(i, |ring|)]
    ensures var ring' := ring[1..] + [ring[0]];
      && (forall i, j :: 0 <= i < j < |ring'| ==> ring'[i] != ring'[j])
      && (forall i {:trigger next[ring'[i]]} :: 0 <= i < |ring'| ==> next[ring'[i]] == ring'[Next(i, |ring'|)])
  {
    var ring' := ring[1..] + [ring[0]];
    forall i | 0 <= i < |ring'| ensures next[ring'[i]] == ring'[Next(i, |ring'|)] {
      assert next[ring[Next(i, |ring|)]] == ring[Next(Next(i, |ring|), |ring|)];
    }
  }

  ghost function Rotated<T>(s: State<T>, c: Consumer<T>): State<T>
    requires |s.ring| > 1 && s.tp > 0
  {
    s.(frontBlock := s.ring[1], c := c, ring := s.ring[1..] + [s.ring[0]], tp := s.tp - 1)
  }

  lemma RotatedMemory<T>(s: State<T>, c: Consumer<T>)
    requires MemoryTyped(s) && Linked(s) && s.tp > 0
    ensures var s' := Rotated(s, c);
      && MemoryTyped(s') && Linked(s')
      && forall i :: 0 <= i < |s.ring| ==> s'.ring[i] == s.ring[Next(i, |s.ring|)]
  {
    RotateLinked(s.ring, s.next);
  }

  lemma RotatedFilled<T>(s: State<T>, c: Consumer<T>)
    requires MemoryTyped(s) && Linked(s) && Filled(s) && Drained(s)
    requires s.p.PStoreTailBlock? ==> s.tp + 1 < |s.ring|
    ensures var s' := Rotated(s, c); MemoryTyped(s') && Linked(s') && Filled(s')
  {
    RotatedMemory(s, c);
  }

  lemma RotatedFrame<T>(s: State<T>, c: Consumer<T>)
    requires MemoryTyped(s) && Linked(s) && s.tp > 0
    ensures var s' := Rotated(s, c); MemoryTyped(s') && Linked(s') && ConsumerFrame(s, s')
  {
    RotatedMemory(s, c);
    var s' := Rotated(s, c);
    assert s'.tp + 1 == s.tp && (s.tp + 1 < |s.ring| ==> s'.ring[s.tp] == s.ring[Next(s.tp, |s.ring|)]);
    forall b | b in s'.ring ensures b in s.ring {
      assert s.ring[0] in s.ring;
    }
  }

  lemma RotatedQueue<T>(s: State<T>, c: Consumer<T>)
    requires MemoryTyped(s) && Linked(s) && Drained(s)
    ensures MemoryTyped(Rotated(s, c)) && Linked(Rotated(s, c)) && Queue(Rotated(s, c)) == Queue(s)
  {
    RotatedMemory(s, c);
    var s' := Rotated(s, c);
    RingItemsFirst(View(s), s.tp + 1);
    assert View(s)[0].Items() == [];
    RingItemsSame(View(s)[1..], View(s'), s.tp);
  }

  lemma StoreFrontBlockStep<T>(s: State<T>)
    requires Inv(s) && s.c.CStoreFrontBlock?
    ensures Inv(ConsumerStep'(s)) && Queue(ConsumerStep'(s)) == Queue(s)
  {
    var c := CTake(s.c.op, s.c.nb, s.c.nbf);
    assert ConsumerStep'(s) == Rotated(s, c);
    NextNotEmpty(s);
    RotatedFilled(s, c);
    RotatedFrame(s, c);
    QuietLive(s, c);
    RotatedQueue(s, c);
    ConsumerFrameKeepsProducer(s, Rotated(s, c));
  }

  // ---------- taking the element ----------

  ghost function Destroyed<T>(s: State<T>, c: Consumer<T>): State<T>
    requires s.c.CTake? && s.c.b < |s.blocks| && s.c.bf < |s.blocks[s.c.b].live|
  {
    var blk := s.blocks[s.c.b];
    s.(blocks := s.blocks[s.c.b := blk.(live := blk.live[s.c.bf := false])], c := c)
  }

  lemma DestroyedMemory<T>(s: State<T>, c: Consumer<T>)
    requires MemoryTyped(s) && Linked(s) && Filled(s)
    requires s.c.CTake? && s.c.b == s.frontBlock && s.c.bf == s.blocks[s.frontBlock].front
    ensures var s' := Destroyed(s, c);
      && MemoryTyped(s') && Linked(s') && Filled(s')
      && forall b :: 0 <= b < |s.blocks| ==> s'.blocks[b].Items() == s.blocks[b].Items()
  {
  }

  lemma DestroyedFrame<T>(s: State<T>, c: Consumer<T>)
    requires MemoryTyped(s) && Linked(s)
    requires s.c.CTake? && s.c.b == s.frontBlock && s.c.bf == s.blocks[s.frontBlock].front
    ensures var s' := Destroyed(s, c); MemoryTyped(s') && Linked(s') && ConsumerFrame(s, s')
  {
  }

  lemma DestroyedQueue<T>(s: State<T>, c: Consumer<T>)
    requires MemoryTyped(s) && Linked(s) && Filled(s)
    requires s.c.CTake? && s.c.b == s.frontBlock && s.c.bf == s.blocks[s.frontBlock].front
    ensures var s' := Destroyed(s, c); MemoryTyped(s') && Linked(s') && Queue(s') == Queue(s)
  {
    DestroyedMemory(s, c);
    P.QueueSame(s, Destroyed(s, c));
  }

  lemma LiveTake<T>(b: Block<T>, x: nat, p: Producer<T>, c: Consumer<T>, c': Consumer<T>)
    requires b.Ok() && b.Len() > 0 && LiveBlock(b, x, p, c) && !Pending(p, x, b.front)
    requires !c.CStoreFront? && c'.CStoreFront? && c'.b == x && c'.bf == b.front
    ensures b.live[b.front]
    ensures LiveBlock(b.(live := b.live[b.front := false]), x, p, c')
  {
  }

  lemma DestroyedLive<T>(s: State<T>, c: Consumer<T>)
    requires MemoryTyped(s) && Linked(s) && Live(s)
    requires s.c.CTake? && s.c.b == s.frontBlock && s.c.bf == s.blocks[s.frontBlock].front
    requires s.blocks[s.frontBlock].Ok() && s.blocks[s.frontBlock].Len() > 0
    requires !Pending(s.p, s.c.b, s.c.bf)
    requires c.CStoreFront? && c.b == s.c.b && c.bf == s.c.bf
    ensures s.blocks[s.c.b].live[s.c.bf]
    ensures MemoryTyped(Destroyed(s, c)) && Live(Destroyed(s, c))
  {
    var s' := Destroyed(s, c);
    var x := s.c.b;
    LiveTake(s.blocks[x], x, s.p, s.c, c);
    forall b | 0 <= b < |s.blocks| && b != x ensures LiveBlock(s'.blocks[b], b, s.p, c) {
      LiveElsewhere(s.blocks[b], b, s.p, s.c, c);
    }
  }

  lemma TakeStep<T>(s: State<T>)
    requires Inv(s) && s.c.CTake? && !s.c.op.Peek?
    ensures s.blocks[s.c.b].live[s.c.bf]
    ensures Inv(ConsumerStep'(s)) && Queue(ConsumerStep'(s)) == Queue(s)
  {
    var c := ConsumerStep'(s).c;
    assert ConsumerStep'(s) == Destroyed(s, c);
    DestroyedMemory(s, c);
    DestroyedFrame(s, c);
    DestroyedQueue(s, c);
    DestroyedLive(s, c);
    ConsumerFrameKeepsProducer(s, Destroyed(s, c));
  }

  // ---------- the store that removes the element ----------

  ghost function Popped<T>(s: State<T>, c: Consumer<T>): State<T>
    requires s.frontBlock < |s.blocks|
  {
    var b := s.blocks[s.frontBlock];
    s.(blocks := s.blocks[s.frontBlock := b.(front := Next(b.front, b.size))], c := c)
  }

  lemma PoppedMemory<T>(s: State<T>, c: Consumer<T>)
    requires MemoryTyped(s) && Linked(s) && Filled(s)
    requires AtHead(s.blocks[s.frontBlock], s.blocks[s.frontBlock].front)
    ensures var s' := Popped(s, c);
      && MemoryTyped(s') && Linked(s') && Filled(s') && ConsumerFrame(s, s')
      && s'.blocks[s.frontBlock].Items() == s.blocks[s.frontBlock].Items()[1..]
  {
    var s' := Popped(s, c);
    ItemsFront(s.blocks[s.frontBlock], s'.blocks[s.frontBlock]);
  }

  lemma PoppedQueue<T>(s: State<T>, c: Consumer<T>)
    requires MemoryTyped(s) && Linked(s) && Filled(s)
    requires AtHead(s.blocks[s.frontBlock], s.blocks[s.frontBlock].front)
    ensures var s' := Popped(s, c);
      && MemoryTyped(s') && Linked(s')
      && Queue(s) == [s.blocks[s.frontBlock].data[s.blocks[s.frontBlock].front]] + Queue(s')
  {
    var s' := Popped(s, c);
    PoppedMemory(s, c);
    var b := s.blocks[s.frontBlock];
    PoppedItems(b, s'.blocks[s.frontBlock]);
    assert View(s)[0] == b && View(s')[0] == s'.blocks[s.frontBlock];
    assert forall i :: 1 <= i <= s.tp ==> View(s')[i] == View(s)[i];
    RingItemsPop(View(s), View(s'), s.tp + 1, b.data[b.front]);
  }

  lemma PoppedItems<T>(b: Block<T>, b': Block<T>)
    requires b.Ok() && AtHead(b, b.front) && b' == b.(front := Next(b.front, b.size))
    ensures b'.Ok() && b.Items() == [b.data[b.front]] + b'.Items()
  {
    ItemsFront(b, b');
  }

  lemma LivePop<T>(b: Block<T>, x: nat, p: Producer<T>, c: Consumer<T>, c': Consumer<T>)
    requires b.Ok() && b.Len() > 0 && LiveBlock(b, x, p, c)
    requires c.CStoreFront? && c.b == x && c.bf == b.front && !c'.CStoreFront?
    ensures LiveBlock(b.(front := Next(b.front, b.size)), x, p, c')
  {
  }

  lemma PoppedLive<T>(s: State<T>, c: Consumer<T>)
    requires MemoryTyped(s) && Linked(s) && Filled(s) && Live(s)
    requires AtHead(s.blocks[s.frontBlock], s.blocks[s.frontBlock].front)
    requires s.c.CStoreFront? && s.c.b == s.frontBlock && s.c.bf == s.blocks[s.frontBlock].front
    requires !c.CStoreFront?
    ensures MemoryTyped(Popped(s, c)) && Live(Popped(s, c))
  {
    PoppedMemory(s, c);
    var s' := Popped(s, c);
    var x := s.frontBlock;
    LivePop(s.blocks[x], x, s.p, s.c, c);
    forall b | 0 <= b < |s.blocks| && b != x ensures LiveBlock(s'.blocks[b], b, s.p, c) {
      LiveElsewhere(s.blocks[b], b, s.p, s.c, c);
    }
  }

  lemma StoreFrontStep<T>(s: State<T>)
    requires Inv(s) && s.c.CStoreFront?
    ensures Inv(ConsumerStep'(s)) && Queue(s) == [s.c.v] + Queue(ConsumerStep'(s))
  {
    var c := CReturn(s.c.op, Some(s.c.v));
    assert ConsumerStep'(s) == Popped(s, c);
    PoppedMemory(s, c);
    PoppedLive(s, c);
    PoppedQueue(s, c);
    ConsumerFrameKeepsProducer(s, Popped(s, c));
  }

  // ---------- all steps of the consumer ----------

  /** The element a consumer step removes, if it is the store of front. */
  function Removed<T>(c: Consumer<T>): seq<T> {
    match c
    case CStoreFront(_, _, _, v) => [v]
    case _ => []
  }

  lemma ConsumerStepOk<T>(s: State<T>)
    requires Inv(s) && Enabled(s, ConsumerStep)
    ensures Inv(ConsumerStep'(s)) && Queue(s) == Removed(s.c) + Queue(ConsumerStep'(s))
  {
    match s.c
    case CLoadTail(_, _, _) => LoadTailStep(s);
    case CReloadTail(_, _) => ReloadTailStep(s);
    case CReloadFront(_, _, _) => ReloadFrontStep(s);
    case CLoadNext(_, _) => CounterSteps2(s);
    case CLoadNextFront(_, _) => CounterSteps2(s);
    case CLoadNextTail(_, _, _) => LoadNextTailStep(s);
    case CStoreFrontBlock(_, _, _) => StoreFrontBlockStep(s);
    case CTake(op, _, _) => if op.Peek? { CounterSteps2(s); } else { TakeStep(s); }
    case CStoreFront(_, _, _, _) => StoreFrontStep(s);
    case _ => CounterSteps(s);
  }
}
