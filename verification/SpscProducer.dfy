/** Each step of inner_enqueue keeps the invariant; the two publishing stores append the element. */
module SpscProducer {
  import opened Blocks
  import opened SpscProtocol
  import opened SpscInvariant

  lemma QueueSame<T>(s: State<T>, s': State<T>)
    requires MemoryTyped(s) && Linked(s) && MemoryTyped(s') && Linked(s')
    requires s'.tp == s.tp && forall i :: 0 <= i <= s.tp ==> s'.ring[i] == s.ring[i]
    requires forall i :: 0 <= i <= s.tp ==> s'.blocks[s.ring[i]].Items() == s.blocks[s.ring[i]].Items()
    ensures Queue(s') == Queue(s)
  {
    RingItemsSame(View(s), View(s'), s.tp + 1);
  }

  /** The state after the producer moves to p and sets its shadow of block x's front. */
  ghost function Shadowed<T>(s: State<T>, x: nat, lf: nat, p: Producer<T>): State<T>
    requires x < |s.blocks|
  {
    s.(blocks := s.blocks[x := s.blocks[x].(localFront := lf)], p := p)
  }

  /** Neither pc has a slot or a block under construction. */
  predicate Quiet<T>(p: Producer<T>) {
    !p.PStoreTail? && !p.PStoreNextTail? && !p.PStoreNewTail? && !p.PStoreTailBlock?
  }

  lemma ShadowedMemory<T>(s: State<T>, x: nat, lf: nat, p: Producer<T>)
    requires Inv(s) && x < |s.blocks| && s.blocks[x].(localFront := lf).Ok()
    ensures MemoryTyped(Shadowed(s, x, lf, p)) && Linked(Shadowed(s, x, lf, p))
    ensures forall b :: 0 <= b < |s.blocks| ==> Shadowed(s, x, lf, p).blocks[b].Items() == s.blocks[b].Items()
  {
  }

  lemma ShadowedFilled<T>(s: State<T>, x: nat, lf: nat, p: Producer<T>)
    requires Inv(s) && x < |s.blocks| && s.blocks[x].(localFront := lf).Ok()
    requires Quiet(s.p) && Quiet(p)
    requires Leaving(p) && s.tp > 0 ==> s.blocks[s.tailBlock].Len() == s.blocks[s.tailBlock].size - 1
    ensures MemoryTyped(Shadowed(s, x, lf, p)) && Linked(Shadowed(s, x, lf, p))
    ensures Filled(Shadowed(s, x, lf, p)) && Live(Shadowed(s, x, lf, p))
  {
    ShadowedMemory(s, x, lf, p);
    var s' := Shadowed(s, x, lf, p);
    forall b | 0 <= b < |s.blocks| ensures LiveBlock(s'.blocks[b], b, p, s.c) {
      assert LiveBlock(s.blocks[b], b, s.p, s.c);
    }
  }

  /** Steps that move the program counter and at most refresh a shadow of front. */
  lemma ShadowStep<T>(s: State<T>, x: nat, lf: nat, p: Producer<T>)
    requires Inv(s) && x < |s.blocks| && s.blocks[x].(localFront := lf).Ok()
    requires Quiet(s.p) && Quiet(p)
    requires Leaving(p) && s.tp > 0 ==> s.blocks[s.tailBlock].Len() == s.blocks[s.tailBlock].size - 1
    requires var s' := Shadowed(s, x, lf, p);
      MemoryTyped(s') && Linked(s') ==> ProducerTyped(s') && ProducerOk(s')
    ensures Inv(Shadowed(s, x, lf, p)) && Queue(Shadowed(s, x, lf, p)) == Queue(s)
  {
    var s' := Shadowed(s, x, lf, p);
    ShadowedFilled(s, x, lf, p);
    ShadowedMemory(s, x, lf, p);
    ProducerFrameKeepsConsumer(s, s');
    QueueSame(s, s');
  }

  /** The step only moves the program counter. */
  lemma CounterStep<T>(s: State<T>, p: Producer<T>)
    requires Inv(s) && Quiet(s.p) && Quiet(p)
    requires Leaving(p) && s.tp > 0 ==> s.blocks[s.tailBlock].Len() == s.blocks[s.tailBlock].size - 1
    requires ProducerTyped(s.(p := p)) && ProducerOk(s.(p := p))
    ensures Inv(s.(p := p)) && Queue(s.(p := p)) == Queue(s)
  {
    var lf := s.blocks[s.tailBlock].localFront;
    assert Shadowed(s, s.tailBlock, lf, p) == s.(p := p);
    ShadowStep(s, s.tailBlock, lf, p);
  }

  lemma LoadTailStep<T>(s: State<T>)
    requires Inv(s) && s.p.PLoadTail?
    ensures Inv(ProducerStep'(s)) && Queue(ProducerStep'(s)) == Queue(s)
  {
    CounterStep(s, ProducerStep'(s).p);
  }

  lemma LoadFrontStep<T>(s: State<T>)
    requires Inv(s) && s.p.PLoadFront?
    ensures Inv(ProducerStep'(s)) && Queue(ProducerStep'(s)) == Queue(s)
  {
    var tb := s.p.tb;
    ShadowStep(s, tb, s.blocks[tb].front, ProducerStep'(s).p);
  }

  lemma LoadNextFrontStep<T>(s: State<T>)
    requires Inv(s) && s.p.PLoadNextFront?
    ensures Inv(ProducerStep'(s)) && Queue(ProducerStep'(s)) == Queue(s)
  {
    var nb := s.p.nb;
    ShadowStep(s, nb, s.blocks[nb].front, ProducerStep'(s).p);
  }

  lemma LoadNextTailStep<T>(s: State<T>)
    requires Inv(s) && s.p.PLoadNextTail?
    ensures Inv(ProducerStep'(s)) && Queue(ProducerStep'(s)) == Queue(s)
  {
    assert s.blocks[s.ring[s.tp + 1]].Len() == 0;
    CounterStep(s, ProducerStep'(s).p);
  }

  lemma CounterSteps<T>(s: State<T>)
    requires Inv(s)
    requires s.p.PLoadTailBlock? || s.p.PLoadNext? || s.p.PLoadFrontBlock?
      || s.p.PReloadNext? || s.p.PReturn? || s.p.PAlloc?
    ensures Inv(ProducerStep'(s)) && Queue(ProducerStep'(s)) == Queue(s)
  {
    CounterStep(s, ProducerStep'(s).p);
  }

  // ---------- constructing an element ----------

  /** The state after the producer constructs e in slot tail of block x and moves to p. */
  ghost function Constructed<T>(s: State<T>, x: nat, e: T, p: Producer<T>): State<T>
    requires x < |s.blocks| && s.blocks[x].Typed()
  {
    s.(blocks := s.blocks[x := Construct(s.blocks[x], s.blocks[x].tail, e)], p := p)
  }

  lemma ConstructedMemory<T>(s: State<T>, x: nat, e: T, p: Producer<T>)
    requires MemoryTyped(s) && Linked(s) && Filled(s) && x < |s.blocks| && s.blocks[x].Room()
    ensures var s' := Constructed(s, x, e, p);
      && MemoryTyped(s') && Linked(s')
      && forall b :: 0 <= b < |s.blocks| ==> s'.blocks[b].Ok() && s'.blocks[b].Items() == s.blocks[b].Items()
  {
    ItemsWrite(s.blocks[x], e, s.blocks[x].live[s.blocks[x].tail := true]);
  }

  lemma ConstructedLive<T>(s: State<T>, x: nat, e: T, p: Producer<T>)
    requires MemoryTyped(s) && Linked(s) && Filled(s) && Live(s) && x < |s.blocks| && s.blocks[x].Room()
    requires Quiet(s.p) && Pending(p, x, s.blocks[x].tail)
    ensures !s.blocks[x].live[s.blocks[x].tail]
    ensures MemoryTyped(Constructed(s, x, e, p)) && Live(Constructed(s, x, e, p))
  {
    ConstructedMemory(s, x, e, p);
    var s' := Constructed(s, x, e, p);
    forall b | 0 <= b < |s.blocks| ensures LiveBlock(s'.blocks[b], b, p, s.c) {
      assert LiveBlock(s.blocks[b], b, s.p, s.c);
    }
  }

  /** A step that constructs e in the free slot at the tail of block x. */
  lemma ConstructStep<T>(s: State<T>, x: nat, e: T, p: Producer<T>)
    requires Inv(s) && x < |s.blocks| && s.blocks[x].Room()
    requires Quiet(s.p) && Pending(p, x, s.blocks[x].tail)
    requires Leaving(p) ==> Leaving(s.p)
    requires var s' := Constructed(s, x, e, p);
      MemoryTyped(s') && Linked(s') ==> ProducerTyped(s') && ProducerOk(s')
    ensures !s.blocks[x].live[s.blocks[x].tail]
    ensures Inv(Constructed(s, x, e, p)) && Queue(Constructed(s, x, e, p)) == Queue(s)
  {
    var s' := Constructed(s, x, e, p);
    ConstructedMemory(s, x, e, p);
    ConstructedLive(s, x, e, p);
    ProducerFrameKeepsConsumer(s, s');
    QueueSame(s, s');
  }

  lemma ConstructTailStep<T>(s: State<T>)
    requires Inv(s) && s.p.PConstruct?
    ensures Inv(ProducerStep'(s)) && Queue(ProducerStep'(s)) == Queue(s)
    ensures !s.blocks[s.p.tb].live[s.p.bt]
  {
    ConstructStep(s, s.p.tb, s.p.e, ProducerStep'(s).p);
  }

  lemma ConstructNextStep<T>(s: State<T>)
    requires Inv(s) && s.p.PConstructNext?
    ensures Inv(ProducerStep'(s)) && Queue(ProducerStep'(s)) == Queue(s)
    ensures !s.blocks[s.p.nb].live[s.p.nbt]
  {
    ConstructStep(s, s.p.nb, s.p.e, ProducerStep'(s).p);
  }

  lemma ConstructNewStep<T>(s: State<T>)
    requires Inv(s) && s.p.PConstructNew?
    ensures Inv(ProducerStep'(s)) && Queue(ProducerStep'(s)) == Queue(s)
    ensures !s.blocks[s.p.nb].live[0]
  {
    ConstructStep(s, s.p.nb, s.p.e, ProducerStep'(s).p);
  }

  // ---------- storing tail ----------

  /** The state after the producer stores tail of block x and moves to p.  `lt` is the consumer's
      shadow, which the producer sets only in a block it has just allocated. */
  ghost function Stored<T>(s: State<T>, x: nat, lt: nat, p: Producer<T>): State<T>
    requires x < |s.blocks| && s.blocks[x].Typed()
  {
    var b := s.blocks[x];
    s.(blocks := s.blocks[x := b.(tail := Next(b.tail, b.size), localTail := lt)], p := p)
  }

  ghost predicate Storable<T>(s: State<T>, x: nat, lt: nat) {
    && MemoryTyped(s) && Linked(s)
    && (forall b :: 0 <= b < |s.blocks| ==> s.blocks[b].Ok())
    && x < |s.blocks| && s.blocks[x].Room()
    && (lt == s.blocks[x].localTail || (IsFresh(s.blocks[x]) && lt == 1))
  }

  lemma StoredMemory<T>(s: State<T>, x: nat, lt: nat, p: Producer<T>)
    requires Storable(s, x, lt)
    ensures var s' := Stored(s, x, lt, p);
      && MemoryTyped(s') && Linked(s')
      && (forall b :: 0 <= b < |s.blocks| ==> s'.blocks[b].Ok())
      && s'.blocks[x].Len() == s.blocks[x].Len() + 1
      && s'.blocks[x].Items() == s.blocks[x].Items() + [s.blocks[x].data[s.blocks[x].tail]]
  {
    ItemsTail(s.blocks[x], Stored(s, x, lt, p).blocks[x]);
  }

  lemma StoredLive<T>(s: State<T>, x: nat, lt: nat, p: Producer<T>)
    requires Storable(s, x, lt) && Live(s)
    requires Pending(s.p, x, s.blocks[x].tail) && !Taken(s.c, x, s.blocks[x].tail)
    requires Quiet(p) || p.PStoreTailBlock?
    ensures MemoryTyped(Stored(s, x, lt, p)) && Live(Stored(s, x, lt, p))
  {
    StoredMemory(s, x, lt, p);
    var s' := Stored(s, x, lt, p);
    LiveTail(s.blocks[x], s'.blocks[x], x, s.p, p, s.c);
    forall b | 0 <= b < |s.blocks| && b != x ensures LiveBlock(s'.blocks[b], b, p, s.c) {
      LiveElsewhere(s.blocks[b], b, s.p, p, s.c);
    }
  }

  lemma LiveTail<T>(b: Block<T>, b': Block<T>, x: nat, p: Producer<T>, p': Producer<T>, c: Consumer<T>)
    requires b.Ok() && b.Room() && b'.Ok() && b'.tail == Next(b.tail, b.size)
    requires b' == b.(tail := b'.tail, localTail := b'.localTail)
    requires LiveBlock(b, x, p, c) && Pending(p, x, b.tail) && !Taken(c, x, b.tail)
    requires forall i :: !Pending(p', x, i)
    ensures LiveBlock(b', x, p', c)
  {
  }

  lemma LiveElsewhere<T>(b: Block<T>, x: nat, p: Producer<T>, p': Producer<T>, c: Consumer<T>)
    requires b.Typed() && LiveBlock(b, x, p, c)
    requires forall i :: !Pending(p, x, i) && !Pending(p', x, i)
    ensures LiveBlock(b, x, p', c)
  {
  }

  /** The consumer is not disturbed by a store in the tail block ... */
  lemma StoredTailFrame<T>(s: State<T>, p: Producer<T>)
    requires MemoryTyped(s) && Storable(s, s.tailBlock, s.blocks[s.tailBlock].localTail)
    ensures MemoryTyped(Stored(s, s.tailBlock, s.blocks[s.tailBlock].localTail, p))
    ensures Linked(Stored(s, s.tailBlock, s.blocks[s.tailBlock].localTail, p))
    ensures ProducerFrame(s, Stored(s, s.tailBlock, s.blocks[s.tailBlock].localTail, p))
  {
    StoredMemory(s, s.tailBlock, s.blocks[s.tailBlock].localTail, p);
  }

  /** ... nor by one in a block past the tail block. */
  lemma StoredAheadFrame<T>(s: State<T>, x: nat, lt: nat, p: Producer<T>)
    requires Storable(s, x, lt) && forall i :: 0 <= i <= s.tp ==> s.ring[i] != x
    ensures MemoryTyped(Stored(s, x, lt, p)) && Linked(Stored(s, x, lt, p))
    ensures ProducerFrame(s, Stored(s, x, lt, p))
    ensures Queue(Stored(s, x, lt, p)) == Queue(s)
  {
    StoredMemory(s, x, lt, p);
    QueueSame(s, Stored(s, x, lt, p));
  }

  lemma StoredTailQueue<T>(s: State<T>, p: Producer<T>)
    requires MemoryTyped(s) && Storable(s, s.tailBlock, s.blocks[s.tailBlock].localTail)
    ensures var s' := Stored(s, s.tailBlock, s.blocks[s.tailBlock].localTail, p);
      && MemoryTyped(s') && Linked(s')
      && Queue(s') == Queue(s) + [s.blocks[s.tailBlock].data[s.blocks[s.tailBlock].tail]]
  {
    var s' := Stored(s, s.tailBlock, s.blocks[s.tailBlock].localTail, p);
    StoredMemory(s, s.tailBlock, s.blocks[s.tailBlock].localTail, p);
    RingItemsSame(View(s), View(s'), s.tp);
  }

  lemma StoredFilled<T>(s: State<T>, x: nat, lt: nat, p: Producer<T>)
    requires Storable(s, x, lt) && Filled(s) && !s.p.PStoreTailBlock?
    requires if p.PStoreTailBlock? then IsNext(s, x) else x == s.tailBlock || x !in s.ring
    requires Leaving(p) ==> Leaving(s.p)
    requires Leaving(p) && s.tp > 0 ==> x != s.tailBlock
    ensures var s' := Stored(s, x, lt, p); MemoryTyped(s') && Linked(s') && Filled(s')
  {
    StoredMemory(s, x, lt, p);
  }

  /** The store that publishes an element in the tail block. */
  lemma StoreTailStep<T>(s: State<T>)
    requires Inv(s) && s.p.PStoreTail?
    ensures Inv(ProducerStep'(s)) && Queue(ProducerStep'(s)) == Queue(s) + [s.p.e]
  {
    var x, lt, p := s.tailBlock, s.blocks[s.tailBlock].localTail, PReturn(true);
    assert ProducerStep'(s) == Stored(s, x, lt, p);
    StoredFilled(s, x, lt, p);
    StoredLive(s, x, lt, p);
    StoredTailFrame(s, p);
    ProducerFrameKeepsConsumer(s, Stored(s, x, lt, p));
    StoredTailQueue(s, p);
  }

  lemma StoreNextTailOk<T>(s: State<T>, x: nat, lt: nat, p: Producer<T>)
    requires Storable(s, x, lt) && Filled(s) && s.p.PStoreNextTail? && ProducerOk(s)
    requires x == s.p.nb && p == PStoreTailBlock(s.p.e, s.p.tb, x) && s.p.tb < |s.blocks|
    ensures var s' := Stored(s, x, lt, p);
      MemoryTyped(s') && Linked(s') && ProducerTyped(s') && ProducerOk(s')
  {
    StoredMemory(s, x, lt, p);
    assert s.blocks[x].Items() == [];
  }

  lemma StoreNextTailStep<T>(s: State<T>)
    requires Inv(s) && s.p.PStoreNextTail?
    ensures Inv(ProducerStep'(s)) && Queue(ProducerStep'(s)) == Queue(s)
  {
    var x, p := s.p.nb, PStoreTailBlock(s.p.e, s.p.tb, s.p.nb);
    var lt := s.blocks[x].localTail;
    assert ProducerStep'(s) == Stored(s, x, lt, p);
    StoreNextTailOk(s, x, lt, p);
    StoredFilled(s, x, lt, p);
    StoredLive(s, x, lt, p);
    StoredAheadFrame(s, x, lt, p);
    ProducerFrameKeepsConsumer(s, Stored(s, x, lt, p));
  }

  lemma StoreNewTailStep<T>(s: State<T>)
    requires Inv(s) && s.p.PStoreNewTail?
    ensures Inv(ProducerStep'(s)) && Queue(ProducerStep'(s)) == Queue(s)
  {
    var x, p := s.p.nb, PLinkNew(s.p.e, s.p.tb, s.p.nb);
    assert ProducerStep'(s) == Stored(s, x, 1, p);
    StoredMemory(s, x, 1, p);
    StoredFilled(s, x, 1, p);
    StoredLive(s, x, 1, p);
    StoredAheadFrame(s, x, 1, p);
    ProducerFrameKeepsConsumer(s, Stored(s, x, 1, p));
  }

  // ---------- a new block ----------

  lemma AllocMemory<T>(s: State<T>, data: seq<T>)
    requires Inv(s) && Enabled(s, ProducerAlloc(data))
    ensures var s' := AllocStep(s, data);
      && MemoryTyped(s') && Linked(s') && IsPrivate(s', |s.blocks|) && IsFresh(s'.blocks[|s.blocks|])
      && (forall b :: 0 <= b < |s.blocks| ==> s'.blocks[b] == s.blocks[b] && s'.next[b] == s.next[b])
  {
    assert IsFresh(AllocStep(s, data).blocks[|s.blocks|]);
  }

  lemma AllocFilled<T>(s: State<T>, data: seq<T>)
    requires Inv(s) && Enabled(s, ProducerAlloc(data))
    ensures var s' := AllocStep(s, data); MemoryTyped(s') && Linked(s') && Filled(s')
  {
    AllocMemory(s, data);
  }

  lemma AllocLive<T>(s: State<T>, data: seq<T>)
    requires Inv(s) && Enabled(s, ProducerAlloc(data))
    ensures MemoryTyped(AllocStep(s, data)) && Live(AllocStep(s, data))
  {
    AllocMemory(s, data);
    var s' := AllocStep(s, data);
    QuietLive(s, s'.p);
    assert LiveBlock(s'.blocks[|s.blocks|], |s.blocks|, s'.p, s'.c);
  }

  /** Moving the program counter between places where nothing is under construction. */
  lemma QuietLive<T>(s: State<T>, p: Producer<T>)
    requires MemoryTyped(s) && Live(s) && forall b, i :: !Pending(s.p, b, i) && !Pending(p, b, i)
    ensures forall b :: 0 <= b < |s.blocks| ==> LiveBlock(s.blocks[b], b, p, s.c)
  {
    forall b | 0 <= b < |s.blocks| ensures LiveBlock(s.blocks[b], b, p, s.c) {
      LiveElsewhere(s.blocks[b], b, s.p, p, s.c);
    }
  }

  lemma AllocOkStep<T>(s: State<T>, data: seq<T>)
    requires Inv(s) && Enabled(s, ProducerAlloc(data))
    ensures Inv(AllocStep(s, data)) && Queue(AllocStep(s, data)) == Queue(s)
  {
    var s' := AllocStep(s, data);
    AllocMemory(s, data);
    AllocFilled(s, data);
    AllocLive(s, data);
    AllocFrame(s, s');
    ProducerFrameKeepsConsumer(s, s');
  }

  lemma AllocFrame<T>(s: State<T>, s': State<T>)
    requires MemoryTyped(s) && Linked(s) && MemoryTyped(s') && Linked(s')
    requires s'.c == s.c && s'.frontBlock == s.frontBlock && s'.ring == s.ring && s'.tp == s.tp
    requires |s.blocks| <= |s'.blocks| && forall b :: 0 <= b < |s.blocks| ==> s'.blocks[b] == s.blocks[b]
    ensures ProducerFrame(s, s') && Queue(s') == Queue(s)
  {
    QueueSame(s, s');
  }

  lemma LinkNewStep<T>(s: State<T>)
    requires Inv(s) && s.p.PLinkNew?
    ensures Inv(ProducerStep'(s)) && Queue(ProducerStep'(s)) == Queue(s)
  {
    var s' := ProducerStep'(s);
    LinkNewMemory(s);
    QuietLive(s, s'.p);
    ProducerFrameKeepsConsumer(s, s');
    QueueSame(s, s');
  }

  lemma LinkNewMemory<T>(s: State<T>)
    requires Inv(s) && s.p.PLinkNew?
    ensures var s' := ProducerStep'(s); MemoryTyped(s') && Linked(s') && Filled(s')
  {
  }

  /** ring with nb after position tp. */
  ghost function Inserted(ring: seq<nat>, tp: nat, nb: nat): (r: seq<nat>)
    requires tp < |ring|
    ensures |r| == |ring| + 1
    ensures forall i :: 0 <= i < |r| ==> r[i] == if i <= tp then ring[i] else if i == tp + 1 then nb else ring[i - 1]
  {
    ring[..tp + 1] + [nb] + ring[tp + 1..]
  }

  /** Inserting nb after position tp keeps `next` and `ring` in step. */
  lemma InsertLinked(ring: seq<nat>, next: seq<nat>, tp: nat, nb: nat)
    requires tp < |ring| && nb !in ring && nb < |next|
    requires forall i :: 0 <= i < |ring| ==> ring[i] < |next|
    requires forall i, j :: 0 <= i < j < |ring| ==> ring[i] != ring[j]
    requires forall i {:trigger next[ring[i]]} :: 0 <= i < |ring| ==> next[ring[i]] == ring[Next(i, |ring|)]
    requires next[nb] == next[ring[tp]]
    ensures var ring', next' := Inserted(ring, tp, nb), next[ring[tp] := nb];
      && (forall i, j :: 0 <= i < j < |ring'| ==> ring'[i] != ring'[j])
      && (forall i {:trigger next'[ring'[i]]} :: 0 <= i < |ring'| ==> next'[ring'[i]] == ring'[Next(i, |ring'|)])
  {
    var ring', next' := Inserted(ring, tp, nb), next[ring[tp] := nb];
    forall i | 0 <= i < |ring'| ensures next'[ring'[i]] == ring'[Next(i, |ring'|)] {
      var k := if i <= tp then i else i - 1;
      assert next[ring[k]] == ring[Next(k, |ring|)];
      if i == tp + 1 {
        assert next'[nb] == next[nb];
      } else if i != tp {
        assert next'[ring[k]] == next[ring[k]];
      }
    }
  }

  /** The state after the new block is linked behind the tail block. */
  ghost function Spliced<T>(s: State<T>): State<T>
    requires s.p.PSplice? && s.tp < |s.ring| && s.p.tb < |s.next|
  {
    s.(next := s.next[s.p.tb := s.p.nb], p := PStoreTailBlock(s.p.e, s.p.tb, s.p.nb),
       ring := Inserted(s.ring, s.tp, s.p.nb))
  }

  lemma SplicedIsStep<T>(s: State<T>)
    requires Typed(s) && Linked(s) && s.p.PSplice?
    ensures ProducerStep'(s) == Spliced(s)
  {
  }

  lemma SpliceMemory<T>(s: State<T>)
    requires Typed(s) && Linked(s) && s.p.PSplice?
    ensures MemoryTyped(Spliced(s)) && ProducerTyped(Spliced(s))
  {
  }

  lemma SpliceLinked<T>(s: State<T>)
    requires Typed(s) && Linked(s) && s.p.PSplice? && ProducerOk(s)
    ensures Linked(Spliced(s))
  {
    InsertLinked(s.ring, s.next, s.tp, s.p.nb);
  }

  lemma SpliceFilled<T>(s: State<T>)
    requires Typed(s) && Linked(s) && Filled(s) && s.p.PSplice? && ProducerOk(s)
    requires MemoryTyped(Spliced(s)) && Linked(Spliced(s))
    ensures Filled(Spliced(s)) && ProducerOk(Spliced(s))
  {
  }

  lemma SpliceFrame<T>(s: State<T>, s': State<T>)
    requires MemoryTyped(s) && Linked(s) && s.p.PSplice? && s.p.tb < |s.next| && s' == Spliced(s)
    requires MemoryTyped(s') && Linked(s')
    ensures ProducerFrame(s, s') && Queue(s') == Queue(s)
  {
    QueueSame(s, s');
  }

  /** The new block becomes the one after the tail block. */
  lemma SpliceStep<T>(s: State<T>)
    requires Inv(s) && s.p.PSplice?
    ensures Inv(ProducerStep'(s)) && Queue(ProducerStep'(s)) == Queue(s)
  {
    var s' := Spliced(s);
    SplicedIsStep(s);
    SpliceMemory(s);
    SpliceLinked(s);
    SpliceFilled(s);
    QuietLive(s, s'.p);
    SpliceFrame(s, s');
    ProducerFrameKeepsConsumer(s, s');
  }

  lemma StoreTailBlockMemory<T>(s: State<T>)
    requires Typed(s) && Linked(s) && Filled(s) && ProducerOk(s) && s.p.PStoreTailBlock?
    ensures var s' := ProducerStep'(s); MemoryTyped(s') && Linked(s') && ProducerFrame(s, s')
  {
  }

  lemma StoreTailBlockFilled<T>(s: State<T>)
    requires Typed(s) && Linked(s) && Filled(s) && ProducerOk(s) && s.p.PStoreTailBlock?
    ensures var s' := ProducerStep'(s); MemoryTyped(s') && Linked(s') && Filled(s')
  {
    StoreTailBlockMemory(s);
  }

  lemma StoreTailBlockQueue<T>(s: State<T>, s': State<T>)
    requires MemoryTyped(s) && Linked(s) && MemoryTyped(s') && Linked(s')
    requires s'.blocks == s.blocks && s'.ring == s.ring && s'.tp == s.tp + 1
    ensures Queue(s') == Queue(s) + s.blocks[s.ring[s'.tp]].Items()
  {
    RingItemsSame(View(s), View(s'), s.tp + 1);
  }

  /** The store that publishes an element in a new tail block. */
  lemma StoreTailBlockStep<T>(s: State<T>)
    requires Inv(s) && s.p.PStoreTailBlock?
    ensures Inv(ProducerStep'(s)) && Queue(ProducerStep'(s)) == Queue(s) + [s.p.e]
  {
    var s' := ProducerStep'(s);
    StoreTailBlockMemory(s);
    StoreTailBlockFilled(s);
    QuietLive(s, s'.p);
    ProducerFrameKeepsConsumer(s, s');
    StoreTailBlockQueue(s, s');
  }

  // ---------- all steps of the producer ----------

  /** The element a producer step publishes, if it is one of the two publishing stores. */
  function Published<T>(p: Producer<T>): seq<T> {
    match p
    case PStoreTail(e, _, _) => [e]
    case PStoreTailBlock(e, _, _) => [e]
    case _ => []
  }

  lemma ProducerStepOk<T>(s: State<T>)
    requires Inv(s) && Enabled(s, ProducerStep)
    ensures Inv(ProducerStep'(s)) && Queue(ProducerStep'(s)) == Queue(s) + Published(s.p)
  {
    match s.p
    case PLoadTail(_, _, _, _) => LoadTailStep(s);
    case PLoadFront(_, _, _, _) => LoadFrontStep(s);
    case PConstruct(_, _, _) => ConstructTailStep(s);
    case PStoreTail(_, _, _) => StoreTailStep(s);
    case PLoadNextFront(_, _, _) => LoadNextFrontStep(s);
    case PLoadNextTail(_, _, _, _) => LoadNextTailStep(s);
    case PConstructNext(_, _, _, _) => ConstructNextStep(s);
    case PStoreNextTail(_, _, _, _) => StoreNextTailStep(s);
    case PConstructNew(_, _, _) => ConstructNewStep(s);
    case PStoreNewTail(_, _, _) => StoreNewTailStep(s);
    case PLinkNew(_, _, _) => LinkNewStep(s);
    case PSplice(_, _, _) => SpliceStep(s);
    case PStoreTailBlock(_, _, _) => StoreTailBlockStep(s);
    case _ => CounterSteps(s);
  }
}
