/** Whole runs of the queue: safety, first-in first-out, and what a failing call has witnessed. */
module SpscRuns {
  import opened Blocks
  import opened SpscProtocol
  import opened SpscInvariant
  import P = SpscProducer
  import C = SpscConsumer
  import B = BitTricks
  import opened Capacity

  // ---------- runs ----------

  /** The state the constructor leaves, for `size` requested elements; readerwriterqueue.h:105-161. */
  ghost predicate Init<T>(s: State<T>, size: nat) {
    && MaxOk(s.maxBlock)
    && |s.blocks| == BlockCount(size, s.maxBlock) == |s.next| == |s.ring|
    && s.largest == BlockSize(size, s.maxBlock)
    && (forall i :: 0 <= i < |s.blocks| ==>
          && s.ring[i] == i && s.next[i] == Next(i, |s.blocks|)
          && s.blocks[i].size == Span(s.largest) && |s.blocks[i].data| == |s.blocks[i].live| == s.largest
          && s.blocks[i].front == s.blocks[i].tail == s.blocks[i].localTail == s.blocks[i].localFront == 0
          && (forall j :: 0 <= j < s.largest ==> !s.blocks[i].live[j]))
    && s.frontBlock == s.tailBlock == s.tp == 0
    && s.p.PIdle? && s.c.CIdle?
  }

  ghost predicate IsRun<T>(states: seq<State<T>>, evs: seq<Event<T>>, size: nat) {
    && |states| == |evs| + 1 && Init(states[0], size)
    && forall i :: 0 <= i < |evs| ==> IsStep(states[i], evs[i], states[i + 1])
  }

  ghost predicate IsStep<T>(s: State<T>, ev: Event<T>, s': State<T>) {
    Named(s) && Enabled(s, ev) && s' == Step(s, ev)
  }

  /** What an event appends to and removes from the queue. */
  ghost function Appended<T>(s: State<T>, ev: Event<T>): seq<T> {
    if ev.ProducerStep? then P.Published(s.p) else []
  }

  ghost function Taken<T>(s: State<T>, ev: Event<T>): seq<T> {
    if ev.ConsumerStep? then C.Removed(s.c) else []
  }

  // ---------- the invariant of runs ----------

  ghost function Caps<T>(s: State<T>): (r: seq<nat>)
    requires MemoryTyped(s) && Linked(s)
    ensures |r| == |s.ring|
  {
    seq(|s.ring|, i requires 0 <= i < |s.ring| => s.blocks[s.ring[i]].size - 1)
  }

  /** No block is larger than the last one allocated, which is the one not yet linked. */
  ghost predicate SizesOk<T>(s: State<T>) {
    && (forall b :: 0 <= b < |s.blocks| ==> s.blocks[b].size <= s.largest)
    && (s.p.PConstructNew? || s.p.PStoreNewTail? || s.p.PLinkNew? || s.p.PSplice? ==>
          s.p.nb < |s.blocks| && s.blocks[s.p.nb].size == s.largest)
  }

  ghost predicate RunInv<T>(s: State<T>, size: nat) {
    Inv(s) && SizesOk(s) && Holds(Caps(s), size)
  }

  lemma InitMemory<T>(s: State<T>, size: nat)
    requires Init(s, size) && Usable(size)
    ensures Typed(s) && Linked(s) && Filled(s)
    ensures forall b :: 0 <= b < |s.blocks| ==> s.blocks[b].Len() == 0
  {
    BlockSizeOk(size, s.maxBlock);
  }

  lemma InitHolds<T>(s: State<T>, size: nat)
    requires Init(s, size) && Usable(size) && MemoryTyped(s) && Linked(s)
    ensures Holds(Caps(s), size)
  {
    BlockSizeOk(size, s.maxBlock);
    SameHold(Caps(s), s.largest - 1, size);
  }

  lemma InitOk<T>(s: State<T>, size: nat)
    requires Init(s, size) && Usable(size)
    ensures RunInv(s, size) && Queue(s) == []
  {
    InitMemory(s, size);
    InitHolds(s, size);
    InitLive(s, size);
    RingItemsEmpty(View(s), s.tp + 1);
  }

  lemma InitLive<T>(s: State<T>, size: nat)
    requires Init(s, size) && MemoryTyped(s) && forall b :: 0 <= b < |s.blocks| ==> s.blocks[b].Len() == 0
    ensures Live(s)
  {
    forall b | 0 <= b < |s.blocks| ensures LiveBlock(s.blocks[b], b, s.p, s.c) {
    }
  }

  /** Every step keeps the invariant, and changes the queue by what it appends and takes only. */
  lemma StepOk<T>(s: State<T>, ev: Event<T>)
    requires Inv(s) && Enabled(s, ev)
    ensures Inv(Step(s, ev))
    ensures Queue(s) + Appended(s, ev) == Taken(s, ev) + Queue(Step(s, ev))
  {
    match ev
    case StartEnqueue(e, mode) => P.CounterStep(s, PLoadTailBlock(e, mode));
    case StartDequeue(op) => C.CounterStep(s, CLoadFrontBlock(op));
    case ProducerStep => P.ProducerStepOk(s);
    case ProducerAlloc(data) => P.AllocOkStep(s, data);
    case ConsumerStep => C.ConsumerStepOk(s);
  }

  lemma StepSizes<T>(s: State<T>, ev: Event<T>)
    requires Typed(s) && SizesOk(s) && Enabled(s, ev)
    ensures SizesOk(Step(s, ev))
  {
    match ev
    case ProducerStep => ProducerSizes(s);
    case ConsumerStep => ConsumerSizes(s);
    case _ =>
  }

  lemma ProducerSizes<T>(s: State<T>)
    requires Typed(s) && SizesOk(s) && Enabled(s, ProducerStep)
    ensures SizesOk(ProducerStep'(s)) && SameSizes(s, ProducerStep'(s))
    ensures !s.p.PSplice? ==> ProducerStep'(s).ring == s.ring
  {
    assert SameSizes(s, ProducerStep'(s));
  }

  lemma ConsumerSizes<T>(s: State<T>)
    requires Typed(s) && SizesOk(s) && Enabled(s, ConsumerStep)
    ensures SizesOk(ConsumerStep'(s)) && SameSizes(s, ConsumerStep'(s))
    ensures !s.c.CStoreFrontBlock? ==> ConsumerStep'(s).ring == s.ring
  {
    assert SameSizes(s, ConsumerStep'(s));
  }

  ghost predicate SameSizes<T>(s: State<T>, s': State<T>) {
    |s'.blocks| == |s.blocks| && forall b :: 0 <= b < |s.blocks| ==> s'.blocks[b].size == s.blocks[b].size
  }

  lemma RotateCaps<T>(s: State<T>, s': State<T>, size: nat)
    requires MemoryTyped(s) && Linked(s) && MemoryTyped(s') && Linked(s') && Holds(Caps(s), size)
    requires SameSizes(s, s') && s'.ring == s.ring[1..] + [s.ring[0]]
    ensures Holds(Caps(s'), size)
  {
    RotateHolds(Caps(s), size);
    assert Caps(s') == Caps(s)[1..] + [Caps(s)[0]];
  }

  lemma InsertCaps<T>(s: State<T>, s': State<T>, nb: nat, size: nat)
    requires MemoryTyped(s) && Linked(s) && MemoryTyped(s') && Linked(s') && Holds(Caps(s), size)
    requires SameSizes(s, s') && s'.ring == s.ring[..s.tp + 1] + [nb] + s.ring[s.tp + 1..]
    requires nb < |s.blocks| && forall b :: 0 <= b < |s.blocks| ==> s.blocks[b].size <= s.blocks[nb].size
    ensures Holds(Caps(s'), size)
  {
    InsertHolds(Caps(s), s.tp + 1, s.blocks[nb].size - 1, size);
    InsertedCaps(s, s', nb);
  }

  lemma InsertedCaps<T>(s: State<T>, s': State<T>, nb: nat)
    requires MemoryTyped(s) && Linked(s) && MemoryTyped(s') && Linked(s') && SameSizes(s, s')
    requires nb < |s.blocks| && s'.ring == s.ring[..s.tp + 1] + [nb] + s.ring[s.tp + 1..]
    ensures Caps(s') == Caps(s)[..s.tp + 1] + [s.blocks[nb].size - 1] + Caps(s)[s.tp + 1..]
  {
    var caps := Caps(s)[..s.tp + 1] + [s.blocks[nb].size - 1] + Caps(s)[s.tp + 1..];
    forall i | 0 <= i < |s'.ring| ensures Caps(s')[i] == caps[i] {
      assert s'.ring[i] == if i <= s.tp then s.ring[i] else if i == s.tp + 1 then nb else s.ring[i - 1];
    }
  }

  lemma SameCaps<T>(s: State<T>, s': State<T>, size: nat)
    requires MemoryTyped(s) && Linked(s) && MemoryTyped(s') && Linked(s') && Holds(Caps(s), size)
    requires s'.ring == s.ring
    requires forall i :: 0 <= i < |s.ring| ==> s'.blocks[s.ring[i]].size == s.blocks[s.ring[i]].size
    ensures Holds(Caps(s'), size)
  {
    assert Caps(s') == Caps(s);
  }

  lemma StepHolds<T>(s: State<T>, ev: Event<T>, size: nat)
    requires Typed(s) && Linked(s) && SizesOk(s) && Holds(Caps(s), size) && Enabled(s, ev)
    requires s.c.CStoreFrontBlock? ==> s.tp > 0
    requires MemoryTyped(Step(s, ev)) && Linked(Step(s, ev))
    ensures Holds(Caps(Step(s, ev)), size)
  {
    var s' := Step(s, ev);
    match ev
    case ProducerStep =>
      ProducerSizes(s);
      if s.p.PSplice? { InsertCaps(s, s', s.p.nb, size); } else { SameCaps(s, s', size); }
    case ConsumerStep =>
      ConsumerSizes(s);
      if s.c.CStoreFrontBlock? { RotateCaps(s, s', size); } else { SameCaps(s, s', size); }
    case _ => SameCaps(s, s', size);
  }

  // ---------- main results ----------

  /** In every interleaving: the invariant holds throughout. */
  lemma {:induction false} RunOk<T>(states: seq<State<T>>, evs: seq<Event<T>>, size: nat, n: nat)
    requires IsRun(states, evs, size) && Usable(size) && n < |states|
    ensures RunInv(states[n], size)
  {
    if n == 0 {
      InitOk(states[0], size);
    } else {
      RunOk(states, evs, size, n - 1);
      assert IsStep(states[n - 1], evs[n - 1], states[n]);
      StepOk(states[n - 1], evs[n - 1]);
      StepSizes(states[n - 1], evs[n - 1]);
      StepHolds(states[n - 1], evs[n - 1], size);
    }
  }

  /** The elements appended, and taken, by the first n steps. */
  ghost function AllAppended<T>(states: seq<State<T>>, evs: seq<Event<T>>, n: nat): seq<T>
    requires n <= |evs| <= |states|
  {
    if n == 0 then [] else AllAppended(states, evs, n - 1) + Appended(states[n - 1], evs[n - 1])
  }

  ghost function AllTaken<T>(states: seq<State<T>>, evs: seq<Event<T>>, n: nat): seq<T>
    requires n <= |evs| <= |states|
  {
    if n == 0 then [] else AllTaken(states, evs, n - 1) + Taken(states[n - 1], evs[n - 1])
  }

  /** First in, first out: what was enqueued is what was dequeued followed by what is queued. */
  lemma {:induction false} Fifo<T>(states: seq<State<T>>, evs: seq<Event<T>>, size: nat, n: nat)
    requires IsRun(states, evs, size) && Usable(size) && n <= |evs|
    ensures Inv(states[n])
    ensures AllAppended(states, evs, n) == AllTaken(states, evs, n) + Queue(states[n])
  {
    if n == 0 {
      InitOk(states[0], size);
    } else {
      var s, ev := states[n - 1], evs[n - 1];
      Fifo(states, evs, size, n - 1);
      assert IsStep(s, ev, states[n]);
      FifoStep(s, ev, AllAppended(states, evs, n - 1), AllTaken(states, evs, n - 1));
    }
  }

  lemma FifoStep<T>(s: State<T>, ev: Event<T>, appended: seq<T>, taken: seq<T>)
    requires Inv(s) && Enabled(s, ev) && appended == taken + Queue(s)
    ensures Inv(Step(s, ev))
    ensures appended + Appended(s, ev) == (taken + Taken(s, ev)) + Queue(Step(s, ev))
  {
    StepOk(s, ev);
    Regroup(appended, taken, Queue(s), Appended(s, ev), Taken(s, ev), Queue(Step(s, ev)));
  }

  lemma Regroup<T>(appended: seq<T>, taken: seq<T>, q: seq<T>, a: seq<T>, t: seq<T>, q': seq<T>)
    requires appended == taken + q && q + a == t + q'
    ensures appended + a == (taken + t) + q'
  {
    assert (taken + q) + a == taken + (q + a);
    assert (taken + t) + q' == taken + (t + q');
  }

  /** A power of two that fits a word. */
  ghost predicate WordPow2(n: nat) {
    B.IsPow2(n) && n <= B.HALF
  }

  /** Every block's size is a power of two, so that masking an index with size - 1 wraps it. */
  ghost predicate PowersOfTwo<T>(s: State<T>) {
    && MaxOk(s.maxBlock) && WordPow2(s.largest)
    && forall b :: 0 <= b < |s.blocks| ==> WordPow2(s.blocks[b].size)
  }

  lemma DoubledPow2(n: nat)
    requires B.IsPow2(n)
    ensures B.IsPow2(n * 2)
  {
    var k: nat :| n == B.Pow2(k);
    assert n * 2 == B.Pow2(k + 1);
  }

  lemma StepPowersOfTwo<T>(s: State<T>, ev: Event<T>)
    requires Typed(s) && SizesOk(s) && Enabled(s, ev) && PowersOfTwo(s)
    ensures PowersOfTwo(Step(s, ev))
  {
    match ev
    case ProducerStep => ProducerSizes(s);
    case ConsumerStep => ConsumerSizes(s);
    case ProducerAlloc(_) => DoubledPow2(s.largest);
    case _ =>
  }

  lemma {:induction false} RunPowersOfTwo<T>(states: seq<State<T>>, evs: seq<Event<T>>, size: nat, n: nat)
    requires IsRun(states, evs, size) && Usable(size) && n < |states|
    ensures PowersOfTwo(states[n])
  {
    if n == 0 {
      assert states[0].largest == BlockSize(size, states[0].maxBlock);
    } else {
      var s, ev := states[n - 1], evs[n - 1];
      assert IsStep(s, ev, states[n]);
      RunPowersOfTwo(states, evs, size, n - 1);
      RunOk(states, evs, size, n - 1);
      StepPowersOfTwo(s, ev);
    }
  }
}
