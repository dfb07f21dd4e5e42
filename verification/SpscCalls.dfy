/** What a single call of the queue has seen and done, whatever the other thread does meanwhile. */
module SpscCalls {
  import opened Wrappers
  import opened Blocks
  import opened SpscProtocol
  import opened SpscInvariant
  import opened SpscRuns
  import opened Capacity
  import P = SpscProducer
  import R = RingOps
  import C = SpscConsumer

  /** The queue in any state of a run. */
  ghost function Contents<T>(s: State<T>): seq<T> {
    if MemoryTyped(s) && Linked(s) then Queue(s) else []
  }

  // ---------- the slots ----------

  /** An element is only ever constructed in a slot that holds none, and only moved out of, or
      destroyed in, a slot that holds the head of the queue. */
  ghost predicate SlotsRespected<T>(s: State<T>)
    requires Typed(s) && Linked(s)
  {
    && (s.p.PConstruct? ==> !s.blocks[s.p.tb].live[s.p.bt])
    && (s.p.PConstructNext? ==> !s.blocks[s.p.nb].live[s.p.nbt])
    && (s.p.PConstructNew? ==> !s.blocks[s.p.nb].live[0])
    && (s.c.CTake? ==>
          && s.blocks[s.c.b].live[s.c.bf]
          && Queue(s) != [] && s.blocks[s.c.b].data[s.c.bf] == Queue(s)[0])
  }

  lemma ConstructRespects<T>(s: State<T>)
    requires Inv(s)
    ensures s.p.PConstruct? ==> !s.blocks[s.p.tb].live[s.p.bt]
    ensures s.p.PConstructNext? ==> !s.blocks[s.p.nb].live[s.p.nbt]
    ensures s.p.PConstructNew? ==> !s.blocks[s.p.nb].live[0]
  {
    match s.p
    case PConstruct(_, _, _) => P.ConstructTailStep(s);
    case PConstructNext(_, _, _, _) => P.ConstructNextStep(s);
    case PConstructNew(_, _, _) => P.ConstructNewStep(s);
    case _ =>
  }

  lemma HeadIsFirst<T>(s: State<T>, b: nat)
    requires MemoryTyped(s) && Linked(s) && b < |s.blocks| && s.blocks[b].Len() > 0
    requires b == s.frontBlock || (Drained(s) && b == s.ring[1])
    ensures Queue(s) != [] && Queue(s)[0] == s.blocks[b].data[s.blocks[b].front]
  {
    RingItemsFirst(View(s), s.tp + 1);
    if b != s.frontBlock {
      RingItemsFirst(View(s)[1..], s.tp);
    }
    assert s.blocks[b].Items()[0] == s.blocks[b].data[s.blocks[b].front];
  }

  lemma TakeRespects<T>(s: State<T>)
    requires Inv(s) && s.c.CTake?
    ensures s.blocks[s.c.b].live[s.c.bf]
    ensures Queue(s) != [] && s.blocks[s.c.b].data[s.c.bf] == Queue(s)[0]
  {
    HeadIsFirst(s, s.c.b);
    assert LiveBlock(s.blocks[s.c.b], s.c.b, s.p, s.c);
  }

  /** In every reachable state no internal assertion has failed and the slots are respected. */
  lemma RunSafe<T>(states: seq<State<T>>, evs: seq<Event<T>>, size: nat, n: nat)
    requires IsRun(states, evs, size) && Usable(size) && n < |states|
    ensures !states[n].p.PFault? && !states[n].c.CFault?
    ensures Typed(states[n]) && Linked(states[n]) && SlotsRespected(states[n])
  {
    RunOk(states, evs, size, n);
    ConstructRespects(states[n]);
    if states[n].c.CTake? {
      TakeRespects(states[n]);
    }
  }

  // ---------- try_dequeue, pop and peek ----------

  /** A call that began with head h at the front of the queue will return h. */
  ghost predicate WillReturn<T>(s: State<T>, h: T)
    requires MemoryTyped(s) && Linked(s)
  {
    match s.c
    case CIdle => false
    case CReturn(_, result) => result == Some(h)
    case CStoreFront(_, _, _, v) => v == h
    case CLoadTailBlock(_, _) => s.tp > 0 && Queue(s) != [] && Queue(s)[0] == h
    case _ => Queue(s) != [] && Queue(s)[0] == h
  }

  /** With an element in the queue the tail block cannot be the drained front block. */
  lemma NotDrained<T>(s: State<T>)
    requires MemoryTyped(s) && Linked(s) && s.blocks[s.frontBlock].Len() == 0 && Queue(s) != []
    ensures s.tp > 0
  {
    if s.tp == 0 {
      RingItemsEmpty(View(s), 1);
    }
  }

  lemma ProducerKeepsPromise<T>(s: State<T>, ev: Event<T>, h: T)
    requires Inv(s) && Enabled(s, ev) && !ev.ConsumerStep? && WillReturn(s, h)
    ensures Inv(Step(s, ev)) && WillReturn(Step(s, ev), h)
  {
    StepOk(s, ev);
    var s' := Step(s, ev);
    ProducerLeaves(s, ev);
    PromiseStays(s, s', h, Appended(s, ev));
  }

  lemma ProducerLeaves<T>(s: State<T>, ev: Event<T>)
    requires Named(s) && Enabled(s, ev) && !ev.ConsumerStep? && !ev.StartDequeue?
    ensures Step(s, ev).c == s.c && Step(s, ev).tp >= s.tp
  {
  }

  lemma PromiseStays<T>(s: State<T>, s': State<T>, h: T, appended: seq<T>)
    requires MemoryTyped(s) && Linked(s) && MemoryTyped(s') && Linked(s')
    requires s'.c == s.c && s'.tp >= s.tp && Queue(s') == Queue(s) + appended && WillReturn(s, h)
    ensures WillReturn(s', h)
  {
  }

  lemma ConsumerKeepsPromise<T>(s: State<T>, s': State<T>, h: T)
    requires Inv(s) && Enabled(s, ConsumerStep) && !s.c.CReturn? && WillReturn(s, h)
    requires s' == ConsumerStep'(s)
    requires MemoryTyped(s') && Linked(s') && !s'.c.CFault? && Queue(s) == C.Removed(s.c) + Queue(s')
    ensures WillReturn(s', h)
  {
    if s.c.CTake? {
      TakeKeepsPromise(s, s', h);
    } else if s.c.CLoadTail? && s.blocks[s.c.fb].Len() == 0 {
      NotDrained(s);
    }
  }

  lemma TakeKeepsPromise<T>(s: State<T>, s': State<T>, h: T)
    requires Typed(s) && Linked(s) && ConsumerOk(s) && s.c.CTake? && WillReturn(s, h)
    requires s' == ConsumerStep'(s) && MemoryTyped(s') && Linked(s')
    ensures WillReturn(s', h)
  {
    HeadIsFirst(s, s.c.b);
  }

  lemma MakesPromise<T>(s: State<T>, ev: Event<T>, s': State<T>)
    requires Inv(s) && ev.StartDequeue? && IsStep(s, ev, s') && Queue(s) != []
    ensures Inv(s') && WillReturn(s', Queue(s)[0])
  {
    StepOk(s, ev);
  }

  lemma KeepsPromise<T>(s: State<T>, ev: Event<T>, s': State<T>, h: T)
    requires Inv(s) && IsStep(s, ev, s') && WillReturn(s, h) && !s'.c.CIdle?
    ensures Inv(s') && WillReturn(s', h)
  {
    if ev.ConsumerStep? {
      C.ConsumerStepOk(s);
      ConsumerKeepsPromise(s, s', h);
    } else {
      ProducerKeepsPromise(s, ev, h);
    }
  }

  /** A call of try_dequeue, pop or peek that begins at step m on a non-empty queue returns the
      head of that moment; whatever the producer does meanwhile. */
  lemma DequeueSucceeds<T>(states: seq<State<T>>, evs: seq<Event<T>>, size: nat, m: nat, n: nat)
    requires IsRun(states, evs, size) && Usable(size) && m < n < |states|
    requires evs[m].StartDequeue? && forall k :: m < k <= n ==> !states[k].c.CIdle?
    requires Contents(states[m]) != []
    ensures Inv(states[n]) && WillReturn(states[n], Contents(states[m])[0])
  {
    var h := Contents(states[m])[0];
    var promised := (s: State<T>) => Inv(s) && WillReturn(s, h);
    RunOk(states, evs, size, m);
    MakesPromise(states[m], evs[m], states[m + 1]);
    forall k | m < k < n && promised(states[k]) ensures promised(states[k + 1]) {
      KeepsPromise(states[k], evs[k], states[k + 1], h);
    }
    StaysTrue(states, promised, m + 1, n);
  }

  /** What a call that returns at step n returned: none only if the queue was empty when the
      call began, and otherwise the element that was then the oldest. */
  lemma DequeueTruthful<T>(states: seq<State<T>>, evs: seq<Event<T>>, size: nat, m: nat, n: nat)
    requires IsRun(states, evs, size) && Usable(size) && m < n < |states|
    requires evs[m].StartDequeue? && forall k :: m < k <= n ==> !states[k].c.CIdle?
    requires states[n].c.CReturn?
    ensures states[n].c.result == None ==> Contents(states[m]) == []
    ensures Contents(states[m]) != [] ==> states[n].c.result == Some(Contents(states[m])[0])
  {
    if Contents(states[m]) != [] {
      DequeueSucceeds(states, evs, size, m, n);
    }
  }

  // ---------- peek, and then try_dequeue or pop ----------

  /** h is the oldest element. */
  ghost predicate Heads<T>(s: State<T>, h: T) {
    Contents(s) != [] && Contents(s)[0] == h
  }

  /** The step that removes an element. */
  predicate Removes<T>(s: State<T>, ev: Event<T>) {
    ev.ConsumerStep? && s.c.CStoreFront?
  }

  /** The head stays while the consumer removes nothing. */
  lemma HeadStays<T>(states: seq<State<T>>, evs: seq<Event<T>>, size: nat, m: nat, n: nat, h: T)
    requires IsRun(states, evs, size) && Usable(size) && m <= n < |states|
    requires Heads(states[m], h) && forall k :: m <= k < n ==> !Removes(states[k], evs[k])
    ensures Heads(states[n], h)
  {
    var headed := (s: State<T>) => Heads(s, h);
    forall k | m <= k < n && headed(states[k]) ensures headed(states[k + 1]) {
      RunOk(states, evs, size, k);
      HeadStaysStep(states[k], evs[k], states[k + 1], h);
    }
    StaysTrue(states, headed, m, n);
  }

  /** What every step from m to n keeps holds at n if it holds at m. */
  lemma {:induction false} StaysTrue<T>(states: seq<State<T>>, p: State<T> -> bool, m: nat, n: nat)
    requires m <= n < |states| && p(states[m])
    requires forall k :: m <= k < n && p(states[k]) ==> p(states[k + 1])
    ensures p(states[n])
  {
    if m < n {
      StaysTrue(states, p, m, n - 1);
      assert p(states[n - 1 + 1]);
    }
  }

  lemma HeadStaysStep<T>(s: State<T>, ev: Event<T>, s': State<T>, h: T)
    requires Inv(s) && IsStep(s, ev, s') && !Removes(s, ev) && Heads(s, h)
    ensures Heads(s', h)
  {
    StepOk(s, ev);
    assert Queue(s') == Queue(s) + Appended(s, ev);
  }

  /** peek looks at the head at step m; the next call that may remove an element begins at step k.
      That call is on its way to return the element peeked, whatever was enqueued meanwhile. */
  lemma PeekThenDequeue<T>(states: seq<State<T>>, evs: seq<Event<T>>, size: nat, m: nat, k: nat, n: nat)
    requires IsRun(states, evs, size) && Usable(size) && m < k < n < |states|
    requires evs[m].ConsumerStep? && states[m].c.CTake? && states[m].c.op.Peek?
    requires forall i :: m <= i < k ==> !Removes(states[i], evs[i])
    requires evs[k].StartDequeue? && forall i :: k < i <= n ==> !states[i].c.CIdle?
    ensures states[m + 1].c.CReturn? && states[m + 1].c.result.Some?
    ensures Inv(states[n]) && WillReturn(states[n], states[m + 1].c.result.value)
  {
    PeekSees(states, evs, size, m);
    HeadStays(states, evs, size, m, k, states[m + 1].c.result.value);
    DequeueSucceeds(states, evs, size, k, n);
  }

  lemma PeekSees<T>(states: seq<State<T>>, evs: seq<Event<T>>, size: nat, m: nat)
    requires IsRun(states, evs, size) && Usable(size) && m < |evs|
    requires evs[m].ConsumerStep? && states[m].c.CTake? && states[m].c.op.Peek?
    ensures states[m + 1].c.CReturn? && states[m + 1].c.result.Some?
    ensures Heads(states[m], states[m + 1].c.result.value)
  {
    RunOk(states, evs, size, m);
    TakeRespects(states[m]);
    assert IsStep(states[m], evs[m], states[m + 1]);
  }

  // ---------- size_approx and the destructor, with no call under way ----------

  /** What size_approx adds up over the first n blocks of the ring. */
  ghost function Walk<T>(bs: seq<Block<T>>, n: nat): (r: nat)
    requires n <= |bs| && forall i | 0 <= i < n :: bs[i].Typed()
    ensures r == |RingItems(bs, n)|
  {
    if n == 0 then 0
    else
      assert bs[n - 1].Typed();
      Walk(bs, n - 1) + bs[n - 1].Len()
  }

  /** With no call under way one lap of the ring finds the queue and no more, and the slots that hold
      an element are exactly those between front and tail. */
  lemma IdleRing<T>(s: State<T>)
    requires Inv(s) && s.p.PIdle? && s.c.CIdle?
    ensures RingItems(View(s), |s.ring|) == Queue(s)
    ensures forall b, i :: 0 <= b < |s.blocks| && 0 <= i < s.blocks[b].size ==>
      s.blocks[b].live[i] == s.blocks[b].Occupied(i)
  {
    R.AllItems(View(s), s.tp, |s.ring|);
    forall b, i | 0 <= b < |s.blocks| && 0 <= i < s.blocks[b].size
      ensures s.blocks[b].live[i] == s.blocks[b].Occupied(i)
    {
      assert LiveBlock(s.blocks[b], b, s.p, s.c);
    }
  }

  /** At every moment of every run with no call under way, size_approx would count exactly the
      elements enqueued and not yet dequeued, and the destructor would destroy exactly those. */
  lemma IdleLap<T>(states: seq<State<T>>, evs: seq<Event<T>>, size: nat, n: nat)
    requires IsRun(states, evs, size) && Usable(size) && n <= |evs|
    requires states[n].p.PIdle? && states[n].c.CIdle?
    ensures Inv(states[n])
    ensures AllAppended(states, evs, n) == AllTaken(states, evs, n) + RingItems(View(states[n]), |states[n].ring|)
    ensures Walk(View(states[n]), |states[n].ring|) == |AllAppended(states, evs, n)| - |AllTaken(states, evs, n)|
  {
    Fifo(states, evs, size, n);
    IdleRing(states[n]);
  }

  // ---------- try_enqueue and enqueue ----------

  /** Until it publishes, a call that began with `bound` elements queued sees no more of them, and
      gives up only if there were at least `size`. */
  ghost predicate WillBeTruthful<T>(s: State<T>, size: nat, bound: nat)
    requires MemoryTyped(s) && Linked(s)
  {
    match s.p
    case PIdle => false
    case PReturn(ok) => !ok ==> bound >= size
    case PAlloc(_, _) => |Queue(s)| <= bound && bound >= size
    case PLoadNext(_, _, _) => |Queue(s)| <= bound && (s.tp + 1 == |s.ring| ==> bound >= size)
    case PLoadFrontBlock(_, _, _, _) => |Queue(s)| <= bound && (s.tp + 1 == |s.ring| ==> bound >= size)
    case _ => |Queue(s)| <= bound
  }

  /** With the tail block full and the front block right after it, `size` elements are queued. */
  lemma FullRing<T>(s: State<T>, size: nat)
    requires MemoryTyped(s) && Linked(s) && Filled(s) && Holds(Caps(s), size)
    requires s.tp + 1 == |s.ring| && s.blocks[s.tailBlock].Len() == s.blocks[s.tailBlock].size - 1
    ensures |Queue(s)| >= size
  {
    R.FullBlocks(View(s), Caps(s), s.tp + 1);
    assert Caps(s)[..s.tp + 1] == Caps(s);
    if |s.ring| == 1 {
      assert Caps(s) == [Caps(s)[0]];
    }
  }

  lemma ConsumerKeepsBound<T>(s: State<T>, size: nat, bound: nat)
    requires Inv(s) && Enabled(s, ConsumerStep) && WillBeTruthful(s, size, bound)
    ensures Inv(ConsumerStep'(s)) && WillBeTruthful(ConsumerStep'(s), size, bound)
  {
    C.ConsumerStepOk(s);
    FewerKeepsBound(s, ConsumerStep'(s), size, bound);
  }

  lemma FewerKeepsBound<T>(s: State<T>, s': State<T>, size: nat, bound: nat)
    requires Typed(s) && Linked(s) && Enabled(s, ConsumerStep) && s' == ConsumerStep'(s)
    requires (s.c.CStoreFrontBlock? ==> s.tp > 0) && MemoryTyped(s') && Linked(s')
    requires Queue(s) == C.Removed(s.c) + Queue(s') && WillBeTruthful(s, size, bound)
    ensures WillBeTruthful(s', size, bound)
  {
    assert |Queue(s)| == |C.Removed(s.c)| + |Queue(s')|;
    assert s'.p == s.p && (s'.tp + 1 == |s'.ring| ==> s.tp + 1 == |s.ring|);
  }

  /** Finding the tail block full, with the front block next to it. */
  lemma LoadFrontKeepsBound<T>(s: State<T>, s': State<T>, size: nat, bound: nat)
    requires Inv(s) && s.p.PLoadFront? && s' == ProducerStep'(s) && WillBeTruthful(s, size, bound)
    requires MemoryTyped(s') && Linked(s') && Queue(s') == Queue(s) && Holds(Caps(s), size)
    ensures WillBeTruthful(s', size, bound)
  {
    if s'.p.PLoadNext? && s.tp + 1 == |s.ring| {
      FullRing(s, size);
    }
  }

  lemma LoadFrontBlockKeepsBound<T>(s: State<T>, s': State<T>, size: nat, bound: nat)
    requires Inv(s) && s.p.PLoadFrontBlock? && s' == ProducerStep'(s) && WillBeTruthful(s, size, bound)
    requires MemoryTyped(s') && Linked(s') && Queue(s') == Queue(s)
    ensures WillBeTruthful(s', size, bound)
  {
    assert s.next[s.ring[s.tp]] == s.ring[Next(s.tp, |s.ring|)];
  }

  lemma ProducerKeepsBound<T>(s: State<T>, s': State<T>, size: nat, bound: nat)
    requires Inv(s) && Enabled(s, ProducerStep) && !s.p.PReturn? && WillBeTruthful(s, size, bound)
    requires s' == ProducerStep'(s) && Holds(Caps(s), size)
    requires MemoryTyped(s') && Linked(s') && !s'.p.PFault? && Queue(s') == Queue(s) + P.Published(s.p)
    ensures WillBeTruthful(s', size, bound)
  {
    if s.p.PLoadFront? {
      LoadFrontKeepsBound(s, s', size, bound);
    } else if s.p.PLoadFrontBlock? {
      LoadFrontBlockKeepsBound(s, s', size, bound);
    }
  }

  lemma KeepsBound<T>(s: State<T>, ev: Event<T>, s': State<T>, size: nat, bound: nat)
    requires RunInv(s, size) && IsStep(s, ev, s') && WillBeTruthful(s, size, bound) && !s'.p.PIdle?
    ensures Inv(s') && WillBeTruthful(s', size, bound)
  {
    StepOk(s, ev);
    match ev
    case ProducerStep =>
      P.ProducerStepOk(s);
      ProducerKeepsBound(s, s', size, bound);
    case ConsumerStep => ConsumerKeepsBound(s, size, bound);
    case ProducerAlloc(data) => P.AllocOkStep(s, data);
    case StartDequeue(_) =>
  }

  lemma MakesBound<T>(s: State<T>, ev: Event<T>, s': State<T>, size: nat)
    requires Inv(s) && ev.StartEnqueue? && IsStep(s, ev, s')
    ensures Inv(s') && WillBeTruthful(s', size, |Queue(s)|)
  {
    StepOk(s, ev);
  }

  lemma EnqueueTruthfulAt<T>(states: seq<State<T>>, evs: seq<Event<T>>, size: nat, m: nat, n: nat)
    requires IsRun(states, evs, size) && Usable(size) && m < n < |states|
    requires evs[m].StartEnqueue? && forall k :: m < k <= n ==> !states[k].p.PIdle?
    ensures Inv(states[n]) && WillBeTruthful(states[n], size, |Contents(states[m])|)
  {
    var bound := |Contents(states[m])|;
    var truthful := (s: State<T>) => Inv(s) && WillBeTruthful(s, size, bound);
    RunOk(states, evs, size, m);
    MakesBound(states[m], evs[m], states[m + 1], size);
    forall k | m < k < n && truthful(states[k]) ensures truthful(states[k + 1]) {
      RunOk(states, evs, size, k);
      KeepsBound(states[k], evs[k], states[k + 1], size, bound);
    }
    StaysTrue(states, truthful, m + 1, n);
  }

  /** A call that returns false, for want of room or of memory, began with at least the
      constructor's `size` elements in the queue. */
  lemma EnqueueTruthful<T>(states: seq<State<T>>, evs: seq<Event<T>>, size: nat, m: nat, n: nat)
    requires IsRun(states, evs, size) && Usable(size) && m < n < |states|
    requires evs[m].StartEnqueue? && forall k :: m < k <= n ==> !states[k].p.PIdle?
    requires states[n].p == PReturn(false)
    ensures |Contents(states[m])| >= size
  {
    EnqueueTruthfulAt(states, evs, size, m, n);
  }
}
