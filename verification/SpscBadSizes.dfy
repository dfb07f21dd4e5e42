/**
 The constructor arguments for which the queue is not a queue.

 ReaderWriterQueue(0) starts with a block of size 1, which can never hold an element.  Once enqueue
 has grown the ring, the producer will reuse that block as if it were empty: its tail goes round to
 where it was, and the element is lost.

 From 2^63 on, rounding size + 1 up to a power of two wraps to 0.  The first block then has no slots
 and a mask that masks nothing off, and the first enqueue constructs in a slot that is not there.
 */
module SpscBadSizes {
  import opened Wrappers
  import opened Blocks
  import opened SpscProtocol
  import opened SpscRuns
  import opened Capacity
  import B = BitTricks

  ghost predicate Reached(s: State<int>, size: nat) {
    exists states, evs :: IsRun(states, evs, size) && states[|evs|] == s
  }

  lemma Go(s: State<int>, ev: Event<int>, s': State<int>, size: nat)
    requires Reached(s, size) && IsStep(s, ev, s')
    ensures Reached(s', size)
  {
    var states: seq<State<int>>, evs: seq<Event<int>> :| IsRun(states, evs, size) && states[|evs|] == s;
    var states', evs' := states + [s'], evs + [ev];
    forall i | 0 <= i < |evs'| ensures IsStep(states'[i], evs'[i], states'[i + 1]) {
      if i < |evs| {
        assert IsStep(states[i], evs[i], states[i + 1]);
      }
    }
    assert IsRun(states', evs', size) && states'[|evs'|] == s';
  }

  /** r holds on after every step. */
  ghost predicate Closed(r: State<int> -> bool) {
    forall s, ev, s' :: r(s) && IsStep(s, ev, s') ==> r(s')
  }

  ghost function Start(): State<int> {
    State([Block(1, 0, 0, 0, 0, [0], [false])], [0], 0, 0, 1, 512, PIdle, CIdle, [0], 0)
  }

  lemma StartReached()
    ensures Init(Start(), 0) && Reached(Start(), 0)
  {
    assert B.Pow2(0) == 1;
    assert B.CeilToPow2(1) == 1;
    DefaultMaxOk();
    var states, evs: seq<Event<int>> := [Start()], [];
    assert IsRun(states, evs, 0) && states[|evs|] == Start();
  }

  ghost function Memory1(): State<int> {
    State(
      [Block(1, 0, 0, 0, 0, [0], [false]),
       Block(2, 0, 0, 0, 0, [0, 0], [false, false])],
      [0, 1], 0, 0, 2, 512, PIdle, CIdle, [0], 0)
  }

  ghost function Memory2(): State<int> {
    State(
      [Block(1, 0, 0, 0, 0, [0], [false]),
       Block(2, 0, 0, 0, 0, [10, 0], [true, false])],
      [0, 1], 0, 0, 2, 512, PIdle, CIdle, [0], 0)
  }

  ghost function Memory3(): State<int> {
    State(
      [Block(1, 0, 0, 0, 0, [0], [false]),
       Block(2, 0, 1, 1, 0, [10, 0], [true, false])],
      [0, 1], 0, 0, 2, 512, PIdle, CIdle, [0], 0)
  }

  ghost function Memory4(): State<int> {
    State(
      [Block(1, 0, 0, 0, 0, [0], [false]),
       Block(2, 0, 1, 1, 0, [10, 0], [true, false])],
      [0, 0], 0, 0, 2, 512, PIdle, CIdle, [0], 0)
  }

  ghost function Memory5(): State<int> {
    State(
      [Block(1, 0, 0, 0, 0, [0], [false]),
       Block(2, 0, 1, 1, 0, [10, 0], [true, false])],
      [1, 0], 0, 0, 2, 512, PIdle, CIdle, [0, 1], 0)
  }

  ghost function Memory6(): State<int> {
    State(
      [Block(1, 0, 0, 0, 0, [0], [false]),
       Block(2, 0, 1, 1, 0, [10, 0], [true, false])],
      [1, 0], 0, 1, 2, 512, PIdle, CIdle, [0, 1], 1)
  }

  ghost function Memory7(): State<int> {
    State(
      [Block(1, 0, 0, 0, 0, [0], [false]),
       Block(2, 0, 1, 1, 0, [10, 0], [true, false])],
      [1, 0], 1, 1, 2, 512, PIdle, CIdle, [1, 0], 0)
  }

  ghost function Memory8(): State<int> {
    State(
      [Block(1, 0, 0, 0, 0, [0], [false]),
       Block(2, 0, 1, 1, 0, [10, 0], [false, false])],
      [1, 0], 1, 1, 2, 512, PIdle, CIdle, [1, 0], 0)
  }

  ghost function Memory9(): State<int> {
    State(
      [Block(1, 0, 0, 0, 0, [0], [false]),
       Block(2, 1, 1, 1, 0, [10, 0], [false, false])],
      [1, 0], 1, 1, 2, 512, PIdle, CIdle, [1, 0], 0)
  }

  ghost function Memory10(): State<int> {
    State(
      [Block(1, 0, 0, 0, 0, [0], [false]),
       Block(2, 1, 1, 1, 1, [10, 0], [false, false])],
      [1, 0], 1, 1, 2, 512, PIdle, CIdle, [1, 0], 0)
  }

  ghost function Memory11(): State<int> {
    State(
      [Block(1, 0, 0, 0, 0, [0], [false]),
       Block(2, 1, 1, 1, 1, [10, 11], [false, true])],
      [1, 0], 1, 1, 2, 512, PIdle, CIdle, [1, 0], 0)
  }

  ghost function Memory12(): State<int> {
    State(
      [Block(1, 0, 0, 0, 0, [0], [false]),
       Block(2, 1, 1, 0, 1, [10, 11], [false, true])],
      [1, 0], 1, 1, 2, 512, PIdle, CIdle, [1, 0], 0)
  }

  ghost function Memory13(): State<int> {
    State(
      [Block(1, 0, 0, 0, 0, [12], [true]),
       Block(2, 1, 1, 0, 1, [10, 11], [false, true])],
      [1, 0], 1, 1, 2, 512, PIdle, CIdle, [1, 0], 0)
  }

  ghost function Memory14(): State<int> {
    State(
      [Block(1, 0, 0, 0, 0, [12], [true]),
       Block(2, 1, 1, 0, 1, [10, 11], [false, true])],
      [1, 0], 1, 0, 2, 512, PIdle, CIdle, [1, 0], 1)
  }

  ghost function Memory15(): State<int> {
    State(
      [Block(1, 0, 0, 0, 0, [12], [true]),
       Block(2, 1, 0, 0, 1, [10, 11], [false, true])],
      [1, 0], 1, 0, 2, 512, PIdle, CIdle, [1, 0], 1)
  }

  ghost function Memory16(): State<int> {
    State(
      [Block(1, 0, 0, 0, 0, [12], [true]),
       Block(2, 1, 0, 0, 1, [10, 11], [false, false])],
      [1, 0], 1, 0, 2, 512, PIdle, CIdle, [1, 0], 1)
  }

  ghost function Memory17(): State<int> {
    State(
      [Block(1, 0, 0, 0, 0, [12], [true]),
       Block(2, 0, 0, 0, 1, [10, 11], [false, false])],
      [1, 0], 1, 0, 2, 512, PIdle, CIdle, [1, 0], 1)
  }

  lemma FirstEnqueueA(r: State<int> -> bool)
    requires Closed(r) && r(Start())
    ensures r(Start().(p := PLoadFrontBlock(10, CanAlloc, 0, 0)))
  {
    assert IsStep(Start(), StartEnqueue(10, CanAlloc), Start().(p := PLoadTailBlock(10, CanAlloc)));
    assert IsStep(
      Start().(p := PLoadTailBlock(10, CanAlloc)), ProducerStep,
      Start().(p := PLoadTail(10, CanAlloc, 0, 0)));
    assert IsStep(
      Start().(p := PLoadTail(10, CanAlloc, 0, 0)), ProducerStep,
      Start().(p := PLoadFront(10, CanAlloc, 0, 0)));
    assert IsStep(
      Start().(p := PLoadFront(10, CanAlloc, 0, 0)), ProducerStep,
      Start().(p := PLoadNext(10, CanAlloc, 0)));
    assert IsStep(
      Start().(p := PLoadNext(10, CanAlloc, 0)), ProducerStep,
      Start().(p := PLoadFrontBlock(10, CanAlloc, 0, 0)));
  }

  lemma FirstEnqueueB(r: State<int> -> bool)
    requires Closed(r) && r(Start().(p := PLoadFrontBlock(10, CanAlloc, 0, 0)))
    ensures r(Memory2().(p := PStoreNewTail(10, 0, 1)))
  {
    assert IsStep(
      Start().(p := PLoadFrontBlock(10, CanAlloc, 0, 0)), ProducerStep,
      Start().(p := PAlloc(10, 0)));
    assert seq(2, _ => false) == [false, false];
    assert IsStep(
      Start().(p := PAlloc(10, 0)), ProducerAlloc([0, 0]),
      Memory1().(p := PConstructNew(10, 0, 1)));
    assert [0, 0][0 := 10] == [10, 0];
    assert [false, false][0 := true] == [true, false];
    assert IsStep(
      Memory1().(p := PConstructNew(10, 0, 1)), ProducerStep,
      Memory2().(p := PStoreNewTail(10, 0, 1)));
  }

  lemma FirstEnqueueC(r: State<int> -> bool)
    requires Closed(r) && r(Memory2().(p := PStoreNewTail(10, 0, 1)))
    ensures r(Memory4().(p := PSplice(10, 0, 1)))
  {
    assert IsStep(
      Memory2().(p := PStoreNewTail(10, 0, 1)), ProducerStep,
      Memory3().(p := PLinkNew(10, 0, 1)));
    assert IsStep(
      Memory3().(p := PLinkNew(10, 0, 1)), ProducerStep,
      Memory4().(p := PSplice(10, 0, 1)));
  }

  lemma FirstEnqueueD(r: State<int> -> bool)
    requires Closed(r) && r(Memory4().(p := PSplice(10, 0, 1)))
    ensures r(Memory6())
  {
    assert IsStep(
      Memory4().(p := PSplice(10, 0, 1)), ProducerStep,
      Memory5().(p := PStoreTailBlock(10, 0, 1)));
    assert IsStep(
      Memory5().(p := PStoreTailBlock(10, 0, 1)), ProducerStep,
      Memory6().(p := PReturn(true)));
    assert IsStep(Memory6().(p := PReturn(true)), ProducerStep, Memory6());
  }

  lemma FirstDequeueA(r: State<int> -> bool)
    requires Closed(r) && r(Memory6())
    ensures r(Memory6().(c := CReloadFrontBlock(TryDequeue)))
  {
    assert IsStep(
      Memory6(), StartDequeue(TryDequeue),
      Memory6().(c := CLoadFrontBlock(TryDequeue)));
    assert IsStep(
      Memory6().(c := CLoadFrontBlock(TryDequeue)), ConsumerStep,
      Memory6().(c := CLoadFront(TryDequeue, 0, 0)));
    assert IsStep(
      Memory6().(c := CLoadFront(TryDequeue, 0, 0)), ConsumerStep,
      Memory6().(c := CLoadTail(TryDequeue, 0, 0)));
    assert IsStep(
      Memory6().(c := CLoadTail(TryDequeue, 0, 0)), ConsumerStep,
      Memory6().(c := CLoadTailBlock(TryDequeue, 0)));
    assert IsStep(
      Memory6().(c := CLoadTailBlock(TryDequeue, 0)), ConsumerStep,
      Memory6().(c := CReloadFrontBlock(TryDequeue)));
  }

  lemma FirstDequeueB(r: State<int> -> bool)
    requires Closed(r) && r(Memory6().(c := CReloadFrontBlock(TryDequeue)))
    ensures r(Memory6().(c := CLoadNextTail(TryDequeue, 1, 0)))
  {
    assert IsStep(
      Memory6().(c := CReloadFrontBlock(TryDequeue)), ConsumerStep,
      Memory6().(c := CReloadTail(TryDequeue, 0)));
    assert IsStep(
      Memory6().(c := CReloadTail(TryDequeue, 0)), ConsumerStep,
      Memory6().(c := CReloadFront(TryDequeue, 0, 0)));
    assert IsStep(
      Memory6().(c := CReloadFront(TryDequeue, 0, 0)), ConsumerStep,
      Memory6().(c := CLoadNext(TryDequeue, 0)));
    assert IsStep(
      Memory6().(c := CLoadNext(TryDequeue, 0)), ConsumerStep,
      Memory6().(c := CLoadNextFront(TryDequeue, 1)));
    assert IsStep(
      Memory6().(c := CLoadNextFront(TryDequeue, 1)), ConsumerStep,
      Memory6().(c := CLoadNextTail(TryDequeue, 1, 0)));
  }

  lemma FirstDequeueC(r: State<int> -> bool)
    requires Closed(r) && r(Memory6().(c := CLoadNextTail(TryDequeue, 1, 0)))
    ensures r(Memory9())
  {
    assert IsStep(
      Memory6().(c := CLoadNextTail(TryDequeue, 1, 0)), ConsumerStep,
      Memory6().(c := CStoreFrontBlock(TryDequeue, 1, 0)));
    assert IsStep(
      Memory6().(c := CStoreFrontBlock(TryDequeue, 1, 0)), ConsumerStep,
      Memory7().(c := CTake(TryDequeue, 1, 0)));
    assert [true, false][0 := false] == [false, false];
    assert IsStep(
      Memory7().(c := CTake(TryDequeue, 1, 0)), ConsumerStep,
      Memory8().(c := CStoreFront(TryDequeue, 1, 0, 10)));
    assert IsStep(
      Memory8().(c := CStoreFront(TryDequeue, 1, 0, 10)), ConsumerStep,
      Memory9().(c := CReturn(TryDequeue, Some(10))));
    assert IsStep(Memory9().(c := CReturn(TryDequeue, Some(10))), ConsumerStep, Memory9());
  }

  lemma SecondEnqueueA(r: State<int> -> bool)
    requires Closed(r) && r(Memory9())
    ensures r(Memory10().(p := PConstruct(11, 1, 1)))
  {
    assert IsStep(
      Memory9(), StartEnqueue(11, CanAlloc),
      Memory9().(p := PLoadTailBlock(11, CanAlloc)));
    assert IsStep(
      Memory9().(p := PLoadTailBlock(11, CanAlloc)), ProducerStep,
      Memory9().(p := PLoadTail(11, CanAlloc, 1, 0)));
    assert IsStep(
      Memory9().(p := PLoadTail(11, CanAlloc, 1, 0)), ProducerStep,
      Memory9().(p := PLoadFront(11, CanAlloc, 1, 1)));
    assert IsStep(
      Memory9().(p := PLoadFront(11, CanAlloc, 1, 1)), ProducerStep,
      Memory10().(p := PConstruct(11, 1, 1)));
  }

  lemma SecondEnqueueB(r: State<int> -> bool)
    requires Closed(r) && r(Memory10().(p := PConstruct(11, 1, 1)))
    ensures r(Memory12())
  {
    assert [10, 0][1 := 11] == [10, 11];
    assert [false, false][1 := true] == [false, true];
    assert IsStep(
      Memory10().(p := PConstruct(11, 1, 1)), ProducerStep,
      Memory11().(p := PStoreTail(11, 1, 1)));
    assert IsStep(
      Memory11().(p := PStoreTail(11, 1, 1)), ProducerStep,
      Memory12().(p := PReturn(true)));
    assert IsStep(Memory12().(p := PReturn(true)), ProducerStep, Memory12());
  }

  lemma ThirdEnqueueA(r: State<int> -> bool)
    requires Closed(r) && r(Memory12())
    ensures r(Memory12().(p := PLoadFrontBlock(12, CanAlloc, 1, 0)))
  {
    assert IsStep(
      Memory12(), StartEnqueue(12, CanAlloc),
      Memory12().(p := PLoadTailBlock(12, CanAlloc)));
    assert IsStep(
      Memory12().(p := PLoadTailBlock(12, CanAlloc)), ProducerStep,
      Memory12().(p := PLoadTail(12, CanAlloc, 1, 1)));
    assert IsStep(
      Memory12().(p := PLoadTail(12, CanAlloc, 1, 1)), ProducerStep,
      Memory12().(p := PLoadFront(12, CanAlloc, 1, 0)));
    assert IsStep(
      Memory12().(p := PLoadFront(12, CanAlloc, 1, 0)), ProducerStep,
      Memory12().(p := PLoadNext(12, CanAlloc, 1)));
    assert IsStep(
      Memory12().(p := PLoadNext(12, CanAlloc, 1)), ProducerStep,
      Memory12().(p := PLoadFrontBlock(12, CanAlloc, 1, 0)));
  }

  lemma ThirdEnqueueB(r: State<int> -> bool)
    requires Closed(r) && r(Memory12().(p := PLoadFrontBlock(12, CanAlloc, 1, 0)))
    ensures r(Memory13().(p := PStoreNextTail(12, 1, 0, 0)))
  {
    assert IsStep(
      Memory12().(p := PLoadFrontBlock(12, CanAlloc, 1, 0)), ProducerStep,
      Memory12().(p := PReloadNext(12, 1)));
    assert IsStep(
      Memory12().(p := PReloadNext(12, 1)), ProducerStep,
      Memory12().(p := PLoadNextFront(12, 1, 0)));
    assert IsStep(
      Memory12().(p := PLoadNextFront(12, 1, 0)), ProducerStep,
      Memory12().(p := PLoadNextTail(12, 1, 0, 0)));
    assert IsStep(
      Memory12().(p := PLoadNextTail(12, 1, 0, 0)), ProducerStep,
      Memory12().(p := PConstructNext(12, 1, 0, 0)));
    assert [0][0 := 12] == [12];
    assert [false][0 := true] == [true];
    assert IsStep(
      Memory12().(p := PConstructNext(12, 1, 0, 0)), ProducerStep,
      Memory13().(p := PStoreNextTail(12, 1, 0, 0)));
  }

  lemma ThirdEnqueueC(r: State<int> -> bool)
    requires Closed(r) && r(Memory13().(p := PStoreNextTail(12, 1, 0, 0)))
    ensures r(Memory14())
  {
    assert IsStep(
      Memory13().(p := PStoreNextTail(12, 1, 0, 0)), ProducerStep,
      Memory13().(p := PStoreTailBlock(12, 1, 0)));
    assert IsStep(
      Memory13().(p := PStoreTailBlock(12, 1, 0)), ProducerStep,
      Memory14().(p := PReturn(true)));
    assert IsStep(Memory14().(p := PReturn(true)), ProducerStep, Memory14());
  }

  lemma SecondDequeueA(r: State<int> -> bool)
    requires Closed(r) && r(Memory14())
    ensures r(Memory15().(c := CTake(TryDequeue, 1, 1)))
  {
    assert IsStep(
      Memory14(), StartDequeue(TryDequeue),
      Memory14().(c := CLoadFrontBlock(TryDequeue)));
    assert IsStep(
      Memory14().(c := CLoadFrontBlock(TryDequeue)), ConsumerStep,
      Memory14().(c := CLoadFront(TryDequeue, 1, 1)));
    assert IsStep(
      Memory14().(c := CLoadFront(TryDequeue, 1, 1)), ConsumerStep,
      Memory14().(c := CLoadTail(TryDequeue, 1, 1)));
    assert IsStep(
      Memory14().(c := CLoadTail(TryDequeue, 1, 1)), ConsumerStep,
      Memory15().(c := CTake(TryDequeue, 1, 1)));
  }

  lemma SecondDequeueB(r: State<int> -> bool)
    requires Closed(r) && r(Memory15().(c := CTake(TryDequeue, 1, 1)))
    ensures r(Memory17())
  {
    assert [false, true][1 := false] == [false, false];
    assert IsStep(
      Memory15().(c := CTake(TryDequeue, 1, 1)), ConsumerStep,
      Memory16().(c := CStoreFront(TryDequeue, 1, 1, 11)));
    assert IsStep(
      Memory16().(c := CStoreFront(TryDequeue, 1, 1, 11)), ConsumerStep,
      Memory17().(c := CReturn(TryDequeue, Some(11))));
    assert IsStep(Memory17().(c := CReturn(TryDequeue, Some(11))), ConsumerStep, Memory17());
  }

  lemma ThirdDequeueA(r: State<int> -> bool)
    requires Closed(r) && r(Memory17())
    ensures r(Memory17().(c := CReloadTail(TryDequeue, 1)))
  {
    assert IsStep(
      Memory17(), StartDequeue(TryDequeue),
      Memory17().(c := CLoadFrontBlock(TryDequeue)));
    assert IsStep(
      Memory17().(c := CLoadFrontBlock(TryDequeue)), ConsumerStep,
      Memory17().(c := CLoadFront(TryDequeue, 1, 0)));
    assert IsStep(
      Memory17().(c := CLoadFront(TryDequeue, 1, 0)), ConsumerStep,
      Memory17().(c := CLoadTail(TryDequeue, 1, 0)));
    assert IsStep(
      Memory17().(c := CLoadTail(TryDequeue, 1, 0)), ConsumerStep,
      Memory17().(c := CLoadTailBlock(TryDequeue, 1)));
    assert IsStep(
      Memory17().(c := CLoadTailBlock(TryDequeue, 1)), ConsumerStep,
      Memory17().(c := CReloadFrontBlock(TryDequeue)));
    assert IsStep(
      Memory17().(c := CReloadFrontBlock(TryDequeue)), ConsumerStep,
      Memory17().(c := CReloadTail(TryDequeue, 1)));
  }

  lemma ThirdDequeueB(r: State<int> -> bool)
    requires Closed(r) && r(Memory17().(c := CReloadTail(TryDequeue, 1)))
    ensures r(Memory17().(c := CFault))
  {
    assert IsStep(
      Memory17().(c := CReloadTail(TryDequeue, 1)), ConsumerStep,
      Memory17().(c := CReloadFront(TryDequeue, 1, 0)));
    assert IsStep(
      Memory17().(c := CReloadFront(TryDequeue, 1, 0)), ConsumerStep,
      Memory17().(c := CLoadNext(TryDequeue, 1)));
    assert IsStep(
      Memory17().(c := CLoadNext(TryDequeue, 1)), ConsumerStep,
      Memory17().(c := CLoadNextFront(TryDequeue, 0)));
    assert IsStep(
      Memory17().(c := CLoadNextFront(TryDequeue, 0)), ConsumerStep,
      Memory17().(c := CLoadNextTail(TryDequeue, 0, 0)));
    assert IsStep(
      Memory17().(c := CLoadNextTail(TryDequeue, 0, 0)), ConsumerStep,
      Memory17().(c := CFault));
  }

  /** ReaderWriterQueue(0) and enqueue(10), dequeue, enqueue(11), enqueue(12), dequeue, dequeue:
      the third call of try_dequeue fails its assertion, and 12 is gone. */
  lemma ZeroSizeFaults()
    ensures Reached(Memory17().(c := CFault), 0)
  {
    var r := (s: State<int>) => Reached(s, 0);
    StartReached();
    forall s, ev, s' | r(s) && IsStep(s, ev, s') ensures r(s') {
      Go(s, ev, s', 0);
    }
    FirstEnqueueA(r);
    FirstEnqueueB(r);
    FirstEnqueueC(r);
    FirstEnqueueD(r);
    FirstDequeueA(r);
    FirstDequeueB(r);
    FirstDequeueC(r);
    SecondEnqueueA(r);
    SecondEnqueueB(r);
    ThirdEnqueueA(r);
    ThirdEnqueueB(r);
    ThirdEnqueueC(r);
    SecondDequeueA(r);
    SecondDequeueB(r);
    ThirdDequeueA(r);
    ThirdDequeueB(r);
  }

  // ---------- sizes that wrap ----------

  /** MAX_BLOCK_SIZE is 512 by default. */
  lemma DefaultMaxOk()
    ensures MaxOk(512)
  {
    assert 512 == B.Pow2(9);
  }

  ghost function Slotless(): State<int> {
    State([Block(B.WORD, 0, 0, 0, 0, [], [])], [0], 0, 0, 0, 512, PIdle, CIdle, [0], 0)
  }

  lemma SlotlessReached(size: nat)
    requires B.HALF <= size < B.WORD
    ensures Reached(Slotless(), size)
  {
    assert Rounded(size) == 0;
    DefaultMaxOk();
    var states, evs: seq<Event<int>> := [Slotless()], [];
    assert IsRun(states, evs, size) && states[|evs|] == Slotless();
  }

  /** The first enqueue on such a queue uses a slot that does not exist. */
  lemma WrappedSizeFaults(size: nat)
    requires B.HALF <= size < B.WORD
    ensures Reached(Slotless().(p := PFault), size)
  {
    var s := Slotless();
    SlotlessReached(size);
    Go(s, StartEnqueue(10, CanAlloc), s.(p := PLoadTailBlock(10, CanAlloc)), size);
    Go(s.(p := PLoadTailBlock(10, CanAlloc)), ProducerStep, s.(p := PLoadTail(10, CanAlloc, 0, 0)), size);
    Go(s.(p := PLoadTail(10, CanAlloc, 0, 0)), ProducerStep, s.(p := PConstruct(10, 0, 0)), size);
    Go(s.(p := PConstruct(10, 0, 0)), ProducerStep, s.(p := PFault), size);
  }

  // ---------- the exact condition ----------

  /** No assertion has failed, and no slot was used that does not exist. */
  predicate Sound(s: State<int>) {
    !s.p.PFault? && !s.c.CFault?
  }

  lemma UsableIsSafe(size: nat, s: State<int>)
    requires Usable(size) && Reached(s, size)
    ensures Typed(s) && Sound(s)
  {
    var states: seq<State<int>>, evs: seq<Event<int>> :| IsRun(states, evs, size) && states[|evs|] == s;
    RunOk(states, evs, size, |evs|);
  }

  lemma UnusableFaults(size: nat) returns (s: State<int>)
    requires size < B.WORD && !Usable(size)
    ensures Reached(s, size) && !Sound(s)
  {
    if size == 0 {
      ZeroSizeFaults();
      s := Memory17().(c := CFault);
    } else {
      WrappedSizeFaults(size);
      s := Slotless().(p := PFault);
    }
  }

  /** Of all arguments of size_t, those from 1 up to but not including 2^63 are the ones for which
      no run of a queue of integers goes wrong, and for which every name and index in every
      reachable state is that of a block or slot. */
  lemma SafeExact(size: nat)
    requires size < B.WORD
    ensures (forall s :: Reached(s, size) ==> Sound(s)) <==> Usable(size)
    ensures (forall s :: Reached(s, size) ==> Typed(s) && Sound(s)) <==> Usable(size)
  {
    if Usable(size) {
      forall s | Reached(s, size) ensures Typed(s) && Sound(s) {
        UsableIsSafe(size, s);
      }
    } else {
      var s := UnusableFaults(size);
    }
  }
}
