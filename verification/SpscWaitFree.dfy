/** Every call ends after a bounded number of its own steps, whatever the other thread does. */
module SpscWaitFree {
  import opened SpscProtocol
  import opened SpscInvariant
  import opened SpscRuns
  import opened Capacity

  /** At most how many steps the call under way still takes. */
  function ConsumerLeft<T>(c: Consumer<T>): nat {
    match c
    case CIdle => 0
    case CFault => 0
    case CReturn(_, _) => 1
    case CStoreFront(_, _, _, _) => 2
    case CTake(_, _, _) => 3
    case CStoreFrontBlock(_, _, _) => 4
    case CLoadNextTail(_, _, _) => 5
    case CLoadNextFront(_, _) => 6
    case CLoadNext(_, _) => 7
    case CReloadFront(_, _, _) => 8
    case CReloadTail(_, _) => 9
    case CReloadFrontBlock(_) => 10
    case CLoadTailBlock(_, _) => 11
    case CLoadTail(_, _, _) => 12
    case CLoadFront(_, _, _) => 13
    case CLoadFrontBlock(_) => 14
  }

  function ProducerLeft<T>(p: Producer<T>): nat {
    match p
    case PIdle => 0
    case PFault => 0
    case PReturn(_) => 1
    case PStoreTail(_, _, _) => 2
    case PStoreTailBlock(_, _, _) => 2
    case PConstruct(_, _, _) => 3
    case PStoreNextTail(_, _, _, _) => 3
    case PSplice(_, _, _) => 3
    case PConstructNext(_, _, _, _) => 4
    case PLinkNew(_, _, _) => 4
    case PLoadNextTail(_, _, _, _) => 5
    case PStoreNewTail(_, _, _) => 5
    case PLoadNextFront(_, _, _) => 6
    case PConstructNew(_, _, _) => 6
    case PReloadNext(_, _) => 7
    case PAlloc(_, _) => 7
    case PLoadFrontBlock(_, _, _, _) => 8
    case PLoadNext(_, _, _) => 9
    case PLoadFront(_, _, _, _) => 10
    case PLoadTail(_, _, _, _) => 11
    case PLoadTailBlock(_, _) => 12
  }

  predicate ByProducer<T>(ev: Event<T>) {
    ev.ProducerStep? || ev.ProducerAlloc?
  }

  lemma StepCounts<T>(s: State<T>, ev: Event<T>, s': State<T>)
    requires IsStep(s, ev, s')
    ensures !ev.StartDequeue? ==> ConsumerLeft(s'.c) + (if ev.ConsumerStep? then 1 else 0) <= ConsumerLeft(s.c)
    ensures !ev.StartEnqueue? ==> ProducerLeft(s'.p) + (if ByProducer(ev) then 1 else 0) <= ProducerLeft(s.p)
  {
    match ev
    case ProducerStep =>
      OthersCalls(s, ev);
      if Leaving(s.p) { LeavingCounts(s); } else { ProducerCounts(s); }
    case ConsumerStep =>
      OthersCalls(s, ev);
      ConsumerCounts(s);
    case _ =>
  }

  lemma OthersCalls<T>(s: State<T>, ev: Event<T>)
    requires Named(s) && Enabled(s, ev) && (ev.ProducerStep? || ev.ConsumerStep?)
    ensures ev.ProducerStep? ==> Step(s, ev).c == s.c
    ensures ev.ConsumerStep? ==> Step(s, ev).p == s.p
  {
  }

  lemma ProducerCounts<T>(s: State<T>)
    requires Named(s) && Enabled(s, ProducerStep) && !Leaving(s.p)
    ensures ProducerLeft(ProducerStep'(s).p) < ProducerLeft(s.p)
  {
  }

  lemma LeavingCounts<T>(s: State<T>)
    requires Named(s) && Enabled(s, ProducerStep) && Leaving(s.p)
    ensures ProducerLeft(ProducerStep'(s).p) < ProducerLeft(s.p)
  {
  }

  lemma ConsumerCounts<T>(s: State<T>)
    requires Named(s) && Enabled(s, ConsumerStep)
    ensures ConsumerLeft(ConsumerStep'(s).c) < ConsumerLeft(s.c)
  {
  }

  // ---------- over runs ----------

  /** How many of the events from step m up to step n are steps of a call of this kind. */
  ghost function Count<T>(evs: seq<Event<T>>, own: Event<T> -> bool, m: nat, n: nat): nat
    requires m <= n <= |evs|
  {
    if m == n then 0 else Count(evs, own, m, n - 1) + if own(evs[n - 1]) then 1 else 0
  }

  /** Each such step uses up one of what is left. */
  lemma {:induction false} Spends<T>(
    states: seq<State<T>>, evs: seq<Event<T>>, own: Event<T> -> bool, left: State<T> -> nat, m: nat, n: nat)
    requires m <= n <= |evs| < |states|
    requires forall k :: m <= k < n ==> left(states[k + 1]) + (if own(evs[k]) then 1 else 0) <= left(states[k])
    ensures Count(evs, own, m, n) + left(states[n]) <= left(states[m])
  {
    if m < n {
      var k := n - 1;
      Spends(states, evs, own, left, m, k);
      assert left(states[k + 1]) + (if own(evs[k]) then 1 else 0) <= left(states[k]);
    }
  }

  /** A thread with a call under way always has a next step; and a dequeue, pop or peek that began at
      step m takes at most 14 steps of its own. */
  lemma DequeueEnds<T>(states: seq<State<T>>, evs: seq<Event<T>>, size: nat, m: nat, n: nat)
    requires IsRun(states, evs, size) && Usable(size) && m < n <= |evs|
    requires evs[m].StartDequeue? && forall k :: m < k < n ==> !evs[k].StartDequeue?
    ensures Named(states[n]) && (!states[n].c.CIdle? ==> Enabled(states[n], ConsumerStep))
    ensures Count(evs, (ev: Event<T>) => ev.ConsumerStep?, m + 1, n) + ConsumerLeft(states[n].c) <= 14
  {
    NextStep(states, evs, size, n);
    var own, left := (ev: Event<T>) => ev.ConsumerStep?, (s: State<T>) => ConsumerLeft(s.c);
    forall k | m < k < n ensures left(states[k + 1]) + (if own(evs[k]) then 1 else 0) <= left(states[k]) {
      assert IsStep(states[k], evs[k], states[k + 1]);
      StepCounts(states[k], evs[k], states[k + 1]);
    }
    Spends(states, evs, own, left, m + 1, n);
    assert IsStep(states[m], evs[m], states[m + 1]);
  }

  /** And an enqueue at most 12. */
  lemma EnqueueEnds<T>(states: seq<State<T>>, evs: seq<Event<T>>, size: nat, m: nat, n: nat)
    requires IsRun(states, evs, size) && Usable(size) && m < n <= |evs|
    requires evs[m].StartEnqueue? && forall k :: m < k < n ==> !evs[k].StartEnqueue?
    ensures Named(states[n]) && (!states[n].p.PIdle? ==> Enabled(states[n], ProducerStep))
    ensures Count(evs, (ev: Event<T>) => ByProducer(ev), m + 1, n) + ProducerLeft(states[n].p) <= 12
  {
    NextStep(states, evs, size, n);
    var own, left := (ev: Event<T>) => ByProducer(ev), (s: State<T>) => ProducerLeft(s.p);
    forall k | m < k < n ensures left(states[k + 1]) + (if own(evs[k]) then 1 else 0) <= left(states[k]) {
      assert IsStep(states[k], evs[k], states[k + 1]);
      StepCounts(states[k], evs[k], states[k + 1]);
    }
    Spends(states, evs, own, left, m + 1, n);
    assert IsStep(states[m], evs[m], states[m + 1]);
  }

  lemma NextStep<T>(states: seq<State<T>>, evs: seq<Event<T>>, size: nat, n: nat)
    requires IsRun(states, evs, size) && Usable(size) && n < |states|
    ensures Named(states[n]) && !states[n].c.CFault? && !states[n].p.PFault?
  {
    RunOk(states, evs, size, n);
  }
}
