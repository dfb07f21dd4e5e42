/**
 BlockingReaderWriterQueue: the queue's step system and the semaphore's, composed.  A producer
 enqueues and then signals; a consumer waits and then dequeues, and asserts that it succeeds.
 */
module BlockingQueue {
  import opened Wrappers
  import Q = SpscProtocol
  import QI = SpscInvariant
  import QR = SpscRuns
  import QC = SpscCalls
  import C = SpscConsumer
  import M = Semaphore
  import O = SpscOutcomes
  import opened Capacity

  datatype Call = TryDequeue | WaitDequeue | WaitDequeueTimed(timeout: int) | Pop | Peek

  datatype Producer = PReady | PEnqueue | PSignal

  /** CInner's head is history: what was at the front of the queue when the inner call began. */
  datatype Consumer<T> =
    | CReady
    | CWait(call: Call)
    | CInner(call: Call, head: Option<T>)
    | CPeek
    | CFault  // an assertion failed: the inner call returned false

  /** accepted and delivered are history: the elements published in, and removed from, the queue. */
  datatype State<T> = State(
    q: Q.State<T>, sem: M.State, p: Producer, c: Consumer<T>,
    accepted: seq<T>, delivered: seq<T>)

  datatype Event<T> =
    | Enqueue(e: T, mode: Q.Mode)
    | ProducerInner(ev: Q.Event<T>)
    | EnqueueDone
    | SignalStep
    | SignalDone
    | Dequeue(call: Call)
    | WaitStep(wev: M.Event)
    | WaitDone
    | ConsumerInner
    | DequeueDone

  ghost predicate Init<T>(s: State<T>, size: nat) {
    && QR.Init(s.q, size) && M.Init(s.sem, 0)
    && s.p == PReady && s.c == CReady && s.accepted == s.delivered == []
  }

  ghost predicate Enabled<T>(s: State<T>, ev: Event<T>) {
    && Q.Typed(s.q)
    && match ev
       case Enqueue(_, _) => s.p.PReady? && s.q.p.PIdle?
       case ProducerInner(qev) =>
         s.p.PEnqueue? && !s.q.p.PReturn? && (qev.ProducerStep? || qev.ProducerAlloc?) && Q.Enabled(s.q, qev)
       case EnqueueDone => s.p.PEnqueue? && s.q.p.PReturn? && s.sem.s.SIdle?
       case SignalStep => s.p.PSignal? && !s.sem.s.SIdle? && !s.sem.s.SReturn?
       case SignalDone => s.p.PSignal? && s.sem.s.SReturn?
       case Dequeue(_) => s.c.CReady? && s.q.c.CIdle? && s.sem.w.WIdle?
       case WaitStep(wev) =>
         s.c.CWait? && !s.sem.w.WReturn? && (wev.WaiterStep? || wev.KernelFails?) && M.Enabled(s.sem, wev)
       case WaitDone => s.c.CWait? && s.sem.w.WReturn? && s.q.c.CIdle?
       case ConsumerInner => (s.c.CInner? || s.c.CPeek?) && !s.q.c.CReturn? && Q.Enabled(s.q, Q.ConsumerStep)
       case DequeueDone => (s.c.CInner? || s.c.CPeek?) && s.q.c.CReturn?
  }

  function SemCall(call: Call): M.Call {
    match call
    case WaitDequeue => M.Wait(-1)
    case WaitDequeueTimed(timeout) => M.Wait(timeout)
    case _ => M.TryWait
  }

  function InnerOp(call: Call): Q.Op {
    match call
    case Pop => Q.Pop
    case Peek => Q.Peek
    case _ => Q.TryDequeue
  }

  /** readerwriterqueue.h:784-943. */
  ghost function Step<T>(s: State<T>, ev: Event<T>): (s': State<T>)
    requires Enabled(s, ev)
  {
    match ev
    case Enqueue(e, mode) => s.(q := Q.Step(s.q, Q.StartEnqueue(e, mode)), p := PEnqueue)
    case ProducerInner(qev) => s.(q := Q.Step(s.q, qev), accepted := s.accepted + QR.Appended(s.q, qev))
    case EnqueueDone =>
      var s1 := s.(q := Q.Step(s.q, Q.ProducerStep));
      if s.q.p.ok then s1.(sem := M.Step(s.sem, M.StartSignal(1)), p := PSignal) else s1.(p := PReady)
    case SignalStep => s.(sem := M.Step(s.sem, M.SignallerStep))
    case SignalDone => s.(sem := M.Step(s.sem, M.SignallerStep), p := PReady)
    case Dequeue(call) =>
      if call.Peek? then s.(q := Q.Step(s.q, Q.StartDequeue(Q.Peek)), c := CPeek)
      else s.(sem := M.Step(s.sem, M.StartWait(SemCall(call))), c := CWait(call))
    case WaitStep(wev) => s.(sem := M.Step(s.sem, wev))
    case WaitDone => WaitDone'(s)
    case ConsumerInner =>
      s.(q := Q.Step(s.q, Q.ConsumerStep), delivered := s.delivered + C.Removed(s.q.c))
    case DequeueDone =>
      var s1 := s.(q := Q.Step(s.q, Q.ConsumerStep));
      if s.c.CInner? && s.q.c.result == None then s1.(c := CFault) else s1.(c := CReady)
  }

  /** A successful wait goes on to the inner call; wait_dequeue waits again after a failed one. */
  ghost function WaitDone'<T>(s: State<T>): (s': State<T>)
    requires Enabled(s, WaitDone)
  {
    var s1 := s.(sem := M.Step(s.sem, M.WaiterStep));
    if s.sem.w.ok then
      s1.(q := Q.Step(s.q, Q.StartDequeue(InnerOp(s.c.call))),
          c := CInner(s.c.call, if QC.Contents(s.q) != [] then Some(QC.Contents(s.q)[0]) else None))
    else if s.c.call.WaitDequeue? then
      s1.(sem := M.Step(s1.sem, M.StartWait(M.Wait(-1))))
    else s1.(c := CReady)
  }

  // ---------- the invariant ----------

  /** An element was published that is not yet signalled. */
  function Unsignalled<T>(s: State<T>): nat {
    if (s.p.PEnqueue? && s.q.p == Q.PReturn(true)) || (s.p.PSignal? && s.sem.s.SAdd?) then 1 else 0
  }

  /** A wait has succeeded whose element is not yet removed. */
  function Permit<T>(s: State<T>): nat {
    if (s.c.CWait? && s.sem.w == M.WReturn(true)) || (s.c.CInner? && !s.q.c.CReturn?) then 1 else 0
  }

  ghost predicate ProducerOk<T>(s: State<T>) {
    match s.p
    case PReady => s.q.p.PIdle? && s.sem.s.SIdle?
    case PEnqueue => !s.q.p.PIdle? && s.sem.s.SIdle?
    case PSignal => s.q.p.PIdle? && !s.sem.s.SIdle? && (s.sem.s.SAdd? ==> s.sem.s.n == 1)
  }

  ghost predicate ConsumerOk<T>(s: State<T>)
    requires Q.MemoryTyped(s.q) && QI.Linked(s.q)
  {
    match s.c
    case CReady => s.q.c.CIdle? && s.sem.w.WIdle?
    case CWait(call) => !call.Peek? && s.q.c.CIdle? && !s.sem.w.WIdle?
    case CInner(_, head) => s.sem.w.WIdle? && Removing(s.q.c) && head.Some? && QC.WillReturn(s.q, head.value)
    case CPeek => s.sem.w.WIdle? && Peeking(s.q.c)
    case CFault => false
  }

  /** The inner call under way is peek. */
  ghost predicate Peeking<T>(c: Q.Consumer<T>) {
    !c.CIdle? && !c.CFault? && c.op.Peek? && !c.CStoreFront?
  }

  /** The inner call under way is try_dequeue or pop. */
  ghost predicate Removing<T>(c: Q.Consumer<T>) {
    !c.CIdle? && !c.CFault? && !c.op.Peek?
  }

  /** What was published is what was signalled, and what was removed is what was waited for,
      but for one element each on the way. */
  ghost predicate Ledger<T>(s: State<T>) {
    && |s.accepted| == s.sem.signals + Unsignalled(s)
    && |s.delivered| + Permit(s) == s.sem.waits
    && s.accepted == s.delivered + QC.Contents(s.q)
  }

  ghost predicate Inv<T>(s: State<T>) {
    QI.Inv(s.q) && M.Inv(s.sem) && ProducerOk(s) && ConsumerOk(s) && Ledger(s)
  }

  /** A permit is always good for an element. */
  lemma PermitHasElement<T>(s: State<T>)
    requires M.Inv(s.sem) && Ledger(s)
    ensures |QC.Contents(s.q)| + s.sem.waits == s.sem.signals + Unsignalled(s) + Permit(s)
    ensures Permit(s) <= |QC.Contents(s.q)|
  {
  }

  lemma InitOk<T>(s: State<T>, size: nat)
    requires Init(s, size) && Usable(size)
    ensures Inv(s)
  {
    QR.InitOk(s.q, size);
    M.InitOk(s.sem, 0);
  }

  // ---------- the steps ----------

  lemma EnqueueStep<T>(s: State<T>, e: T, mode: Q.Mode)
    requires Inv(s) && Enabled(s, Enqueue(e, mode))
    ensures Inv(Step(s, Enqueue(e, mode)))
  {
    KeepHead(s, Q.StartEnqueue(e, mode));
  }

  /** A producer's step of the inner queue, from the consumer's side. */
  lemma KeepHead<T>(s: State<T>, ev: Q.Event<T>)
    requires QI.Inv(s.q) && ConsumerOk(s) && Q.Enabled(s.q, ev)
    requires ev.StartEnqueue? || ev.ProducerStep? || ev.ProducerAlloc?
    ensures QI.Inv(Q.Step(s.q, ev)) && Q.Step(s.q, ev).c == s.q.c
    ensures QC.Contents(Q.Step(s.q, ev)) == QC.Contents(s.q) + QR.Appended(s.q, ev)
    ensures ConsumerOk(s.(q := Q.Step(s.q, ev)))
  {
    QR.StepOk(s.q, ev);
    assert Q.Step(s.q, ev).c == s.q.c;
    if s.c.CInner? {
      QC.ProducerKeepsPromise(s.q, ev, s.c.head.value);
    }
  }

  lemma ProducerInnerStep<T>(s: State<T>, ev: Q.Event<T>)
    requires Inv(s) && Enabled(s, ProducerInner(ev))
    ensures Inv(Step(s, ProducerInner(ev)))
  {
    KeepHead(s, ev);
    ProducerInnerLedger(s, ev);
  }

  lemma ProducerInnerLedger<T>(s: State<T>, ev: Q.Event<T>)
    requires ProducerOk(s) && Ledger(s) && Enabled(s, ProducerInner(ev)) && Q.Step(s.q, ev).c == s.q.c
    requires QC.Contents(Q.Step(s.q, ev)) == QC.Contents(s.q) + QR.Appended(s.q, ev)
    ensures ProducerOk(Step(s, ProducerInner(ev))) && Ledger(Step(s, ProducerInner(ev)))
  {
    AppendsOnReturn(s.q, ev);
  }

  /** An element is published by the last step before the inner call returns true, and not before. */
  lemma AppendsOnReturn<T>(q: Q.State<T>, ev: Q.Event<T>)
    requires Q.Typed(q) && Q.Enabled(q, ev) && !q.p.PReturn? && (ev.ProducerStep? || ev.ProducerAlloc?)
    ensures |QR.Appended(q, ev)| == if Q.Step(q, ev).p == Q.PReturn(true) then 1 else 0
    ensures !Q.Step(q, ev).p.PIdle?
  {
  }

  lemma EnqueueDoneStep<T>(s: State<T>)
    requires Inv(s) && Enabled(s, EnqueueDone)
    ensures Inv(Step(s, EnqueueDone))
  {
    KeepHead(s, Q.ProducerStep);
    EnqueueDoneLedger(s);
    if s.q.p.ok {
      M.StepOk(s.sem, M.StartSignal(1));
    }
  }

  lemma EnqueueDoneLedger<T>(s: State<T>)
    requires ProducerOk(s) && Ledger(s) && Enabled(s, EnqueueDone)
    requires Q.Step(s.q, Q.ProducerStep).c == s.q.c
    requires QC.Contents(Q.Step(s.q, Q.ProducerStep)) == QC.Contents(s.q)
    ensures Step(s, EnqueueDone).sem.w == s.sem.w
    ensures ProducerOk(Step(s, EnqueueDone)) && Ledger(Step(s, EnqueueDone))
  {
  }

  lemma DequeueStep<T>(s: State<T>, call: Call)
    requires Inv(s) && Enabled(s, Dequeue(call))
    ensures Inv(Step(s, Dequeue(call)))
  {
    if call.Peek? {
      QR.StepOk(s.q, Q.StartDequeue(Q.Peek));
    }
  }

  lemma SignalSteps<T>(s: State<T>, ev: Event<T>)
    requires Inv(s) && (ev.SignalStep? || ev.SignalDone?) && Enabled(s, ev)
    ensures Inv(Step(s, ev))
  {
    M.StepOk(s.sem, M.SignallerStep);
  }

  lemma WaitStepOk<T>(s: State<T>, wev: M.Event)
    requires Inv(s) && Enabled(s, WaitStep(wev))
    ensures Inv(Step(s, WaitStep(wev)))
  {
    M.StepOk(s.sem, wev);
  }

  lemma WaitDoneStep<T>(s: State<T>)
    requires Inv(s) && Enabled(s, WaitDone)
    ensures Inv(Step(s, WaitDone))
  {
    M.StepOk(s.sem, M.WaiterStep);
    if s.sem.w.ok {
      PermitHasElement(s);
      var ev := Q.StartDequeue(InnerOp(s.c.call));
      QC.MakesPromise(s.q, ev, Q.Step(s.q, ev));
      StartKeepsContents(s.q, ev);
      assert ConsumerOk(Step(s, WaitDone));
    }
    if s.c.call.WaitDequeue? && !s.sem.w.ok {
      M.StepOk(M.Step(s.sem, M.WaiterStep), M.StartWait(M.Wait(-1)));
    }
    WaitDoneLedger(s);
  }

  lemma StartKeepsContents<T>(q: Q.State<T>, ev: Q.Event<T>)
    requires QI.Inv(q) && Q.Enabled(q, ev) && ev.StartDequeue?
    ensures QC.Contents(Q.Step(q, ev)) == QC.Contents(q)
  {
    QR.StepOk(q, ev);
  }

  lemma WaitDoneLedger<T>(s: State<T>)
    requires M.Inv(s.sem) && ProducerOk(s) && Ledger(s) && Enabled(s, WaitDone)
    requires forall ev: Q.Event<T> :: ev.StartDequeue? && Q.Enabled(s.q, ev) ==>
      QC.Contents(Q.Step(s.q, ev)) == QC.Contents(s.q)
    ensures ProducerOk(Step(s, WaitDone)) && Ledger(Step(s, WaitDone))
  {
  }

  lemma ConsumerInnerStep<T>(s: State<T>)
    requires Inv(s) && Enabled(s, ConsumerInner)
    ensures Inv(Step(s, ConsumerInner))
  {
    ConsumerInnerHead(s.q, if s.c.CInner? then s.c.head else None);
    ConsumerInnerTakes(s, Q.Step(s.q, Q.ConsumerStep));
  }

  lemma ConsumerInnerTakes<T>(s: State<T>, q': Q.State<T>)
    requires Ledger(s) && Enabled(s, ConsumerInner) && q' == Q.Step(s.q, Q.ConsumerStep)
    requires if s.c.CPeek? then Peeking(s.q.c) else Removing(s.q.c)
    requires !q'.c.CFault? && (s.c.CInner? && q'.c.CReturn? ==> q'.c.result.Some?)
    requires QC.Contents(s.q) == C.Removed(s.q.c) + QC.Contents(q')
    ensures Ledger(Step(s, ConsumerInner)) && q'.p == s.q.p
    ensures if s.c.CPeek? then Peeking(q'.c) else Removing(q'.c)
  {
    RemovesOnReturn(s.q, q');
    ConsumerInnerLedger(s, q', C.Removed(s.q.c));
  }

  lemma ConsumerInnerHead<T>(q: Q.State<T>, head: Option<T>)
    requires QI.Inv(q) && Q.Enabled(q, Q.ConsumerStep) && !q.c.CReturn?
    requires head.Some? ==> QC.WillReturn(q, head.value)
    ensures QI.Inv(Q.Step(q, Q.ConsumerStep))
    ensures QC.Contents(q) == C.Removed(q.c) + QC.Contents(Q.Step(q, Q.ConsumerStep))
    ensures head.Some? ==> QC.WillReturn(Q.Step(q, Q.ConsumerStep), head.value)
  {
    C.ConsumerStepOk(q);
    if head.Some? {
      QC.ConsumerKeepsPromise(q, Q.Step(q, Q.ConsumerStep), head.value);
    }
  }

  /** Only the step that returns removes an element, and peek does not. */
  lemma RemovesOnReturn<T>(q: Q.State<T>, q': Q.State<T>)
    requires Q.Typed(q) && Q.Enabled(q, Q.ConsumerStep) && !q.c.CReturn?
    requires q' == Q.Step(q, Q.ConsumerStep) && !q'.c.CFault?
    ensures Peeking(q.c) ==> Peeking(q'.c) && C.Removed(q.c) == []
    ensures Removing(q.c) ==> Removing(q'.c)
    ensures Removing(q.c) ==> |C.Removed(q.c)| == if q'.c.CReturn? && q'.c.result.Some? then 1 else 0
  {
  }

  lemma ConsumerInnerLedger<T>(s: State<T>, q': Q.State<T>, removed: seq<T>)
    requires Ledger(s) && (s.c.CInner? || s.c.CPeek?) && !s.q.c.CReturn? && q'.p == s.q.p
    requires s.c.CPeek? ==> removed == []
    requires s.c.CInner? ==> |removed| == if q'.c.CReturn? then 1 else 0
    requires QC.Contents(s.q) == removed + QC.Contents(q')
    ensures Ledger(s.(q := q', delivered := s.delivered + removed))
  {
  }

  lemma DequeueDoneStep<T>(s: State<T>)
    requires Inv(s) && Enabled(s, DequeueDone)
    ensures Inv(Step(s, DequeueDone))
  {
    C.ConsumerStepOk(s.q);
    DequeueDoneLedger(s, Q.Step(s.q, Q.ConsumerStep));
  }

  lemma DequeueDoneLedger<T>(s: State<T>, q': Q.State<T>)
    requires ProducerOk(s) && Ledger(s) && Enabled(s, DequeueDone) && q' == Q.Step(s.q, Q.ConsumerStep)
    requires QC.Contents(q') == QC.Contents(s.q)
    ensures ProducerOk(Step(s, DequeueDone)) && Ledger(Step(s, DequeueDone)) && q'.c.CIdle?
  {
  }

  lemma StepOk<T>(s: State<T>, ev: Event<T>)
    requires Inv(s) && Enabled(s, ev)
    ensures Inv(Step(s, ev))
  {
    match ev
    case Enqueue(e, mode) => EnqueueStep(s, e, mode);
    case ProducerInner(qev) => ProducerInnerStep(s, qev);
    case EnqueueDone => EnqueueDoneStep(s);
    case SignalStep => SignalSteps(s, ev);
    case SignalDone => SignalSteps(s, ev);
    case Dequeue(call) => DequeueStep(s, call);
    case WaitStep(wev) => WaitStepOk(s, wev);
    case WaitDone => WaitDoneStep(s);
    case ConsumerInner => ConsumerInnerStep(s);
    case DequeueDone => DequeueDoneStep(s);
  }

  // ---------- main results ----------

  ghost predicate IsRun<T>(states: seq<State<T>>, evs: seq<Event<T>>, size: nat) {
    && |states| == |evs| + 1 && Init(states[0], size)
    && forall i :: 0 <= i < |evs| ==> Enabled(states[i], evs[i]) && states[i + 1] == Step(states[i], evs[i])
  }

  lemma {:induction false} RunOk<T>(states: seq<State<T>>, evs: seq<Event<T>>, size: nat, n: nat)
    requires IsRun(states, evs, size) && Usable(size) && n < |states|
    ensures Inv(states[n])
  {
    if n == 0 {
      InitOk(states[0], size);
    } else {
      RunOk(states, evs, size, n - 1);
      assert Enabled(states[n - 1], evs[n - 1]);
      StepOk(states[n - 1], evs[n - 1]);
    }
  }

  /** In every interleaving no assertion ever fails, a call that has waited successfully gets the
      element that was then the oldest, and what was delivered comes before what is queued. */
  lemma WaitedCallsSucceed<T>(states: seq<State<T>>, evs: seq<Event<T>>, size: nat, n: nat)
    requires IsRun(states, evs, size) && Usable(size) && n < |states|
    ensures var s := states[n];
      && !s.c.CFault? && !s.q.p.PFault? && !s.q.c.CFault?
      && (s.c.CInner? && s.q.c.CReturn? ==> s.c.head.Some? && s.q.c.result == s.c.head)
      && s.accepted == s.delivered + QC.Contents(s.q)
      && |s.delivered| <= s.sem.waits <= s.sem.signals <= |s.accepted|
  {
    RunOk(states, evs, size, n);
  }

  /** The inner call of a successful wait delivers what it returns. */
  lemma ReturnsWhatItDelivers<T>(s: State<T>)
    requires Inv(s) && s.c.CInner? && Enabled(s, ConsumerInner)
    requires Step(s, ConsumerInner).q.c.CReturn?
    ensures Step(s, ConsumerInner).q.c.result.Some?
    ensures Step(s, ConsumerInner).delivered == s.delivered + [Step(s, ConsumerInner).q.c.result.value]
  {
    QC.KeepsPromise(s.q, Q.ConsumerStep, Q.Step(s.q, Q.ConsumerStep), s.c.head.value);
    C.ConsumerStepOk(s.q);
    RemovesOnReturn(s.q, Q.Step(s.q, Q.ConsumerStep));
  }

  /** In every run: until a try_enqueue has returned nothing is allocated. */
  lemma {:induction false} TryEnqueueNeverAllocates<T>(
    states: seq<State<T>>, evs: seq<Event<T>>, size: nat, m: nat, n: nat)
    requires IsRun(states, evs, size) && m < n <= |evs|
    requires evs[m].Enqueue? && evs[m].mode.CannotAlloc? && forall k :: m < k <= n ==> states[k].p.PEnqueue?
    ensures O.NoAlloc(states[n].q.p) && |states[n].q.blocks| == |states[m].q.blocks|
  {
    var k := n - 1;
    assert Enabled(states[k], evs[k]) && states[k + 1] == Step(states[k], evs[k]);
    if k > m {
      TryEnqueueNeverAllocates(states, evs, size, m, k);
    }
    NoAllocStep(states[k], evs[k]);
  }

  lemma NoAllocStep<T>(s: State<T>, ev: Event<T>)
    requires Enabled(s, ev) && Step(s, ev).p.PEnqueue?
    requires if s.p.PEnqueue? then O.NoAlloc(s.q.p) else ev.Enqueue? && ev.mode.CannotAlloc?
    ensures O.NoAlloc(Step(s, ev).q.p) && |Step(s, ev).q.blocks| == |s.q.blocks|
  {
    match ev
    case ProducerInner(qev) =>
      AppendsOnReturn(s.q, qev);
      O.NoAllocStep(s.q, qev, Q.Step(s.q, qev));
    case ConsumerInner => O.OthersStep(s.q);
    case DequeueDone => O.OthersStep(s.q);
    case _ =>
  }

  /** What the semaphore's waiter may be at in this call: trying only, or waiting for as long as asked. */
  ghost predicate WaitsAsAsked(call: Call, w: M.Waiter) {
    match call
    case WaitDequeue =>
      && (w.WTry? ==> w.call.Wait? && w.call.timeout < 0)
      && (w.WSpin? || w.WDec? || w.WKernel? ==> w.timeout < 0)
    case WaitDequeueTimed(timeout) =>
      && (w.WTry? ==> w.call == M.Wait(timeout))
      && (w.WSpin? || w.WDec? || w.WKernel? ==> w.timeout == timeout)
    case _ => w == M.WTry(M.TryWait) || w.WTake? || w.WReturn?
  }

  /** In every run: try_dequeue and pop never wait, and the waiting calls wait for as long as asked. */
  lemma {:induction false} CallsWaitAsAsked<T>(states: seq<State<T>>, evs: seq<Event<T>>, size: nat, n: nat)
    requires IsRun(states, evs, size) && n <= |evs| && states[n].c.CWait?
    ensures WaitsAsAsked(states[n].c.call, states[n].sem.w)
  {
    if n > 0 {
      assert Enabled(states[n - 1], evs[n - 1]) && states[n - 1 + 1] == Step(states[n - 1], evs[n - 1]);
      if states[n - 1].c.CWait? {
        CallsWaitAsAsked(states, evs, size, n - 1);
      }
      AsAskedStep(states[n - 1], evs[n - 1]);
    }
  }

  lemma AsAskedStep<T>(s: State<T>, ev: Event<T>)
    requires Enabled(s, ev) && Step(s, ev).c.CWait?
    requires s.c.CWait? ==> WaitsAsAsked(s.c.call, s.sem.w)
    ensures WaitsAsAsked(Step(s, ev).c.call, Step(s, ev).sem.w)
  {
  }

  /** wait_dequeue goes on waiting until a wait succeeds. */
  lemma WaitDequeueNeverGivesUp<T>(s: State<T>, ev: Event<T>)
    requires Enabled(s, ev) && s.c == CWait(WaitDequeue)
    ensures Step(s, ev).c == s.c || (s.sem.w == M.WReturn(true) && Step(s, ev).c.CInner?)
  {
  }

  lemma {:induction false} FailedBefore<T>(states: seq<State<T>>, evs: seq<Event<T>>, size: nat, m: nat, n: nat)
    requires IsRun(states, evs, size) && m < n <= |evs|
    requires evs[m].Dequeue? && evs[m].call.WaitDequeueTimed? && forall k :: m < k <= n ==> states[k].c.CWait?
    ensures states[n].c == CWait(evs[m].call)
    ensures M.GivingUp(states[n].sem.w) ==> exists k :: m < k < n && evs[k] == WaitStep(M.KernelFails)
  {
    var k := n - 1;
    assert Enabled(states[k], evs[k]) && states[k + 1] == Step(states[k], evs[k]);
    if k > m {
      FailedBefore(states, evs, size, m, k);
      CallsWaitAsAsked(states, evs, size, k);
    }
    GivingUpStep(states[k], evs[k]);
  }

  lemma GivingUpStep<T>(s: State<T>, ev: Event<T>)
    requires Enabled(s, ev) && Step(s, ev).c.CWait? && Step(s, ev).c.call.WaitDequeueTimed?
    requires s.c.CWait? ==> s.c.call.WaitDequeueTimed? && WaitsAsAsked(s.c.call, s.sem.w)
    ensures s.c.CWait? ==> Step(s, ev).c == s.c
    ensures M.GivingUp(Step(s, ev).sem.w) ==>
      (s.c.CWait? && M.GivingUp(s.sem.w)) || ev == WaitStep(M.KernelFails)
  {
  }

  /** A timed wait_dequeue gives up only after the kernel's wait timed out in it. */
  lemma TimedGivesUpOnlyOnTimeout<T>(states: seq<State<T>>, evs: seq<Event<T>>, size: nat, m: nat, n: nat)
    requires IsRun(states, evs, size) && m < n <= |evs|
    requires evs[m].Dequeue? && evs[m].call.WaitDequeueTimed? && forall k :: m < k <= n ==> states[k].c.CWait?
    requires states[n].sem.w == M.WReturn(false)
    ensures exists k :: m < k < n && evs[k] == WaitStep(M.KernelFails)
  {
    FailedBefore(states, evs, size, m, n);
  }

  /** A wait that gives up does so at a moment when nothing is queued but at most one element
      that its producer is about to signal. */
  lemma GivesUpOnlyOnEmpty<T>(s: State<T>, wev: M.Event)
    requires Inv(s) && Enabled(s, WaitStep(wev)) && M.Step(s.sem, wev).w == M.WReturn(false)
    ensures |QC.Contents(s.q)| == Unsignalled(s)
  {
    M.FailsOnlyOnNothing(s.sem, wev);
  }

  /** A consumer asleep with no post there or on the way: the queue is empty but for what an
      enqueue under way is about to signal. */
  lemma SleepsOnlyOnEmpty<T>(s: State<T>)
    requires Inv(s) && s.c.CWait? && s.sem.w.WKernel? && s.sem.kernel == 0 && !s.sem.s.SPost?
    ensures |QC.Contents(s.q)| == Unsignalled(s)
    ensures s.p.PReady? ==> QC.Contents(s.q) == []
  {
    M.NoLostWakeup(s.sem);
  }

  /** size_approx never exceeds the length, lags it by no more than the calls under way, and is
      the length when there are none; readerwriterqueue.h:945-948. */
  lemma SizeApproxBounds<T>(s: State<T>)
    requires Inv(s)
    ensures M.AvailableApprox(s.sem) <= |QC.Contents(s.q)| <= M.AvailableApprox(s.sem) + 2
    ensures s.p.PReady? && s.c.CReady? ==> M.AvailableApprox(s.sem) == |QC.Contents(s.q)|
  {
    M.AvailableExact(s.sem);
    PermitHasElement(s);
  }
}
