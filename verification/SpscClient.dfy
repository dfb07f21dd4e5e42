/**
 One queue of the step system as its consumer's program sees it: a call of peek or try_dequeue is
 begun, stepped and ended, while the producer takes steps of its own at any time.
 */
module SpscClient {
  import Q = SpscProtocol
  import QI = SpscInvariant
  import QR = SpscRuns
  import QC = SpscCalls
  import opened Capacity

  /** accepted and delivered are history: the elements published in, and removed from, the queue. */
  datatype Client<T> = Client(q: Q.State<T>, accepted: seq<T>, delivered: seq<T>)

  ghost predicate Enabled<T>(c: Client<T>, ev: Q.Event<T>) {
    Q.Named(c.q) && Q.Enabled(c.q, ev)
  }

  ghost function Move<T>(c: Client<T>, ev: Q.Event<T>): Client<T>
    requires Enabled(c, ev)
  {
    Client(Q.Step(c.q, ev), c.accepted + QR.Appended(c.q, ev), c.delivered + QR.Taken(c.q, ev))
  }

  ghost predicate Ok<T>(c: Client<T>) {
    QI.Inv(c.q) && c.accepted == c.delivered + QC.Contents(c.q)
  }

  predicate ByProducer<T>(ev: Q.Event<T>) {
    ev.StartEnqueue? || ev.ProducerStep? || ev.ProducerAlloc?
  }

  lemma InitOk<T>(c: Client<T>, size: nat)
    requires QR.Init(c.q, size) && Usable(size) && c.accepted == c.delivered == []
    ensures Ok(c)
  {
    QR.InitOk(c.q, size);
  }

  lemma MoveOk<T>(c: Client<T>, ev: Q.Event<T>)
    requires Ok(c) && Q.Enabled(c.q, ev)
    ensures Enabled(c, ev) && Ok(Move(c, ev)) && !Move(c, ev).q.c.CFault?
  {
    QR.FifoStep(c.q, ev, c.accepted, c.delivered);
  }

  // ---------- peek ----------

  /** A peek is under way; one that has found something looks at the oldest element. */
  ghost predicate Looking<T>(c: Client<T>) {
    && !c.q.c.CIdle? && !c.q.c.CFault? && c.q.c.op.Peek? && !c.q.c.CStoreFront?
    && (c.q.c.CReturn? && c.q.c.result.Some? ==> |c.delivered| < |c.accepted|)
  }

  lemma StartPeek<T>(c: Client<T>)
    requires Ok(c) && c.q.c.CIdle?
    ensures Enabled(c, Q.StartDequeue(Q.Peek)) && Ok(Move(c, Q.StartDequeue(Q.Peek)))
    ensures Looking(Move(c, Q.StartDequeue(Q.Peek)))
    ensures Move(c, Q.StartDequeue(Q.Peek)) == c.(q := Move(c, Q.StartDequeue(Q.Peek)).q)
  {
    MoveOk(c, Q.StartDequeue(Q.Peek));
  }

  lemma PeekStep<T>(c: Client<T>)
    requires Ok(c) && Looking(c) && !c.q.c.CReturn?
    ensures Enabled(c, Q.ConsumerStep) && Ok(Move(c, Q.ConsumerStep)) && Looking(Move(c, Q.ConsumerStep))
    ensures Move(c, Q.ConsumerStep) == c.(q := Move(c, Q.ConsumerStep).q)
  {
    TakesSomething(c);
    MoveOk(c, Q.ConsumerStep);
    PeekMoves(c, Move(c, Q.ConsumerStep));
  }

  lemma TakesSomething<T>(c: Client<T>)
    requires Ok(c)
    ensures c.q.c.CTake? ==> |c.delivered| < |c.accepted|
  {
    if c.q.c.CTake? {
      QC.TakeRespects(c.q);
    }
  }

  /** A peek finds an element only where it looks at one, and removes none. */
  lemma PeekMoves<T>(c: Client<T>, c': Client<T>)
    requires Looking(c) && !c.q.c.CReturn? && Enabled(c, Q.ConsumerStep) && c' == Move(c, Q.ConsumerStep)
    requires !c'.q.c.CFault? && (c.q.c.CTake? ==> |c.delivered| < |c.accepted|)
    ensures Looking(c') && c' == c.(q := c'.q)
  {
  }

  /** A peek that began with an element queued is on its way to return the oldest. */
  ghost predicate Seeing<T>(c: Client<T>) {
    !c.q.c.CIdle? ==>
      && |c.delivered| < |c.accepted| && Q.MemoryTyped(c.q) && QI.Linked(c.q)
      && QC.WillReturn(c.q, c.accepted[|c.delivered|])
  }

  lemma StartSees<T>(c: Client<T>)
    requires Ok(c) && c.q.c.CIdle? && |c.delivered| < |c.accepted|
    ensures Enabled(c, Q.StartDequeue(Q.Peek)) && Seeing(Move(c, Q.StartDequeue(Q.Peek)))
  {
    StartPeek(c);
    QC.MakesPromise(c.q, Q.StartDequeue(Q.Peek), Q.Step(c.q, Q.StartDequeue(Q.Peek)));
  }

  lemma StepSees<T>(c: Client<T>)
    requires Ok(c) && Looking(c) && !c.q.c.CReturn? && Seeing(c)
    ensures Enabled(c, Q.ConsumerStep) && Seeing(Move(c, Q.ConsumerStep))
  {
    PeekStep(c);
    QC.KeepsPromise(c.q, Q.ConsumerStep, Q.Step(c.q, Q.ConsumerStep), c.accepted[|c.delivered|]);
  }

  lemma ProducerKeepsSeeing<T>(c: Client<T>, ev: Q.Event<T>)
    requires Ok(c) && Q.Enabled(c.q, ev) && ByProducer(ev) && Seeing(c)
    ensures Enabled(c, ev) && Seeing(Move(c, ev))
  {
    ProducerMove(c, ev);
    if !c.q.c.CIdle? {
      QC.ProducerKeepsPromise(c.q, ev, c.accepted[|c.delivered|]);
    }
  }

  // ---------- try_dequeue ----------

  /** A try_dequeue is under way that began when k elements had been removed.  If it must succeed,
      it is on its way to return the next one; if it has succeeded, it has removed that. */
  ghost predicate Fetching<T>(c: Client<T>, k: nat, must: bool) {
    && !c.q.c.CIdle? && !c.q.c.CFault? && c.q.c.op.TryDequeue?
    && (if c.q.c.CReturn? && c.q.c.result.Some? then
          |c.delivered| == k + 1 <= |c.accepted| && c.accepted[k] == c.q.c.result.value
        else |c.delivered| == k)
    && (must ==> k < |c.accepted| && Q.MemoryTyped(c.q) && QI.Linked(c.q) && QC.WillReturn(c.q, c.accepted[k]))
  }

  lemma StartFetch<T>(c: Client<T>, must: bool)
    requires Ok(c) && c.q.c.CIdle? && (must ==> |c.delivered| < |c.accepted|)
    ensures Enabled(c, Q.StartDequeue(Q.TryDequeue)) && Ok(Move(c, Q.StartDequeue(Q.TryDequeue)))
    ensures Fetching(Move(c, Q.StartDequeue(Q.TryDequeue)), |c.delivered|, must)
    ensures Move(c, Q.StartDequeue(Q.TryDequeue)) == c.(q := Move(c, Q.StartDequeue(Q.TryDequeue)).q)
  {
    MoveOk(c, Q.StartDequeue(Q.TryDequeue));
    if must {
      QC.MakesPromise(c.q, Q.StartDequeue(Q.TryDequeue), Q.Step(c.q, Q.StartDequeue(Q.TryDequeue)));
    }
  }

  lemma FetchStep<T>(c: Client<T>, k: nat, must: bool)
    requires Ok(c) && Fetching(c, k, must) && !c.q.c.CReturn?
    ensures Enabled(c, Q.ConsumerStep) && Ok(Move(c, Q.ConsumerStep)) && Fetching(Move(c, Q.ConsumerStep), k, must)
    ensures Move(c, Q.ConsumerStep).accepted == c.accepted
  {
    MoveOk(c, Q.ConsumerStep);
    if must {
      QC.KeepsPromise(c.q, Q.ConsumerStep, Q.Step(c.q, Q.ConsumerStep), c.accepted[k]);
    }
    FetchCounts(c, k, Move(c, Q.ConsumerStep));
  }

  /** Only the step that returns an element removes one, and it is the next. */
  lemma FetchCounts<T>(c: Client<T>, k: nat, c': Client<T>)
    requires Fetching(c, k, false) && !c.q.c.CReturn? && Enabled(c, Q.ConsumerStep) && c' == Move(c, Q.ConsumerStep)
    requires !c'.q.c.CFault? && c'.accepted == c'.delivered + QC.Contents(c'.q)
    ensures Fetching(c', k, false)
  {
  }

  // ---------- the end of a call, and the producer ----------

  lemma EndCall<T>(c: Client<T>)
    requires Ok(c) && c.q.c.CReturn?
    ensures Enabled(c, Q.ConsumerStep) && Ok(Move(c, Q.ConsumerStep)) && Move(c, Q.ConsumerStep).q.c.CIdle?
    ensures Move(c, Q.ConsumerStep) == c.(q := Move(c, Q.ConsumerStep).q)
  {
    MoveOk(c, Q.ConsumerStep);
  }

  lemma ProducerMove<T>(c: Client<T>, ev: Q.Event<T>)
    requires Ok(c) && Q.Enabled(c.q, ev) && ByProducer(ev)
    ensures Enabled(c, ev) && Ok(Move(c, ev)) && Move(c, ev).q.c == c.q.c
    ensures Move(c, ev).delivered == c.delivered && c.accepted <= Move(c, ev).accepted
  {
    MoveOk(c, ev);
    ProducerMoves(c, ev);
  }

  lemma ProducerMoves<T>(c: Client<T>, ev: Q.Event<T>)
    requires Enabled(c, ev) && ByProducer(ev)
    ensures Move(c, ev).q.c == c.q.c && Move(c, ev).delivered == c.delivered && c.accepted <= Move(c, ev).accepted
  {
  }

  lemma ProducerKeepsFetching<T>(c: Client<T>, ev: Q.Event<T>, k: nat, must: bool)
    requires Ok(c) && Q.Enabled(c.q, ev) && ByProducer(ev) && Fetching(c, k, must)
    ensures Enabled(c, ev) && Fetching(Move(c, ev), k, must)
  {
    ProducerMove(c, ev);
    if must {
      QC.ProducerKeepsPromise(c.q, ev, c.accepted[k]);
    }
  }
}
