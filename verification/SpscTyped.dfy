/** Every step, from any well-typed state and whatever the block sizes, only uses allocated
    blocks and slots, so a run never stops for want of a valid address. */
module SpscTyped {
  import opened Blocks
  import opened SpscProtocol
  import I = SpscInvariant

  /** Blocks and slots that existed still do. */
  ghost predicate Kept<T>(s: State<T>, s': State<T>) {
    && |s.blocks| <= |s'.blocks|
    && forall b :: 0 <= b < |s.blocks| ==> s'.blocks[b].size == s.blocks[b].size
  }

  lemma KeptProducer<T>(s: State<T>, s': State<T>)
    requires ProducerTyped(s) && s'.p == s.p && Kept(s, s')
    ensures ProducerTyped(s')
  {
  }

  lemma KeptConsumer<T>(s: State<T>, s': State<T>)
    requires ConsumerTyped(s) && s'.c == s.c && Kept(s, s')
    ensures ConsumerTyped(s')
  {
  }

  lemma ProducerKeeps<T>(s: State<T>)
    requires Typed(s) && Enabled(s, ProducerStep)
    ensures Kept(s, ProducerStep'(s))
  {
  }

  lemma ProducerMemory<T>(s: State<T>)
    requires Typed(s) && Enabled(s, ProducerStep) && !I.Leaving(s.p)
    ensures MemoryTyped(ProducerStep'(s)) && ProducerTyped(ProducerStep'(s))
  {
  }

  lemma LeavingMemory<T>(s: State<T>)
    requires Typed(s) && Enabled(s, ProducerStep) && I.Leaving(s.p)
    ensures MemoryTyped(ProducerStep'(s))
  {
  }

  lemma LeavingTyped<T>(s: State<T>)
    requires Typed(s) && Enabled(s, ProducerStep) && I.Leaving(s.p)
    ensures ProducerTyped(ProducerStep'(s))
  {
  }

  lemma AllocTyped<T>(s: State<T>, data: seq<T>)
    requires Typed(s) && Enabled(s, ProducerAlloc(data))
    ensures MemoryTyped(AllocStep(s, data)) && ProducerTyped(AllocStep(s, data)) && Kept(s, AllocStep(s, data))
  {
  }

  lemma ConsumerKeeps<T>(s: State<T>)
    requires Typed(s) && Enabled(s, ConsumerStep)
    ensures Kept(s, ConsumerStep'(s))
  {
  }

  lemma ConsumerMemory<T>(s: State<T>)
    requires Typed(s) && Enabled(s, ConsumerStep)
    ensures MemoryTyped(ConsumerStep'(s))
  {
  }

  lemma ConsumerCounter<T>(s: State<T>)
    requires Typed(s) && Enabled(s, ConsumerStep)
    requires s.c.CLoadFrontBlock? || s.c.CLoadFront? || s.c.CLoadTail? || s.c.CLoadTailBlock? || s.c.CReloadFrontBlock?
      || s.c.CReloadTail?
    ensures ConsumerTyped(ConsumerStep'(s))
  {
  }

  lemma ConsumerLateCounter<T>(s: State<T>)
    requires Typed(s) && Enabled(s, ConsumerStep)
    requires s.c.CReloadFront? || s.c.CLoadNext? || s.c.CLoadNextFront? || s.c.CLoadNextTail? || s.c.CStoreFrontBlock?
      || s.c.CTake? || s.c.CStoreFront? || s.c.CReturn?
    ensures ConsumerTyped(ConsumerStep'(s))
  {
  }

  lemma StepTyped<T>(s: State<T>, ev: Event<T>)
    requires Typed(s) && Enabled(s, ev)
    ensures Typed(Step(s, ev))
  {
    match ev
    case ProducerStep =>
      ProducerKeeps(s);
      KeptConsumer(s, ProducerStep'(s));
      if I.Leaving(s.p) { LeavingMemory(s); LeavingTyped(s); } else { ProducerMemory(s); }
    case ProducerAlloc(data) =>
      AllocTyped(s, data);
      KeptConsumer(s, AllocStep(s, data));
    case ConsumerStep =>
      ConsumerKeeps(s);
      KeptProducer(s, ConsumerStep'(s));
      ConsumerMemory(s);
      if s.c.CReloadFront? || s.c.CLoadNext? || s.c.CLoadNextFront? || s.c.CLoadNextTail? || s.c.CStoreFrontBlock?
        || s.c.CTake? || s.c.CStoreFront? || s.c.CReturn?
      {
        ConsumerLateCounter(s);
      } else {
        ConsumerCounter(s);
      }
    case _ =>
  }
}
