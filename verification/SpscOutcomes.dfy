/** What a call of enqueue or try_enqueue comes to: what it publishes, when it fails, and when the
    ring grows. */
module SpscOutcomes {
  import opened Blocks
  import opened SpscProtocol
  import opened SpscInvariant
  import opened SpscRuns
  import opened Capacity
  import B = BitTricks
  import P = SpscProducer

  /** A call began at step m, and no other by step n. */
  ghost predicate InCall<T>(states: seq<State<T>>, evs: seq<Event<T>>, size: nat, m: nat, n: nat) {
    && IsRun(states, evs, size) && Usable(size) && m < n < |states|
    && evs[m].StartEnqueue? && forall k :: m < k <= n ==> !states[k].p.PIdle?
  }

  // ---------- the call's element ----------

  /** The call is about element e. */
  ghost predicate Carries<T>(p: Producer<T>, e: T) {
    p.PIdle? || p.PReturn? || p.PFault? || p.e == e
  }

  /** What the producer published between step m and step n. */
  ghost function Published<T>(states: seq<State<T>>, evs: seq<Event<T>>, m: nat, n: nat): seq<T>
    requires m <= n <= |evs| <= |states|
  {
    if m == n then [] else Published(states, evs, m, n - 1) + Appended(states[n - 1], evs[n - 1])
  }

  lemma PublishStep<T>(s: State<T>, ev: Event<T>, s': State<T>, e: T)
    requires IsStep(s, ev, s') && Carries(s.p, e) && !s.p.PIdle? && !s'.p.PIdle?
    ensures Carries(s'.p, e) && (s.p.PReturn? ==> s'.p == s.p)
    ensures Appended(s, ev) == if !s.p.PReturn? && s'.p == PReturn(true) then [e] else []
  {
    match ev
    case ProducerStep => PublishOwnStep(s, e);
    case ConsumerStep => OthersStep(s);
    case _ =>
  }

  lemma PublishOwnStep<T>(s: State<T>, e: T)
    requires Named(s) && Enabled(s, ProducerStep) && Carries(s.p, e) && !s.p.PReturn?
    ensures Carries(ProducerStep'(s).p, e) && !ProducerStep'(s).p.PIdle?
    ensures P.Published(s.p) == if ProducerStep'(s).p == PReturn(true) then [e] else []
  {
  }

  lemma OthersStep<T>(s: State<T>)
    requires Named(s) && Enabled(s, ConsumerStep)
    ensures ConsumerStep'(s).p == s.p && |ConsumerStep'(s).blocks| == |s.blocks|
  {
  }

  /** What a step from p to p' of the call about e appends. */
  ghost predicate PublishFact<T>(p: Producer<T>, p': Producer<T>, appended: seq<T>, e: T) {
    && (Carries(p, e) ==> Carries(p', e))
    && (p.PReturn? ==> p' == p)
    && (Carries(p, e) ==> appended == if !p.PReturn? && p' == PReturn(true) then [e] else [])
  }

  lemma PublishFacts<T>(states: seq<State<T>>, evs: seq<Event<T>>, size: nat, m: nat, n: nat)
    requires InCall(states, evs, size, m, n)
    ensures Carries(states[m + 1].p, evs[m].e) && !states[m + 1].p.PReturn? && Appended(states[m], evs[m]) == []
    ensures forall k :: m < k < n ==>
      PublishFact(states[k].p, states[k + 1].p, Appended(states[k], evs[k]), evs[m].e)
  {
    assert IsStep(states[m], evs[m], states[m + 1]);
    forall k | m < k < n ensures PublishFact(states[k].p, states[k + 1].p, Appended(states[k], evs[k]), evs[m].e) {
      var s, ev, s' := states[k], evs[k], states[k + 1];
      assert IsStep(s, ev, s');
      if Carries(s.p, evs[m].e) {
        PublishStep(s, ev, s', evs[m].e);
      } else {
        ReturnStays(s, ev, s');
      }
    }
  }

  lemma ReturnStays<T>(s: State<T>, ev: Event<T>, s': State<T>)
    requires IsStep(s, ev, s') && !s'.p.PIdle?
    ensures s.p.PReturn? ==> s'.p == s.p
  {
    if ev.ConsumerStep? {
      OthersStep(s);
    }
  }

  lemma {:induction false} PublishedAt<T>(states: seq<State<T>>, evs: seq<Event<T>>, e: T, m: nat, n: nat)
    requires m < n <= |evs| < |states| && Carries(states[m + 1].p, e) && !states[m + 1].p.PReturn?
    requires Appended(states[m], evs[m]) == []
    requires forall k :: m < k < n ==> PublishFact(states[k].p, states[k + 1].p, Appended(states[k], evs[k]), e)
    ensures Carries(states[n].p, e)
    ensures Published(states, evs, m, n) == if states[n].p == PReturn(true) then [e] else []
  {
    if n == m + 1 {
      assert Published(states, evs, m, m + 1) == Published(states, evs, m, m) + Appended(states[m], evs[m]);
    } else {
      PublishedAt(states, evs, e, m, n - 1);
      var k := n - 1;
      assert PublishFact(states[k].p, states[k + 1].p, Appended(states[k], evs[k]), e);
    }
  }

  /** A call publishes its element once if it returns true, and nothing at all if it does not. */
  lemma ReturnsTruthfully<T>(states: seq<State<T>>, evs: seq<Event<T>>, size: nat, m: nat, n: nat)
    requires InCall(states, evs, size, m, n)
    ensures Published(states, evs, m, n) == if states[n].p == PReturn(true) then [evs[m].e] else []
  {
    PublishFacts(states, evs, size, m, n);
    PublishedAt(states, evs, evs[m].e, m, n);
  }

  // ---------- when it fails ----------

  /** It finds, going by front itself, that the tail block is full. */
  ghost predicate LooksFull<T>(s: State<T>, ev: Event<T>) {
    && ev.ProducerStep? && s.p.PLoadFront? && s.tailBlock < |s.blocks| && s.p.tb == s.tailBlock
    && Next(s.blocks[s.tailBlock].tail, s.blocks[s.tailBlock].size) == s.blocks[s.tailBlock].front
  }

  /** It finds the front block right after the tail block, and may not allocate; or malloc fails. */
  ghost predicate Refused<T>(s: State<T>, ev: Event<T>) {
    && ev.ProducerStep?
    && ((s.p.PLoadFrontBlock? && s.p.mode.CannotAlloc? && s.p.nx == s.frontBlock) || s.p.PAlloc?)
  }

  /** Past the look at the tail block's front. */
  predicate SawFull<T>(p: Producer<T>) {
    p.PLoadNext? || p.PLoadFrontBlock? || p.PAlloc?
  }

  lemma FailStep<T>(s: State<T>, ev: Event<T>, s': State<T>)
    requires Inv(s) && IsStep(s, ev, s') && !s.p.PIdle? && !s'.p.PIdle?
    ensures s'.p == PReturn(false) <==> s.p == PReturn(false) || Refused(s, ev)
    ensures SawFull(s'.p) ==> SawFull(s.p) || LooksFull(s, ev)
    ensures Refused(s, ev) ==> SawFull(s.p)
  {
    match ev
    case ProducerStep => FailOwnStep(s);
    case ConsumerStep => OthersStep(s);
    case _ =>
  }

  lemma FailOwnStep<T>(s: State<T>)
    requires MemoryTyped(s) && Linked(s) && ProducerOk(s) && Named(s) && Enabled(s, ProducerStep) && !s.p.PReturn?
    ensures ProducerStep'(s).p == PReturn(false) <==> Refused(s, ProducerStep)
    ensures SawFull(ProducerStep'(s).p) ==> SawFull(s.p) || LooksFull(s, ProducerStep)
  {
  }

  ghost predicate WasRefused<T>(states: seq<State<T>>, evs: seq<Event<T>>, m: nat, n: nat)
    requires n <= |evs| <= |states|
  {
    exists k :: m < k < n && Refused(states[k], evs[k])
  }

  ghost predicate FoundFull<T>(states: seq<State<T>>, evs: seq<Event<T>>, m: nat, n: nat)
    requires n <= |evs| <= |states|
  {
    exists k :: m < k < n && LooksFull(states[k], evs[k])
  }

  /** What a step from p to p' has to do with failing. */
  ghost predicate FailFact<T>(p: Producer<T>, p': Producer<T>, refused: bool, full: bool) {
    && (p' == PReturn(false) <==> p == PReturn(false) || refused)
    && (SawFull(p') ==> SawFull(p) || full)
    && (refused ==> SawFull(p))
  }

  lemma FailFacts<T>(states: seq<State<T>>, evs: seq<Event<T>>, size: nat, m: nat, n: nat)
    requires InCall(states, evs, size, m, n)
    ensures !SawFull(states[m + 1].p) && states[m + 1].p != PReturn(false)
    ensures forall k :: m < k < n ==>
      FailFact(states[k].p, states[k + 1].p, Refused(states[k], evs[k]), LooksFull(states[k], evs[k]))
  {
    assert IsStep(states[m], evs[m], states[m + 1]);
    forall k | m < k < n
      ensures FailFact(states[k].p, states[k + 1].p, Refused(states[k], evs[k]), LooksFull(states[k], evs[k]))
    {
      RunOk(states, evs, size, k);
      assert IsStep(states[k], evs[k], states[k + 1]);
      FailStep(states[k], evs[k], states[k + 1]);
    }
  }

  lemma {:induction false} FailedAt<T>(states: seq<State<T>>, evs: seq<Event<T>>, m: nat, n: nat)
    requires m < n <= |evs| < |states| && !SawFull(states[m + 1].p) && states[m + 1].p != PReturn(false)
    requires forall k :: m < k < n ==>
      FailFact(states[k].p, states[k + 1].p, Refused(states[k], evs[k]), LooksFull(states[k], evs[k]))
    ensures states[n].p == PReturn(false) <==> WasRefused(states, evs, m, n)
    ensures SawFull(states[n].p) || states[n].p == PReturn(false) ==> FoundFull(states, evs, m, n)
  {
    if n > m + 1 {
      var k := n - 1;
      FailedAt(states, evs, m, k);
      assert FailFact(states[k].p, states[k + 1].p, Refused(states[k], evs[k]), LooksFull(states[k], evs[k]));
      FailsSoFar(states, evs, m, k);
    }
  }

  lemma FailsSoFar<T>(states: seq<State<T>>, evs: seq<Event<T>>, m: nat, k: nat)
    requires m < k < |evs| <= |states|
    ensures WasRefused(states, evs, m, k + 1) <==> WasRefused(states, evs, m, k) || Refused(states[k], evs[k])
    ensures FoundFull(states, evs, m, k + 1) <==> FoundFull(states, evs, m, k) || LooksFull(states[k], evs[k])
  {
  }

  /** A call returns false if and only if it found the front block right after the tail block and may
      not allocate, or malloc failed; and it looks for that only after it found the tail block full. */
  lemma FailsExactly<T>(states: seq<State<T>>, evs: seq<Event<T>>, size: nat, m: nat, n: nat)
    requires InCall(states, evs, size, m, n)
    ensures states[n].p == PReturn(false) <==> WasRefused(states, evs, m, n)
    ensures SawFull(states[n].p) || states[n].p == PReturn(false) ==> FoundFull(states, evs, m, n)
  {
    FailFacts(states, evs, size, m, n);
    FailedAt(states, evs, m, n);
  }

  // ---------- try_enqueue does not allocate ----------

  /** Where a call that may not allocate can be. */
  predicate NoAlloc<T>(p: Producer<T>) {
    && !p.PAlloc? && !p.PConstructNew? && !p.PStoreNewTail? && !p.PLinkNew? && !p.PSplice? && !p.PIdle?
    && (p.PLoadTailBlock? || p.PLoadTail? || p.PLoadFront? || p.PLoadNext? || p.PLoadFrontBlock? ==>
          p.mode.CannotAlloc?)
  }

  lemma NoAllocStep<T>(s: State<T>, ev: Event<T>, s': State<T>)
    requires IsStep(s, ev, s') && NoAlloc(s.p) && !s'.p.PIdle?
    ensures NoAlloc(s'.p) && !ev.ProducerAlloc? && |s'.blocks| == |s.blocks| && s'.largest == s.largest
  {
    match ev
    case ProducerStep => NoAllocOwnStep(s);
    case ConsumerStep => OthersStep(s);
    case _ =>
  }

  lemma NoAllocOwnStep<T>(s: State<T>)
    requires Named(s) && Enabled(s, ProducerStep) && NoAlloc(s.p)
    ensures var s' := ProducerStep'(s);
      (s'.p.PIdle? || NoAlloc(s'.p)) && |s'.blocks| == |s.blocks| && s'.largest == s.largest
  {
  }

  /** It finds the front block right after the tail block. */
  ghost predicate NextIsFront<T>(s: State<T>, ev: Event<T>) {
    ev.ProducerStep? && s.p.PLoadFrontBlock? && s.p.nx == s.frontBlock
  }

  /** In every interleaving, a call of try_enqueue never comes to where it would allocate, no block
      is added while it lasts, and it fails exactly if, after it found the tail block full, it found
      the front block right after it. */
  lemma TryEnqueueNeverAllocates<T>(states: seq<State<T>>, evs: seq<Event<T>>, size: nat, m: nat, n: nat)
    requires InCall(states, evs, size, m, n) && evs[m].mode.CannotAlloc?
    ensures forall data :: !Enabled(states[n], ProducerAlloc(data))
    ensures forall k :: m <= k < n ==> !evs[k].ProducerAlloc?
    ensures |states[n].blocks| == |states[m].blocks|
    ensures states[n].p == PReturn(false) <==> exists k :: m < k < n && NextIsFront(states[k], evs[k])
    ensures states[n].p == PReturn(false) ==> FoundFull(states, evs, m, n)
  {
    NoAllocFacts(states, evs, size, m, n);
    NoAllocAt(states, evs, m, n);
    FailsExactly(states, evs, size, m, n);
    forall k | m < k < n ensures Refused(states[k], evs[k]) <==> NextIsFront(states[k], evs[k]) {
      NoAllocAt(states, evs, m, k);
    }
  }

  ghost predicate NoAllocFact<T>(s: State<T>, ev: Event<T>, s': State<T>) {
    NoAlloc(s.p) ==> NoAlloc(s'.p) && !ev.ProducerAlloc? && |s'.blocks| == |s.blocks|
  }

  lemma NoAllocFacts<T>(states: seq<State<T>>, evs: seq<Event<T>>, size: nat, m: nat, n: nat)
    requires InCall(states, evs, size, m, n) && evs[m].mode.CannotAlloc?
    ensures NoAlloc(states[m + 1].p) && |states[m + 1].blocks| == |states[m].blocks|
    ensures forall k :: m < k < n ==> NoAllocFact(states[k], evs[k], states[k + 1])
  {
    assert IsStep(states[m], evs[m], states[m + 1]);
    forall k | m < k < n ensures NoAllocFact(states[k], evs[k], states[k + 1]) {
      assert IsStep(states[k], evs[k], states[k + 1]);
      if NoAlloc(states[k].p) {
        NoAllocStep(states[k], evs[k], states[k + 1]);
      }
    }
  }

  lemma {:induction false} NoAllocAt<T>(states: seq<State<T>>, evs: seq<Event<T>>, m: nat, n: nat)
    requires m < n <= |evs| < |states| && NoAlloc(states[m + 1].p) && evs[m].StartEnqueue?
    requires |states[m + 1].blocks| == |states[m].blocks|
    requires forall k :: m < k < n ==> NoAllocFact(states[k], evs[k], states[k + 1])
    ensures NoAlloc(states[n].p) && |states[n].blocks| == |states[m].blocks|
    ensures forall i :: m <= i < n ==> !evs[i].ProducerAlloc?
  {
    if n > m + 1 {
      var k := n - 1;
      NoAllocAt(states, evs, m, k);
      assert NoAllocFact(states[k], evs[k], states[k + 1]);
    }
  }

  /** At malloc the call can go on with any memory of the new block's size. */
  lemma AllocCanSucceed<T>(s: State<T>, data: seq<T>)
    requires Typed(s) && s.p.PAlloc?
    ensures |data| == (if s.largest < s.maxBlock then 2 * s.largest else s.largest) ==>
      && Enabled(s, ProducerAlloc(data))
      && Step(s, ProducerAlloc(data)).p == PConstructNew(s.p.e, s.p.tb, |s.blocks|)
  {
  }

  // ---------- how the ring grows ----------

  /** How many blocks were allocated by the first n steps. */
  ghost function Allocated<T>(evs: seq<Event<T>>, n: nat): nat
    requires n <= |evs|
  {
    if n == 0 then 0 else Allocated(evs, n - 1) + if evs[n - 1].ProducerAlloc? then 1 else 0
  }

  /** Doubled so many times, but not past the maximum. */
  ghost function Doubled(first: nat, max: nat, times: nat): nat {
    if first >= max then first
    else if first * B.Pow2(times) < max then first * B.Pow2(times)
    else max
  }

  /** Of two powers of two the smaller one doubled is at most the larger one. */
  lemma Pow2Apart(a: nat, b: nat)
    requires B.IsPow2(a) && B.IsPow2(b) && a < b
    ensures 2 * a <= b
  {
    var j: nat, k: nat :| a == B.Pow2(j) && b == B.Pow2(k);
    if j < k {
      B.Pow2Grows(j, k);
    } else if k < j {
      B.Pow2Grows(k, j);
    }
  }

  lemma DoubledOnce(first: nat, max: nat, times: nat)
    requires B.IsPow2(first) && B.IsPow2(max)
    ensures var d := Doubled(first, max, times);
      Doubled(first, max, times + 1) == if d >= max then d else d * 2
  {
    assert B.Pow2(times + 1) == 2 * B.Pow2(times);
    assert first * B.Pow2(times + 1) == 2 * (first * B.Pow2(times));
    var d := first * B.Pow2(times);
    if first < max && d < max {
      Product(first, times);
      Pow2Apart(d, max);
    }
  }

  lemma {:induction false} Product(first: nat, times: nat)
    requires B.IsPow2(first)
    ensures B.IsPow2(first * B.Pow2(times))
  {
    if times == 0 {
      assert first * B.Pow2(0) == first;
    } else {
      Product(first, times - 1);
      DoubledPow2(first * B.Pow2(times - 1));
      assert first * B.Pow2(times) == first * B.Pow2(times - 1) * 2;
    }
  }

  lemma LargestStep<T>(s: State<T>, ev: Event<T>, s': State<T>)
    requires IsStep(s, ev, s')
    ensures s'.maxBlock == s.maxBlock
    ensures !ev.ProducerAlloc? ==> s'.largest == s.largest && |s'.blocks| == |s.blocks|
    ensures ev.ProducerAlloc? ==>
      && s'.largest == (if s.largest >= s.maxBlock then s.largest else s.largest * 2)
      && |s'.blocks| == |s.blocks| + 1
      && s'.blocks[|s.blocks|].size == |s'.blocks[|s.blocks|].data| == s'.largest
  {
    match ev
    case ProducerStep => OwnLargest(s);
    case ConsumerStep => OthersLargest(s);
    case _ =>
  }

  lemma OwnLargest<T>(s: State<T>)
    requires Named(s) && Enabled(s, ProducerStep)
    ensures var s' := ProducerStep'(s);
      s'.maxBlock == s.maxBlock && s'.largest == s.largest && |s'.blocks| == |s.blocks|
  {
  }

  lemma OthersLargest<T>(s: State<T>)
    requires Named(s) && Enabled(s, ConsumerStep)
    ensures var s' := ConsumerStep'(s);
      s'.maxBlock == s.maxBlock && s'.largest == s.largest && |s'.blocks| == |s.blocks|
  {
  }

  /** What has been allocated after n steps. */
  ghost predicate GrownSoFar<T>(states: seq<State<T>>, evs: seq<Event<T>>, n: nat)
    requires n <= |evs| < |states|
  {
    var k, s, s0 := Allocated(evs, n), states[n], states[0];
    && s.maxBlock == s0.maxBlock && |s.blocks| == |s0.blocks| + k
    && s.largest == Doubled(s0.largest, s0.maxBlock, k)
  }

  lemma GrowStep<T>(states: seq<State<T>>, evs: seq<Event<T>>, n: nat)
    requires n < |evs| < |states| && IsStep(states[n], evs[n], states[n + 1]) && GrownSoFar(states, evs, n)
    requires B.IsPow2(states[0].largest) && B.IsPow2(states[0].maxBlock)
    ensures GrownSoFar(states, evs, n + 1)
    ensures var s' := states[n + 1];
      evs[n].ProducerAlloc? ==> |s'.blocks| > 0 && s'.blocks[|s'.blocks| - 1].size == s'.largest
  {
    LargestStep(states[n], evs[n], states[n + 1]);
    DoubledOnce(states[0].largest, states[0].maxBlock, Allocated(evs, n));
  }

  /** In every run the k-th block allocated is the constructor's block size doubled k times, but not
      past MAX_BLOCK_SIZE, and nothing else adds a block. */
  lemma {:induction false} Growth<T>(states: seq<State<T>>, evs: seq<Event<T>>, size: nat, n: nat)
    requires IsRun(states, evs, size) && Usable(size) && n <= |evs|
    ensures GrownSoFar(states, evs, n)
    ensures var s := states[n];
      n > 0 && evs[n - 1].ProducerAlloc? ==>
        && |s.blocks| > 0
        && s.blocks[|s.blocks| - 1].size == Doubled(states[0].largest, states[0].maxBlock, Allocated(evs, n))
  {
    RunPowersOfTwo(states, evs, size, 0);
    if n == 0 {
      assert states[0].largest * B.Pow2(0) == states[0].largest;
    } else {
      Growth(states, evs, size, n - 1);
      assert IsStep(states[n - 1], evs[n - 1], states[n]);
      GrowStep(states, evs, n - 1);
    }
  }
}
