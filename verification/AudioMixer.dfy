/**
 The mixer thread takes one frame from each stream's queue and mixes them, while the streams' own
 threads go on pushing.  The queues are the step system's: each call of peek or try_dequeue is the
 steps that it takes, and the pushing threads may take theirs at any time between.
 */
module AudioMixer {
  import opened Wrappers
  import opened Mixing
  import opened Capacity
  import Q = SpscProtocol
  import QR = SpscRuns
  import opened K = SpscClient

  type Frame = seq<int>

  datatype Mixer =
    | MLoop                    // about to test for a stop, in mixer_loop
    | MWait                    // about to test for a stop, in wait_for_all_stream
    | MPeek(stream: nat)       // peeking at this stream
    | MTake(stream: nat, ready: bool, got: seq<Option<Frame>>)  // dequeuing from this stream
    | MMix(got: seq<Option<Frame>>)
    | MDone

  /** rounds and partial are history: the frames of each round, and whether the last round was cut
      short by a stop. */
  datatype State = State(
    streams: seq<Client<Frame>>, stop: bool, pc: Mixer, mixed: seq<int>,
    rounds: seq<seq<Option<Frame>>>, partial: bool)

  /** Push is a step of push_audio on one stream's queue, or the start of one. */
  datatype Event = Push(stream: nat, ev: Q.Event<Frame>) | RequestStop | MixerStep

  /** Each stream's queue was built for `size` elements. */
  ghost predicate Init(s: State, size: nat) {
    && s.pc == MLoop && !s.stop && s.rounds == [] && !s.partial
    && forall i :: 0 <= i < |s.streams| ==>
      QR.Init(s.streams[i].q, size) && s.streams[i].accepted == s.streams[i].delivered == []
  }

  ghost predicate Enabled(s: State, ev: Event) {
    match ev
    case Push(i, qev) => i < |s.streams| && ByProducer(qev) && K.Enabled(s.streams[i], qev)
    case RequestStop => true
    case MixerStep =>
      && !s.pc.MDone?
      && (s.pc.MPeek? && s.pc.stream < |s.streams| ==> CanCall(s.streams[s.pc.stream], Q.Peek))
      && (s.pc.MTake? && s.pc.stream < |s.streams| ==> CanCall(s.streams[s.pc.stream], Q.TryDequeue))
  }

  /** The next step of a call, which may be its first. */
  ghost predicate CanCall(c: Client<Frame>, op: Q.Op) {
    K.Enabled(c, CallEvent(c, op))
  }

  function CallEvent(c: Client<Frame>, op: Q.Op): Q.Event<Frame> {
    if c.q.c.CIdle? then Q.StartDequeue(op) else Q.ConsumerStep
  }

  ghost function Step(s: State, ev: Event): (s': State)
    requires Enabled(s, ev)
  {
    match ev
    case Push(i, qev) => s.(streams := s.streams[i := Move(s.streams[i], qev)])
    case RequestStop => s.(stop := true)
    case MixerStep => MixerStep'(s)
  }

  /** The frames a round has got, in order. */
  function Frames(got: seq<Option<Frame>>): seq<Frame> {
    if got == [] then []
    else Frames(got[..|got| - 1]) + match got[|got| - 1] case Some(f) => [f] case None => []
  }

  /** AudioMixer.cpp:100-150. */
  ghost function MixerStep'(s: State): (s': State)
    requires Enabled(s, MixerStep)
  {
    match s.pc
    case MLoop => if s.stop then s.(pc := MDone) else s.(pc := MWait)
    case MWait => if s.stop then s.(pc := MTake(0, false, [])) else s.(pc := MPeek(0))
    case MPeek(i) => if i >= |s.streams| then s.(pc := MTake(0, true, [])) else PeekStep'(s)
    case MTake(i, ready, got) =>
      if i >= |s.streams| then s.(pc := MMix(got), rounds := s.rounds + [got], partial := !ready) else TakeStep'(s)
    case MMix(got) =>
      s.(pc := MLoop, mixed := MixedFrames(seq(|s.mixed|, _ => 0), Frames(got)))
  }

  ghost function PeekStep'(s: State): (s': State)
    requires Enabled(s, MixerStep) && s.pc.MPeek? && s.pc.stream < |s.streams|
  {
    var i := s.pc.stream;
    var c := s.streams[i];
    var s1 := s.(streams := s.streams[i := Move(c, CallEvent(c, Q.Peek))]);
    if !c.q.c.CReturn? then s1
    else if c.q.c.result.Some? then s1.(pc := MPeek(i + 1))
    else s1.(pc := MWait)
  }

  ghost function TakeStep'(s: State): (s': State)
    requires Enabled(s, MixerStep) && s.pc.MTake? && s.pc.stream < |s.streams|
  {
    var i := s.pc.stream;
    var c := s.streams[i];
    var s1 := s.(streams := s.streams[i := Move(c, CallEvent(c, Q.TryDequeue))]);
    if !c.q.c.CReturn? then s1
    else s1.(pc := MTake(i + 1, s.pc.ready, s.pc.got + [c.q.c.result]))
  }

  // ---------- the invariant ----------

  /** f is what stream i has for round k. */
  predicate InStep(streams: seq<Client<Frame>>, k: nat, i: nat, f: Option<Frame>)
    requires i < |streams|
  {
    k < |streams[i].accepted| && f == Some(streams[i].accepted[k])
  }

  /** A call of the mixer's is under way, or may be, on stream i only. */
  predicate Busy(pc: Mixer, i: nat) {
    (pc.MPeek? || pc.MTake?) && pc.stream == i
  }

  ghost predicate QueuesOk(s: State) {
    && (forall i :: 0 <= i < |s.streams| ==> Ok(s.streams[i]))
    && (forall i :: 0 <= i < |s.streams| && !Busy(s.pc, i) ==> s.streams[i].q.c.CIdle?)
  }

  ghost predicate CountsOk(s: State) {
    && (s.partial ==> s.stop && s.rounds != [] && (s.pc.MMix? || s.pc.MLoop? || s.pc.MDone?))
    && (!s.partial && !s.pc.MTake? ==>
          forall i :: 0 <= i < |s.streams| ==> |s.streams[i].delivered| == |s.rounds|)
  }

  /** Each frame of the round is in step, or missing. */
  ghost predicate RoundShape(streams: seq<Client<Frame>>, k: nat, round: seq<Option<Frame>>) {
    |round| == |streams| && forall i :: 0 <= i < |streams| ==> InStep(streams, k, i, round[i]) || round[i] == None
  }

  ghost predicate RoundWhole(streams: seq<Client<Frame>>, k: nat, round: seq<Option<Frame>>) {
    |round| == |streams| && forall i :: 0 <= i < |streams| ==> InStep(streams, k, i, round[i])
  }

  /** Only the last round may lack a frame, and only after a stop. */
  ghost predicate RoundsOk(s: State) {
    && (forall k :: 0 <= k < |s.rounds| ==> RoundShape(s.streams, k, s.rounds[k]))
    && (forall k :: 0 <= k < |s.rounds| - (if s.partial then 1 else 0) ==> RoundWhole(s.streams, k, s.rounds[k]))
  }

  /** The streams dequeued from so far gave the round its frames; if all were found ready, all did. */
  ghost predicate GotOk(s: State)
    requires s.pc.MTake?
  {
    && |s.pc.got| == s.pc.stream <= |s.streams|
    && (forall i :: 0 <= i < s.pc.stream ==>
          InStep(s.streams, |s.rounds|, i, s.pc.got[i]) || (!s.pc.ready && s.pc.got[i] == None))
    && (forall i :: 0 <= i < s.pc.stream && s.pc.ready ==> |s.streams[i].delivered| == |s.rounds| + 1)
  }

  /** The streams still to come have their next frame if all were found ready. */
  ghost predicate AheadOk(s: State)
    requires s.pc.MTake?
  {
    && (!s.pc.ready ==> s.stop)
    && (forall i :: s.pc.stream < i < |s.streams| ==> |s.streams[i].delivered| == |s.rounds|)
    && (forall i :: s.pc.stream < i < |s.streams| && s.pc.ready ==> |s.rounds| < |s.streams[i].accepted|)
    && (s.pc.stream < |s.streams| ==> TakingOk(s.streams[s.pc.stream], |s.rounds|, s.pc.ready))
  }

  /** The stream being dequeued from. */
  ghost predicate TakingOk(c: Client<Frame>, k: nat, ready: bool) {
    if c.q.c.CIdle? then |c.delivered| == k && (ready ==> k < |c.accepted|) else Fetching(c, k, ready)
  }

  ghost predicate PeekingOk(s: State)
    requires s.pc.MPeek?
  {
    && s.pc.stream <= |s.streams|
    && (forall i :: 0 <= i < s.pc.stream ==> |s.streams[i].delivered| < |s.streams[i].accepted|)
    && (s.pc.stream < |s.streams| && !s.streams[s.pc.stream].q.c.CIdle? ==> Looking(s.streams[s.pc.stream]))
  }

  ghost predicate Inv(s: State) {
    && QueuesOk(s) && CountsOk(s) && RoundsOk(s)
    && (s.pc.MPeek? ==> PeekingOk(s))
    && (s.pc.MTake? ==> GotOk(s) && AheadOk(s))
    && (s.pc.MMix? ==> s.rounds != [] && s.pc.got == s.rounds[|s.rounds| - 1])
  }

  lemma StartOk(s: State, size: nat)
    requires Init(s, size) && Usable(size)
    ensures Inv(s)
  {
    forall i | 0 <= i < |s.streams| ensures Ok(s.streams[i]) {
      InitOk(s.streams[i], size);
    }
  }

  /** More frames accepted change nothing for the rounds there were. */
  lemma RoundsStay(s: State, s': State)
    requires RoundsOk(s) && s'.rounds == s.rounds && s'.partial == s.partial && |s'.streams| == |s.streams|
    requires forall j :: 0 <= j < |s.streams| ==> s.streams[j].accepted <= s'.streams[j].accepted
    ensures RoundsOk(s')
  {
    forall k | 0 <= k < |s.rounds| ensures RoundShape(s'.streams, k, s'.rounds[k]) {
      assert RoundShape(s.streams, k, s.rounds[k]);
      forall i | 0 <= i < |s.streams| ensures InStep(s'.streams, k, i, s.rounds[k][i]) || s.rounds[k][i] == None {
      }
    }
    forall k | 0 <= k < |s.rounds| - (if s.partial then 1 else 0) ensures RoundWhole(s'.streams, k, s'.rounds[k]) {
      assert RoundWhole(s.streams, k, s.rounds[k]);
      forall i | 0 <= i < |s.streams| ensures InStep(s'.streams, k, i, s.rounds[k][i]) {
      }
    }
  }

  /** One stream changes, by a move that accepts no less. */
  ghost predicate OneMoved(s: State, s': State, i: nat)
  {
    && i < |s.streams| == |s'.streams| && s'.streams == s.streams[i := s'.streams[i]]
    && s'.rounds == s.rounds && s'.partial == s.partial && s'.stop == s.stop
    && s.streams[i].accepted <= s'.streams[i].accepted
    && Ok(s'.streams[i])
  }

  lemma OneMovedOk(s: State, s': State, i: nat)
    requires QueuesOk(s) && RoundsOk(s) && OneMoved(s, s', i)
    requires forall j :: 0 <= j < |s.streams| && j != i && !Busy(s'.pc, j) ==> !Busy(s.pc, j)
    requires Busy(s'.pc, i) || s'.streams[i].q.c.CIdle?
    ensures QueuesOk(s') && RoundsOk(s')
  {
    forall j | 0 <= j < |s.streams| ensures Ok(s'.streams[j]) {
      if j != i {
        assert s'.streams[j] == s.streams[j];
      }
    }
    RoundsStay(s, s');
  }

  // ---------- the pushing threads ----------

  lemma PushOk(s: State, i: nat, ev: Q.Event<Frame>)
    requires Inv(s) && Enabled(s, Push(i, ev))
    ensures Inv(Step(s, Push(i, ev)))
  {
    var s' := Step(s, Push(i, ev));
    ProducerMove(s.streams[i], ev);
    OneMovedOk(s, s', i);
    PushCounts(s, s', i);
    if s.pc.MTake? && s.pc.stream == i {
      PushTaking(s.streams[i], ev, |s.rounds|, s.pc.ready);
    }
  }

  lemma PushTaking(c: Client<Frame>, ev: Q.Event<Frame>, k: nat, ready: bool)
    requires Ok(c) && K.Enabled(c, ev) && ByProducer(ev) && TakingOk(c, k, ready)
    ensures TakingOk(Move(c, ev), k, ready)
  {
    ProducerMove(c, ev);
    if !c.q.c.CIdle? {
      ProducerKeepsFetching(c, ev, k, ready);
    }
  }

  lemma PushCounts(s: State, s': State, i: nat)
    requires OneMoved(s, s', i) && s'.pc == s.pc && CountsOk(s)
    requires s'.streams[i].delivered == s.streams[i].delivered && s'.streams[i].q.c == s.streams[i].q.c
    ensures CountsOk(s')
    ensures s.pc.MPeek? && PeekingOk(s) ==> PeekingOk(s')
    ensures s.pc.MTake? && GotOk(s) ==> GotOk(s')
    ensures (s.pc.MTake? && AheadOk(s)
      && (s.pc.stream < |s.streams| ==> TakingOk(s'.streams[s.pc.stream], |s.rounds|, s.pc.ready))) ==> AheadOk(s')
  {
  }

  // ---------- the mixer thread ----------

  lemma PeekStepOk(s: State)
    requires Inv(s) && s.pc.MPeek? && s.pc.stream < |s.streams| && Enabled(s, MixerStep)
    ensures Inv(MixerStep'(s))
  {
    var i, s' := s.pc.stream, MixerStep'(s);
    PeekCall(s.streams[i], s'.streams[i]);
    OneMovedOk(s, s', i);
    PeekCounts(s, s');
  }

  /** A peek that found something has found the stream ready. */
  lemma PeekCounts(s: State, s': State)
    requires s.pc.MPeek? && s.pc.stream < |s.streams| && PeekingOk(s) && CountsOk(s)
    requires Enabled(s, MixerStep) && s' == MixerStep'(s)
    requires var c, c' := s.streams[s.pc.stream], s'.streams[s.pc.stream];
      c' == c.(q := c'.q) && if c.q.c.CReturn? then c'.q.c.CIdle? else Looking(c')
    requires s.pc.stream + 1 < |s.streams| ==> s.streams[s.pc.stream + 1].q.c.CIdle?
    ensures CountsOk(s') && (s'.pc.MPeek? ==> PeekingOk(s'))
  {
  }

  /** A step of a peek changes nothing but the queue's own state. */
  lemma PeekCall(c: Client<Frame>, c': Client<Frame>)
    requires Ok(c) && (c.q.c.CIdle? || Looking(c)) && CanCall(c, Q.Peek) && c' == Move(c, CallEvent(c, Q.Peek))
    ensures Ok(c') && c' == c.(q := c'.q)
    ensures if c.q.c.CReturn? then c'.q.c.CIdle? else Looking(c')
  {
    if c.q.c.CIdle? {
      StartPeek(c);
    } else if c.q.c.CReturn? {
      EndCall(c);
    } else {
      PeekStep(c);
    }
  }

  /** A step of a try_dequeue, up to its return. */
  lemma TakeCall(c: Client<Frame>, c': Client<Frame>, k: nat, ready: bool)
    requires Ok(c) && TakingOk(c, k, ready) && CanCall(c, Q.TryDequeue) && c' == Move(c, CallEvent(c, Q.TryDequeue))
    ensures Ok(c') && c'.accepted == c.accepted
    ensures if c.q.c.CReturn? then c'.q.c.CIdle? && c'.delivered == c.delivered else TakingOk(c', k, ready)
  {
    if c.q.c.CIdle? {
      StartFetch(c, ready);
    } else if c.q.c.CReturn? {
      EndCall(c);
    } else {
      FetchStep(c, k, ready);
    }
  }

  lemma TakeStepOk(s: State)
    requires Inv(s) && s.pc.MTake? && s.pc.stream < |s.streams| && Enabled(s, MixerStep)
    ensures Inv(MixerStep'(s))
  {
    var i, s' := s.pc.stream, MixerStep'(s);
    TakeCall(s.streams[i], s'.streams[i], |s.rounds|, s.pc.ready);
    OneMovedOk(s, s', i);
    TakeCounts(s, s');
  }

  /** A try_dequeue that must succeed returns the next frame. */
  lemma TakeCounts(s: State, s': State)
    requires s.pc.MTake? && s.pc.stream < |s.streams| && GotOk(s) && AheadOk(s) && CountsOk(s)
    requires Enabled(s, MixerStep) && s' == MixerStep'(s)
    requires s'.streams[s.pc.stream].accepted == s.streams[s.pc.stream].accepted
    requires var c, c' := s.streams[s.pc.stream], s'.streams[s.pc.stream];
      if c.q.c.CReturn? then c'.q.c.CIdle? && c'.delivered == c.delivered else TakingOk(c', |s.rounds|, s.pc.ready)
    requires s.pc.stream + 1 < |s.streams| ==> s.streams[s.pc.stream + 1].q.c.CIdle?
    ensures CountsOk(s') && GotOk(s') && AheadOk(s')
  {
  }

  lemma StepOk(s: State, ev: Event)
    requires Inv(s) && Enabled(s, ev)
    ensures Inv(Step(s, ev))
  {
    match ev
    case Push(i, qev) => PushOk(s, i, qev);
    case RequestStop => RoundsStay(s, s.(stop := true));
    case MixerStep =>
      if s.pc.MPeek? && s.pc.stream < |s.streams| {
        PeekStepOk(s);
      } else if s.pc.MTake? && s.pc.stream < |s.streams| {
        TakeStepOk(s);
      } else {
        BetweenOk(s);
      }
  }

  /** The steps that touch no queue. */
  lemma BetweenOk(s: State)
    requires Inv(s) && Enabled(s, MixerStep)
    requires (s.pc.MPeek? || s.pc.MTake?) ==> s.pc.stream >= |s.streams|
    ensures Inv(MixerStep'(s))
  {
    BetweenQueues(s);
    if s.pc.MTake? {
      RoundEnds(s);
    } else {
      RoundsStay(s, MixerStep'(s));
      if s.pc.MPeek? {
        AllReady(s);
      }
    }
  }

  lemma BetweenQueues(s: State)
    requires QueuesOk(s) && Enabled(s, MixerStep)
    requires (s.pc.MPeek? || s.pc.MTake?) ==> s.pc.stream >= |s.streams|
    ensures QueuesOk(MixerStep'(s)) && MixerStep'(s).streams == s.streams
    ensures forall i :: 0 <= i < |s.streams| ==> s.streams[i].q.c.CIdle?
  {
    assert forall i :: 0 <= i < |s.streams| ==> !Busy(s.pc, i);
  }

  lemma AllReady(s: State)
    requires CountsOk(s) && s.pc.MPeek? && PeekingOk(s) && s.pc.stream >= |s.streams| && Enabled(s, MixerStep)
    requires forall i :: 0 <= i < |s.streams| ==> s.streams[i].q.c.CIdle?
    ensures GotOk(MixerStep'(s)) && AheadOk(MixerStep'(s)) && CountsOk(MixerStep'(s))
  {
  }

  lemma RoundEnds(s: State)
    requires CountsOk(s) && RoundsOk(s) && s.pc.MTake? && GotOk(s) && AheadOk(s)
    requires s.pc.stream >= |s.streams| && Enabled(s, MixerStep)
    ensures CountsOk(MixerStep'(s)) && RoundsOk(MixerStep'(s))
  {
    assert RoundShape(s.streams, |s.rounds|, s.pc.got);
    assert s.pc.ready ==> RoundWhole(s.streams, |s.rounds|, s.pc.got);
  }

  // ---------- runs ----------

  ghost predicate IsRun(states: seq<State>, evs: seq<Event>, size: nat) {
    && |states| == |evs| + 1 && Init(states[0], size)
    && forall i :: 0 <= i < |evs| ==> Enabled(states[i], evs[i]) && states[i + 1] == Step(states[i], evs[i])
  }

  lemma {:induction false} RunOk(states: seq<State>, evs: seq<Event>, size: nat, n: nat)
    requires IsRun(states, evs, size) && Usable(size) && n < |states|
    ensures Inv(states[n])
  {
    if n == 0 {
      StartOk(states[0], size);
    } else {
      RunOk(states, evs, size, n - 1);
      assert Enabled(states[n - 1], evs[n - 1]);
      StepOk(states[n - 1], evs[n - 1]);
    }
  }

  /** The mixer thread is never stuck: no call of its own fails an assertion of the queue's. */
  lemma NeverStuck(states: seq<State>, evs: seq<Event>, size: nat, n: nat)
    requires IsRun(states, evs, size) && Usable(size) && n < |states| && !states[n].pc.MDone?
    ensures Enabled(states[n], MixerStep)
  {
    var s := states[n];
    RunOk(states, evs, size, n);
    if (s.pc.MPeek? || s.pc.MTake?) && s.pc.stream < |s.streams| {
      CallsGoOn(s.streams[s.pc.stream], if s.pc.MPeek? then Q.Peek else Q.TryDequeue);
    }
  }

  lemma CallsGoOn(c: Client<Frame>, op: Q.Op)
    requires Ok(c)
    ensures CanCall(c, op)
  {
    MoveOk(c, CallEvent(c, op));
  }

  /** Once a wait has found every stream ready, each try_dequeue of the round succeeds, with the
      frame that was peeked, whatever is pushed meanwhile. */
  lemma ReadyRoundsAreWhole(states: seq<State>, evs: seq<Event>, size: nat, n: nat, i: nat)
    requires IsRun(states, evs, size) && Usable(size) && n < |states| && i < |states[n].streams|
    requires states[n].pc.MTake? && states[n].pc.ready
    ensures var s := states[n]; var c, k := s.streams[i], |s.rounds|;
      && k < |c.accepted|
      && (i > s.pc.stream ==> |c.delivered| == k)
      && (i == s.pc.stream && c.q.c.CReturn? ==> c.q.c.result == Some(c.accepted[k]))
      && (i < s.pc.stream ==> i < |s.pc.got| && s.pc.got[i] == Some(c.accepted[k]))
  {
    RunOk(states, evs, size, n);
    if i < states[n].pc.stream {
      assert InStep(states[n].streams, |states[n].rounds|, i, states[n].pc.got[i]);
    }
  }

  /** In every run, round k mixes the k-th frame accepted from every stream; only the last round
      after a stop may lack some. */
  lemma Lockstep(states: seq<State>, evs: seq<Event>, size: nat, n: nat, k: nat, i: nat)
    requires IsRun(states, evs, size) && Usable(size) && n < |states|
    requires k < |states[n].rounds| && i < |states[n].streams|
    ensures var s := states[n];
      && |s.rounds[k]| == |s.streams|
      && (InStep(s.streams, k, i, s.rounds[k][i])
          || (s.stop && s.partial && k == |s.rounds| - 1 && s.rounds[k][i] == None))
  {
    RunOk(states, evs, size, n);
    RoundAt(states[n], k, i);
  }

  lemma RoundAt(s: State, k: nat, i: nat)
    requires CountsOk(s) && RoundsOk(s) && k < |s.rounds| && i < |s.streams|
    ensures |s.rounds[k]| == |s.streams|
    ensures InStep(s.streams, k, i, s.rounds[k][i])
      || (s.stop && s.partial && k == |s.rounds| - 1 && s.rounds[k][i] == None)
  {
    assert RoundShape(s.streams, k, s.rounds[k]);
    assert k < |s.rounds| - (if s.partial then 1 else 0) ==> RoundWhole(s.streams, k, s.rounds[k]);
  }

  // ---------- the output ----------

  /** The k-th frame of each of the first n streams. */
  ghost function Kth(streams: seq<Client<Frame>>, k: nat, n: nat): (r: seq<Frame>)
    requires n <= |streams| && forall i :: 0 <= i < n ==> k < |streams[i].accepted|
    ensures |r| == n
  {
    seq(n, i requires 0 <= i < n => streams[i].accepted[k])
  }

  lemma {:induction false} FramesAreKth(streams: seq<Client<Frame>>, k: nat, round: seq<Option<Frame>>, n: nat)
    requires n <= |streams| == |round| && forall i :: 0 <= i < n ==> InStep(streams, k, i, round[i])
    ensures forall i :: 0 <= i < n ==> k < |streams[i].accepted|
    ensures Frames(round[..n]) == Kth(streams, k, n)
  {
    if n > 0 {
      FramesAreKth(streams, k, round, n - 1);
      assert round[..n][..n - 1] == round[..n - 1];
      assert InStep(streams, k, n - 1, round[n - 1]);
    }
  }

  /** What the mixer puts out for a whole round k is, at every position, the saturating mix of
      the k-th frames of all streams that reach it. */
  lemma RoundOutput(s: State, i: nat)
    requires RoundsOk(s) && Enabled(s, MixerStep) && s.pc.MMix? && !s.partial && i < |s.mixed|
    requires s.rounds != [] && s.pc.got == s.rounds[|s.rounds| - 1]
    ensures var k := |s.rounds| - 1;
      && (forall j :: 0 <= j < |s.streams| ==> k < |s.streams[j].accepted|)
      && MixerStep'(s).mixed[i] == Mixed(0, Column(Kth(s.streams, k, |s.streams|), i))
  {
    var k := |s.rounds| - 1;
    assert RoundWhole(s.streams, k, s.rounds[k]);
    FramesAreKth(s.streams, k, s.pc.got, |s.streams|);
    assert s.pc.got[..|s.streams|] == s.pc.got;
    FramesByColumn(seq(|s.mixed|, _ => 0), Frames(s.pc.got), i);
  }
}
