/** The mixer thread does not stop by itself, and mixes a round whenever every stream has its frame. */
module AudioProgress {
  import opened AudioMixer
  import opened Capacity
  import Q = SpscProtocol
  import opened K = SpscClient
  import W = SpscWaitFree

  /** The thread ends only after a stop. */
  lemma {:induction false} EndsOnlyOnStop(states: seq<State>, evs: seq<Event>, size: nat, n: nat)
    requires IsRun(states, evs, size) && n <= |evs|
    ensures states[n].stop <==> exists k :: 0 <= k < n && evs[k].RequestStop?
    ensures states[n].pc.MDone? ==> states[n].stop
  {
    if n > 0 {
      var i := n - 1;
      EndsOnlyOnStop(states, evs, size, i);
      assert AudioMixer.Enabled(states[i], evs[i]) && states[i + 1] == Step(states[i], evs[i]);
      StopStep(states[i], evs[i]);
    }
  }

  lemma StopStep(s: State, ev: Event)
    requires AudioMixer.Enabled(s, ev)
    ensures Step(s, ev).stop <==> s.stop || ev.RequestStop?
    ensures Step(s, ev).pc.MDone? ==> s.pc.MDone? || s.stop
  {
  }

  // ---------- a bound ----------

  /** At most how many steps the mixer's call on a stream still takes, started or not. */
  function CallLeft(c: Client<Frame>): nat {
    if c.q.c.CIdle? then 15 else W.ConsumerLeft(c.q.c)
  }

  /** At most how many steps the mixer still takes to the end of the round, if all streams are ready. */
  function Left(s: State): nat {
    var n := |s.streams|;
    match s.pc
    case MDone => 0
    case MTake(i, _, _) => if i >= n then 1 else 1 + 15 * (n - i - 1) + CallLeft(s.streams[i])
    case MPeek(i) => 2 + 15 * n + if i >= n then 0 else 15 * (n - i - 1) + CallLeft(s.streams[i])
    case MWait => 3 + 30 * n
    case MLoop => 4 + 30 * n
    case MMix(_) => 5 + 30 * n
  }

  /** Every stream has a frame for the next round, and a peek under way is going to see its. */
  ghost predicate AllAhead(s: State) {
    && !s.stop && !s.pc.MDone?
    && (forall i :: 0 <= i < |s.streams| ==> |s.rounds| < |s.streams[i].accepted|)
    && (s.pc.MPeek? && s.pc.stream < |s.streams| ==> Seeing(s.streams[s.pc.stream]))
  }

  lemma PeekCounts(c: Client<Frame>, c': Client<Frame>)
    requires Ok(c) && (c.q.c.CIdle? || Looking(c)) && Seeing(c) && |c.delivered| < |c.accepted|
    requires CanCall(c, Q.Peek) && c' == Move(c, CallEvent(c, Q.Peek))
    ensures if c.q.c.CReturn? then c.q.c.result.Some? && c'.q.c.CIdle? else Seeing(c') && CallLeft(c') < CallLeft(c)
  {
    if c.q.c.CIdle? {
      StartSees(c);
    } else if c.q.c.CReturn? {
      EndCall(c);
    } else {
      StepSees(c);
      W.ConsumerCounts(c.q);
      PeekStep(c);
    }
  }

  lemma TakeCounts(c: Client<Frame>, c': Client<Frame>)
    requires K.Enabled(c, CallEvent(c, Q.TryDequeue)) && c' == Move(c, CallEvent(c, Q.TryDequeue))
    ensures c'.accepted == c.accepted
    ensures if c.q.c.CReturn? then c'.q.c.CIdle? else CallLeft(c') < CallLeft(c)
  {
    if !c.q.c.CIdle? {
      W.ConsumerCounts(c.q);
    }
  }

  lemma PeekProgress(s: State)
    requires Inv(s) && AllAhead(s) && s.pc.MPeek? && s.pc.stream < |s.streams| && AudioMixer.Enabled(s, MixerStep)
    ensures AllAhead(MixerStep'(s)) && Left(MixerStep'(s)) < Left(s)
  {
    var i, s' := s.pc.stream, MixerStep'(s);
    var c := s.streams[i];
    assert |c.delivered| == |s.rounds|;
    PeekCall(c, s'.streams[i]);
    PeekCounts(c, s'.streams[i]);
    if i + 1 < |s.streams| {
      assert s.streams[i + 1].q.c.CIdle?;
    }
  }

  lemma TakeProgress(s: State)
    requires Inv(s) && AllAhead(s) && s.pc.MTake? && s.pc.stream < |s.streams| && AudioMixer.Enabled(s, MixerStep)
    ensures AllAhead(MixerStep'(s)) && Left(MixerStep'(s)) < Left(s)
  {
    var i, s' := s.pc.stream, MixerStep'(s);
    TakeCounts(s.streams[i], s'.streams[i]);
    TakeLeft(s, s');
  }

  lemma TakeLeft(s: State, s': State)
    requires AllAhead(s) && s.pc.MTake? && s.pc.stream < |s.streams| && AudioMixer.Enabled(s, MixerStep)
    requires s' == TakeStep'(s)
    requires s.pc.stream + 1 < |s.streams| ==> s.streams[s.pc.stream + 1].q.c.CIdle?
    requires var c, c' := s.streams[s.pc.stream], s'.streams[s.pc.stream];
      c'.accepted == c.accepted && if c.q.c.CReturn? then c'.q.c.CIdle? else CallLeft(c') < CallLeft(c)
    ensures AllAhead(s') && Left(s') < Left(s)
  {
  }

  lemma BetweenProgress(s: State)
    requires Inv(s) && AllAhead(s) && AudioMixer.Enabled(s, MixerStep)
    requires (s.pc.MPeek? || s.pc.MTake?) ==> s.pc.stream >= |s.streams|
    ensures var s' := MixerStep'(s);
      |s'.rounds| > |s.rounds| || (s'.rounds == s.rounds && AllAhead(s') && Left(s') < Left(s))
  {
    BetweenQueues(s);
  }

  lemma PushProgress(s: State, i: nat, ev: Q.Event<Frame>)
    requires Inv(s) && AllAhead(s) && AudioMixer.Enabled(s, Push(i, ev))
    ensures AllAhead(Step(s, Push(i, ev))) && Left(Step(s, Push(i, ev))) == Left(s)
  {
    ProducerMove(s.streams[i], ev);
    if s.pc.MPeek? && s.pc.stream == i {
      ProducerKeepsSeeing(s.streams[i], ev);
    }
  }

  lemma Progress(s: State, ev: Event)
    requires Inv(s) && AllAhead(s) && AudioMixer.Enabled(s, ev) && !ev.RequestStop?
    ensures var s' := Step(s, ev);
      || |s'.rounds| > |s.rounds|
      || (s'.rounds == s.rounds && AllAhead(s') && Left(s') + (if ev.MixerStep? then 1 else 0) <= Left(s))
  {
    match ev
    case Push(i, qev) => PushProgress(s, i, qev);
    case MixerStep =>
      if s.pc.MPeek? && s.pc.stream < |s.streams| {
        PeekProgress(s);
      } else if s.pc.MTake? && s.pc.stream < |s.streams| {
        TakeProgress(s);
      } else {
        BetweenProgress(s);
      }
  }

  /** The mixer's own steps from step m up to step n. */
  ghost function MixerSteps(evs: seq<Event>, m: nat, n: nat): nat
    requires m <= n <= |evs|
  {
    if m == n then 0 else MixerSteps(evs, m, n - 1) + if evs[n - 1].MixerStep? then 1 else 0
  }

  /** Since step m no round was finished, and so many steps were taken on the way. */
  ghost predicate OnTheWay(states: seq<State>, evs: seq<Event>, m: nat, n: nat)
    requires m <= n <= |evs| < |states|
  {
    && states[n].rounds == states[m].rounds && AllAhead(states[n])
    && MixerSteps(evs, m, n) + Left(states[n]) <= Left(states[m])
  }

  lemma OneFurther(states: seq<State>, evs: seq<Event>, size: nat, m: nat, i: nat)
    requires IsRun(states, evs, size) && Usable(size) && m <= i < |evs| && !evs[i].RequestStop?
    requires OnTheWay(states, evs, m, i)
    ensures |states[i + 1].rounds| > |states[m].rounds| || OnTheWay(states, evs, m, i + 1)
  {
    RunOk(states, evs, size, i);
    assert AudioMixer.Enabled(states[i], evs[i]) && states[i + 1] == Step(states[i], evs[i]);
    Progress(states[i], evs[i]);
  }

  lemma {:induction false} RoundComesAt(states: seq<State>, evs: seq<Event>, size: nat, m: nat, n: nat)
    requires IsRun(states, evs, size) && Usable(size) && m <= n <= |evs| && AllAhead(states[m])
    requires forall k :: m <= k < n ==> !evs[k].RequestStop?
    ensures (exists k :: m < k <= n && |states[k].rounds| > |states[m].rounds|) || OnTheWay(states, evs, m, n)
  {
    if m < n {
      var i := n - 1;
      RoundComesAt(states, evs, size, m, i);
      if OnTheWay(states, evs, m, i) {
        OneFurther(states, evs, size, m, i);
      }
    }
  }

  /** In every run: when the mixer is about to look at its streams, or was just done with a round, and
      every stream has a frame for the next round, then without a stop that round is there after at
      most 30 steps of the mixer's own for each stream, and 5. */
  lemma RoundComes(states: seq<State>, evs: seq<Event>, size: nat, m: nat, n: nat)
    requires IsRun(states, evs, size) && Usable(size) && m <= n <= |evs|
    requires states[m].pc.MLoop? || states[m].pc.MWait? || states[m].pc.MMix?
    requires forall i :: 0 <= i < |states[m].streams| ==> |states[m].rounds| < |states[m].streams[i].accepted|
    requires !states[m].stop && forall k :: m <= k < n ==> !evs[k].RequestStop?
    requires MixerSteps(evs, m, n) > 30 * |states[m].streams| + 5
    ensures exists k :: m < k <= n && |states[k].rounds| > |states[m].rounds|
  {
    RoundComesAt(states, evs, size, m, n);
  }
}
