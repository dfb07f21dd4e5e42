/**
 Captured frames on their way to the encoder: a recorder thread numbers and queues them, an
 encoder thread takes them out, and stop joins the one before the other drains the queue.
 A frame goes by its PTS.
 */
module VideoPipeline {
  import CB = CircularBuffer
  import opened Wrappers
  import Q = SpscQueue
  import Blocks

  datatype Recorder =
    | RStopped
    | RRunning
    | RPushing(pts: nat, queued: nat)  // in push_frame; queued is history: how many were queued when it began

  datatype Encoder =
    | EStopped
    | ELoop                             // about to test for a stop
    | ETry(drain: bool)                 // about to dequeue
    | EEncode(drain: bool, frame: nat)  // about to encode what it took

  /** What stop has done: nothing, asked the recorder to end, joined it and asked the encoder. */
  datatype Stop = NotStopping | RecorderAsked | EncoderAsked

  /** attempts is last_frame_pts_.  accepted, dropped, handed, sent and emitted are history: the
      frames the queue took or refused, those given to encode_frame, those the codec took, and
      those whose packet came out.  inCodec is what the codec holds back. */
  datatype State = State(
    recorder: Recorder, encoder: Encoder, stopping: Stop, queue: seq<nat>, attempts: nat,
    inCodec: seq<nat>, capacity: nat, buffer: seq<nat>,
    accepted: seq<nat>, dropped: seq<nat>, handed: seq<nat>, sent: seq<nat>, emitted: seq<nat>)

  const QUEUE_SIZE: nat := 1024

  datatype Event =
    | Start
    | Capture            // takes the next PTS
    | Accept             // try_enqueue succeeds
    | Drop               // and fails: SpscCalls.EnqueueTruthful says when
    | RecorderExit
    | EncoderStep        // the loop test, or try_dequeue
    | EncodeRejects      // avcodec_send_frame fails
    | EncodeBuffers      // no packet comes out yet, or receiving one fails
    | EncodeEmits        // the packet of the oldest frame in the codec comes out
    | StopRecorder
    | StopEncoder
    | StopDone
    | ClearFrames        // the segment thread, after it saved a segment

  ghost predicate Init(s: State) {
    && s.recorder == RStopped && s.encoder == EStopped && s.stopping == NotStopping
    && s.queue == s.inCodec == s.buffer == s.accepted == s.dropped == s.handed == s.sent == s.emitted == []
    && s.attempts == 0
  }

  ghost predicate Enabled(s: State, ev: Event) {
    match ev
    case Start => s.recorder.RStopped? && s.encoder.EStopped? && s.stopping.NotStopping?
    case Capture => s.recorder.RRunning?
    case Accept => s.recorder.RPushing?
    case Drop => s.recorder.RPushing? && s.recorder.queued >= QUEUE_SIZE
    case RecorderExit => s.recorder.RRunning? && s.stopping.RecorderAsked?
    case EncoderStep => s.encoder.ELoop? || s.encoder.ETry?
    case EncodeRejects => s.encoder.EEncode?
    case EncodeBuffers => s.encoder.EEncode?
    case EncodeEmits => s.encoder.EEncode?
    case StopRecorder => s.stopping.NotStopping? && s.recorder.RRunning?
    case StopEncoder => s.stopping.RecorderAsked? && s.recorder.RStopped?
    case StopDone => s.stopping.EncoderAsked? && s.encoder.EStopped?
    case ClearFrames => true
  }

  /** ScreenRecorderBase.cpp:50-83, 185-188 and VideoEncoderQueue.cpp:44-136. */
  ghost function Step(s: State, ev: Event): (s': State)
    requires Enabled(s, ev)
  {
    match ev
    case Start => s.(recorder := RRunning, encoder := ELoop)
    case Capture => s.(recorder := RPushing(s.attempts, |s.queue|), attempts := s.attempts + 1)
    case Accept =>
      var pts := s.recorder.pts;
      s.(recorder := RRunning, queue := s.queue + [pts], accepted := s.accepted + [pts])
    case Drop => s.(recorder := RRunning, dropped := s.dropped + [s.recorder.pts])
    case RecorderExit => s.(recorder := RStopped)
    case EncoderStep => EncoderStep'(s)
    case EncodeRejects => Handed(s)
    case EncodeBuffers =>
      Handed(s).(inCodec := s.inCodec + [s.encoder.frame], sent := s.sent + [s.encoder.frame])
    case EncodeEmits =>
      var held := s.inCodec + [s.encoder.frame];
      Handed(s).(inCodec := held[1..], sent := s.sent + [s.encoder.frame], emitted := s.emitted + [held[0]],
                 buffer := CB.Pushed(s.buffer, held[0], s.capacity))
    case StopRecorder => s.(stopping := RecorderAsked)
    case StopEncoder => s.(stopping := EncoderAsked)
    case StopDone => s.(stopping := NotStopping, buffer := [])
    case ClearFrames => s.(buffer := [])
  }

  ghost function EncoderStep'(s: State): (s': State)
    requires Enabled(s, EncoderStep)
  {
    match s.encoder
    case ELoop => s.(encoder := ETry(s.stopping.EncoderAsked?))
    case ETry(drain) =>
      if s.queue != [] then s.(encoder := EEncode(drain, s.queue[0]), queue := s.queue[1..])
      else s.(encoder := if drain then EStopped else ELoop)
  }

  /** encode_frame is called: the encoder goes on to its next frame. */
  ghost function Handed(s: State): (s': State)
    requires s.encoder.EEncode?
  {
    s.(handed := s.handed + [s.encoder.frame],
       encoder := if s.encoder.drain then ETry(true) else ELoop)
  }

  // ---------- the invariant ----------

  ghost predicate Increasing(s: seq<nat>) {
    forall i, j :: 0 <= i < j < |s| ==> s[i] < s[j]
  }

  ghost predicate Below(s: seq<nat>, bound: nat) {
    forall i :: 0 <= i < |s| ==> s[i] < bound
  }

  function InHand(s: State): seq<nat> {
    if s.encoder.EEncode? then [s.encoder.frame] else []
  }

  /** The first PTS that is not accounted for yet. */
  function Settled(s: State): nat {
    if s.recorder.RPushing? then s.recorder.pts else s.attempts
  }

  /** Every frame attempted, but one being pushed, was either accepted or dropped. */
  ghost predicate Attempted(s: State) {
    && (s.recorder.RPushing? ==> s.attempts == s.recorder.pts + 1)
    && |s.accepted| + |s.dropped| == Settled(s)
    && Increasing(s.accepted) && Increasing(s.dropped)
    && Below(s.accepted, Settled(s)) && Below(s.dropped, Settled(s))
    && forall f: nat :: f < Settled(s) ==> (f in s.accepted <==> f !in s.dropped)
  }

  ghost predicate Codec(s: State) {
    && s.sent == s.emitted + s.inCodec
    && Increasing(s.sent) && |s.sent| <= |s.handed|
    && (forall i :: 0 <= i < |s.sent| ==> s.sent[i] in s.handed)
  }

  ghost predicate Phases(s: State) {
    && (s.stopping.EncoderAsked? ==> s.recorder.RStopped?)
    && (s.recorder.RStopped? && !s.stopping.EncoderAsked? ==>
          s.stopping.RecorderAsked? || s.encoder.EStopped?)
    && (s.encoder.EStopped? ==> s.recorder.RStopped? && s.queue == [] && !s.stopping.RecorderAsked?)
    && ((s.encoder.ETry? || s.encoder.EEncode?) && s.encoder.drain ==> s.stopping.EncoderAsked?)
  }

  ghost predicate Inv(s: State) {
    && Attempted(s) && Codec(s) && Phases(s)
    && s.accepted == s.handed + InHand(s) + s.queue
  }

  lemma InitOk(s: State)
    requires Init(s)
    ensures Inv(s)
  {
  }

  lemma AcceptOk(s: State)
    requires Inv(s) && Enabled(s, Accept)
    ensures Inv(Step(s, Accept))
  {
    var s' := Step(s, Accept);
    assert s'.accepted == s'.handed + InHand(s') + s'.queue;
  }

  lemma EncoderStepOk(s: State)
    requires Inv(s) && Enabled(s, EncoderStep)
    ensures Inv(Step(s, EncoderStep))
  {
    var s' := Step(s, EncoderStep);
    assert s'.accepted == s'.handed + InHand(s') + s'.queue;
  }

  /** The frame in hand is newer than every frame handed before. */
  lemma InHandIsNewer(s: State, f: nat)
    requires Attempted(s) && s.accepted == s.handed + InHand(s) + s.queue && s.encoder.EEncode? && f in s.handed
    ensures f < s.encoder.frame
  {
    var i :| 0 <= i < |s.handed| && s.handed[i] == f;
    assert s.accepted[i] == f && s.accepted[|s.handed|] == s.encoder.frame;
  }

  lemma EncodeOk(s: State, ev: Event)
    requires Inv(s) && Enabled(s, ev) && (ev.EncodeRejects? || ev.EncodeBuffers? || ev.EncodeEmits?)
    ensures Inv(Step(s, ev))
  {
    var s' := Step(s, ev);
    assert s'.accepted == s'.handed + InHand(s') + s'.queue;
    forall i | 0 <= i < |s.sent| ensures s.sent[i] < s.encoder.frame {
      InHandIsNewer(s, s.sent[i]);
    }
    CodecOk(s, ev);
  }

  lemma CodecOk(s: State, ev: Event)
    requires Codec(s) && Enabled(s, ev) && (ev.EncodeRejects? || ev.EncodeBuffers? || ev.EncodeEmits?)
    requires forall i :: 0 <= i < |s.sent| ==> s.sent[i] < s.encoder.frame
    ensures Codec(Step(s, ev))
  {
    var s' := Step(s, ev);
    assert s'.sent == s'.emitted + s'.inCodec;
    assert s'.handed == s.handed + [s.encoder.frame];
  }

  lemma StepOk(s: State, ev: Event)
    requires Inv(s) && Enabled(s, ev)
    ensures Inv(Step(s, ev))
  {
    match ev
    case Accept => AcceptOk(s);
    case EncoderStep => EncoderStepOk(s);
    case EncodeRejects => EncodeOk(s, ev);
    case EncodeBuffers => EncodeOk(s, ev);
    case EncodeEmits => EncodeOk(s, ev);
    case _ =>
  }

  // ---------- runs ----------

  ghost predicate IsRun(states: seq<State>, evs: seq<Event>) {
    && |states| == |evs| + 1 && Init(states[0])
    && forall i :: 0 <= i < |evs| ==> Enabled(states[i], evs[i]) && states[i + 1] == Step(states[i], evs[i])
  }

  lemma {:induction false} RunOk(states: seq<State>, evs: seq<Event>, n: nat)
    requires IsRun(states, evs) && n < |states|
    ensures Inv(states[n])
  {
    if n == 0 {
      InitOk(states[0]);
    } else {
      RunOk(states, evs, n - 1);
      assert Enabled(states[n - 1], evs[n - 1]);
      StepOk(states[n - 1], evs[n - 1]);
    }
  }

  /** In every run, whatever is dropped and whatever fails: each frame attempted was dropped, or
      handed to the encoder, or is in its hand, or queued, or being pushed, once only; and PTS
      values reach the encoder, and packets leave it, strictly increasing. */
  lemma Conservation(states: seq<State>, evs: seq<Event>, n: nat)
    requires IsRun(states, evs) && n < |states|
    ensures var s := states[n];
      && s.attempts == |s.dropped| + |s.handed| + |InHand(s)| + |s.queue| + (if s.recorder.RPushing? then 1 else 0)
      && Increasing(s.handed + InHand(s) + s.queue)
      && (forall f: nat :: f < Settled(s) ==> (f in s.handed + InHand(s) + s.queue <==> f !in s.dropped))
      && Increasing(s.emitted) && (forall i :: 0 <= i < |s.emitted| ==> s.emitted[i] in s.handed)
  {
    RunOk(states, evs, n);
    var s := states[n];
    assert |s.accepted| == |s.handed| + |InHand(s)| + |s.queue|;
    forall i | 0 <= i < |s.emitted| ensures s.emitted[i] in s.handed {
      assert s.sent[i] == s.emitted[i];
    }
    forall i, j | 0 <= i < j < |s.emitted| ensures s.emitted[i] < s.emitted[j] {
      assert s.sent[i] == s.emitted[i] && s.sent[j] == s.emitted[j];
    }
  }

  /** When stop returns the queue is empty, and every accepted frame was handed to the encoder,
      once, in order. */
  lemma StopDrains(states: seq<State>, evs: seq<Event>, n: nat)
    requires IsRun(states, evs) && n < |evs| && evs[n].StopDone?
    ensures var s := states[n + 1];
      && s.queue == [] && s.handed == s.accepted && Increasing(s.handed)
      && s.attempts == |s.dropped| + |s.handed|
  {
    RunOk(states, evs, n);
    RunOk(states, evs, n + 1);
    assert Enabled(states[n], evs[n]) && states[n + 1] == Step(states[n], evs[n]);
    var s := states[n + 1];
    assert s.handed + [] + [] == s.handed;
  }

  // ---------- the buffer, and what is dropped ----------

  /** How many packets had come out when the buffer was last emptied, by a stop or after a save. */
  ghost function LastEmptied(states: seq<State>, evs: seq<Event>, n: nat): nat
    requires n <= |evs| <= |states|
  {
    if n == 0 then 0
    else if evs[n - 1].StopDone? || evs[n - 1].ClearFrames? then |states[n - 1].emitted|
    else LastEmptied(states, evs, n - 1)
  }

  lemma BufferStep(s: State, ev: Event, s': State)
    requires Enabled(s, ev) && s' == Step(s, ev)
    ensures s'.capacity == s.capacity && |s.emitted| <= |s'.emitted| <= |s.emitted| + 1
    ensures s'.emitted[..|s.emitted|] == s.emitted
    ensures ev.StopDone? || ev.ClearFrames? ==> s'.buffer == [] && s'.emitted == s.emitted
    ensures !ev.StopDone? && !ev.ClearFrames? ==>
      s'.buffer == if |s'.emitted| == |s.emitted| then s.buffer
                   else CB.Pushed(s.buffer, s'.emitted[|s.emitted|], s.capacity)
  {
  }

  lemma BufferSoFar(s: State, s': State, start: nat)
    requires start <= |s.emitted| && s'.capacity == s.capacity && |s.emitted| <= |s'.emitted| <= |s.emitted| + 1
    requires s'.emitted[..|s.emitted|] == s.emitted && s.buffer == CB.Newest(s.emitted[start..], s.capacity)
    requires s'.buffer == if |s'.emitted| == |s.emitted| then s.buffer
                          else CB.Pushed(s.buffer, s'.emitted[|s.emitted|], s.capacity)
    ensures s'.buffer == CB.Newest(s'.emitted[start..], s.capacity)
  {
    if |s'.emitted| == |s.emitted| {
      assert s'.emitted == s.emitted;
    } else {
      var x := s'.emitted[|s.emitted|];
      assert s'.emitted == s.emitted + [x];
      OneMore(s.emitted, x, start, s.capacity);
    }
  }

  lemma OneMore(emitted: seq<nat>, x: nat, start: nat, capacity: nat)
    requires start <= |emitted|
    ensures CB.Pushed(CB.Newest(emitted[start..], capacity), x, capacity)
      == CB.Newest((emitted + [x])[start..], capacity)
  {
    var since := emitted[start..];
    assert (emitted + [x])[start..] == since + [x];
    CB.NewestPush(since, x, capacity);
    CB.OneDropExact(CB.Newest(since, capacity), x, capacity);
  }

  lemma {:induction false} BufferAt(states: seq<State>, evs: seq<Event>, n: nat)
    requires IsRun(states, evs) && n <= |evs|
    ensures states[n].capacity == states[0].capacity && LastEmptied(states, evs, n) <= |states[n].emitted|
    ensures states[n].buffer == CB.Newest(states[n].emitted[LastEmptied(states, evs, n)..], states[n].capacity)
  {
    if n > 0 {
      BufferAt(states, evs, n - 1);
      var s, ev, s' := states[n - 1], evs[n - 1], states[n];
      assert Enabled(s, ev) && states[n - 1 + 1] == Step(s, ev);
      BufferStep(s, ev, s');
      if !ev.StopDone? && !ev.ClearFrames? {
        BufferSoFar(s, s', LastEmptied(states, evs, n - 1));
      }
    }
  }

  /** In every run the buffer holds the packets that came out since it was last emptied, in order: all
      of them, or as many of the newest as it has room for. */
  lemma BufferExact(states: seq<State>, evs: seq<Event>, n: nat)
    requires IsRun(states, evs) && n <= |evs|
    ensures var s, start := states[n], LastEmptied(states, evs, n);
      && start <= |s.emitted|
      && |s.buffer| == (if 0 < s.capacity < |s.emitted| - start then s.capacity else |s.emitted| - start)
      && forall i :: 0 <= i < |s.buffer| ==> s.buffer[i] == s.emitted[|s.emitted| - |s.buffer| + i]
  {
    BufferAt(states, evs, n);
  }

  lemma {:induction false} PushedSince(states: seq<State>, evs: seq<Event>, n: nat) returns (m: nat)
    requires IsRun(states, evs) && n <= |evs| && states[n].recorder.RPushing?
    ensures m < n && evs[m].Capture? && states[m].attempts == states[n].recorder.pts
    ensures |states[m].queue| == states[n].recorder.queued
  {
    m := n - 1;
    assert Enabled(states[m], evs[m]) && states[m + 1] == Step(states[m], evs[m]);
    if !evs[m].Capture? {
      m := PushedSince(states, evs, n - 1);
    }
  }

  /** However many frames are queued, the queue may take one more. */
  lemma PushCanSucceed(s: State)
    requires s.recorder.RPushing?
    ensures Enabled(s, Accept)
    ensures Step(s, Accept).queue == s.queue + [s.recorder.pts] && Step(s, Accept).dropped == s.dropped
  {
  }

  /** In every run a frame is dropped only if 1024 frames were queued when its push began. */
  lemma DropsOnlyWhenFull(states: seq<State>, evs: seq<Event>, n: nat) returns (m: nat)
    requires IsRun(states, evs) && n < |evs| && evs[n].Drop?
    ensures m < n && evs[m].Capture? && |states[m].queue| >= 1024
    ensures states[n + 1].dropped == states[n].dropped + [states[m].attempts]
  {
    assert Enabled(states[n], evs[n]) && states[n + 1] == Step(states[n], evs[n]);
    m := PushedSince(states, evs, n);
  }

  // ---------- what the codec holds back ----------

  /** How many of the first n encode_frame calls yielded no packet though the codec took the frame. */
  ghost function Withheld(evs: seq<Event>, n: nat): nat
    requires n <= |evs|
  {
    if n == 0 then 0 else Withheld(evs, n - 1) + if evs[n - 1].EncodeBuffers? then 1 else 0
  }

  lemma {:induction false} WithheldNone(evs: seq<Event>, n: nat)
    requires n <= |evs|
    ensures Withheld(evs, n) == 0 <==> forall i :: 0 <= i < n ==> !evs[i].EncodeBuffers?
  {
    if n > 0 {
      WithheldNone(evs, n - 1);
    }
  }

  /** The codec is behind by one frame for each call that yielded none, and never catches up: a call
      takes at most one packet out, and neither a stop nor a start takes any. */
  lemma {:induction false} CodecLags(states: seq<State>, evs: seq<Event>, n: nat)
    requires IsRun(states, evs) && n <= |evs|
    ensures |states[n].inCodec| == Withheld(evs, n)
    ensures states[n].sent == states[n].emitted + states[n].inCodec
  {
    RunOk(states, evs, n);
    if n > 0 {
      CodecLags(states, evs, n - 1);
      assert Enabled(states[n - 1], evs[n - 1]) && states[n] == Step(states[n - 1], evs[n - 1]);
    }
  }

  /** Every frame the codec has taken has come out as a packet if and only if each call that gave the
      codec a frame yielded one. */
  lemma AllEmittedExact(states: seq<State>, evs: seq<Event>, n: nat)
    requires IsRun(states, evs) && n <= |evs|
    ensures states[n].emitted == states[n].sent <==> forall i :: 0 <= i < n ==> !evs[i].EncodeBuffers?
  {
    CodecLags(states, evs, n);
    WithheldNone(evs, n);
    assert |states[n].sent| == |states[n].emitted| + |states[n].inCodec|;
    assert states[n].emitted == (states[n].emitted + states[n].inCodec)[..|states[n].emitted|];
  }

  ghost predicate Reached(s: State) {
    exists states, evs :: IsRun(states, evs) && states[|evs|] == s
  }

  lemma Go(s: State, ev: Event)
    requires Reached(s) && Enabled(s, ev)
    ensures Reached(Step(s, ev))
  {
    var states: seq<State>, evs: seq<Event> :| IsRun(states, evs) && states[|evs|] == s;
    var states', evs' := states + [Step(s, ev)], evs + [ev];
    forall i | 0 <= i < |evs'| ensures Enabled(states'[i], evs'[i]) && states'[i + 1] == Step(states'[i], evs'[i]) {
      if i < |evs| {
        assert Enabled(states[i], evs[i]) && states[i + 1] == Step(states[i], evs[i]);
      }
    }
    assert IsRun(states', evs') && states'[|evs'|] == Step(s, ev);
  }

  /** A recorder that is started, and captures a frame that the encoder gives to the codec. */
  lemma OneFrame(s: State, ev: Event) returns (s': State)
    requires Reached(s) && Enabled(s, Start) && s.queue == [] && (ev.EncodeBuffers? || ev.EncodeEmits?)
    ensures Reached(s') && s'.recorder.RRunning? && s'.encoder.ELoop? && s'.stopping.NotStopping? && s'.queue == []
    ensures s'.capacity == s.capacity && s'.attempts == s.attempts + 1
    ensures ev.EncodeBuffers? ==> s'.inCodec == s.inCodec + [s.attempts] && s'.buffer == s.buffer
    ensures ev.EncodeEmits? ==> s'.buffer == CB.Pushed(s.buffer, (s.inCodec + [s.attempts])[0], s.capacity)
  {
    Go(s, Start);
    s' := Step(s, Start);
    Go(s', Capture);
    s' := Step(s', Capture);
    Go(s', Accept);
    s' := Step(s', Accept);
    Go(s', EncoderStep);
    s' := Step(s', EncoderStep);
    Go(s', EncoderStep);
    s' := Step(s', EncoderStep);
    Go(s', ev);
    s' := Step(s', ev);
  }

  lemma Stopped(s: State) returns (s': State)
    requires Reached(s) && s.recorder.RRunning? && s.encoder.ELoop? && s.stopping.NotStopping? && s.queue == []
    ensures Reached(s') && Enabled(s', Start) && s'.queue == [] && s'.buffer == []
    ensures s'.inCodec == s.inCodec && s'.capacity == s.capacity && s'.attempts == s.attempts
  {
    Go(s, StopRecorder);
    s' := Step(s, StopRecorder);
    Go(s', RecorderExit);
    s' := Step(s', RecorderExit);
    Go(s', StopEncoder);
    s' := Step(s', StopEncoder);
    Go(s', EncoderStep);
    s' := Step(s', EncoderStep);
    Go(s', EncoderStep);
    s' := Step(s', EncoderStep);
    Go(s', StopDone);
    s' := Step(s', StopDone);
  }

  /** A stop leaves frame 0 in the codec, and with the next session's first frame its packet comes
      out: the buffer then starts with a frame of the session before. */
  lemma PacketFromBefore(capacity: nat) returns (stopped: State, later: State)
    ensures Reached(stopped) && stopped.stopping.NotStopping? && stopped.recorder.RStopped?
    ensures stopped.inCodec == [0] && stopped.buffer == [] && stopped.capacity == capacity
    ensures Reached(later) && later.buffer == [0] && later.capacity == capacity
  {
    var s := State(RStopped, EStopped, NotStopping, [], 0, [], capacity, [], [], [], [], [], []);
    var states, evs: seq<Event> := [s], [];
    assert IsRun(states, evs) && states[|evs|] == s;
    stopped := OneFrame(s, EncodeBuffers);
    stopped := Stopped(stopped);
    later := FromBefore(stopped);
  }

  lemma FromBefore(s: State) returns (s': State)
    requires Reached(s) && Enabled(s, Start) && s.queue == [] && s.buffer == [] && s.inCodec == [0]
    ensures Reached(s') && s'.buffer == [0] && s'.capacity == s.capacity
  {
    s' := OneFrame(s, EncodeEmits);
    assert (s.inCodec + [s.attempts])[0] == 0;
  }

  // ---------- the drain phase, on the queue itself ----------

  /** VideoEncoderQueue.cpp:119-133, with the producer gone: frames are handed on until none is
      left.  Whether encode_frame makes a packet of a frame changes nothing for the queue. */
  method Drain<F>(queue: Q.Queue<F>) returns (handed: seq<F>)
    requires queue.Valid()
    modifies queue, queue.ring
    ensures queue.Valid() && queue.Contents() == [] && handed == old(queue.Contents())
    ensures queue.constructed == old(queue.constructed) == queue.destroyed
  {
    ghost var all, gone, contents := queue.constructed, queue.destroyed, queue.Contents();
    assert all == gone + contents;
    handed := TakeAll(queue);
    SameRest(gone, handed, contents);
    SameRest(all, [], queue.Contents());
  }

  method TakeAll<F>(queue: Q.Queue<F>) returns (handed: seq<F>)
    requires queue.Valid()
    modifies queue, queue.ring
    ensures queue.Valid() && queue.constructed == old(queue.constructed) == queue.destroyed
    ensures queue.destroyed == old(queue.destroyed) + handed
  {
    handed := [];
    ghost var all, gone, nodes := queue.constructed, queue.destroyed, queue.ring;
    var frame := TakeNext(queue, nodes);
    while frame.Some?
      invariant queue.Valid() && Within(queue.ring, nodes)
      invariant queue.constructed == all && |queue.destroyed| <= |all|
      invariant queue.destroyed == gone + handed + if frame.Some? then [frame.value] else []
      invariant frame == None ==> queue.destroyed == all
      decreases |all| - |queue.destroyed|, frame.Some?
    {
      Blocks.ConcatAssoc(gone, handed, [frame.value]);
      handed := handed + [frame.value];
      frame := TakeNext(queue, nodes);
    }
  }

  lemma SameRest<F>(a: seq<F>, b: seq<F>, c: seq<F>)
    requires a + b == a + c
    ensures b == c
  {
    assert b == (a + b)[|a|..] && c == (a + c)[|a|..];
  }

  ghost predicate Within<F>(ring: seq<Q.Node<F>>, nodes: seq<Q.Node<F>>) {
    forall n :: n in ring ==> n in nodes
  }

  method TakeNext<F>(queue: Q.Queue<F>, ghost nodes: seq<Q.Node<F>>) returns (frame: Option<F>)
    requires queue.Valid() && Within(queue.ring, nodes)
    modifies queue, nodes
    ensures queue.Valid() && Within(queue.ring, nodes)
    ensures queue.constructed == old(queue.constructed) && |queue.destroyed| <= |queue.constructed|
    ensures queue.destroyed == old(queue.destroyed) + if frame.Some? then [frame.value] else []
    ensures frame == None ==> queue.destroyed == queue.constructed
  {
    assert forall i :: 0 <= i < |queue.ring| ==> queue.ring[i] in nodes;
    frame := queue.TryDequeue();
  }
}
