/**
 The window between a segment's write and its count can be met: for every size of the ring there is
 a run in which an export of the whole ring gets the wrong segments.
 */
module RollingWindow {
  import opened FrameLedger
  import opened RollingSegments

  /** s is where some run has come to. */
  ghost predicate Reached(s: State) {
    exists states, evs :: IsRun(states, evs) && states[|evs|] == s
  }

  /** A run one step longer. */
  lemma Extend(states: seq<State>, evs: seq<Event>, ev: Event) returns (states': seq<State>, evs': seq<Event>)
    requires IsRun(states, evs) && Enabled(states[|evs|], ev)
    ensures states' == states + [Step(states[|evs|], ev)] && evs' == evs + [ev]
    ensures IsRun(states', evs')
  {
    states', evs' := states + [Step(states[|evs|], ev)], evs + [ev];
    forall i | 0 <= i < |evs'| ensures Enabled(states'[i], evs'[i]) && states'[i + 1] == Step(states'[i], evs'[i]) {
      if i < |evs| {
        assert Enabled(states[i], evs[i]) && states[i + 1] == Step(states[i], evs[i]);
      }
    }
  }

  lemma Go(s: State, ev: Event)
    requires Reached(s) && Enabled(s, ev)
    ensures Reached(Step(s, ev))
  {
    var states: seq<State>, evs: seq<Event> :| IsRun(states, evs) && states[|evs|] == s;
    var states', evs' := Extend(states, evs, ev);
    assert states'[|evs'|] == Step(s, ev);
  }

  /** No tick and no export is under way. */
  ghost predicate Quiet(s: State) {
    s.tick == TWaiting && s.exporter == XIdle && s.ringSize >= 1 && |s.slots| == s.ringSize
  }

  lemma PushFills(st: Stream)
    ensures PushFrame(st).buffer != []
  {
  }

  /** A frame of each kind, and a tick up to its snapshots. */
  lemma ToSnapshot(s: State) returns (s': State)
    requires Reached(s) && Quiet(s)
    ensures Reached(s') && s'.tick.TBoth? && s'.tick.video != [] && s'.tick.audio != []
    ensures s' == s.(tick := s'.tick, video := s'.video, audio := s'.audio) && s'.tick.slot < s.ringSize
  {
    PushFills(s.video);
    PushFills(s.audio);
    Go(s, PushVideo);
    s' := Step(s, PushVideo);
    Go(s', PushAudio);
    s' := Step(s', PushAudio);
    Go(s', TickStart);
    s' := Step(s', TickStart);
    Go(s', TickLock);
    s' := Step(s', TickLock);
    Go(s', SnapshotVideo);
    s' := Step(s', SnapshotVideo);
    Go(s', SnapshotAudio);
    s' := Step(s', SnapshotAudio);
  }

  lemma ToSaved(s: State) returns (s': State)
    requires Reached(s) && Quiet(s)
    ensures Reached(s') && s'.tick.TSaved? && s'.dirty && s'.exporter == XIdle
    ensures s'.ringSize == s.ringSize == |s'.slots| && s'.seq_ == s.seq_
  {
    var b := ToSnapshot(s);
    Go(b, SaveSucceeds);
    s' := Step(b, SaveSucceeds);
  }

  lemma ToCommitted(s: State) returns (s': State)
    requires Reached(s) && Quiet(s)
    ensures Reached(s') && Quiet(s') && s'.ringSize == s.ringSize && s'.seq_ == s.seq_ + 1
  {
    s' := ToSaved(s);
    Go(s', ClearVideo);
    s' := Step(s', ClearVideo);
    Go(s', ClearAudio);
    s' := Step(s', ClearAudio);
    Go(s', Commit);
    s' := Step(s', Commit);
  }

  lemma {:induction false} ToCount(ringSize: nat, n: nat) returns (s: State)
    requires ringSize >= 1
    ensures Reached(s) && Quiet(s) && s.ringSize == ringSize && s.seq_ == n
  {
    if n == 0 {
      var none := Stream(0, [], 0, 0, {}, {});
      s := State(ringSize, 0, seq(ringSize, _ => Absent), TOff, XIdle, none, none, [], 0, false);
      var states, evs: seq<Event> := [s], [];
      assert IsRun(states, evs) && states[|evs|] == s;
      Go(s, Start);
      s := Step(s, Start);
    } else {
      s := ToCount(ringSize, n - 1);
      s := ToCommitted(s);
    }
  }

  /** An export under way since step m gets to read all its files. */
  lemma {:induction false} ReadAll(states: seq<State>, evs: seq<Event>, m: nat)
      returns (states': seq<State>, evs': seq<Event>)
    requires IsRun(states, evs) && states[0].ringSize >= 1 && m < |evs| && states[|evs|].exporter.XReading?
    requires forall k :: m < k <= |evs| ==> states[k].exporter.XReading?
    ensures IsRun(states', evs') && states <= states' && evs <= evs'
    ensures forall k :: m < k <= |evs'| ==> states'[k].exporter.XReading?
    ensures states'[|evs'|].exporter.todo == []
    decreases |states[|evs|].exporter.todo|
  {
    if states[|evs|].exporter.todo == [] {
      states', evs' := states, evs;
    } else {
      RunOk(states, evs, |evs|);
      states', evs' := Extend(states, evs, ExportRead);
      states', evs' := ReadAll(states', evs', m);
    }
  }

  /** For every size of the ring, and every request for as many segments or more: a run in which
      the export reads seq_ at step m, within the window, has read its files by step n, and has
      not got the newest committed segments, though no stop interfered. */
  lemma WrongExport(ringSize: nat, requested: nat) returns (states: seq<State>, evs: seq<Event>, m: nat, n: nat)
    requires 1 <= ringSize <= requested
    ensures IsRun(states, evs) && 1 <= m < n < |states| && states[0].ringSize == ringSize
    ensures evs[m - 1] == ExportLock(requested) && evs[m].ExportLoad? && InWindow(states[m].tick)
    ensures forall k :: m < k <= n ==> states[k].exporter.XReading?
    ensures states[n].exporter.todo == [] && states[n].exporter.segments == ringSize
    ensures states[n].exporter.got != Last(Committed(states[m]), ringSize)
  {
    states, evs := ToWindow(ringSize);
    SameRingSize(states, evs, |evs|);
    states, evs := Extend(states, evs, ExportLock(requested));
    m := |evs|;
    states, evs := Extend(states, evs, ExportLoad);
    states, evs := ReadAll(states, evs, m);
    n := |evs|;
    GotWrong(states, evs, m, n);
  }

  lemma ToWindow(ringSize: nat) returns (states: seq<State>, evs: seq<Event>)
    requires ringSize >= 1
    ensures IsRun(states, evs)
    ensures var s := states[|evs|];
      && s.tick.TSaved? && s.dirty && s.exporter == XIdle
      && s.ringSize == s.seq_ == |s.slots| == ringSize
  {
    var s := ToCount(ringSize, ringSize);
    s := ToSaved(s);
    states, evs :| IsRun(states, evs) && states[|evs|] == s;
  }

  lemma GotWrong(states: seq<State>, evs: seq<Event>, m: nat, n: nat)
    requires IsRun(states, evs) && states[0].ringSize >= 1 && m < n < |states| && evs[m].ExportLoad?
    requires forall k :: m < k <= n ==> states[k].exporter.XReading?
    requires states[n].exporter.todo == []
    requires var s := states[m]; s.dirty && s.exporter.XLocked? && s.exporter.segments == s.ringSize == s.seq_ >= 1
    ensures states[n].exporter.segments == states[m].ringSize
    ensures states[n].exporter.got != Last(Committed(states[m]), states[m].ringSize)
  {
    ReadingSince(states, evs, m, n);
    ExportExact(states, evs, m, n);
  }

  lemma {:induction false} SameRingSize(states: seq<State>, evs: seq<Event>, n: nat)
    requires IsRun(states, evs) && n < |states|
    ensures states[n].ringSize == states[0].ringSize
  {
    if n > 0 {
      SameRingSize(states, evs, n - 1);
      assert Enabled(states[n - 1], evs[n - 1]) && states[n - 1 + 1] == Step(states[n - 1], evs[n - 1]);
    }
  }

  /** A stop takes no notice of an export under way: for every size of the ring, a run in which an
      export lists the one committed segment and finds its file gone. */
  lemma StoppedExport(ringSize: nat) returns (states: seq<State>, evs: seq<Event>)
    requires ringSize >= 1
    ensures IsRun(states, evs) && states[0].ringSize == ringSize && |evs| >= 4
    ensures evs[|evs| - 4..] == [ExportLock(1), ExportLoad, StopRemove, ExportRead]
    ensures var x := states[|evs|].exporter;
      x.XReading? && x.todo == [] && |x.committed| == 1 && x.got == [Absent]
  {
    states, evs := ToOne(ringSize);
    var s := states[|evs|];
    var s1, s2, s3, s4 := StopReading(s);
    states, evs := Extend(states, evs, ExportLock(1));
    states, evs := Extend(states, evs, ExportLoad);
    states, evs := Extend(states, evs, StopRemove);
    states, evs := Extend(states, evs, ExportRead);
  }

  lemma ToOne(ringSize: nat) returns (states: seq<State>, evs: seq<Event>)
    requires ringSize >= 1
    ensures IsRun(states, evs) && states[0].ringSize == ringSize
    ensures Quiet(states[|evs|]) && states[|evs|].seq_ == |Committed(states[|evs|])| == 1
  {
    var s := ToCount(ringSize, 1);
    states, evs :| IsRun(states, evs) && states[|evs|] == s;
    SameRingSize(states, evs, |evs|);
    RunOk(states, evs, |evs|);
  }

  lemma StopReading(s: State) returns (s1: State, s2: State, s3: State, s4: State)
    requires Quiet(s) && s.seq_ == |Committed(s)| == 1
    ensures Enabled(s, ExportLock(1)) && s1 == Step(s, ExportLock(1))
    ensures Enabled(s1, ExportLoad) && s2 == Step(s1, ExportLoad)
    ensures Enabled(s2, StopRemove) && s3 == Step(s2, StopRemove)
    ensures Enabled(s3, ExportRead) && s4 == Step(s3, ExportRead)
    ensures s4.exporter.XReading? && s4.exporter.todo == [] && |s4.exporter.committed| == 1
    ensures s4.exporter.got == [Absent]
  {
    s1 := Step(s, ExportLock(1));
    s2 := Step(s1, ExportLoad);
    s3 := Step(s2, StopRemove);
    assert |s3.exporter.todo| == 1;
    s4 := Step(s3, ExportRead);
  }

  // ---------- an empty ring ----------

  /** MediaRecorder.cpp:64-66, from settings in whole seconds. */
  function RingSize(recordingLength: nat, segmentLength: nat): nat
    requires segmentLength >= 1
  {
    recordingLength / segmentLength
  }

  /** The recording is as long as so many segments, and not as long as one more. */
  lemma RingSizeExact(recordingLength: nat, segmentLength: nat)
    requires segmentLength >= 1
    ensures var n := RingSize(recordingLength, segmentLength);
      n * segmentLength <= recordingLength < (n + 1) * segmentLength
    ensures RingSize(10, 2) == 5
  {
    var n := RingSize(recordingLength, segmentLength);
    assert recordingLength == n * segmentLength + recordingLength % segmentLength;
    assert (n + 1) * segmentLength == n * segmentLength + segmentLength;
  }

  /** No run's tick divides by zero if and only if the recording is as long as a segment. */
  lemma TickSafeExact(recordingLength: nat, segmentLength: nat)
    requires segmentLength >= 1
    ensures (forall s :: Reached(s) && s.ringSize == RingSize(recordingLength, segmentLength) ==> !s.tick.TFault?)
      <==> recordingLength >= segmentLength
  {
    var ringSize := RingSize(recordingLength, segmentLength);
    assert recordingLength == ringSize * segmentLength + recordingLength % segmentLength;
    if ringSize >= 1 {
      assert ringSize * segmentLength == (ringSize - 1) * segmentLength + segmentLength;
      forall s | Reached(s) && s.ringSize == ringSize ensures !s.tick.TFault? {
        NoFault(s);
      }
    } else {
      var s := EmptyRingFaults();
    }
  }

  lemma NoFault(s: State)
    requires Reached(s) && s.ringSize >= 1
    ensures !s.tick.TFault?
  {
    var states: seq<State>, evs: seq<Event> :| IsRun(states, evs) && states[|evs|] == s;
    SameRingSize(states, evs, |evs|);
    RunOk(states, evs, |evs|);
  }

  lemma EmptyRingFaults() returns (s: State)
    ensures Reached(s) && s.ringSize == 0 && s.tick.TFault?
  {
    var none := Stream(0, [], 0, 0, {}, {});
    s := State(0, 0, [], TOff, XIdle, none, none, [], 0, false);
    var states, evs: seq<Event> := [s], [];
    assert s.slots == seq(0, _ => Absent);
    assert IsRun(states, evs) && states[|evs|] == s;
    Go(s, Start);
    s := Step(s, Start);
    Go(s, TickStart);
    s := Step(s, TickStart);
  }
}
