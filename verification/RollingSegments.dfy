/**
 The segment thread writes the frames buffered since its last tick into the next slot of a ring
 of files; meanwhile encoders push frames and another thread exports the newest segments.  The
 slots are written, and read by an export, under a mutex, but seq_ counts a segment only later.
 */
module RollingSegments {
  import opened FrameLedger
  import Ring = SegmentRing

  datatype Segment = Segment(video: seq<nat>, audio: seq<nat>)

  datatype Slot = Absent | Damaged | Whole(segment: Segment)

  /** Where tick_save_one_segment is.  videoEnd and audioEnd are history: the pushes there had
      been when the snapshot was taken. */
  datatype Tick =
    | TOff       // there is no segment thread
    | TStopping  // stop has removed the files, and not yet reset seq_
    | TFault     // seq_ modulo an empty ring
    | TWaiting
    | TBlocked(slot: nat)  // for the mutex
    | TLocked(slot: nat)
    | TVideo(slot: nat, video: seq<nat>, videoEnd: nat)
    | TBoth(slot: nat, video: seq<nat>, videoEnd: nat, audio: seq<nat>, audioEnd: nat)
    | TSaved(videoEnd: nat, audioEnd: nat)  // mutex released
    | TVideoCleared(audioEnd: nat)
    | TCleared

  /** Where export_last_segments is.  The rest is history.  Of the moment when seq_ was read: what
      the files listed held, what counted as committed, whether the slot after the newest was
      untouched, and whether a stop had removed the files.  And cut: how many of the files had been
      read when a stop removed the others, or all if none did. */
  datatype Exporter =
    | XIdle
    | XLocked(segments: nat)
    | XReading(segments: nat, todo: seq<nat>, got: seq<Slot>,
               view: seq<Slot>, committed: seq<Segment>, clean: bool, removed: bool, cut: nat)

  /** saves, base and dirty are history: the segments ever saved, how many of them before the
      last stop, and whether the slot of the next segment was written since seq_ changed. */
  datatype State = State(
    ringSize: nat, seq_: nat, slots: seq<Slot>, tick: Tick, exporter: Exporter,
    video: Stream, audio: Stream,
    saves: seq<Segment>, base: nat, dirty: bool)

  datatype Event =
    | PushVideo
    | PushAudio
    | TickStart
    | TickLock
    | SnapshotVideo
    | SnapshotAudio
    | SaveSucceeds
    | SaveFails(damages: bool)
    | ClearVideo
    | ClearAudio
    | Commit
    | ExportLock(requested: nat)
    | ExportLoad
    | ExportRead
    | ExportUnlock
    | Start
    | StopRemove  // the thread is joined; the files are removed
    | StopReset
    | DropVideo   // the recorder stops, and clears its frames
    | DropAudio

  predicate TickHoldsMutex(t: Tick) {
    t.TLocked? || t.TVideo? || t.TBoth?
  }

  predicate ExportHoldsMutex(x: Exporter) {
    !x.XIdle?
  }

  /** A tick is between writing its segment and counting it. */
  predicate InWindow(t: Tick) {
    t.TSaved? || t.TVideoCleared? || t.TCleared?
  }

  ghost predicate Init(s: State) {
    && s.seq_ == 0 && s.slots == seq(s.ringSize, _ => Absent)
    && s.tick == TOff && s.exporter == XIdle
    && s.saves == [] && s.base == 0 && !s.dirty
    && s.video == Stream(s.video.capacity, [], 0, 0, {}, {})
    && s.audio == Stream(s.audio.capacity, [], 0, 0, {}, {})
  }

  ghost predicate Enabled(s: State, ev: Event) {
    && |s.slots| == s.ringSize
    && match ev
       case PushVideo => true
       case PushAudio => true
       case TickStart => s.tick.TWaiting?
       case TickLock => s.tick.TBlocked? && !ExportHoldsMutex(s.exporter)
       case SnapshotVideo => s.tick.TLocked?
       case SnapshotAudio => s.tick.TVideo?
       case SaveSucceeds => s.tick.TBoth? && s.tick.slot < s.ringSize && s.tick.video != [] && s.tick.audio != []
       case SaveFails(damages) =>
         s.tick.TBoth? && s.tick.slot < s.ringSize && (damages ==> s.tick.video != [] && s.tick.audio != [])
       case ClearVideo => s.tick.TSaved?
       case ClearAudio => s.tick.TVideoCleared?
       case Commit => s.tick.TCleared?
       case ExportLock(_) => s.exporter.XIdle? && !TickHoldsMutex(s.tick)
       case ExportLoad => s.exporter.XLocked?
       case ExportRead => s.exporter.XReading? && s.exporter.todo != [] && s.exporter.todo[0] < |s.slots|
       case ExportUnlock => s.exporter.XReading? && s.exporter.todo == []
       case Start => s.tick.TOff?
       case StopRemove => s.tick.TWaiting?
       case StopReset => s.tick.TStopping?
       case DropVideo => s.tick.TOff?
       case DropAudio => s.tick.TOff?
  }

  /** RollingSegments.cpp:40-151, and MediaRecorder.cpp:96-100 for the recorders' stop. */
  ghost function Step(s: State, ev: Event): (s': State)
    requires Enabled(s, ev)
  {
    match ev
    case PushVideo => s.(video := PushFrame(s.video))
    case PushAudio => s.(audio := PushFrame(s.audio))
    case TickStart =>
      if s.ringSize == 0 then s.(tick := TFault) else s.(tick := TBlocked(s.seq_ % s.ringSize))
    case TickLock => s.(tick := TLocked(s.tick.slot))
    case SnapshotVideo => s.(tick := TVideo(s.tick.slot, s.video.buffer, s.video.pushes))
    case SnapshotAudio =>
      s.(tick := TBoth(s.tick.slot, s.tick.video, s.tick.videoEnd, s.audio.buffer, s.audio.pushes))
    case SaveSucceeds =>
      var seg := Segment(s.tick.video, s.tick.audio);
      s.(slots := s.slots[s.tick.slot := Whole(seg)], saves := s.saves + [seg], dirty := true,
         tick := TSaved(s.tick.videoEnd, s.tick.audioEnd))
    case SaveFails(damages) =>
      if damages then s.(slots := s.slots[s.tick.slot := Damaged], dirty := true, tick := TWaiting)
      else s.(tick := TWaiting)
    case ClearVideo => s.(video := ClearFrames(s.video), tick := TVideoCleared(s.tick.audioEnd))
    case ClearAudio => s.(audio := ClearFrames(s.audio), tick := TCleared)
    case Commit => s.(seq_ := s.seq_ + 1, dirty := false, tick := TWaiting)
    case ExportLock(requested) => s.(exporter := XLocked(if requested < s.ringSize then requested else s.ringSize))
    case ExportLoad =>
      var list := if s.ringSize == 0 then [] else Ring.Slots(s.seq_, s.exporter.segments, s.ringSize);
      var view := Listed(s.slots, list);
      s.(exporter := XReading(s.exporter.segments, list, [], view, Committed(s), !s.dirty, s.tick.TStopping?, |view|))
    case ExportRead =>
      var x := s.exporter;
      s.(exporter := x.(todo := x.todo[1..], got := x.got + [s.slots[x.todo[0]]]))
    case ExportUnlock => s.(exporter := XIdle)
    case Start => s.(tick := TWaiting)
    case StopRemove =>
      s.(slots := seq(s.ringSize, _ => Absent), tick := TStopping, exporter := Cut(s.exporter))
    case StopReset => s.(seq_ := 0, base := |s.saves|, dirty := false, tick := TOff)
    case DropVideo => s.(video := ClearFrames(s.video))
    case DropAudio => s.(audio := ClearFrames(s.audio))
  }

  /** The files not read yet are gone. */
  function Cut(x: Exporter): Exporter {
    if x.XReading? && |x.got| < x.cut then x.(cut := |x.got|) else x
  }

  // ---------- the invariant ----------

  /** The segments seq_ counts. */
  function Committed(s: State): seq<Segment> {
    if s.base + s.seq_ <= |s.saves| then s.saves[s.base..s.base + s.seq_] else []
  }

  /** Each of the last ringSize committed segments is in its slot, except that the oldest of a full
      ring has lost its slot once that is written for the next segment, and that a stop has removed
      them all before it resets seq_. */
  ghost predicate RingOk(s: State) {
    && s.ringSize >= 1 && |s.slots| == s.ringSize
    && |s.saves| == s.base + s.seq_ + (if InWindow(s.tick) then 1 else 0)
    && (if s.tick.TStopping? then forall i :: 0 <= i < |s.slots| ==> s.slots[i] == Absent else SlotsOk(s))
    && (s.tick.TBlocked? || TickHoldsMutex(s.tick) ==> s.tick.slot == s.seq_ % s.ringSize)
    && !s.tick.TFault?
    && !(TickHoldsMutex(s.tick) && ExportHoldsMutex(s.exporter))
  }

  ghost predicate SlotsOk(s: State)
    requires s.ringSize >= 1 && |s.slots| == s.ringSize
    requires |s.saves| == s.base + s.seq_ + (if InWindow(s.tick) then 1 else 0)
  {
    && (forall i :: 0 <= i < s.seq_ && i + s.ringSize > s.seq_ ==>
          s.slots[i % s.ringSize] == Whole(s.saves[s.base + i]))
    && (s.seq_ >= s.ringSize ==>
          (s.slots[s.seq_ % s.ringSize] == Whole(s.saves[s.base + s.seq_ - s.ringSize]) <==> !s.dirty))
    && (InWindow(s.tick) ==> s.dirty && s.slots[s.seq_ % s.ringSize] == Whole(s.saves[s.base + s.seq_]))
  }

  ghost function Videos(saves: seq<Segment>): (r: seq<seq<nat>>)
    ensures |r| == |saves|
  {
    seq(|saves|, k requires 0 <= k < |saves| => saves[k].video)
  }

  ghost function Audios(saves: seq<Segment>): (r: seq<seq<nat>>)
    ensures |r| == |saves|
  {
    seq(|saves|, k requires 0 <= k < |saves| => saves[k].audio)
  }

  /** How many of the snapshots saved were followed by a clear, and when the last was taken. */
  function VideoClosed(s: State): nat {
    if s.tick.TSaved? && s.saves != [] then |s.saves| - 1 else |s.saves|
  }

  function AudioClosed(s: State): nat {
    if (s.tick.TSaved? || s.tick.TVideoCleared?) && s.saves != [] then |s.saves| - 1 else |s.saves|
  }

  function VideoEnd(t: Tick): nat {
    if t.TSaved? then t.videoEnd else 0
  }

  function AudioEnd(t: Tick): nat {
    if t.TSaved? || t.TVideoCleared? then t.audioEnd else 0
  }

  ghost predicate VideoOk(s: State) {
    && StreamOk(s.video)
    && SnapsOk(Videos(s.saves), VideoClosed(s), s.video)
    && (forall k :: 0 <= k < |s.saves| ==> s.saves[k].video != [] && s.saves[k].audio != [])
    && (s.tick.TVideo? || s.tick.TBoth? ==> Open(s.tick.video, s.tick.videoEnd, s.video))
    && (s.tick.TSaved? ==> s.saves != [] && Open(s.saves[|s.saves| - 1].video, s.tick.videoEnd, s.video))
  }

  ghost predicate AudioOk(s: State) {
    && StreamOk(s.audio)
    && SnapsOk(Audios(s.saves), AudioClosed(s), s.audio)
    && (s.tick.TBoth? ==> Open(s.tick.audio, s.tick.audioEnd, s.audio))
    && (s.tick.TSaved? || s.tick.TVideoCleared? ==>
          s.saves != [] && Open(s.saves[|s.saves| - 1].audio, s.tick.audioEnd, s.audio))
  }

  /** What the slots in a list hold. */
  function Listed(slots: seq<Slot>, list: seq<nat>): (r: seq<Slot>)
    requires forall j :: 0 <= j < |list| ==> list[j] < |slots|
    ensures |r| == |list|
  {
    seq(|list|, j requires 0 <= j < |list| => slots[list[j]])
  }

  /** The newest k of the committed segments, oldest first, or all when there are fewer. */
  ghost function Last(committed: seq<Segment>, k: nat): (r: seq<Slot>) {
    seq(|committed| - Ring.First(|committed|, k), j requires 0 <= j < |committed| - Ring.First(|committed|, k) =>
      Whole(committed[Ring.First(|committed|, k) + j]))
  }

  /** What an export of k out of a ring of ringSize gets, given what is committed. */
  ghost predicate ExportOk(list: seq<Slot>, committed: seq<Segment>, k: nat, ringSize: nat, clean: bool) {
    && |list| == |Last(committed, k)|
    && (list == Last(committed, k) <==> k < ringSize || |committed| < ringSize || clean)
    && (forall j :: 1 <= j < |list| ==> list[j] == Last(committed, k)[j])
  }

  /** What is listed, at place j: as it was when seq_ was read, or gone. */
  function InView(x: Exporter, j: nat): Slot
    requires x.XReading? && j < |x.view|
  {
    if j < x.cut then x.view[j] else Absent
  }

  ghost predicate ExporterOk(s: State) {
    && (s.exporter.XLocked? ==> s.exporter.segments <= s.ringSize)
    && (s.exporter.XReading? ==> ReadingOk(s.exporter, s.slots) && ViewOk(s.exporter, s.ringSize))
  }

  /** What has been read, and what will be. */
  ghost predicate ReadingOk(x: Exporter, slots: seq<Slot>)
    requires x.XReading?
  {
    && |x.got| + |x.todo| == |x.view| && x.cut <= |x.view|
    && (forall j :: 0 <= j < |x.got| ==> x.got[j] == InView(x, j))
    && (forall j :: 0 <= j < |x.todo| ==> x.todo[j] < |slots| && slots[x.todo[j]] == InView(x, |x.got| + j))
  }

  ghost predicate ViewOk(x: Exporter, ringSize: nat)
    requires x.XReading?
  {
    && x.segments <= ringSize
    && if x.removed then
         |x.view| == |Last(x.committed, x.segments)| && forall j :: 0 <= j < |x.view| ==> x.view[j] == Absent
       else ExportOk(x.view, x.committed, x.segments, ringSize, x.clean)
  }

  ghost predicate Inv(s: State) {
    RingOk(s) && VideoOk(s) && AudioOk(s) && ExporterOk(s)
  }

  lemma InitOk(s: State)
    requires Init(s) && s.ringSize >= 1
    ensures Inv(s)
  {
  }

  // ---------- the ring ----------

  /** Which segments the ring has, and where. */
  lemma RingStep(s: State, ev: Event)
    requires RingOk(s) && Enabled(s, ev)
    requires ev.SaveSucceeds? && s.seq_ >= s.ringSize ==> s.saves[s.base + s.seq_ - s.ringSize].video != s.tick.video
    ensures RingOk(Step(s, ev))
  {
    if ev.SaveSucceeds? || ev == SaveFails(true) {
      WriteSlot(s, ev);
    } else if ev.Commit? {
      NextSeq(s);
    } else if ev.StopReset? || ev.StopRemove? {
      StopRing(s, ev);
    } else {
      OtherRing(s, Step(s, ev), ev);
    }
  }

  lemma StopRing(s: State, ev: Event)
    requires RingOk(s) && Enabled(s, ev) && (ev.StopReset? || ev.StopRemove?)
    ensures RingOk(Step(s, ev))
  {
  }

  /** The steps that leave the ring alone. */
  lemma OtherRing(s: State, s': State, ev: Event)
    requires RingOk(s) && Enabled(s, ev) && s' == Step(s, ev)
    requires !ev.SaveSucceeds? && ev != SaveFails(true) && !ev.Commit? && !ev.StopReset? && !ev.StopRemove?
    ensures RingOk(s')
  {
    TickMoves(s, s', ev);
    if !s.tick.TStopping? {
      SlotsStay(s, s');
    }
  }

  lemma TickMoves(s: State, s': State, ev: Event)
    requires s.ringSize >= 1 && Enabled(s, ev) && s' == Step(s, ev)
    requires !ev.SaveSucceeds? && ev != SaveFails(true) && !ev.Commit? && !ev.StopReset? && !ev.StopRemove?
    ensures s' == s.(tick := s'.tick, exporter := s'.exporter, video := s'.video, audio := s'.audio)
    ensures InWindow(s'.tick) == InWindow(s.tick) && s'.tick.TStopping? == s.tick.TStopping?
    ensures s'.tick.TFault? ==> s.tick.TFault?
    ensures (s.tick.TBlocked? || TickHoldsMutex(s.tick) ==> s.tick.slot == s.seq_ % s.ringSize) ==>
      (s'.tick.TBlocked? || TickHoldsMutex(s'.tick) ==> s'.tick.slot == s.seq_ % s.ringSize)
    ensures TickHoldsMutex(s'.tick) && ExportHoldsMutex(s'.exporter) ==>
      TickHoldsMutex(s.tick) && ExportHoldsMutex(s.exporter)
  {
  }

  lemma SlotsStay(s: State, s': State)
    requires s.ringSize >= 1 && |s.slots| == s.ringSize
    requires |s.saves| == s.base + s.seq_ + (if InWindow(s.tick) then 1 else 0) && SlotsOk(s)
    requires s' == s.(tick := s'.tick, exporter := s'.exporter, video := s'.video, audio := s'.audio)
    requires InWindow(s'.tick) == InWindow(s.tick)
    ensures SlotsOk(s')
  {
  }

  lemma WriteSlot(s: State, ev: Event)
    requires RingOk(s) && Enabled(s, ev) && (ev.SaveSucceeds? || ev == SaveFails(true))
    requires ev.SaveSucceeds? && s.seq_ >= s.ringSize ==> s.saves[s.base + s.seq_ - s.ringSize].video != s.tick.video
    ensures RingOk(Step(s, ev))
  {
    forall i | 0 <= i < s.seq_ && i + s.ringSize > s.seq_ ensures i % s.ringSize != s.seq_ % s.ringSize {
      if i % s.ringSize == s.seq_ % s.ringSize {
        Ring.SameSlot(i, s.seq_, s.ringSize);
      }
    }
  }

  lemma NextSeq(s: State)
    requires RingOk(s) && Enabled(s, Commit)
    ensures RingOk(Step(s, Commit))
  {
    var i := s.seq_ + 1 - s.ringSize;
    if i >= 0 {
      Ring.NextLap(i, s.ringSize);
    }
  }

  /** What an export will list, at the moment it reads seq_. */
  lemma LoadOk(s: State, k: nat)
    requires RingOk(s) && !s.tick.TStopping? && k <= s.ringSize
    ensures var list := Ring.Slots(s.seq_, k, s.ringSize);
      && (forall j :: 0 <= j < |list| ==> list[j] < |s.slots|)
      && ExportOk(Listed(s.slots, list), Committed(s), k, s.ringSize, !s.dirty)
  {
    var list := Ring.Slots(s.seq_, k, s.ringSize);
    var first := Ring.First(s.seq_, k);
    var want, got := Last(Committed(s), k), Listed(s.slots, list);
    forall j | 0 <= j < |list| && first + j + s.ringSize > s.seq_ ensures got[j] == want[j] {
      assert s.slots[(first + j) % s.ringSize] == Whole(s.saves[s.base + (first + j)]);
    }
    if k == s.ringSize && s.seq_ >= k {
      Ring.NextLap(first, s.ringSize);
      assert got[0] == want[0] <==> !s.dirty;
    }
  }

  /** During the window a full-ring export begins with the newest segment, the one not counted
      yet, where the oldest counted one should be. */
  lemma WindowExport(s: State)
    requires RingOk(s) && InWindow(s.tick) && s.seq_ >= s.ringSize
    ensures var list := Listed(s.slots, Ring.Slots(s.seq_, s.ringSize, s.ringSize));
      |list| == s.ringSize && list[0] == Whole(s.saves[|s.saves| - 1])
  {
    Ring.NextLap(s.seq_ - s.ringSize, s.ringSize);
  }

  // ---------- the frames ----------

  /** A segment about to be saved differs from every one saved before. */
  lemma NewSegmentDiffers(s: State, k: nat)
    requires VideoOk(s) && s.tick.TBoth? && s.tick.video != [] && k < |s.saves|
    ensures s.saves[k].video != s.tick.video
  {
    var f := s.tick.video[0];
    assert f >= s.video.clearedAt && f !in Videos(s.saves)[k];
  }

  lemma VideoStep(s: State, ev: Event)
    requires VideoOk(s) && Enabled(s, ev)
    ensures VideoOk(Step(s, ev))
  {
    match ev
    case PushVideo => PushVideoStep(s);
    case SnapshotVideo => SnapshotOpen(s.video);
    case SaveSucceeds =>
      SaveKeepsSnaps(Videos(s.saves), s.tick.video, s.tick.videoEnd, s.video);
      assert Videos(Step(s, ev).saves) == Videos(s.saves) + [s.tick.video];
    case ClearVideo =>
      ClearOk(s.video);
      ClearKeepsSnaps(Videos(s.saves), |s.saves| - 1, s.video);
    case DropVideo =>
      ClearOk(s.video);
      ClearKeepsSnaps(Videos(s.saves), |s.saves|, s.video);
    case _ =>
  }

  lemma PushVideoStep(s: State)
    requires VideoOk(s) && Enabled(s, PushVideo)
    ensures VideoOk(Step(s, PushVideo))
  {
    PushOk(s.video);
    PushKeepsSnaps(Videos(s.saves), VideoClosed(s), s.video);
    if s.tick.TVideo? || s.tick.TBoth? {
      PushKeepsOpen(s.tick.video, s.tick.videoEnd, s.video);
    } else if s.tick.TSaved? {
      PushKeepsOpen(s.saves[|s.saves| - 1].video, s.tick.videoEnd, s.video);
    }
  }

  lemma AudioStep(s: State, ev: Event)
    requires AudioOk(s) && Enabled(s, ev)
    ensures AudioOk(Step(s, ev))
  {
    match ev
    case PushAudio => PushAudioStep(s);
    case SnapshotAudio => SnapshotOpen(s.audio);
    case SaveSucceeds =>
      SaveKeepsSnaps(Audios(s.saves), s.tick.audio, s.tick.audioEnd, s.audio);
      assert Audios(Step(s, ev).saves) == Audios(s.saves) + [s.tick.audio];
    case ClearAudio =>
      ClearOk(s.audio);
      ClearKeepsSnaps(Audios(s.saves), |s.saves| - 1, s.audio);
    case DropAudio =>
      ClearOk(s.audio);
      ClearKeepsSnaps(Audios(s.saves), |s.saves|, s.audio);
    case _ =>
  }

  lemma PushAudioStep(s: State)
    requires AudioOk(s) && Enabled(s, PushAudio)
    ensures AudioOk(Step(s, PushAudio))
  {
    PushOk(s.audio);
    PushKeepsSnaps(Audios(s.saves), AudioClosed(s), s.audio);
    if s.tick.TBoth? {
      PushKeepsOpen(s.tick.audio, s.tick.audioEnd, s.audio);
    } else if s.tick.TSaved? || s.tick.TVideoCleared? {
      PushKeepsOpen(s.saves[|s.saves| - 1].audio, s.tick.audioEnd, s.audio);
    }
  }

  lemma ExporterStep(s: State, ev: Event)
    requires RingOk(s) && ExporterOk(s) && Enabled(s, ev)
    ensures ExporterOk(Step(s, ev))
  {
    match ev
    case ExportLoad => LoadStep(s);
    case ExportRead => ReadStep(s.exporter, s.slots, Step(s, ev).exporter);
    case StopRemove => if s.exporter.XReading? { CutStep(s.exporter, s.slots, Step(s, ev).slots); }
    case _ =>
  }

  lemma LoadStep(s: State)
    requires RingOk(s) && ExporterOk(s) && Enabled(s, ExportLoad)
    ensures ExporterOk(Step(s, ExportLoad))
  {
    var k := s.exporter.segments;
    if !s.tick.TStopping? {
      LoadOk(s, k);
    } else {
      assert |Committed(s)| == s.seq_;
    }
  }

  lemma ReadStep(x: Exporter, slots: seq<Slot>, x': Exporter)
    requires x.XReading? && ReadingOk(x, slots) && x.todo != []
    requires x' == x.(todo := x.todo[1..], got := x.got + [slots[x.todo[0]]])
    ensures ReadingOk(x', slots)
  {
    forall j | 0 <= j < |x'.todo| ensures slots[x'.todo[j]] == InView(x', |x'.got| + j) {
      assert x'.todo[j] == x.todo[j + 1];
    }
  }

  lemma CutStep(x: Exporter, slots: seq<Slot>, slots': seq<Slot>)
    requires x.XReading? && ReadingOk(x, slots)
    requires |slots'| == |slots| && forall i :: 0 <= i < |slots'| ==> slots'[i] == Absent
    ensures ReadingOk(Cut(x), slots')
  {
  }

  // ---------- runs ----------

  lemma StepOk(s: State, ev: Event)
    requires Inv(s) && Enabled(s, ev)
    ensures Inv(Step(s, ev))
  {
    if ev.SaveSucceeds? && s.seq_ >= s.ringSize {
      NewSegmentDiffers(s, s.base + s.seq_ - s.ringSize);
    }
    RingStep(s, ev);
    VideoStep(s, ev);
    AudioStep(s, ev);
    ExporterStep(s, ev);
  }

  ghost predicate IsRun(states: seq<State>, evs: seq<Event>) {
    && |states| == |evs| + 1 && Init(states[0])
    && forall i :: 0 <= i < |evs| ==> Enabled(states[i], evs[i]) && states[i + 1] == Step(states[i], evs[i])
  }

  lemma {:induction false} RunOk(states: seq<State>, evs: seq<Event>, n: nat)
    requires IsRun(states, evs) && states[0].ringSize >= 1 && n < |states|
    ensures Inv(states[n])
  {
    if n == 0 {
      InitOk(states[0]);
    } else {
      RunOk(states, evs, n - 1);
      assert Enabled(states[n - 1], evs[n - 1]);
      StepOk(states[n - 1], evs[n - 1]);
    }
  }

  /** A stop removed files at step i that an export under way had yet to read. */
  ghost predicate Removes(states: seq<State>, evs: seq<Event>, i: nat)
    requires i < |evs| <= |states|
  {
    evs[i].StopRemove? && states[i].exporter.XReading? && states[i].exporter.todo != []
  }

  /** While it lists slots an export keeps to what it saw when it read seq_ at step m. */
  lemma {:induction false} ReadingSince(states: seq<State>, evs: seq<Event>, m: nat, n: nat)
    requires IsRun(states, evs) && states[0].ringSize >= 1 && m < n < |states| && evs[m].ExportLoad?
    requires forall k :: m < k <= n ==> states[k].exporter.XReading?
    ensures states[n].ringSize == states[m].ringSize
    ensures var x, s := states[n].exporter, states[m];
      && x.segments == s.exporter.segments && x.committed == Committed(s)
      && x.clean == !s.dirty && x.removed == s.tick.TStopping?
      && (x.cut < |x.view| <==> exists i :: m < i < n && Removes(states, evs, i))
  {
    var i := n - 1;
    assert Enabled(states[i], evs[i]) && states[i + 1] == Step(states[i], evs[i]);
    RunOk(states, evs, i);
    if i > m {
      ReadingSince(states, evs, m, i);
      ReadingKept(states[i], evs[i], states[n]);
      assert states[n].exporter.cut < |states[n].exporter.view| <==>
        states[i].exporter.cut < |states[i].exporter.view| || Removes(states, evs, i);
    }
  }

  lemma ReadingKept(s: State, ev: Event, s': State)
    requires Enabled(s, ev) && s' == Step(s, ev) && s.exporter.XReading? && s'.exporter.XReading?
    requires ReadingOk(s.exporter, s.slots)
    ensures s'.ringSize == s.ringSize
    ensures s'.exporter == s.exporter.(todo := s'.exporter.todo, got := s'.exporter.got, cut := s'.exporter.cut)
    ensures s'.exporter.cut < |s'.exporter.view| <==>
      s.exporter.cut < |s.exporter.view| || (ev.StopRemove? && s.exporter.todo != [])
  {
  }

  /** An export that read seq_ at step m and has read its last file by step n has got exactly the
      newest segments then committed, oldest first, if and only if there are none, or: no stop had
      removed the files then, or removed some before they were read, and it asked for fewer than the
      ring has slots, or the ring had not filled, or the next slot was not written since seq_
      changed.  In that last case only the oldest is wrong; after a stop, those not read are gone. */
  lemma ExportExact(states: seq<State>, evs: seq<Event>, m: nat, n: nat)
    requires IsRun(states, evs) && states[0].ringSize >= 1 && m < n < |states| && evs[m].ExportLoad?
    requires forall k :: m < k <= n ==> states[k].exporter.XReading?
    requires states[n].exporter.todo == []
    ensures var x, s := states[n].exporter, states[m]; var want := Last(Committed(s), x.segments);
      && |Committed(s)| == s.seq_
      && |x.got| == |want| == (if s.seq_ < x.segments then s.seq_ else x.segments)
      && (x.got == want <==>
            || want == []
            || (&& !s.tick.TStopping? && !(exists i :: m < i < n && Removes(states, evs, i))
                && (x.segments < s.ringSize || s.seq_ < s.ringSize || !s.dirty)))
      && x.cut <= |want|
      && (!s.tick.TStopping? ==> forall j :: 1 <= j < x.cut ==> x.got[j] == want[j])
      && (forall j :: x.cut <= j < |want| ==> x.got[j] == Absent)
  {
    ReadingSince(states, evs, m, n);
    RunOk(states, evs, m);
    RunOk(states, evs, n);
    GotExact(states[n].exporter, states[m].ringSize);
  }

  lemma GotExact(x: Exporter, ringSize: nat)
    requires x.XReading? && x.todo == [] && ReadingOk(x, []) && ViewOk(x, ringSize)
    ensures var want := Last(x.committed, x.segments);
      && |x.got| == |want| == |x.view|
      && (x.got == want <==>
            || want == []
            || (!x.removed && x.cut == |x.view| && (x.segments < ringSize || |x.committed| < ringSize || x.clean)))
      && (!x.removed ==> forall j :: 1 <= j < x.cut ==> x.got[j] == want[j])
  {
    var want := Last(x.committed, x.segments);
    if x.cut == |x.view| {
      assert x.got == x.view;
    } else {
      assert x.got[x.cut] == Absent != want[x.cut];
    }
    if x.removed && want != [] {
      assert x.got[0] == Absent != want[0];
    }
  }

  /** From its start to its end an export is of as many segments as were asked for, or the ring has. */
  lemma {:induction false} ExportSize(states: seq<State>, evs: seq<Event>, l: nat, n: nat)
    requires IsRun(states, evs) && l < n <= |evs| && evs[l].ExportLock?
    requires forall k :: l < k <= n ==> !states[k].exporter.XIdle?
    ensures states[n].ringSize == states[l].ringSize
    ensures states[n].exporter.segments ==
      if evs[l].requested < states[l].ringSize then evs[l].requested else states[l].ringSize
  {
    var i := n - 1;
    assert Enabled(states[i], evs[i]) && states[i + 1] == Step(states[i], evs[i]);
    if i > l {
      ExportSize(states, evs, l, i);
    }
  }

  /** The same for what the caller asked for: an export that began at step l, read seq_ at step m and
      has read its last file by step n. */
  lemma ExportOfRequest(states: seq<State>, evs: seq<Event>, l: nat, m: nat, n: nat)
    requires IsRun(states, evs) && states[0].ringSize >= 1 && l < m < n < |states|
    requires evs[l].ExportLock? && (forall k :: l < k <= m ==> states[k].exporter.XLocked?)
    requires evs[m].ExportLoad? && (forall k :: m < k <= n ==> states[k].exporter.XReading?)
    requires states[n].exporter.todo == []
    ensures var x, s, r := states[n].exporter, states[m], evs[l].requested;
      var k := if r < s.ringSize then r else s.ringSize;
      && |x.got| == (if s.seq_ < k then s.seq_ else k) && |Committed(s)| == s.seq_
      && (x.got == Last(Committed(s), k) <==>
            || k == 0 || s.seq_ == 0
            || (&& !s.tick.TStopping? && !(exists i :: m < i < n && Removes(states, evs, i))
                && (r < s.ringSize || s.seq_ < s.ringSize || !s.dirty)))
  {
    ExportExact(states, evs, m, n);
    ExportSize(states, evs, l, n);
    ExportSize(states, evs, l, m);
  }

  /** When failed ticks leave the slot alone, what keeps a full-ring export from being right is the
      window between the write and the count, and nothing else. */
  lemma {:induction false} CleanOutsideWindow(states: seq<State>, evs: seq<Event>, n: nat)
    requires IsRun(states, evs) && n < |states|
    requires forall i :: 0 <= i < |evs| ==> evs[i] != SaveFails(true)
    ensures states[n].dirty <==> InWindow(states[n].tick)
  {
    if n > 0 {
      CleanOutsideWindow(states, evs, n - 1);
      assert Enabled(states[n - 1], evs[n - 1]) && states[n] == Step(states[n - 1], evs[n - 1]);
    }
  }

  /** In every interleaving, at every moment: each frame ever pushed was evicted, or was cleared, or
      is still buffered, and is saved in one segment at the most.  Between a save and its clear, and
      only then, frames are both saved and buffered: just those of the snapshot not evicted since. */
  lemma FramesConserved(states: seq<State>, evs: seq<Event>, n: nat, f: nat)
    requires IsRun(states, evs) && states[0].ringSize >= 1 && n < |states|
    ensures var s := states[n];
      && s.video.clearedAt <= s.video.pushes && s.audio.clearedAt <= s.audio.pushes
      && (f < s.video.pushes ==> OneFateOnly(Videos(s.saves), VideoClosed(s), VideoEnd(s.tick), s.video, f))
      && (f < s.audio.pushes ==> OneFateOnly(Audios(s.saves), AudioClosed(s), AudioEnd(s.tick), s.audio, f))
  {
    RunOk(states, evs, n);
    var s := states[n];
    if f < s.video.pushes {
      OneFate(Videos(s.saves), VideoClosed(s), VideoEnd(s.tick), s.video, f);
    }
    if f < s.audio.pushes {
      OneFate(Audios(s.saves), AudioClosed(s), AudioEnd(s.tick), s.audio, f);
    }
  }

  /** Segments hold frames in the order they were pushed, each later segment later frames. */
  lemma SavedInOrder(states: seq<State>, evs: seq<Event>, n: nat, j: nat, k: nat, f: nat, g: nat)
    requires IsRun(states, evs) && states[0].ringSize >= 1 && n < |states| && j < k < |states[n].saves|
    ensures f in states[n].saves[j].video && g in states[n].saves[k].video ==> f < g
    ensures f in states[n].saves[j].audio && g in states[n].saves[k].audio ==> f < g
    ensures states[n].saves[j].video != [] && states[n].saves[j].audio != []
  {
    RunOk(states, evs, n);
    var s := states[n];
    assert s.saves[j].video != [] && s.saves[j].audio != [];
    assert Videos(s.saves)[j] == s.saves[j].video && Videos(s.saves)[k] == s.saves[k].video;
    assert Audios(s.saves)[j] == s.saves[j].audio && Audios(s.saves)[k] == s.saves[k].audio;
  }

  /** The clear that follows a save discards unsaved just the frames pushed since the snapshot. */
  lemma ClearLosesLateFrames(s: State, f: nat)
    requires Inv(s)
    ensures s.tick.TSaved? && f in s.video.buffer ==>
      (f in s.saves[|s.saves| - 1].video <==> f < s.tick.videoEnd)
    ensures s.tick.TVideoCleared? && f in s.audio.buffer ==>
      (f in s.saves[|s.saves| - 1].audio <==> f < s.tick.audioEnd)
  {
    if s.tick.TSaved? && f in s.video.buffer {
      ClearLoses(s.saves[|s.saves| - 1].video, s.tick.videoEnd, s.video, f);
    }
    if s.tick.TVideoCleared? && f in s.audio.buffer {
      ClearLoses(s.saves[|s.saves| - 1].audio, s.tick.audioEnd, s.audio, f);
    }
  }
}
