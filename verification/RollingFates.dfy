/** What becomes of the frames that a save and its clear do not treat alike, over whole runs. */
module RollingFates {
  import opened FrameLedger
  import opened RollingSegments

  datatype Media = Video | Audio

  function StreamOf(s: State, x: Media): Stream {
    if x.Video? then s.video else s.audio
  }

  ghost function Snaps(s: State, x: Media): seq<seq<nat>> {
    if x.Video? then Videos(s.saves) else Audios(s.saves)
  }

  function Closed(s: State, x: Media): nat {
    if x.Video? then VideoClosed(s) else AudioClosed(s)
  }

  /** How many pushes there had been when the snapshot was taken that a clear is about to follow. */
  function End(s: State, x: Media): nat {
    if x.Video? then VideoEnd(s.tick) else AudioEnd(s.tick)
  }

  /** The snapshot of the tick under way, until its clear. */
  ghost function Held(s: State, x: Media): seq<nat> {
    match s.tick
    case TVideo(_, v, _) => if x.Video? then v else []
    case TBoth(_, v, _, a, _) => if x.Video? then v else a
    case TSaved(_, _) => if s.saves == [] then [] else Snaps(s, x)[|s.saves| - 1]
    case TVideoCleared(_) => if s.saves == [] || x.Video? then [] else Snaps(s, x)[|s.saves| - 1]
    case _ => []
  }

  predicate Clears(ev: Event, x: Media) {
    if x.Video? then ev.ClearVideo? else ev.ClearAudio?
  }

  predicate Drops(ev: Event, x: Media) {
    if x.Video? then ev.DropVideo? else ev.DropAudio?
  }

  /** f is cleared with nothing of it saved: it was pushed between a snapshot and the clear that
      follows, or the recorder stopped with it in its buffer. */
  predicate Lost(s: State, ev: Event, x: Media, f: nat) {
    f in StreamOf(s, x).buffer && ((Clears(ev, x) && f >= End(s, x)) || Drops(ev, x))
  }

  /** The buffer was full, and f made way for a newer frame. */
  predicate Evicts(s: State, s': State, x: Media, f: nat) {
    f in StreamOf(s', x).evicted && f !in StreamOf(s, x).evicted
  }

  // ---------- cleared unsaved ----------

  lemma Fate(s: State, x: Media, f: nat)
    requires Inv(s) && f < StreamOf(s, x).pushes
    ensures StreamOf(s, x).clearedAt <= StreamOf(s, x).pushes
    ensures OneFateOnly(Snaps(s, x), Closed(s, x), End(s, x), StreamOf(s, x), f)
  {
    OneFate(Snaps(s, x), Closed(s, x), End(s, x), StreamOf(s, x), f);
  }

  lemma LostStep(s: State, ev: Event, s': State, x: Media, f: nat)
    requires Inv(s) && Enabled(s, ev) && s' == Step(s, ev)
    ensures f in StreamOf(s', x).cleared && !Saved(Snaps(s', x), f) <==>
      (f in StreamOf(s, x).cleared && !Saved(Snaps(s, x), f)) || Lost(s, ev, x, f)
  {
    if Clears(ev, x) || Drops(ev, x) {
      ClearStep(s, ev, s', x, f);
    } else if ev.SaveSucceeds? {
      SaveStep(s, s', x, f);
    }
  }

  lemma ClearStep(s: State, ev: Event, s': State, x: Media, f: nat)
    requires Inv(s) && Enabled(s, ev) && s' == Step(s, ev) && (Clears(ev, x) || Drops(ev, x))
    ensures f in StreamOf(s', x).cleared && !Saved(Snaps(s', x), f) <==>
      (f in StreamOf(s, x).cleared && !Saved(Snaps(s, x), f)) || Lost(s, ev, x, f)
  {
    if f in StreamOf(s, x).buffer {
      InBuffer(StreamOf(s, x), f);
      Fate(s, x, f);
    }
  }

  lemma SaveStep(s: State, s': State, x: Media, f: nat)
    requires Inv(s) && Enabled(s, SaveSucceeds) && s' == Step(s, SaveSucceeds)
    ensures Snaps(s', x) == Snaps(s, x) + [Held(s, x)]
    ensures Saved(Snaps(s', x), f) <==> Saved(Snaps(s, x), f) || f in Held(s, x)
    ensures f in StreamOf(s, x).cleared ==> f !in Held(s, x)
  {
    assert Snaps(s', x) == Snaps(s, x) + [Held(s, x)];
    if Saved(Snaps(s, x), f) {
      var k :| 0 <= k < |Snaps(s, x)| && f in Snaps(s, x)[k];
      assert f in Snaps(s', x)[k];
    }
    if f in Held(s, x) {
      assert f in Snaps(s', x)[|Snaps(s, x)|];
    }
  }

  /** In every run: the frames that were cleared and are not saved are exactly those pushed between
      a snapshot and the clear that followed its save, and those the recorder's stop threw away. */
  lemma {:induction false} ClearedUnsaved(states: seq<State>, evs: seq<Event>, n: nat, x: Media, f: nat)
    requires IsRun(states, evs) && states[0].ringSize >= 1 && n < |states|
    ensures f in StreamOf(states[n], x).cleared && !Saved(Snaps(states[n], x), f) <==>
      exists i :: 0 <= i < n && Lost(states[i], evs[i], x, f)
  {
    if n > 0 {
      var i := n - 1;
      ClearedUnsaved(states, evs, i, x, f);
      RunOk(states, evs, i);
      assert Enabled(states[i], evs[i]) && states[i + 1] == Step(states[i], evs[i]);
      LostStep(states[i], evs[i], states[n], x, f);
    }
  }

  // ---------- saved and evicted ----------

  /** What is both saved and buffered is in the snapshot that a clear is about to follow. */
  lemma SavedBufferedIsHeld(s: State, x: Media, f: nat)
    requires Inv(s) && f in StreamOf(s, x).buffer && Saved(Snaps(s, x), f)
    ensures f in Held(s, x)
  {
    InBuffer(StreamOf(s, x), f);
    Fate(s, x, f);
    ClearLoses(Snaps(s, x)[Closed(s, x)], End(s, x), StreamOf(s, x), f);
  }

  /** Only a buffered frame is evicted, by a push, which changes no snapshot. */
  lemma EvictsStep(s: State, ev: Event, s': State, x: Media, f: nat)
    requires Inv(s) && Enabled(s, ev) && s' == Step(s, ev) && Evicts(s, s', x, f)
    ensures Snaps(s', x) == Snaps(s, x) && Held(s', x) == Held(s, x)
    ensures f in StreamOf(s, x).buffer || f == StreamOf(s, x).pushes
  {
  }

  lemma EvictedKept(s: State, ev: Event, s': State, x: Media, f: nat)
    requires Inv(s) && Enabled(s, ev) && s' == Step(s, ev) && f in StreamOf(s, x).evicted
    ensures f in StreamOf(s', x).evicted
    ensures Saved(Snaps(s', x), f) || f in Held(s', x) ==> Saved(Snaps(s, x), f) || f in Held(s, x)
  {
    if ev.SaveSucceeds? {
      SaveStep(s, s', x, f);
      assert Held(s', x) == Held(s, x);
    } else if ev.SnapshotVideo? || ev.SnapshotAudio? {
      InBuffer(s.video, f);
      InBuffer(s.audio, f);
    }
  }

  /** f made way for a newer frame while a snapshot with it waited for its clear. */
  ghost predicate Overtaken(s: State, s': State, x: Media, f: nat) {
    Evicts(s, s', x, f) && f in Held(s, x)
  }

  lemma {:induction false} OvertakenSoFar(states: seq<State>, evs: seq<Event>, n: nat, x: Media, f: nat)
    requires IsRun(states, evs) && states[0].ringSize >= 1 && n < |states|
    requires f in StreamOf(states[n], x).evicted && (Saved(Snaps(states[n], x), f) || f in Held(states[n], x))
    ensures exists i :: 0 <= i < n && Overtaken(states[i], states[i + 1], x, f)
  {
    if n > 0 {
      var i := n - 1;
      var s, ev, s' := states[i], evs[i], states[n];
      RunOk(states, evs, i);
      RunOk(states, evs, n);
      assert Enabled(s, ev) && states[i + 1] == Step(s, ev);
      if f in StreamOf(s, x).evicted {
        EvictedKept(s, ev, s', x, f);
        OvertakenSoFar(states, evs, i, x, f);
      } else {
        EvictsStep(s, ev, s', x, f);
        EvictedWasHeld(s, ev, s', x, f);
        assert Overtaken(states[i], states[i + 1], x, f);
      }
    }
  }

  lemma EvictedWasHeld(s: State, ev: Event, s': State, x: Media, f: nat)
    requires Inv(s) && Inv(s') && Enabled(s, ev) && s' == Step(s, ev) && Evicts(s, s', x, f)
    requires Saved(Snaps(s, x), f) || f in Held(s, x)
    ensures f in Held(s, x)
  {
    EvictsStep(s, ev, s', x, f);
    if f in StreamOf(s, x).buffer {
      if f !in Held(s, x) {
        SavedBufferedIsHeld(s, x, f);
      }
    } else {
      NotYetPushed(s, x, f);
    }
  }

  lemma NotYetPushed(s: State, x: Media, f: nat)
    requires Inv(s) && f == StreamOf(s, x).pushes
    ensures !Saved(Snaps(s, x), f)
  {
  }

  lemma EvictedGrows(s: State, ev: Event, s': State, x: Media)
    requires Enabled(s, ev) && s' == Step(s, ev)
    ensures StreamOf(s, x).evicted <= StreamOf(s', x).evicted
  {
  }

  lemma {:induction false} StaysEvicted(states: seq<State>, evs: seq<Event>, m: nat, n: nat, x: Media, f: nat)
    requires IsRun(states, evs) && m <= n < |states|
    requires f in StreamOf(states[m], x).evicted
    ensures f in StreamOf(states[n], x).evicted
  {
    if m < n {
      var i := n - 1;
      StaysEvicted(states, evs, m, i, x, f);
      assert Enabled(states[i], evs[i]) && states[i + 1] == Step(states[i], evs[i]);
      EvictedGrows(states[i], evs[i], states[n], x);
    }
  }

  /** In every run: a saved frame was evicted too if and only if it made way for a newer frame
      between the snapshot that saved it and the clear that followed. */
  lemma SavedEvicted(states: seq<State>, evs: seq<Event>, n: nat, x: Media, f: nat)
    requires IsRun(states, evs) && states[0].ringSize >= 1 && n < |states|
    requires Saved(Snaps(states[n], x), f)
    ensures f in StreamOf(states[n], x).evicted <==>
      exists i :: 0 <= i < n && Overtaken(states[i], states[i + 1], x, f)
  {
    if f in StreamOf(states[n], x).evicted {
      OvertakenSoFar(states, evs, n, x, f);
    }
    if exists i :: 0 <= i < n && Overtaken(states[i], states[i + 1], x, f) {
      var i :| 0 <= i < n && Overtaken(states[i], states[i + 1], x, f);
      StaysEvicted(states, evs, i + 1, n, x, f);
    }
  }
}
