/**
 What becomes of every frame an encoder pushes into its buffer, while the segment thread takes
 snapshots of the buffer and clears it.  A frame goes by the number of pushes before it.
 */
module FrameLedger {
  import CB = CircularBuffer

  /** evicted, cleared and clearedAt are history: the frames that capacity and clear_frames have
      removed, and the number of pushes at the last clear. */
  datatype Stream = Stream(
    capacity: nat, buffer: seq<nat>, pushes: nat, clearedAt: nat, evicted: set<nat>, cleared: set<nat>)

  function PushFrame(st: Stream): Stream {
    var buffer' := CB.Pushed(st.buffer, st.pushes, st.capacity);
    st.(buffer := buffer', pushes := st.pushes + 1,
        evicted := st.evicted +
          set f | f in st.buffer + [st.pushes] && f !in buffer')
  }

  function ClearFrames(st: Stream): Stream {
    st.(buffer := [], clearedAt := st.pushes, cleared := st.cleared + set f | f in st.buffer)
  }

  function Interval(lo: nat, hi: nat): (r: seq<nat>)
    requires lo <= hi
    ensures |r| == hi - lo
  {
    seq(hi - lo, i requires i >= 0 => lo + i)
  }

  /** The oldest frame the buffer can still hold. */
  function Oldest(st: Stream): nat
    requires st.clearedAt <= st.pushes
  {
    if st.capacity > 0 && st.pushes - st.clearedAt > st.capacity then st.pushes - st.capacity else st.clearedAt
  }

  /** The buffer holds the newest frames pushed since the last clear, as many as fit, and each
      older frame was either evicted or cleared. */
  ghost predicate StreamOk(st: Stream) {
    && st.clearedAt <= st.pushes
    && st.buffer == Interval(Oldest(st), st.pushes)
    && st.evicted !! st.cleared
    && (forall f :: f in st.cleared ==> f < st.clearedAt)
    && forall f: nat :: (f in st.evicted || f in st.cleared) <==> f < Oldest(st)
  }

  lemma InBuffer(st: Stream, f: nat)
    requires StreamOk(st)
    ensures f in st.buffer <==> Oldest(st) <= f < st.pushes
  {
    if Oldest(st) <= f < st.pushes {
      assert st.buffer[f - Oldest(st)] == f;
    }
  }

  lemma PushOk(st: Stream)
    requires StreamOk(st)
    ensures StreamOk(PushFrame(st))
    ensures Oldest(st) <= Oldest(PushFrame(st)) && PushFrame(st).clearedAt == st.clearedAt
  {
    var st' := PushFrame(st);
    assert st.buffer + [st.pushes] == Interval(Oldest(st), st.pushes + 1);
    assert st'.buffer == Interval(Oldest(st'), st'.pushes);
    forall f: nat ensures (f in st'.evicted || f in st'.cleared) <==> f < Oldest(st') {
      InBuffer(st, f);
      if Oldest(st') <= f < st'.pushes {
        assert st'.buffer[f - Oldest(st')] == f;
      }
    }
    assert st'.evicted !! st'.cleared by {
      forall f | f in st.cleared ensures f !in st.buffer + [st.pushes] {
        InBuffer(st, f);
      }
    }
  }

  lemma ClearOk(st: Stream)
    requires StreamOk(st)
    ensures StreamOk(ClearFrames(st))
  {
    forall f: nat ensures f in st.buffer <==> Oldest(st) <= f < st.pushes {
      InBuffer(st, f);
    }
  }

  // ---------- snapshots ----------

  /** A snapshot taken since the last clear, when there had been `end` pushes: what the buffer
      still holds of the frames pushed by then is in it. */
  ghost predicate Open(v: seq<nat>, end: nat, st: Stream) {
    && st.clearedAt <= st.pushes
    && end <= st.pushes && |v| <= end
    && v == Interval(end - |v|, end)
    && st.clearedAt <= end - |v| <= Oldest(st)
  }

  lemma SnapshotOpen(st: Stream)
    requires StreamOk(st)
    ensures Open(st.buffer, st.pushes, st)
  {
  }

  lemma PushKeepsOpen(v: seq<nat>, end: nat, st: Stream)
    requires StreamOk(st) && Open(v, end, st)
    ensures Open(v, end, PushFrame(st))
  {
    PushOk(st);
  }

  /** What a clear discards that the snapshot does not have was pushed since the snapshot. */
  lemma ClearLoses(v: seq<nat>, end: nat, st: Stream, f: nat)
    requires StreamOk(st) && Open(v, end, st) && f in st.buffer
    ensures f in v <==> f < end
  {
    if f < end {
      InBuffer(st, f);
      assert v[f - (end - |v|)] == f;
    }
  }

  /** Snapshots, in order, of which the first `closed` were followed by a clear. */
  ghost predicate SnapsOk(snaps: seq<seq<nat>>, closed: nat, st: Stream) {
    && closed <= |snaps|
    && (forall k, f :: 0 <= k < |snaps| && f in snaps[k] ==> f < st.pushes && (f < st.clearedAt <==> k < closed))
    && (forall j, k, f, g :: 0 <= j < k < |snaps| && f in snaps[j] && g in snaps[k] ==> f < g)
  }

  ghost predicate Saved(snaps: seq<seq<nat>>, f: nat) {
    exists k :: 0 <= k < |snaps| && f in snaps[k]
  }

  lemma PushKeepsSnaps(snaps: seq<seq<nat>>, closed: nat, st: Stream)
    requires SnapsOk(snaps, closed, st)
    ensures SnapsOk(snaps, closed, PushFrame(st))
  {
  }

  /** A successful save adds its snapshot, all of it newer than what was saved before. */
  lemma SaveKeepsSnaps(snaps: seq<seq<nat>>, v: seq<nat>, end: nat, st: Stream)
    requires SnapsOk(snaps, |snaps|, st) && Open(v, end, st)
    ensures SnapsOk(snaps + [v], |snaps|, st)
  {
  }

  lemma ClearKeepsSnaps(snaps: seq<seq<nat>>, closed: nat, st: Stream)
    requires SnapsOk(snaps, closed, st)
    ensures SnapsOk(snaps, |snaps|, ClearFrames(st))
  {
  }

  /** f is in exactly one place: still buffered, evicted or cleared.  It is in one snapshot at the
      most, and then no longer buffered, unless the snapshot is the last and not yet followed by its
      clear: of that one, taken after `end` pushes, just those frames still are that the buffer
      could still hold. */
  ghost predicate OneFateOnly(snaps: seq<seq<nat>>, closed: nat, end: nat, st: Stream, f: nat)
    requires st.clearedAt <= st.pushes
  {
    && (f in st.buffer || f in st.evicted || f in st.cleared)
    && !(f in st.buffer && f in st.evicted) && !(f in st.buffer && f in st.cleared)
    && !(f in st.evicted && f in st.cleared)
    && (forall j, k :: 0 <= j < k < |snaps| ==> !(f in snaps[j] && f in snaps[k]))
    && (Saved(snaps, f) && f in st.buffer <==> closed < |snaps| && Oldest(st) <= f < end)
  }

  lemma OneFate(snaps: seq<seq<nat>>, closed: nat, end: nat, st: Stream, f: nat)
    requires StreamOk(st) && SnapsOk(snaps, closed, st) && f < st.pushes
    requires closed == |snaps| || (closed == |snaps| - 1 && Open(snaps[closed], end, st))
    ensures OneFateOnly(snaps, closed, end, st, f)
  {
    InBuffer(st, f);
    if closed < |snaps| && f in st.buffer {
      ClearLoses(snaps[closed], end, st, f);
    }
  }
}
