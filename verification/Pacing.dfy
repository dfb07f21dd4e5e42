/** The recording loop's deadlines, in microseconds; ScreenRecorderBase.cpp:89-110. */
module Pacing {

  /** Two captures at least so far apart, when others came between them. */
  ghost predicate Spaced(starts: seq<nat>, d: nat) {
    forall i, j :: 0 <= i < j < |starts| ==> starts[j] >= starts[i] + (j - 1 - i) * d
  }

  /** The deadline before each capture, and after the last: each capture starts no earlier than its
      deadline, the next deadline is no earlier than that, and a frame's length later at least. */
  ghost predicate Schedule(starts: seq<nat>, deadlines: seq<nat>, d: nat) {
    && |deadlines| == |starts| + 1
    && (forall k :: 0 <= k < |starts| ==> deadlines[k] <= starts[k] <= deadlines[k + 1])
    && (forall k :: 0 <= k < |starts| ==> deadlines[k + 1] >= deadlines[k] + d)
  }

  lemma {:induction false} DeadlinesApart(starts: seq<nat>, deadlines: seq<nat>, d: nat, i: nat, j: nat)
    requires Schedule(starts, deadlines, d) && i <= j < |deadlines|
    ensures deadlines[j] >= deadlines[i] + (j - i) * d
  {
    if i < j {
      DeadlinesApart(starts, deadlines, d, i, j - 1);
      assert (j - i) * d == (j - 1 - i) * d + d;
    }
  }

  lemma ScheduleSpaced(starts: seq<nat>, deadlines: seq<nat>, d: nat)
    requires Schedule(starts, deadlines, d)
    ensures Spaced(starts, d)
    ensures forall k :: 0 <= k < |starts| ==> starts[k] >= deadlines[0] + k * d
  {
    forall i, j | 0 <= i < j < |starts| ensures starts[j] >= starts[i] + (j - 1 - i) * d {
      DeadlinesApart(starts, deadlines, d, i + 1, j);
    }
    forall k | 0 <= k < |starts| ensures starts[k] >= deadlines[0] + k * d {
      DeadlinesApart(starts, deadlines, d, 0, k);
    }
  }

  /** In any window there are no more captures than whole frames fit in it, and two. */
  lemma NoBurst(starts: seq<nat>, d: nat, i: nat, j: nat, window: nat)
    requires Spaced(starts, d) && d > 0 && i < j < |starts| && starts[j] <= starts[i] + window
    ensures j - i + 1 <= window / d + 2
  {
    var n := j - 1 - i;
    assert n * d <= window;
    assert window == window / d * d + window % d;
    assert (window / d + 1) * d == window / d * d + d;
    if n > window / d {
      Multiples(window / d + 1, n, d);
    }
  }

  lemma Multiples(a: nat, b: nat, c: nat)
    requires a <= b
    ensures a * c <= b * c
  {
  }

  /** Deadlines keep to the grid from t0 if and only if no capture was over after its deadline. */
  ghost predicate OnGrid(deadlines: seq<nat>, t0: nat, d: nat) {
    forall k :: 0 <= k < |deadlines| ==> deadlines[k] == t0 + k * d
  }

  ghost predicate InTime(starts: seq<nat>, captures: seq<nat>, t0: nat, d: nat)
    requires |starts| <= |captures|
  {
    forall k :: 0 <= k < |starts| ==> starts[k] + captures[k] <= t0 + (k + 1) * d
  }

  lemma GridStep(starts: seq<nat>, deadlines: seq<nat>, captures: seq<nat>, t0: nat, d: nat, start: nat, next: nat)
    requires |deadlines| == |starts| + 1 <= |captures|
    requires OnGrid(deadlines, t0, d) <==> InTime(starts, captures, t0, d)
    requires var due := deadlines[|starts|] + d; var now := start + captures[|starts|];
      next == if due > now then due else now
    ensures OnGrid(deadlines + [next], t0, d) <==> InTime(starts + [start], captures, t0, d)
  {
    var n := |starts|;
    assert (n + 1) * d == n * d + d;
    assert OnGrid(deadlines + [next], t0, d) <==> OnGrid(deadlines, t0, d) && next == t0 + (n + 1) * d by {
      assert OnGrid(deadlines + [next], t0, d) ==> OnGrid(deadlines, t0, d) && next == t0 + (n + 1) * d by {
        assert forall k :: 0 <= k < |deadlines| ==> (deadlines + [next])[k] == deadlines[k];
        assert (deadlines + [next])[n + 1] == next;
      }
    }
    assert InTime(starts + [start], captures, t0, d)
      <==> InTime(starts, captures, t0, d) && start + captures[n] <= t0 + (n + 1) * d by {
      assert forall k :: 0 <= k < |starts| ==> (starts + [start])[k] == starts[k];
      assert (starts + [start])[n] == start;
    }
  }

  /** After a capture that was over before the next deadline, the next one starts at that deadline, and
      after one that was not, at once; or in either case as much later as the thread wakes late. */
  ghost predicate GoesOn(starts: seq<nat>, deadlines: seq<nat>, k: nat, capture: nat, late: nat, d: nat)
    requires k < |starts| && |deadlines| == |starts| + 1
  {
    var over, due := starts[k] + capture, deadlines[k] + d;
    && (over < due ==> deadlines[k + 1] == due)
    && (over >= due ==> deadlines[k + 1] == over)
    && (k + 1 < |starts| ==> starts[k + 1] == deadlines[k + 1] + late)
  }

  ghost predicate Paced(starts: seq<nat>, deadlines: seq<nat>, captures: seq<nat>, late: seq<nat>, d: nat) {
    && |deadlines| == |starts| + 1 && |starts| <= |captures| && |starts| <= |late|
    && forall k :: 0 <= k < |starts| ==> GoesOn(starts, deadlines, k, captures[k], late[k], d)
  }

  lemma PacedStep(
    starts: seq<nat>, deadlines: seq<nat>, captures: seq<nat>, late: seq<nat>, d: nat, start: nat, next: nat)
    requires Paced(starts, deadlines, captures, late, d) && |starts| < |captures| && |starts| < |late|
    requires starts != [] ==> start == deadlines[|starts|] + late[|starts| - 1]
    requires var due, over := deadlines[|starts|] + d, start + captures[|starts|];
      next == if due > over then due else over
    ensures Paced(starts + [start], deadlines + [next], captures, late, d)
  {
    var starts', deadlines' := starts + [start], deadlines + [next];
    forall k | 0 <= k < |starts'| ensures GoesOn(starts', deadlines', k, captures[k], late[k], d) {
      if k < |starts| {
        assert GoesOn(starts, deadlines, k, captures[k], late[k], d);
      }
    }
  }

  /** After so many captures: the time is `clock`, and all that is promised holds so far. */
  ghost predicate SoFar(
    starts: seq<nat>, deadlines: seq<nat>, captures: seq<nat>, late: seq<nat>, t0: nat, d: nat, clock: nat)
  {
    var n := |starts|;
    && Schedule(starts, deadlines, d) && Paced(starts, deadlines, captures, late, d)
    && deadlines[0] == t0 && deadlines[n] <= clock && (n > 0 ==> clock == deadlines[n] + late[n - 1])
  }

  lemma NextCapture(
    starts: seq<nat>, deadlines: seq<nat>, captures: seq<nat>, late: seq<nat>, t0: nat, d: nat, clock: nat, next: nat)
    requires SoFar(starts, deadlines, captures, late, t0, d, clock) && |starts| < |captures| && |starts| < |late|
    requires var due, over := deadlines[|starts|] + d, clock + captures[|starts|];
      next == if due > over then due else over
    ensures SoFar(starts + [clock], deadlines + [next], captures, late, t0, d, next + late[|starts|])
  {
    PacedStep(starts, deadlines, captures, late, d, clock, next);
    ScheduleStep(starts, deadlines, d, clock, next);
  }

  lemma ScheduleStep(starts: seq<nat>, deadlines: seq<nat>, d: nat, start: nat, next: nat)
    requires Schedule(starts, deadlines, d) && deadlines[|starts|] <= start <= next
    requires next >= deadlines[|starts|] + d
    ensures Schedule(starts + [start], deadlines + [next], d)
  {
  }

  /** captures[k] is how long capture k takes, and late[k] how much later than asked, or than it
      could, the loop goes on after it. */
  method RecordingLoop(t0: nat, lateStart: nat, captures: seq<nat>, late: seq<nat>, fps: nat)
      returns (starts: seq<nat>, ghost deadlines: seq<nat>)
    requires fps >= 1 && |late| == |captures|
    ensures |starts| == |captures| && Spaced(starts, 1000000 / fps)
    ensures forall k :: 0 <= k < |starts| ==> starts[k] >= t0 + k * (1000000 / fps)
    ensures Schedule(starts, deadlines, 1000000 / fps)
    ensures deadlines[0] == t0 && (starts != [] ==> starts[0] == t0 + lateStart)
    ensures Paced(starts, deadlines, captures, late, 1000000 / fps)
    ensures OnGrid(deadlines, t0, 1000000 / fps) <==> InTime(starts, captures, t0, 1000000 / fps)
  {
    var nextFrameTime: nat, clock: nat := t0, t0 + lateStart;
    var frameDuration: nat := 1000000 / fps;
    starts, deadlines := [], [t0];
    for k := 0 to |captures|
      invariant |starts| == k && |deadlines| == k + 1 && deadlines[k] == nextFrameTime
      invariant SoFar(starts, deadlines, captures, late, t0, frameDuration, clock)
      invariant OnGrid(deadlines, t0, frameDuration) <==> InTime(starts, captures, t0, frameDuration)
      invariant if k == 0 then clock == t0 + lateStart else starts[0] == t0 + lateStart
    {
      ghost var starts0, clock0 := starts, clock;
      starts := starts + [clock];
      clock := clock + captures[k];
      nextFrameTime := nextFrameTime + frameDuration;
      var now := clock;
      if nextFrameTime > now {
        clock := nextFrameTime + late[k];
      } else {
        nextFrameTime := now;
        clock := now + late[k];
      }
      NextCapture(starts0, deadlines, captures, late, t0, frameDuration, clock0, nextFrameTime);
      GridStep(starts0, deadlines, captures, t0, frameDuration, clock0, nextFrameTime);
      deadlines := deadlines + [nextFrameTime];
    }
    ScheduleSpaced(starts, deadlines, frameDuration);
  }
}
