/** Writing one segment: rebasing both streams' timestamps and merging them by time. */
module Interleave {
  import opened Wrappers

  datatype TimeBase = TimeBase(num: nat, den: nat)

  datatype Packet<T> = Packet(pts: int, dts: int, data: T)

  datatype Stream = Video | Audio

  datatype Written<T> = Written(stream: Stream, packet: Packet<T>)

  datatype Bases = Bases(video: TimeBase, audio: TimeBase)

  datatype Error = NoVideoFrames | NoAudioFrames

  predicate Positive(b: Bases) {
    b.video.num > 0 && b.video.den > 0 && b.audio.num > 0 && b.audio.den > 0
  }

  // ---------- time ----------

  /** av_compare_ts(a, ta, b, tb) <= 0, without rounding. */
  predicate NotLater(a: int, ta: TimeBase, b: int, tb: TimeBase) {
    a * (ta.num * tb.den) <= b * (tb.num * ta.den)
  }

  /** Presentation time, in units of 1 / (video.den * audio.den). */
  function Time<T>(w: Written<T>, b: Bases): int {
    match w.stream
    case Video => w.packet.pts * (b.video.num * b.audio.den)
    case Audio => w.packet.pts * (b.audio.num * b.video.den)
  }

  function Seconds(pts: int, t: TimeBase): real
    requires t.den > 0
  {
    (pts * t.num) as real / t.den as real
  }

  /** The comparison is that of the times in seconds. */
  lemma NotLaterExact(a: int, ta: TimeBase, b: int, tb: TimeBase)
    requires ta.den > 0 && tb.den > 0
    ensures NotLater(a, ta, b, tb) <==> Seconds(a, ta) <= Seconds(b, tb)
  {
    var x, y := Seconds(a, ta), Seconds(b, tb);
    var p, q := ta.den, tb.den;
    assert x * p as real == (a * ta.num) as real && y * q as real == (b * tb.num) as real;
    Clear(x, p, a * ta.num, q);
    Clear(y, q, b * tb.num, p);
    assert p * q == q * p;
    Cancel(x, y, p * q);
    assert a * (ta.num * tb.den) == a * ta.num * q && b * (tb.num * ta.den) == b * tb.num * p;
  }

  lemma Clear(x: real, p: nat, n: int, q: nat)
    requires x * p as real == n as real
    ensures x * (p * q) as real == (n * q) as real
  {
    assert (p * q) as real == p as real * q as real;
    assert (n * q) as real == n as real * q as real;
    assert x * (p as real * q as real) == (x * p as real) * q as real;
  }

  lemma Cancel(x: real, y: real, c: nat)
    requires c > 0
    ensures x <= y <==> x * c as real <= y * c as real
  {
  }

  /** Earlier, or at the same time and not an audio packet before a video packet. */
  predicate Before<T>(v: Written<T>, w: Written<T>, b: Bases) {
    Time(v, b) < Time(w, b) || (Time(v, b) == Time(w, b) && (v.stream == w.stream || v.stream.Video?))
  }

  ghost predicate Sorted<T>(s: seq<Packet<T>>) {
    forall i, j :: 0 <= i < j < |s| ==> s[i].pts <= s[j].pts
  }

  lemma SortedBefore<T>(s: seq<Packet<T>>, stream: Stream, b: Bases, i: nat, j: nat)
    requires Sorted(s) && Positive(b) && i <= j < |s|
    ensures Before(Written(stream, s[i]), Written(stream, s[j]), b)
  {
    Scale(s[i].pts, s[j].pts, b.video.num * b.audio.den);
    Scale(s[i].pts, s[j].pts, b.audio.num * b.video.den);
  }

  lemma Scale(x: int, y: int, c: nat)
    requires x <= y
    ensures x * c <= y * c
  {
  }

  // ---------- rebasing ----------

  /** By how much a stream of frames that last `step` each is moved; RollingSegments.cpp:243-250. */
  function Offset<T>(frames: seq<Packet<T>>, step: nat): nat
    requires frames != []
  {
    var diff := frames[|frames| - 1].pts - (|frames| - 1) * step;
    if diff < 0 then 0 else diff
  }

  function Moved<T>(p: Packet<T>, offset: int): Packet<T> {
    p.(pts := p.pts - offset, dts := p.dts - offset)
  }

  function Rebased<T>(frames: seq<Packet<T>>, step: nat): (r: seq<Packet<T>>)
    requires frames != []
    ensures |r| == |frames|
  {
    seq(|frames|, i requires 0 <= i < |frames| => Moved(frames[i], Offset(frames, step)))
  }

  /** Timestamps that start at or above zero and advance by at least a frame's length. */
  ghost predicate Advancing<T>(frames: seq<Packet<T>>, step: nat) {
    && frames != [] && frames[0].pts >= 0
    && forall i :: 0 < i < |frames| ==> frames[i].pts - frames[i - 1].pts >= step
  }

  /** How much is missing before frame i. */
  function GapsBefore<T>(frames: seq<Packet<T>>, step: nat, i: nat): int
    requires i < |frames|
  {
    if i == 0 then 0 else GapsBefore(frames, step, i - 1) + (frames[i].pts - frames[i - 1].pts - step)
  }

  lemma {:induction false} GapsSum<T>(frames: seq<Packet<T>>, step: nat, i: nat)
    requires Advancing(frames, step) && i < |frames|
    ensures frames[i].pts == frames[0].pts + i * step + GapsBefore(frames, step, i)
    ensures GapsBefore(frames, step, i) >= 0
  {
    if i > 0 {
      GapsSum(frames, step, i - 1);
      assert i * step == (i - 1) * step + step;
    }
  }

  lemma {:induction false} GapsGrow<T>(frames: seq<Packet<T>>, step: nat, i: nat, j: nat)
    requires Advancing(frames, step) && i <= j < |frames|
    ensures GapsBefore(frames, step, i) <= GapsBefore(frames, step, j)
  {
    if i < j {
      GapsGrow(frames, step, i, j - 1);
    }
  }

  /** Each frame ends up as far before its place in a gapless stream as there are gaps after it:
      the last frame in its place, none after it, and the whole stream as far into negative time
      as it has gaps. */
  lemma RebasedExact<T>(frames: seq<Packet<T>>, step: nat, i: nat)
    requires Advancing(frames, step) && i < |frames|
    ensures var last := |frames| - 1;
      var later := GapsBefore(frames, step, last) - GapsBefore(frames, step, i);
      && later >= 0 && Rebased(frames, step)[i].pts == i * step - later
      && Offset(frames, step) == frames[last].pts - last * step
  {
    GapsSum(frames, step, i);
    GapsSum(frames, step, |frames| - 1);
    GapsGrow(frames, step, i, |frames| - 1);
  }

  ghost predicate Gapless<T>(frames: seq<Packet<T>>, step: nat) {
    forall i :: 0 < i < |frames| ==> frames[i].pts - frames[i - 1].pts == step
  }

  /** All frames end up in their gapless places if and only if there are no gaps; otherwise the
      first frame ends up before zero. */
  lemma RebasedGapless<T>(frames: seq<Packet<T>>, step: nat)
    requires Advancing(frames, step)
    ensures (forall i :: 0 <= i < |frames| ==> Rebased(frames, step)[i].pts == i * step) <==> Gapless(frames, step)
    ensures Rebased(frames, step)[0].pts < 0 <==> !Gapless(frames, step)
  {
    TotalGaps(frames, step);
    RebasedExact(frames, step, 0);
    if Gapless(frames, step) {
      forall i | 0 <= i < |frames| ensures Rebased(frames, step)[i].pts == i * step {
        RebasedExact(frames, step, i);
        GapsSum(frames, step, i);
      }
    }
  }

  lemma TotalGaps<T>(frames: seq<Packet<T>>, step: nat)
    requires Advancing(frames, step)
    ensures GapsBefore(frames, step, |frames| - 1) == 0 <==> Gapless(frames, step)
  {
    if Gapless(frames, step) {
      NoGaps(frames, step, |frames| - 1);
    } else {
      var i :| 0 < i < |frames| && frames[i].pts - frames[i - 1].pts != step;
      GapsSum(frames, step, i - 1);
      GapsGrow(frames, step, i, |frames| - 1);
    }
  }

  lemma {:induction false} NoGaps<T>(frames: seq<Packet<T>>, step: nat, i: nat)
    requires i < |frames| && Gapless(frames, step)
    ensures GapsBefore(frames, step, i) == 0
  {
    if i > 0 {
      NoGaps(frames, step, i - 1);
    }
  }

  // ---------- merging ----------

  /** The packets of one stream among those written, in order. */
  function Of<T>(ws: seq<Written<T>>, stream: Stream): seq<Packet<T>> {
    if ws == [] then []
    else
      var w := ws[|ws| - 1];
      Of(ws[..|ws| - 1], stream) + if w.stream == stream then [w.packet] else []
  }

  /** In order of time, video first at the same time, and nothing left over comes before. */
  ghost predicate Merged<T>(
    ws: seq<Written<T>>, v: seq<Packet<T>>, vi: nat, a: seq<Packet<T>>, ai: nat, b: Bases)
  {
    && (forall i, j :: 0 <= i < j < |ws| ==> Before(ws[i], ws[j], b))
    && (forall i, j :: 0 <= i < |ws| && vi <= j < |v| ==> Before(ws[i], Written(Video, v[j]), b))
    && (forall i, j :: 0 <= i < |ws| && ai <= j < |a| ==> Before(ws[i], Written(Audio, a[j]), b))
  }

  /** Writing the first packet left of a stream keeps the order, if it is not after the other's. */
  lemma MergeVideo<T>(ws: seq<Written<T>>, v: seq<Packet<T>>, vi: nat, a: seq<Packet<T>>, ai: nat, b: Bases)
    requires Positive(b) && Sorted(v) && Sorted(a) && Merged(ws, v, vi, a, ai, b)
    requires vi < |v| && ai < |a| && NotLater(v[vi].pts, b.video, a[ai].pts, b.audio)
    ensures Merged(ws + [Written(Video, v[vi])], v, vi + 1, a, ai, b)
  {
    forall j | vi <= j < |v| ensures Before(Written(Video, v[vi]), Written(Video, v[j]), b) {
      SortedBefore(v, Video, b, vi, j);
    }
    forall j | ai <= j < |a| ensures Before(Written(Video, v[vi]), Written(Audio, a[j]), b) {
      SortedBefore(a, Audio, b, ai, j);
    }
  }

  lemma MergeAudio<T>(ws: seq<Written<T>>, v: seq<Packet<T>>, vi: nat, a: seq<Packet<T>>, ai: nat, b: Bases)
    requires Positive(b) && Sorted(v) && Sorted(a) && Merged(ws, v, vi, a, ai, b)
    requires vi < |v| && ai < |a| && !NotLater(v[vi].pts, b.video, a[ai].pts, b.audio)
    ensures Merged(ws + [Written(Audio, a[ai])], v, vi, a, ai + 1, b)
  {
    forall j | vi <= j < |v| ensures Before(Written(Audio, a[ai]), Written(Video, v[j]), b) {
      SortedBefore(v, Video, b, vi, j);
    }
    forall j | ai <= j < |a| ensures Before(Written(Audio, a[ai]), Written(Audio, a[j]), b) {
      SortedBefore(a, Audio, b, ai, j);
    }
  }

  /** Writing the earlier of the two packets next. */
  lemma MergeNext<T>(
    ws: seq<Written<T>>, video: seq<Packet<T>>, v: seq<Packet<T>>, vi: nat,
    audio: seq<Packet<T>>, a: seq<Packet<T>>, ai: nat, b: Bases, w: Written<T>)
    requires Positive(b) && vi < |v| && ai < |a| && SameOrder(video, v) && SameOrder(audio, a)
    requires Sorted(video) && Sorted(audio) ==> Merged(ws, v, vi, a, ai, b)
    requires w ==
      if NotLater(v[vi].pts, b.video, a[ai].pts, b.audio) then Written(Video, v[vi]) else Written(Audio, a[ai])
    ensures Sorted(video) && Sorted(audio) ==>
      Merged(ws + [w], v, vi + if w.stream.Video? then 1 else 0, a, ai + if w.stream.Audio? then 1 else 0, b)
  {
    if Sorted(video) && Sorted(audio) {
      if w.stream.Video? {
        MergeVideo(ws, v, vi, a, ai, b);
      } else {
        MergeAudio(ws, v, vi, a, ai, b);
      }
    }
  }

  ghost predicate SameOrder<T>(s: seq<Packet<T>>, r: seq<Packet<T>>) {
    Sorted(s) ==> Sorted(r)
  }

  lemma OfSnoc<T>(ws: seq<Written<T>>, w: Written<T>, stream: Stream)
    ensures Of(ws + [w], stream) == Of(ws, stream) + if w.stream == stream then [w.packet] else []
  {
    assert (ws + [w])[..|ws|] == ws;
  }

  /** The first packets of a stream as they are written: what they carry, and the time between decoding
      and presenting each, is as it was; and all are moved down by the same amount, which takes the
      last packet of the stream to the time it would have without gaps, or not moved at all. */
  ghost predicate Shifted<T>(frames: seq<Packet<T>>, written: seq<Packet<T>>, step: nat)
    requires frames != []
  {
    var ahead := frames[|frames| - 1].pts - (|frames| - 1) * step;
    && |written| <= |frames|
    && forall i :: 0 <= i < |written| ==>
      && written[i].data == frames[i].data
      && written[i].pts - written[i].dts == frames[i].pts - frames[i].dts
      && frames[i].pts - written[i].pts == if ahead > 0 then ahead else 0
  }

  lemma PrefixShifted<T>(frames: seq<Packet<T>>, step: nat, n: nat)
    requires frames != [] && n <= |frames|
    ensures Shifted(frames, Rebased(frames, step)[..n], step)
  {
  }

  /** RollingSegments.cpp:149-300; `fails(n)` says that the n-th write would fail. */
  method SaveAv<T>(video: seq<Packet<T>>, audio: seq<Packet<T>>, b: Bases, frameSize: nat, fails: nat -> bool)
      returns (r: Result<seq<Written<T>>, Error>, vi: nat, ai: nat)
    requires Positive(b)
    ensures video == [] <==> r == Failure(NoVideoFrames)
    ensures video != [] && audio == [] <==> r == Failure(NoAudioFrames)
    ensures r.Success? ==>
      && vi <= |video| && ai <= |audio|
      && Of(r.value, Video) == Rebased(video, 1)[..vi] && Of(r.value, Audio) == Rebased(audio, frameSize)[..ai]
      && |r.value| == vi + ai && (forall k :: 0 <= k < vi + ai ==> !fails(k))
      && (vi == |video| || ai == |audio| || fails(vi + ai))
    ensures r.Success? ==>
      && Shifted(video, Of(r.value, Video), 1) && Shifted(audio, Of(r.value, Audio), frameSize)
    ensures r.Success? && Sorted(video) && Sorted(audio) ==>
      Merged(r.value, Rebased(video, 1), vi, Rebased(audio, frameSize), ai, b)
  {
    vi, ai := 0, 0;
    if video == [] {
      return Failure(NoVideoFrames), vi, ai;
    }
    if audio == [] {
      return Failure(NoAudioFrames), vi, ai;
    }
    var videoDiff := video[|video| - 1].pts - (|video| - 1);
    var audioDiff := audio[|audio| - 1].pts - (|audio| - 1) * frameSize;
    videoDiff := if videoDiff < 0 then 0 else videoDiff;
    audioDiff := if audioDiff < 0 then 0 else audioDiff;
    ghost var v, a := Rebased(video, 1), Rebased(audio, frameSize);
    var ws: seq<Written<T>> := [];
    while vi < |video| && ai < |audio|
      invariant vi <= |video| && ai <= |audio| && |ws| == vi + ai
      invariant forall k :: 0 <= k < vi + ai ==> !fails(k)
      invariant Of(ws, Video) == v[..vi] && Of(ws, Audio) == a[..ai]
      invariant Sorted(video) && Sorted(audio) ==> Merged(ws, v, vi, a, ai, b)
      decreases |video| - vi + |audio| - ai
    {
      var videoPts, audioPts := video[vi].pts - videoDiff, audio[ai].pts - audioDiff;
      var w;
      if NotLater(videoPts, b.video, audioPts, b.audio) {
        w := Written(Video, Packet(videoPts, video[vi].dts - videoDiff, video[vi].data));
        if fails(vi + ai) {
          break;
        }
        MergeNext(ws, video, v, vi, audio, a, ai, b, w);
        vi := vi + 1;
      } else {
        w := Written(Audio, Packet(audioPts, audio[ai].dts - audioDiff, audio[ai].data));
        if fails(vi + ai) {
          break;
        }
        MergeNext(ws, video, v, vi, audio, a, ai, b, w);
        ai := ai + 1;
      }
      OfSnoc(ws, w, Video);
      OfSnoc(ws, w, Audio);
      ws := ws + [w];
    }
    PrefixShifted(video, 1, vi);
    PrefixShifted(audio, frameSize, ai);
    return Success(ws), vi, ai;
  }
}
