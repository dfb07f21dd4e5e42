/** Saturating addition of 16-bit samples, over any number of streams in any order. */
module Mixing {

  const MIN: int := -32768
  const MAX: int := 32767

  ghost predicate InRange(xs: seq<int>) {
    forall i :: 0 <= i < |xs| ==> MIN <= xs[i] <= MAX
  }

  function Clamp(x: int): (r: int)
    ensures MIN <= r <= MAX
  {
    if x < MIN then MIN else if x > MAX then MAX else x
  }

  /** One position of the output after one stream after another is mixed in. */
  function Mixed(start: int, xs: seq<int>): (r: int)
    ensures MIN <= start <= MAX ==> MIN <= r <= MAX
  {
    if xs == [] then start else Clamp(Mixed(start, xs[..|xs| - 1]) + xs[|xs| - 1])
  }

  function Sum(xs: seq<int>): int {
    if xs == [] then 0 else Sum(xs[..|xs| - 1]) + xs[|xs| - 1]
  }

  /** The sum of the positive samples, or of the negative ones without their sign. */
  function Part(xs: seq<int>, sign: int): (r: int)
    ensures r >= 0
  {
    if xs == [] then 0 else Part(xs[..|xs| - 1], sign) + Positive(xs[|xs| - 1] * sign)
  }

  function Positive(x: int): nat {
    if x > 0 then x else 0
  }

  lemma PartSnoc(xs: seq<int>, x: int, sign: int)
    ensures Part(xs + [x], sign) == Part(xs, sign) + Positive(x * sign)
  {
    assert (xs + [x])[..|xs|] == xs;
  }

  ghost predicate OneSign(xs: seq<int>) {
    Part(xs, 1) == 0 || Part(xs, -1) == 0
  }

  // ---------- monotone and 1-Lipschitz ----------

  lemma {:induction false} MixedMonotone(a: int, xs: seq<int>, b: int, ys: seq<int>)
    requires a <= b && |xs| == |ys| && forall i :: 0 <= i < |xs| ==> xs[i] <= ys[i]
    ensures Mixed(a, xs) <= Mixed(b, ys)
  {
    if xs != [] {
      MixedMonotone(a, xs[..|xs| - 1], b, ys[..|ys| - 1]);
    }
  }

  /** How far the inputs are apart, in all. */
  function Distance(xs: seq<int>, ys: seq<int>): (r: int)
    requires |xs| == |ys|
    ensures r >= 0
  {
    if xs == [] then 0
    else
      var d := xs[|xs| - 1] - ys[|ys| - 1];
      Distance(xs[..|xs| - 1], ys[..|ys| - 1]) + if d < 0 then -d else d
  }

  /** The output moves by no more than the inputs do together. */
  lemma {:induction false} MixedLipschitz(start: int, xs: seq<int>, ys: seq<int>)
    requires |xs| == |ys|
    ensures -Distance(xs, ys) <= Mixed(start, xs) - Mixed(start, ys) <= Distance(xs, ys)
  {
    if xs != [] {
      MixedLipschitz(start, xs[..|xs| - 1], ys[..|ys| - 1]);
    }
  }

  // ---------- when the order does not matter ----------

  lemma {:induction false} SumParts(xs: seq<int>)
    ensures Sum(xs) == Part(xs, 1) - Part(xs, -1)
  {
    if xs != [] {
      SumParts(xs[..|xs| - 1]);
    }
  }

  /** While no partial sum can clip, mixing adds. */
  lemma {:induction false} NoClip(xs: seq<int>)
    requires Part(xs, 1) <= MAX && Part(xs, -1) <= -MIN
    ensures Mixed(0, xs) == Sum(xs)
  {
    SumParts(xs);
    if xs != [] {
      NoClip(xs[..|xs| - 1]);
    }
  }

  /** Samples of one sign clip at the end or not at all. */
  lemma {:induction false} MixedUp(start: int, xs: seq<int>)
    requires MIN <= start <= MAX && Part(xs, -1) == 0
    ensures Mixed(start, xs) == Clamp(start + Part(xs, 1))
  {
    if xs != [] {
      MixedUp(start, xs[..|xs| - 1]);
    }
  }

  lemma {:induction false} MixedDown(start: int, xs: seq<int>)
    requires MIN <= start <= MAX && Part(xs, 1) == 0
    ensures Mixed(start, xs) == Clamp(start - Part(xs, -1))
  {
    if xs != [] {
      MixedDown(start, xs[..|xs| - 1]);
    }
  }

  lemma {:induction false} PartSplit(a: seq<int>, b: seq<int>, sign: int)
    ensures Part(a + b, sign) == Part(a, sign) + Part(b, sign)
  {
    if b == [] {
      assert a + b == a;
    } else {
      assert (a + b)[..|a + b| - 1] == a + b[..|b| - 1];
      PartSplit(a, b[..|b| - 1], sign);
    }
  }

  /** ys less one of its elements. */
  function Without<T>(ys: seq<T>, k: nat): seq<T>
    requires k < |ys|
  {
    ys[..k] + ys[k + 1..]
  }

  lemma WithoutBag<T>(ys: seq<T>, k: nat)
    requires k < |ys|
    ensures multiset(Without(ys, k)) == multiset(ys) - multiset{ys[k]}
  {
    assert ys == ys[..k] + [ys[k]] + ys[k + 1..];
  }

  lemma WithoutPart(ys: seq<int>, k: nat, sign: int)
    requires k < |ys|
    ensures Part(ys, sign) == Part(Without(ys, k), sign) + Positive(ys[k] * sign)
  {
    assert ys == ys[..k] + [ys[k]] + ys[k + 1..];
    PartSplit(ys[..k] + [ys[k]], ys[k + 1..], sign);
    PartSnoc(ys[..k], ys[k], sign);
    PartSplit(ys[..k], ys[k + 1..], sign);
  }

  lemma {:induction false} PartPermuted(xs: seq<int>, ys: seq<int>, sign: int)
    requires multiset(xs) == multiset(ys)
    ensures Part(xs, sign) == Part(ys, sign)
    decreases |xs|
  {
    if xs == [] {
      assert |multiset(ys)| == 0;
    } else {
      var n := |xs| - 1;
      assert xs[n] in multiset(ys);
      var k :| 0 <= k < |ys| && ys[k] == xs[n];
      WithoutBag(xs, n);
      WithoutBag(ys, k);
      PartPermuted(Without(xs, n), Without(ys, k), sign);
      WithoutPart(xs, n, sign);
      WithoutPart(ys, k, sign);
    }
  }

  lemma {:induction false} MixedSplit(start: int, a: seq<int>, b: seq<int>)
    ensures Mixed(start, a + b) == Mixed(Mixed(start, a), b)
  {
    if b == [] {
      assert a + b == a;
    } else {
      assert (a + b)[..|a + b| - 1] == a + b[..|b| - 1];
      MixedSplit(start, a, b[..|b| - 1]);
    }
  }

  /** The samples of one sign, and the others. */
  function Select(xs: seq<int>, positive: bool): seq<int> {
    if xs == [] then []
    else
      var x := xs[|xs| - 1];
      Select(xs[..|xs| - 1], positive) + if (x > 0) == positive then [x] else []
  }

  lemma {:induction false} SelectPermutes(xs: seq<int>)
    ensures multiset(Select(xs, true)) + multiset(Select(xs, false)) == multiset(xs)
  {
    if xs != [] {
      SelectPermutes(xs[..|xs| - 1]);
      assert xs == xs[..|xs| - 1] + [xs[|xs| - 1]];
    }
  }

  lemma {:induction false} SelectParts(xs: seq<int>, positive: bool, sign: int)
    requires sign == 1 || sign == -1
    ensures Part(Select(xs, positive), sign) == if (sign == 1) == positive then Part(xs, sign) else 0
  {
    if xs != [] {
      var x, rest := xs[|xs| - 1], Select(xs[..|xs| - 1], positive);
      SelectParts(xs[..|xs| - 1], positive, sign);
      assert x * sign == if sign == 1 then x else -x;
      if (x > 0) == positive {
        PartSnoc(rest, x, sign);
      } else {
        assert Select(xs, positive) == rest;
      }
    }
  }

  /** Every order of the same samples gives the clamped total. */
  ghost predicate OrderFree(xs: seq<int>) {
    forall ys: seq<int> :: multiset(ys) == multiset(xs) ==> Mixed(0, ys) == Clamp(Sum(xs))
  }

  /** All orders of the same samples give the same. */
  ghost predicate OrdersAgree(xs: seq<int>) {
    forall ys: seq<int>, zs: seq<int> :: multiset(ys) == multiset(xs) && multiset(zs) == multiset(xs) ==>
      Mixed(0, ys) == Mixed(0, zs)
  }

  lemma OrderFreeIf(xs: seq<int>)
    requires OneSign(xs) || (Part(xs, 1) <= MAX && Part(xs, -1) <= -MIN)
    ensures OrderFree(xs)
  {
    SumParts(xs);
    forall ys: seq<int> | multiset(ys) == multiset(xs) ensures Mixed(0, ys) == Clamp(Sum(xs)) {
      PartPermuted(ys, xs, 1);
      PartPermuted(ys, xs, -1);
      SumParts(ys);
      if Part(xs, -1) == 0 {
        MixedUp(0, ys);
      } else if Part(xs, 1) == 0 {
        MixedDown(0, ys);
      } else {
        NoClip(ys);
      }
    }
  }

  /** What the positive samples first, and the others first, come to. */
  lemma Extremes(up: seq<int>, down: seq<int>)
    requires Part(up, -1) == 0 && Part(down, 1) == 0
    ensures Mixed(0, up + down) == Clamp(Clamp(Part(up, 1)) - Part(down, -1))
    ensures Mixed(0, down + up) == Clamp(Clamp(-Part(down, -1)) + Part(up, 1))
  {
    UpThenDown(up, down);
    DownThenUp(up, down);
  }

  lemma UpThenDown(up: seq<int>, down: seq<int>)
    requires Part(up, -1) == 0 && Part(down, 1) == 0
    ensures Mixed(0, up + down) == Clamp(Clamp(Part(up, 1)) - Part(down, -1))
  {
    MixedSplit(0, up, down);
    MixedUp(0, up);
    MixedDown(Mixed(0, up), down);
  }

  lemma DownThenUp(up: seq<int>, down: seq<int>)
    requires Part(up, -1) == 0 && Part(down, 1) == 0
    ensures Mixed(0, down + up) == Clamp(Clamp(-Part(down, -1)) + Part(up, 1))
  {
    MixedSplit(0, down, up);
    MixedDown(0, down);
    MixedUp(Mixed(0, down), up);
  }

  /** The positive samples first and the others first agree only if all orders do. */
  lemma OrderFreeOnlyIf(xs: seq<int>)
    requires OrdersAgree(xs)
    ensures OneSign(xs) || (Part(xs, 1) <= MAX && Part(xs, -1) <= -MIN)
  {
    var up, down := Select(xs, true), Select(xs, false);
    BothOrders(xs, up, down);
    Halves(xs, up, down);
    OrdersDiffer(up, down);
  }

  lemma OrdersDiffer(up: seq<int>, down: seq<int>)
    requires Part(up, -1) == 0 && Part(down, 1) == 0 && Mixed(0, up + down) == Mixed(0, down + up)
    ensures Part(up, 1) == 0 || Part(down, -1) == 0 || (Part(up, 1) <= MAX && Part(down, -1) <= -MIN)
  {
    Extremes(up, down);
    ClipsDiffer(Part(up, 1), Part(down, -1));
  }

  lemma Halves(xs: seq<int>, up: seq<int>, down: seq<int>)
    requires up == Select(xs, true) && down == Select(xs, false)
    ensures Part(up, 1) == Part(xs, 1) && Part(down, -1) == Part(xs, -1)
    ensures Part(up, -1) == 0 && Part(down, 1) == 0
  {
    SelectParts(xs, true, 1);
    SelectParts(xs, true, -1);
    SelectParts(xs, false, 1);
    SelectParts(xs, false, -1);
  }

  lemma ClipsDiffer(up: int, down: int)
    requires up >= 0 && down >= 0
    requires Clamp(Clamp(up) - down) == Clamp(Clamp(-down) + up)
    ensures up == 0 || down == 0 || (up <= MAX && down <= -MIN)
  {
  }

  lemma BothOrders(xs: seq<int>, up: seq<int>, down: seq<int>)
    requires OrdersAgree(xs) && up == Select(xs, true) && down == Select(xs, false)
    ensures Mixed(0, up + down) == Mixed(0, down + up)
  {
    SelectPermutes(xs);
    assert multiset(up + down) == multiset(xs);
    assert multiset(down + up) == multiset(xs);
  }

  lemma OrderFreeAgrees(xs: seq<int>)
    requires OrderFree(xs)
    ensures OrdersAgree(xs)
  {
  }

  /** The exact condition for all orders to agree, and then on the clamped total: the samples have
      one sign, or neither sign alone can clip. */
  lemma OrderFreeExact(xs: seq<int>)
    ensures OrdersAgree(xs) <==> OneSign(xs) || (Part(xs, 1) <= MAX && Part(xs, -1) <= -MIN)
    ensures OrderFree(xs) <==> OrdersAgree(xs)
  {
    if OneSign(xs) || (Part(xs, 1) <= MAX && Part(xs, -1) <= -MIN) {
      OrderFreeIf(xs);
      OrderFreeAgrees(xs);
    } else if OrderFree(xs) {
      OrderFreeAgrees(xs);
      OrderFreeOnlyIf(xs);
    } else if OrdersAgree(xs) {
      OrderFreeOnlyIf(xs);
    }
  }

  lemma TwoStreams(xs: seq<int>)
    requires |xs| <= 2 && InRange(xs)
    ensures OrderFree(xs)
  {
    if |xs| == 2 {
      assert xs[..1] == [xs[0]] && xs[..1][..0] == [];
      assert Part(xs[..1], 1) == if xs[0] > 0 then xs[0] else 0;
      assert Part(xs[..1], -1) == if xs[0] < 0 then -xs[0] else 0;
    }
    OrderFreeIf(xs);
  }

  /** With three streams the order can matter. */
  lemma ThreeStreamsDiffer()
    ensures var a: seq<int>, b: seq<int> := [30000, 30000, -30000], [30000, -30000, 30000];
      && multiset(a) == multiset(b) && Mixed(0, a) == 2767 && Mixed(0, b) == 30000 == Sum(a)
  {
    var a: seq<int>, b: seq<int> := [30000, 30000, -30000], [30000, -30000, 30000];
    assert a[..2] == [30000, 30000] && a[..2][..1] == [30000];
    assert b[..2] == [30000, -30000] && b[..2][..1] == [30000];
    assert Mixed(0, [30000]) == 30000 && Sum([30000]) == 30000;
    assert Mixed(0, a[..2]) == MAX && Mixed(0, b[..2]) == 0 && Sum(a[..2]) == 60000;
  }

  // ---------- whole frames ----------

  /** The output after one frame is mixed in; what is beyond a short frame stays. */
  function MixedFrame(output: seq<int>, input: seq<int>): (r: seq<int>)
    ensures |r| == |output|
  {
    seq(|output|, i requires 0 <= i < |output| => if i < |input| then Clamp(output[i] + input[i]) else output[i])
  }

  function MixedFrames(output: seq<int>, frames: seq<seq<int>>): (r: seq<int>)
    ensures |r| == |output|
  {
    if frames == [] then output
    else MixedFrame(MixedFrames(output, frames[..|frames| - 1]), frames[|frames| - 1])
  }

  /** What the frames that reach position i have there. */
  function Column(frames: seq<seq<int>>, i: nat): seq<int> {
    if frames == [] then []
    else
      var f := frames[|frames| - 1];
      Column(frames[..|frames| - 1], i) + if i < |f| then [f[i]] else []
  }

  /** Each position is mixed by itself, from the frames that reach it. */
  lemma {:induction false} FramesByColumn(output: seq<int>, frames: seq<seq<int>>, i: nat)
    requires i < |output|
    ensures MixedFrames(output, frames)[i] == Mixed(output[i], Column(frames, i))
  {
    if frames != [] {
      var rest, f := frames[..|frames| - 1], frames[|frames| - 1];
      FramesByColumn(output, rest, i);
      assert MixedFrames(output, frames) == MixedFrame(MixedFrames(output, rest), f);
      if i < |f| {
        MixedSnoc(output[i], Column(rest, i), f[i]);
      } else {
        assert Column(frames, i) == Column(rest, i);
      }
    }
  }

  lemma MixedSnoc(start: int, xs: seq<int>, x: int)
    ensures Mixed(start, xs + [x]) == Clamp(Mixed(start, xs) + x)
  {
    assert (xs + [x])[..|xs|] == xs;
  }

  lemma {:induction false} ColumnSplit(a: seq<seq<int>>, b: seq<seq<int>>, i: nat)
    ensures Column(a + b, i) == Column(a, i) + Column(b, i)
  {
    if b == [] {
      assert a + b == a;
    } else {
      assert (a + b)[..|a + b| - 1] == a + b[..|b| - 1];
      ColumnSplit(a, b[..|b| - 1], i);
    }
  }

  lemma ColumnWithout(frames: seq<seq<int>>, k: nat, i: nat)
    requires k < |frames|
    ensures multiset(Column(frames, i)) == multiset(Column(Without(frames, k), i)) + multiset(Column([frames[k]], i))
  {
    assert frames == frames[..k] + [frames[k]] + frames[k + 1..];
    ColumnSplit(frames[..k] + [frames[k]], frames[k + 1..], i);
    ColumnSplit(frames[..k], [frames[k]], i);
    ColumnSplit(frames[..k], frames[k + 1..], i);
  }

  lemma {:induction false} ColumnPermuted(a: seq<seq<int>>, b: seq<seq<int>>, i: nat)
    requires multiset(a) == multiset(b)
    ensures multiset(Column(a, i)) == multiset(Column(b, i))
    decreases |a|
  {
    if a == [] {
      assert |multiset(b)| == 0;
    } else {
      var n := |a| - 1;
      assert a[n] in multiset(b);
      var k :| 0 <= k < |b| && b[k] == a[n];
      WithoutBag(a, n);
      WithoutBag(b, k);
      ColumnPermuted(Without(a, n), Without(b, k), i);
      ColumnWithout(a, n, i);
      ColumnWithout(b, k, i);
    }
  }

  /** Cutting the frames where their column is cut. */
  lemma {:induction false} CutAt(v: seq<seq<int>>, i: nat, k: nat) returns (c: nat)
    requires k <= |Column(v, i)|
    ensures c <= |v| && Column(v[..c], i) == Column(v, i)[..k] && Column(v[c..], i) == Column(v, i)[k..]
  {
    if k == |Column(v, i)| {
      c := |v|;
      assert v[..c] == v;
    } else {
      var rest := v[..|v| - 1];
      assert v == rest + [v[|v| - 1]];
      ColumnSplit(rest, [v[|v| - 1]], i);
      c := CutAt(rest, i, k);
      assert v[..c] == rest[..c] && v[c..] == rest[c..] + [v[|v| - 1]];
      ColumnSplit(rest[c..], [v[|v| - 1]], i);
    }
  }

  /** Every order of a column is the column of some order of the frames. */
  lemma {:induction false} ColumnOrder(frames: seq<seq<int>>, i: nat, ys: seq<int>) returns (v: seq<seq<int>>)
    requires multiset(ys) == multiset(Column(frames, i))
    ensures multiset(v) == multiset(frames) && Column(v, i) == ys
  {
    if frames == [] {
      v := [];
      assert |multiset(ys)| == 0;
    } else {
      var rest, f := frames[..|frames| - 1], frames[|frames| - 1];
      assert frames == rest + [f];
      ColumnSplit(rest, [f], i);
      if i >= |f| {
        v := ColumnOrder(rest, i, ys);
        ColumnSplit(v, [f], i);
        v := v + [f];
      } else {
        var k := FindSample(ys, Column(rest, i), f[i]);
        v := ColumnOrder(rest, i, Without(ys, k));
        v := InsertOrder(v, f, i, ys, k);
        assert multiset(v) == multiset(frames);
      }
    }
  }

  lemma FindSample(ys: seq<int>, xs: seq<int>, x: int) returns (k: nat)
    requires multiset(ys) == multiset(xs + [x])
    ensures k < |ys| && ys[k] == x && multiset(Without(ys, k)) == multiset(xs)
  {
    assert x in multiset(ys);
    k :| 0 <= k < |ys| && ys[k] == x;
    WithoutBag(ys, k);
  }

  lemma InsertOrder(w: seq<seq<int>>, f: seq<int>, i: nat, ys: seq<int>, k: nat) returns (v: seq<seq<int>>)
    requires k < |ys| && i < |f| && f[i] == ys[k] && Column(w, i) == Without(ys, k)
    ensures multiset(v) == multiset(w) + multiset{f} && Column(v, i) == ys
  {
    WithoutParts(ys, k);
    var c := CutAt(w, i, k);
    v := InsertFrame(w, f, i, c, ys[..k], ys[k + 1..]);
  }

  lemma WithoutParts(ys: seq<int>, k: nat)
    requires k < |ys|
    ensures |Without(ys, k)| == |ys| - 1 && Without(ys, k)[..k] == ys[..k] && Without(ys, k)[k..] == ys[k + 1..]
    ensures ys[..k] + [ys[k]] + ys[k + 1..] == ys
  {
  }

  /** A frame put between others puts its sample between theirs. */
  lemma InsertFrame(w: seq<seq<int>>, f: seq<int>, i: nat, c: nat, before: seq<int>, after: seq<int>)
      returns (v: seq<seq<int>>)
    requires i < |f| && c <= |w| && Column(w[..c], i) == before && Column(w[c..], i) == after
    ensures multiset(v) == multiset(w) + multiset{f}
    ensures Column(v, i) == before + [f[i]] + after
  {
    v := w[..c] + [f] + w[c..];
    assert w == w[..c] + w[c..];
    ColumnSplit(w[..c] + [f], w[c..], i);
    ColumnSplit(w[..c], [f], i);
    assert Column([f], i) == [f[i]];
  }

  /** In whatever order the streams are visited, a position whose samples have one sign, or
      cannot clip, comes out as their clamped sum. */
  lemma RoundOrderFree(frames: seq<seq<int>>, visited: seq<seq<int>>, i: nat)
    requires multiset(visited) == multiset(frames) && OrderFree(Column(frames, i))
    ensures Mixed(0, Column(visited, i)) == Clamp(Sum(Column(frames, i)))
  {
    ColumnPermuted(visited, frames, i);
  }

  /** At position i, a round comes out the same in whatever order the streams are visited. */
  ghost predicate RoundsAgree(frames: seq<seq<int>>, i: nat) {
    forall v: seq<seq<int>>, w: seq<seq<int>> :: multiset(v) == multiset(frames) && multiset(w) == multiset(frames) ==>
      Mixed(0, Column(v, i)) == Mixed(0, Column(w, i))
  }

  lemma AgreeingColumn(frames: seq<seq<int>>, i: nat)
    requires OrdersAgree(Column(frames, i))
    ensures RoundsAgree(frames, i)
  {
    forall v: seq<seq<int>>, w: seq<seq<int>> | multiset(v) == multiset(frames) && multiset(w) == multiset(frames)
      ensures Mixed(0, Column(v, i)) == Mixed(0, Column(w, i))
    {
      ColumnPermuted(v, frames, i);
      ColumnPermuted(w, frames, i);
    }
  }

  lemma AgreeingRounds(frames: seq<seq<int>>, i: nat)
    requires RoundsAgree(frames, i)
    ensures OrdersAgree(Column(frames, i))
  {
    var xs := Column(frames, i);
    forall ys: seq<int>, zs: seq<int> | multiset(ys) == multiset(xs) && multiset(zs) == multiset(xs)
      ensures Mixed(0, ys) == Mixed(0, zs)
    {
      var v := ColumnOrder(frames, i, ys);
      var w := ColumnOrder(frames, i, zs);
    }
  }

  /** The exact condition for whole frames, of any lengths: visiting the streams in any order gives
      the same at position i if and only if the samples there have one sign or neither sign alone
      can clip; and then it gives their clamped sum. */
  lemma RoundOrderExact(frames: seq<seq<int>>, i: nat)
    ensures var xs := Column(frames, i);
      && (RoundsAgree(frames, i) ==> Nearest(Mixed(0, xs), Sum(xs)))
      && (RoundsAgree(frames, i) <==> OneSign(xs) || (Part(xs, 1) <= MAX && Part(xs, -1) <= -MIN))
      && (RoundsAgree(frames, i) ==> Mixed(0, xs) == Clamp(Sum(xs)))
  {
    var xs := Column(frames, i);
    OrderFreeExact(xs);
    ClampIsNearest(Sum(xs));
    if OrdersAgree(xs) {
      AgreeingColumn(frames, i);
    } else if RoundsAgree(frames, i) {
      AgreeingRounds(frames, i);
    }
  }

  /** Of the numbers that sixteen bits can hold, y is the one nearest to x. */
  ghost predicate Nearest(y: int, x: int) {
    && -32768 <= y <= 32767
    && (-32768 <= x <= 32767 ==> y == x)
    && (x > 32767 ==> y == 32767)
    && (x < -32768 ==> y == -32768)
  }

  lemma ClampIsNearest(x: int)
    ensures Nearest(Clamp(x), x)
  {
  }

  /** AudioMixer.cpp:171-190. */
  method MixSamples(output: array<int>, input: seq<int>)
    modifies output
    ensures output[..] == MixedFrame(old(output[..]), input)
    ensures forall i :: 0 <= i < output.Length ==>
      if i < |input| then Nearest(output[i], old(output[i]) + input[i]) else output[i] == old(output[i])
  {
    var samplesToMix := if output.Length < |input| then output.Length else |input|;
    for i := 0 to samplesToMix
      invariant forall j :: 0 <= j < i ==> output[j] == Clamp(old(output[j]) + input[j])
      invariant forall j :: i <= j < output.Length ==> output[j] == old(output[j])
    {
      var mixed: int := output[i] + input[i];
      var low := if mixed < MAX then mixed else MAX;
      output[i] := if MIN < low then low else MIN;
    }
  }

  /** AudioMixer.cpp:139-150: the buffer is cleared and the frames of one round are mixed into it. */
  method MixRound(mixed: array<int>, frames: seq<seq<int>>)
    modifies mixed
    ensures forall i :: 0 <= i < mixed.Length ==> mixed[i] == Mixed(0, Column(frames, i))
  {
    for i := 0 to mixed.Length
      invariant forall j :: 0 <= j < i ==> mixed[j] == 0
    {
      mixed[i] := 0;
    }
    ghost var silence := mixed[..];
    for k := 0 to |frames|
      invariant mixed[..] == MixedFrames(silence, frames[..k])
    {
      MixSamples(mixed, frames[k]);
      assert frames[..k + 1][..k] == frames[..k];
    }
    assert frames[..|frames|] == frames;
    forall i | 0 <= i < mixed.Length ensures mixed[i] == Mixed(0, Column(frames, i)) {
      FramesByColumn(silence, frames, i);
    }
  }
}
