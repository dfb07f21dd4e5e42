/** Which slots of the ring an export lists; RollingSegments.cpp:83-93. */
module SegmentRing {

  /** The first sequence number to export, and the slot of each. */
  function First(seq_: nat, segments: nat): nat {
    if seq_ >= segments then seq_ - segments else 0
  }

  function Slots(seq_: nat, segments: nat, ringSize: nat): (r: seq<nat>)
    requires ringSize >= 1
    ensures |r| == seq_ - First(seq_, segments)
  {
    seq(seq_ - First(seq_, segments), j requires j >= 0 => (First(seq_, segments) + j) % ringSize)
  }

  /** The list is written out one sequence number at a time. */
  method ListSlots(seq_: nat, requested: nat, ringSize: nat) returns (list: seq<nat>)
    requires ringSize >= 1
    ensures list == Slots(seq_, if requested < ringSize then requested else ringSize, ringSize)
    ensures |list| <= requested && forall a, b :: 0 <= a < b < |list| ==> list[a] != list[b]
  {
    var segments := if requested < ringSize then requested else ringSize;
    var start := if seq_ >= segments then seq_ - segments else 0;
    list := [];
    for i := start to seq_
      invariant |list| == i - start
      invariant forall j :: 0 <= j < |list| ==> list[j] == (start + j) % ringSize
    {
      list := list + [i % ringSize];
    }
    Distinct(seq_, segments, ringSize);
  }

  /** Within a lap of the ring no slot comes twice. */
  lemma SameSlot(i: nat, j: nat, ringSize: nat)
    requires ringSize >= 1 && i <= j < i + ringSize && i % ringSize == j % ringSize
    ensures i == j
  {
    var a, b := i / ringSize, j / ringSize;
    assert j - i == (b - a) * ringSize by {
      assert i == a * ringSize + i % ringSize && j == b * ringSize + j % ringSize;
      Distribute(a, b, ringSize);
    }
    if b - a >= 1 {
      AtLeast(b - a, ringSize);
    } else if b - a <= -1 {
      AtLeast(a - b, ringSize);
    }
  }

  lemma Distribute(a: int, b: int, c: int)
    ensures (b - a) * c == b * c - a * c && (a - b) * c == -((b - a) * c)
  {
  }

  lemma AtLeast(a: int, c: int)
    requires a >= 1 && c >= 0
    ensures a * c >= c && (-a) * c <= -c
  {
  }

  /** One lap on is the same slot. */
  lemma NextLap(i: nat, ringSize: nat)
    requires ringSize >= 1
    ensures (i + ringSize) % ringSize == i % ringSize
  {
    var j := i + ringSize;
    var k := j / ringSize - i / ringSize - 1;
    assert k * ringSize == i % ringSize - j % ringSize by {
      assert i == i / ringSize * ringSize + i % ringSize && j == j / ringSize * ringSize + j % ringSize;
      Distribute(i / ringSize, j / ringSize, ringSize);
      Distribute(1, j / ringSize - i / ringSize, ringSize);
    }
    if k >= 1 {
      AtLeast(k, ringSize);
    } else if k <= -1 {
      AtLeast(-k, ringSize);
    }
  }

  lemma Distinct(seq_: nat, segments: nat, ringSize: nat)
    requires 1 <= ringSize && segments <= ringSize
    ensures forall a, b :: 0 <= a < b < |Slots(seq_, segments, ringSize)| ==>
      Slots(seq_, segments, ringSize)[a] != Slots(seq_, segments, ringSize)[b]
  {
    var s := Slots(seq_, segments, ringSize);
    forall a, b | 0 <= a < b < |s| ensures s[a] != s[b] {
      if s[a] == s[b] {
        SameSlot(First(seq_, segments) + a, First(seq_, segments) + b, ringSize);
      }
    }
  }
}
