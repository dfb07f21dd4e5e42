/** How many elements the ring is sure to hold, wherever the front block is. */
module Capacity {
  import opened Blocks
  import B = BitTricks

  /** Size and number of the blocks the constructor allocates; readerwriterqueue.h:116-155. */
  function BlockSize(size: nat, max: nat): nat {
    if Rounded(size) > max * 2 then max else Rounded(size)
  }

  function BlockCount(size: nat, max: nat): nat
    requires max >= 2
  {
    if Rounded(size) > max * 2 then (size + max * 2 - 3) / (max - 1) else 1
  }

  /** ceilToPow2(size + 1), both on 64-bit words.  With MaxOk nothing else there can wrap. */
  function Rounded(size: nat): nat {
    B.WordCeil((size + 1) % B.WORD)
  }

  /** What the constructor asserts of MAX_BLOCK_SIZE, and that twice it fits a word. */
  ghost predicate MaxOk(max: nat) {
    B.IsPow2(max) && 2 <= max <= B.HALF / 2
  }

  /** The constructor arguments for which the queue is one; SpscBadSizes. */
  predicate Usable(size: nat) {
    1 <= size < B.HALF
  }

  /** sizeMask + 1 of a block of so many slots: a block of none masks nothing off. */
  function Span(slots: nat): nat {
    if slots == 0 then B.WORD else slots
  }

  function Sum(s: seq<nat>): nat {
    if s == [] then 0 else s[0] + Sum(s[1..])
  }

  /** A lone block holds `size` elements; of several, all but any one of them do. */
  ghost predicate Holds(caps: seq<nat>, size: nat) {
    && |caps| > 0
    && (|caps| == 1 ==> caps[0] >= size)
    && (|caps| > 1 ==> forall i :: 0 <= i < |caps| ==> Sum(caps) - caps[i] >= size)
  }

  lemma {:induction false} SumSplit(a: seq<nat>, b: seq<nat>)
    ensures Sum(a + b) == Sum(a) + Sum(b)
  {
    if a == [] {
      assert a + b == b;
    } else {
      assert (a + b)[1..] == a[1..] + b;
      SumSplit(a[1..], b);
    }
  }

  lemma SumSnoc(s: seq<nat>, i: nat)
    requires i < |s|
    ensures Sum(s[..i + 1]) == Sum(s[..i]) + s[i]
  {
    SumSplit(s[..i], [s[i]]);
    assert s[..i + 1] == s[..i] + [s[i]];
  }

  lemma {:induction false} SumSame(a: seq<nat>, c: nat)
    requires forall i :: 0 <= i < |a| ==> a[i] == c
    ensures Sum(a) == |a| * c
  {
    if a != [] {
      SumSame(a[1..], c);
      assert |a| * c == (|a| - 1) * c + c;
    }
  }

  lemma {:induction false} SumAtLeast(a: seq<nat>, i: nat)
    requires i < |a|
    ensures Sum(a) >= a[i]
  {
    if i > 0 {
      SumAtLeast(a[1..], i - 1);
    }
  }

  /** The constructor's blocks hold the number of elements it was asked for. */
  lemma BlockSizeOk(size: nat, max: nat)
    requires Usable(size) && max >= 2
    ensures BlockSize(size, max) >= 2 && BlockCount(size, max) >= 1
    ensures BlockCount(size, max) == 1 ==> BlockSize(size, max) - 1 >= size
    ensures (BlockCount(size, max) - 1) * (BlockSize(size, max) - 1) >= size || BlockCount(size, max) == 1
  {
    assert Rounded(size) == B.CeilToPow2(size + 1);
    if Rounded(size) > max * 2 {
      CountHolds(size, max - 1);
    }
  }

  /** The blocks are as few as that takes.  One is enough up to twice MAX_BLOCK_SIZE, and is then of the
      least power of two with room for size elements and a spare slot; otherwise they are of
      MAX_BLOCK_SIZE, and all of them but one and one more would not do. */
  lemma BlocksExact(size: nat, max: nat)
    requires Usable(size) && max >= 2
    ensures var slots := BlockSize(size, max);
      if BlockCount(size, max) == 1 then
        B.IsPow2(slots) && size + 1 <= slots <= max * 2 && forall q: nat :: B.IsPow2(q) && q >= size + 1 ==> q >= slots
      else
        && slots == max
        && (forall q: nat :: B.IsPow2(q) && q >= size + 1 ==> q > max * 2)
        && (BlockCount(size, max) - 2) * (max - 1) < size <= (BlockCount(size, max) - 1) * (max - 1)
  {
    assert Rounded(size) == B.CeilToPow2(size + 1);
    if Rounded(size) > max * 2 {
      CountIsLeast(size, max - 1);
      CountHolds(size, max - 1);
    }
  }

  lemma CountIsLeast(size: nat, m: nat)
    requires m >= 1 && size >= 1
    ensures ((size + 2 * m - 1) / m - 2) * m < size && (size + 2 * m - 1) / m >= 2
  {
    var x := size + 2 * m - 1;
    var n := x / m;
    assert x == n * m + x % m;
    assert (n - 2) * m == n * m - 2 * m;
    assert (n - 1) * m == n * m - m;
  }

  lemma BlockCountOk(size: nat, max: nat)
    requires max >= 2
    ensures BlockCount(size, max) >= 1
    ensures !Usable(size) && size < B.WORD ==> BlockCount(size, max) == 1 && BlockSize(size, max) <= 1
  {
    if size == 0 {
      assert B.Pow2(0) == 1;
      assert B.CeilToPow2(1) == 1;
    } else if Rounded(size) > max * 2 {
      CountHolds(size, max - 1);
    }
  }

  /** Blocks that all hold c elements. */
  lemma SameHold(caps: seq<nat>, c: nat, size: nat)
    requires |caps| >= 1 && forall i :: 0 <= i < |caps| ==> caps[i] == c
    requires if |caps| == 1 then c >= size else (|caps| - 1) * c >= size
    ensures Holds(caps, size)
  {
    SumSame(caps, c);
    assert |caps| * c == (|caps| - 1) * c + c;
  }

  lemma CountHolds(size: nat, m: nat)
    requires m >= 1
    ensures ((size + 2 * m - 1) / m - 1) * m >= size
    ensures (size + 2 * m - 1) / m >= 1
  {
    var x := size + 2 * m - 1;
    var n := x / m;
    assert x == n * m + x % m;
    assert (n - 1) * m == n * m - m;
    if n == 0 {
      assert false;
    }
  }

  lemma RotateHolds(caps: seq<nat>, size: nat)
    requires Holds(caps, size)
    ensures Holds(caps[1..] + [caps[0]], size)
  {
    var caps' := caps[1..] + [caps[0]];
    SumSplit(caps[1..], [caps[0]]);
    assert Sum(caps') == Sum(caps);
    forall i | 0 <= i < |caps'| && |caps'| > 1 ensures Sum(caps') - caps'[i] >= size {
      assert caps'[i] == caps[Next(i, |caps|)];
    }
  }

  lemma InsertHolds(caps: seq<nat>, at: nat, c: nat, size: nat)
    requires Holds(caps, size) && at <= |caps| && (|caps| == 1 ==> c >= caps[0])
    ensures Holds(caps[..at] + [c] + caps[at..], size)
  {
    var caps' := caps[..at] + [c] + caps[at..];
    SumSplit(caps[..at] + [c], caps[at..]);
    SumSplit(caps[..at], [c]);
    SumSplit(caps[..at], caps[at..]);
    assert caps[..at] + caps[at..] == caps;
    forall i | 0 <= i < |caps'| ensures Sum(caps') - caps'[i] >= size {
      if i == at {
        SumAtLeast(caps, 0);
      } else {
        var j := if i < at then i else i - 1;
        assert caps'[i] == caps[j];
        if |caps| == 1 {
          assert Sum(caps) == caps[0] + Sum(caps[1..]);
        }
      }
    }
  }
}
