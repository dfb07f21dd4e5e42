/** 64-bit word arithmetic on naturals: rounding up to a power of two, and masking with size - 1. */
module BitTricks {
  import opened Blocks

  function Pow2(k: nat): (p: nat)
    ensures p >= 1
  {
    if k == 0 then 1 else 2 * Pow2(k - 1)
  }

  const WORD: nat := 0x1_0000_0000_0000_0000
  const HALF: nat := 0x8000_0000_0000_0000

  function Bit(x: nat, i: nat): nat {
    if i == 0 then x % 2 else Bit(x / 2, i - 1)
  }

  function Or(a: nat, b: nat): nat
    decreases a + b
  {
    if a == 0 && b == 0 then 0
    else 2 * Or(a / 2, b / 2) + (if a % 2 == 1 || b % 2 == 1 then 1 else 0)
  }

  function And(a: nat, b: nat): nat {
    if a == 0 then 0
    else 2 * And(a / 2, b / 2) + (if a % 2 == 1 && b % 2 == 1 then 1 else 0)
  }

  function Shr(x: nat, k: nat): nat {
    if k == 0 then x else Shr(x / 2, k - 1)
  }

  // ---------- the least power of two ----------

  ghost predicate IsPow2(n: nat) {
    exists k: nat :: n == Pow2(k)
  }

  lemma {:induction false} Pow2Grows(j: nat, k: nat)
    requires j < k
    ensures 2 * Pow2(j) <= Pow2(k)
  {
    if j + 1 < k {
      Pow2Grows(j, k - 1);
    }
  }

  /** The least power of two that is at least x. */
  function CeilToPow2(x: nat): (r: nat)
    ensures IsPow2(r) && r >= x
    ensures forall q: nat :: IsPow2(q) && q >= x ==> r <= q
  {
    CeilFrom(0, x)
  }

  function CeilFrom(k: nat, x: nat): (r: nat)
    requires k == 0 || Pow2(k - 1) < x
    ensures IsPow2(r) && r >= x
    ensures forall q: nat :: IsPow2(q) && q >= x ==> r <= q
    decreases x - Pow2(k)
  {
    if Pow2(k) >= x then
      assert forall q: nat :: IsPow2(q) && q >= x ==> Pow2(k) <= q by {
        forall j: nat | Pow2(j) >= x ensures Pow2(k) <= Pow2(j) {
          if j < k - 1 { Pow2Grows(j, k - 1); }
          if k < j { Pow2Grows(k, j); }
        }
      }
      Pow2(k)
    else CeilFrom(k + 1, x)
  }

  // ---------- the shift loop ----------

  lemma {:induction false} BitOr(a: nat, b: nat, i: nat)
    ensures Bit(Or(a, b), i) == if Bit(a, i) == 1 || Bit(b, i) == 1 then 1 else 0
  {
    if i == 0 {
      BitIsBinary(a, 0);
    } else {
      BitOr(a / 2, b / 2, i - 1);
    }
  }

  lemma {:induction false} BitIsBinary(a: nat, i: nat)
    ensures Bit(a, i) == 0 || Bit(a, i) == 1
  {
    if i > 0 {
      BitIsBinary(a / 2, i - 1);
    }
  }

  lemma {:induction false} BitShr(x: nat, k: nat, i: nat)
    ensures Bit(Shr(x, k), i) == Bit(x, i + k)
  {
    if k > 0 {
      BitShr(x / 2, k - 1, i);
    }
  }

  lemma {:induction false} OrBelow(a: nat, b: nat, n: nat)
    requires a < Pow2(n) && b < Pow2(n)
    ensures Or(a, b) < Pow2(n)
  {
    if n > 0 {
      OrBelow(a / 2, b / 2, n - 1);
    }
  }

  lemma {:induction false} ShrBelow(x: nat, k: nat)
    ensures Shr(x, k) <= x
  {
    if k > 0 {
      ShrBelow(x / 2, k - 1);
    }
  }

  lemma {:induction false} AllOnes(x: nat, n: nat)
    requires x < Pow2(n) && forall i :: 0 <= i < n ==> Bit(x, i) == 1
    ensures x == Pow2(n) - 1
  {
    if n > 0 {
      forall i | 0 <= i < n - 1 ensures Bit(x / 2, i) == 1 {
        assert Bit(x, i + 1) == 1;
      }
      AllOnes(x / 2, n - 1);
      assert Bit(x, 0) == 1;
    }
  }

  /** The top w of the n low bits of x are ones, and there are no others. */
  ghost predicate TopOnes(x: nat, n: nat, w: nat) {
    x < Pow2(n) && forall i :: 0 <= i < n && n - w <= i ==> Bit(x, i) == 1
  }

  /** x |= x >> w doubles the run of ones. */
  lemma SmearDoubles(x: nat, n: nat, w: nat)
    requires TopOnes(x, n, w)
    ensures TopOnes(Or(x, Shr(x, w)), n, 2 * w)
  {
    ShrBelow(x, w);
    OrBelow(x, Shr(x, w), n);
    forall i | 0 <= i < n && n - 2 * w <= i ensures Bit(Or(x, Shr(x, w)), i) == 1 {
      BitOr(x, Shr(x, w), i);
      BitShr(x, w, i);
    }
  }

  /** The highest bit of a. */
  lemma {:induction false} TopBit(a: nat) returns (n: nat)
    ensures TopOnes(a, n, 1) && (n > 0 ==> a >= Pow2(n - 1)) && (a == 0 <==> n == 0)
  {
    if a == 0 {
      n := 0;
    } else {
      var m := TopBit(a / 2);
      n := m + 1;
      forall i | 0 <= i < n && n - 1 <= i ensures Bit(a, i) == 1 {
        if m > 0 {
          assert Bit(a / 2, m - 1) == 1;
        }
      }
    }
  }

  lemma {:induction false} Pow2Sixtyfour()
    ensures Pow2(63) == 0x8000_0000_0000_0000 && Pow2(64) == WORD
  {
    assert Pow2(8) == 256;
    assert Pow2(16) == 0x1_0000;
    assert Pow2(24) == 0x100_0000;
    assert Pow2(32) == 0x1_0000_0000;
    assert Pow2(40) == 0x100_0000_0000;
    assert Pow2(48) == 0x1_0000_0000_0000;
    assert Pow2(56) == 0x100_0000_0000_0000;
  }

  /** What rounding up comes to on a 64-bit word. */
  function WordCeil(x: nat): nat {
    if 1 <= x <= HALF then CeilToPow2(x) else 0
  }

  /** readerwriterqueue.h:654-666, with the wrap-around of size_t. */
  method CeilToPow2Word(x0: nat) returns (x: nat)
    requires x0 < WORD
    ensures x == WordCeil(x0)
  {
    x := (x0 + WORD - 1) % WORD;
    ghost var a := x;
    ghost var n := TopBit(x);
    x := Or(x, Shr(x, 1));
    SmearDoubles(a, n, 1);
    ghost var x1 := x;
    x := Or(x, Shr(x, 2));
    SmearDoubles(x1, n, 2);
    ghost var x2 := x;
    x := Or(x, Shr(x, 4));
    SmearDoubles(x2, n, 4);
    var i := 1;
    while i < 8
      invariant i == 1 || i == 2 || i == 4 || i == 8
      invariant TopOnes(x, n, 8 * i)
    {
      SmearDoubles(x, n, 8 * i);
      x := Or(x, Shr(x, 8 * i));
      i := 2 * i;
    }
    SmearedIs(x0, a, n, x);
    x := (x + 1) % WORD;
  }

  lemma SmearedIs(x0: nat, a: nat, n: nat, x: nat)
    requires x0 < WORD && a == (x0 + WORD - 1) % WORD && TopOnes(x, n, 64)
    requires a < Pow2(n) && (n > 0 ==> a >= Pow2(n - 1)) && (a == 0 <==> n == 0)
    ensures (x + 1) % WORD == WordCeil(x0)
  {
    WordHasTop(a, n);
    AllOnes(x, n);
    CeilIs(a, n);
    if x0 == 0 {
      assert a == WORD - 1;
    } else {
      assert a == x0 - 1;
    }
    if n < 64 {
      Pow2Sixtyfour();
      if n < 63 { Pow2Grows(n, 63); }
    }
  }

  lemma WordHasTop(a: nat, n: nat)
    requires a < WORD && (n > 0 ==> a >= Pow2(n - 1))
    ensures n <= 64 && (n == 64 ==> a >= 0x8000_0000_0000_0000)
    ensures n <= 63 ==> Pow2(n) < WORD
    ensures n == 64 ==> Pow2(n) == WORD
  {
    Pow2Sixtyfour();
    if n > 65 {
      Pow2Grows(64, n - 1);
    }
    if n < 64 {
      Pow2Grows(n, 64);
    }
  }

  lemma CeilIs(a: nat, n: nat)
    requires a < Pow2(n) && (n > 0 ==> a >= Pow2(n - 1))
    ensures CeilToPow2(a + 1) == Pow2(n)
  {
    var r := CeilToPow2(a + 1);
    var k: nat :| r == Pow2(k);
    if k < n - 1 { Pow2Grows(k, n - 1); }
    if k > n { Pow2Grows(n, k); }
    assert IsPow2(Pow2(n));
  }

  // ---------- masks ----------

  lemma {:induction false} MaskIsMod(x: nat, k: nat)
    ensures And(x, Pow2(k) - 1) == x % Pow2(k)
  {
    if k == 0 {
      MaskNone(x);
    } else if x == 0 {
      ZeroMod(Pow2(k));
    } else {
      var m := Pow2(k - 1);
      MaskIsMod(x / 2, k - 1);
      MaskTwice(x, m);
      assert Pow2(k) == 2 * m;
    }
  }

  lemma ZeroMod(m: nat)
    requires m > 0
    ensures 0 % m == 0
  {
  }

  lemma {:induction false} MaskNone(x: nat)
    ensures And(x, 0) == 0
  {
    if x > 0 {
      MaskNone(x / 2);
    }
  }

  lemma MaskTwice(x: nat, m: nat)
    requires x > 0 && m > 0 && And(x / 2, m - 1) == (x / 2) % m
    ensures And(x, 2 * m - 1) == x % (2 * m)
  {
    MaskBit(x, m);
    HalfMod(x, m);
  }

  lemma MaskBit(x: nat, m: nat)
    requires x > 0 && m > 0
    ensures And(x, 2 * m - 1) == 2 * And(x / 2, m - 1) + x % 2
  {
    assert (2 * m - 1) / 2 == m - 1 && (2 * m - 1) % 2 == 1;
  }

  lemma HalfMod(x: nat, m: nat)
    requires m > 0
    ensures x % (2 * m) == 2 * ((x / 2) % m) + x % 2
  {
    var q, r := (x / 2) / m, (x / 2) % m;
    assert x == 2 * (q * m + r) + x % 2;
    assert x == q * (2 * m) + (2 * r + x % 2);
    ModUnique(x, 2 * m, q, 2 * r + x % 2);
  }

  lemma ModUnique(x: nat, m: nat, q: nat, r: nat)
    requires x == q * m + r && r < m
    ensures x % m == r
  {
    var q', r' := x / m, x % m;
    assert x == q' * m + r';
    if q < q' {
      MulGap(q, q', m);
    } else if q' < q {
      MulGap(q', q, m);
    }
  }

  lemma MulGap(a: nat, b: nat, m: nat)
    requires a < b
    ensures b * m >= a * m + m
  {
    assert b * m == a * m + (b - a) * m;
    assert (b - a) * m >= m by {
      assert (b - a) * m == (b - a - 1) * m + m;
    }
  }

  lemma NextIsMasked(i: nat, k: nat)
    requires i < Pow2(k)
    ensures And(i + 1, Pow2(k) - 1) == Next(i, Pow2(k))
  {
    MaskIsMod(i + 1, k);
    if i + 1 == Pow2(k) {
      ModUnique(i + 1, Pow2(k), 1, 0);
    } else {
      ModUnique(i + 1, Pow2(k), 0, i + 1);
    }
  }

  /** (to - from) & sizeMask on unsigned words, also when the difference wraps. */
  lemma DistIsMasked(from: nat, to: nat, k: nat)
    requires k < 64 && from < Pow2(k) && to < Pow2(k)
    ensures And((to + WORD - from) % WORD, Pow2(k) - 1) == Dist(from, to, Pow2(k))
  {
    var size := Pow2(k);
    WordFactor(k);
    var c: nat :| WORD == c * size && c >= 2;
    if from <= to {
      ModUnique(to + WORD - from, WORD, 1, to - from);
      ModUnique(to - from, size, 0, to - from);
      MaskIsMod(to - from, k);
    } else {
      var d := to + WORD - from;
      ModUnique(d, WORD, 0, d);
      assert d == (c - 1) * size + (size - from + to);
      ModUnique(d, size, c - 1, size - from + to);
      MaskIsMod(d, k);
    }
  }

  lemma WordFactor(k: nat)
    requires k < 64
    ensures exists c: nat :: WORD == c * Pow2(k) && c >= 2
  {
    Pow2Sixtyfour();
    Pow2Sum(64 - k, k);
    Pow2Grows(0, 64 - k);
    assert WORD == Pow2(64 - k) * Pow2(k) && Pow2(64 - k) >= 2;
  }

  lemma {:induction false} Pow2Sum(j: nat, k: nat)
    ensures Pow2(j + k) == Pow2(j) * Pow2(k)
  {
    if j > 0 {
      Pow2Sum(j - 1, k);
    }
  }
}
