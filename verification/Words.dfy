/** Unsigned machine words as naturals, with the bitwise operators spelled out
    one binary digit at a time.  Every word-level fact the tracers rely on is
    proved here once: which bits an operation touches, and when `|` and `&` on
    packed fields are plain arithmetic. */
module Words {

  function Pow2(k: nat): (p: nat)
    ensures p > 0
  {
    if k == 0 then 1 else 2 * Pow2(k - 1)
  }

  const U32: nat := 0x1_0000_0000
  const U64: nat := 0x1_0000_0000_0000_0000

  predicate Bit(w: nat, k: nat) {
    if k == 0 then w % 2 == 1 else Bit(w / 2, k - 1)
  }

  /** The word read as a set of bit numbers. */
  function Ones(w: nat, width: nat): (s: set<nat>)
    ensures forall k: nat :: k in s <==> k < width && Bit(w, k)
  {
    set k: nat | k < width && Bit(w, k)
  }

  /** `x | y` */
  function Or(x: nat, y: nat): nat
    decreases x + y
  {
    if x + y == 0 then 0
    else 2 * Or(x / 2, y / 2) + if x % 2 == 1 || y % 2 == 1 then 1 else 0
  }

  /** `x & y` */
  function And(x: nat, y: nat): nat
    decreases x + y
  {
    if x + y == 0 then 0
    else 2 * And(x / 2, y / 2) + if x % 2 == 1 && y % 2 == 1 then 1 else 0
  }

  /** `~x` on a word of the given width. */
  function Not(x: nat, width: nat): nat
    requires x < Pow2(width)
  {
    Pow2(width) - 1 - x
  }

  /** Number of trailing zeros of a nonzero word: the index of its lowest one. */
  function TrailingZeros(w: nat): nat
    requires w != 0
  {
    if w % 2 == 1 then 0 else 1 + TrailingZeros(w / 2)
  }

  // ---------------------------------------------------------------- bits

  lemma OrHalf(x: nat, y: nat)
    ensures Or(x, y) / 2 == Or(x / 2, y / 2)
    ensures Or(x, y) % 2 == 1 <==> x % 2 == 1 || y % 2 == 1
  {
  }

  lemma AndHalf(x: nat, y: nat)
    ensures And(x, y) / 2 == And(x / 2, y / 2)
    ensures And(x, y) % 2 == 1 <==> x % 2 == 1 && y % 2 == 1
  {
  }

  lemma {:induction false} BitOr(x: nat, y: nat, k: nat)
    ensures Bit(Or(x, y), k) <==> Bit(x, k) || Bit(y, k)
    decreases k
  {
    OrHalf(x, y);
    if k > 0 {
      BitOr(x / 2, y / 2, k - 1);
    }
  }

  lemma {:induction false} BitAnd(x: nat, y: nat, k: nat)
    ensures Bit(And(x, y), k) <==> Bit(x, k) && Bit(y, k)
    decreases k
  {
    AndHalf(x, y);
    if k > 0 {
      BitAnd(x / 2, y / 2, k - 1);
    }
  }

  lemma NotHalf(x: nat, width: nat)
    requires x < Pow2(width) && width > 0
    ensures x / 2 < Pow2(width - 1) && Not(x, width) / 2 == Not(x / 2, width - 1)
    ensures Not(x, width) % 2 == 1 <==> x % 2 == 0
  {
    assert Pow2(width) == 2 * Pow2(width - 1);
  }

  lemma {:induction false} BitNot(x: nat, width: nat, k: nat)
    requires x < Pow2(width)
    ensures Bit(Not(x, width), k) <==> k < width && !Bit(x, k)
    decreases k
  {
    if width == 0 {
      BitOfZero(k);
    } else {
      hide Pow2, Not;
      NotHalf(x, width);
      if k > 0 {
        BitNot(x / 2, width - 1, k - 1);
      }
    }
  }

  lemma {:induction false} BitOfZero(k: nat)
    ensures !Bit(0, k)
  {
    if k > 0 {
      BitOfZero(k - 1);
    }
  }

  lemma {:induction false} BitOfPow2(k: nat, j: nat)
    ensures Bit(Pow2(k), j) <==> j == k
  {
    if k == 0 {
      if j > 0 {
        BitOfZero(j - 1);
      }
    } else if j > 0 {
      BitOfPow2(k - 1, j - 1);
    }
  }

  lemma {:induction false} BitBounded(w: nat, width: nat, k: nat)
    requires w < Pow2(width) && width <= k
    ensures !Bit(w, k)
    decreases k
  {
    if width == 0 {
      BitOfZero(k);
    } else {
      BitBounded(w / 2, width - 1, k - 1);
    }
  }

  lemma {:induction false} Pow2Mono(a: nat, b: nat)
    requires a <= b
    ensures Pow2(a) <= Pow2(b)
    decreases b
  {
    if a < b {
      Pow2Mono(a, b - 1);
    }
  }

  lemma {:induction false} OrBound(x: nat, y: nat, width: nat)
    requires x < Pow2(width) && y < Pow2(width)
    ensures Or(x, y) < Pow2(width)
    decreases width
  {
    if width > 0 {
      OrBound(x / 2, y / 2, width - 1);
    }
  }

  lemma {:induction false} OrAtLeast(x: nat, y: nat)
    ensures Or(x, y) >= x && Or(x, y) >= y
    decreases x + y
  {
    if x + y > 0 {
      OrAtLeast(x / 2, y / 2);
    }
  }

  lemma {:induction false} AndAtMost(x: nat, y: nat)
    ensures And(x, y) <= x && And(x, y) <= y
    decreases x + y
  {
    if x + y > 0 {
      AndAtMost(x / 2, y / 2);
    }
  }

  lemma {:induction false} AndSelf(w: nat)
    ensures And(w, w) == w
  {
    if w > 0 {
      AndSelf(w / 2);
    }
  }

  lemma {:induction false} ClearLowestStep(w: nat)
    requires w != 0
    ensures And(w, w - 1) == if w % 2 == 1 then w - 1 else 2 * And(w / 2, w / 2 - 1)
  {
    if w % 2 == 1 {
      AndSelf(w / 2);
    }
  }

  lemma {:induction false} BitClearLowest(w: nat, j: nat)
    requires w != 0
    ensures Bit(And(w, w - 1), j) <==> Bit(w, j) && j != TrailingZeros(w)
    decreases j
  {
    ClearLowestStep(w);
    if j > 0 && w % 2 == 0 {
      BitClearLowest(w / 2, j - 1);
    }
  }

  lemma {:induction false} BitOfTrailingZeros(w: nat)
    requires w != 0
    ensures Bit(w, TrailingZeros(w))
  {
    if w % 2 == 0 {
      BitOfTrailingZeros(w / 2);
    }
  }

  /** `w &= w - 1` removes exactly the lowest member, so a loop that repeats it
      visits every set bit once. */
  lemma OnesClearLowest(w: nat, width: nat)
    requires 0 < w < Pow2(width)
    ensures TrailingZeros(w) in Ones(w, width)
    ensures Ones(And(w, w - 1), width) == Ones(w, width) - {TrailingZeros(w)}
    ensures And(w, w - 1) < w
  {
    BitOfTrailingZeros(w);
    if TrailingZeros(w) >= width {
      BitBounded(w, width, TrailingZeros(w));
    }
    forall j: nat | j < width
      ensures Bit(And(w, w - 1), j) <==> Bit(w, j) && j != TrailingZeros(w)
    {
      BitClearLowest(w, j);
    }
    AndAtMost(w, w - 1);
  }

  // ------------------------------------------------------------- fields

  /** `(x << k) | y` is a sum when `y` fits below bit `k`. */
  lemma {:induction false} OrFields(x: nat, y: nat, k: nat)
    requires y < Pow2(k)
    ensures Or(x * Pow2(k), y) == x * Pow2(k) + y
    decreases k
  {
    if k == 0 {
      OrZero(x);
    } else {
      var p := x * Pow2(k - 1);
      assert x * Pow2(k) == 2 * p;
      OrFields(x, y / 2, k - 1);
    }
  }

  lemma {:induction false} OrZero(x: nat)
    ensures Or(x, 0) == x
  {
    if x > 0 {
      OrZero(x / 2);
    }
  }

  /** `x & ((1 << k) - 1)` is a remainder. */
  lemma {:induction false} AndLowMask(x: nat, k: nat)
    ensures And(x, Pow2(k) - 1) == x % Pow2(k)
    decreases k
  {
    if k == 0 {
      AndZero(x);
    } else {
      var p := Pow2(k - 1);
      AndLowMask(x / 2, k - 1);
      assert (Pow2(k) - 1) / 2 == p - 1;
      HalfMod(x, p);
    }
  }

  lemma {:induction false} AndZero(x: nat)
    ensures And(x, 0) == 0
  {
    if x > 0 {
      AndZero(x / 2);
    }
  }

  lemma HalfMod(x: nat, p: nat)
    requires p > 0
    ensures x % (2 * p) == 2 * ((x / 2) % p) + x % 2
  {
    var q, r := (x / 2) / p, (x / 2) % p;
    assert x / 2 == q * p + r;
    assert x == q * (2 * p) + (2 * r + x % 2);
    DivModUnique(x, 2 * p, q, 2 * r + x % 2);
  }

  lemma DivModUnique(x: int, d: nat, q: int, r: nat)
    requires d > 0 && r < d && x == q * d + r
    ensures x / d == q && x % d == r
  {
    var dq := x / d - q;
    assert dq * d == r - x % d by {
      assert dq * d == (x / d) * d - q * d;
    }
    if dq >= 1 {
      MulGrows(dq, d);
    } else if dq <= -1 {
      MulGrows(-dq, d);
    }
  }

  lemma ModShift(x: int, q: int, m: nat)
    requires m > 0
    ensures (x - q * m) % m == x % m
  {
    var y := x - q * m;
    assert y == (x / m - q) * m + x % m by {
      assert (x / m - q) * m == (x / m) * m - q * m;
    }
    DivModUnique(y, m, x / m - q, x % m);
  }

  lemma MulGrows(a: int, d: nat)
    requires a >= 1
    ensures a * d >= d
  {
  }

  /** The bits of a packed pair: `y` below bit `k`, `x` from bit `k` up. */
  lemma {:induction false} BitFields(x: nat, y: nat, k: nat, j: nat)
    requires y < Pow2(k)
    ensures Bit(x * Pow2(k) + y, j) <==> if j < k then Bit(y, j) else Bit(x, j - k)
    decreases k
  {
    if k > 0 {
      SplitTwice(x, Pow2(k - 1), y);
      assert Pow2(k) == 2 * Pow2(k - 1);
      if j > 0 {
        BitFields(x, y / 2, k - 1, j - 1);
      }
    }
  }

  lemma SplitTwice(x: nat, p: nat, y: nat)
    ensures (x * (2 * p) + y) / 2 == x * p + y / 2
    ensures (x * (2 * p) + y) % 2 == y % 2
  {
    assert x * (2 * p) == 2 * (x * p);
  }

  /** `x & (1 << k)` tests bit `k`. */
  lemma {:induction false} AndPow2(x: nat, k: nat)
    ensures And(x, Pow2(k)) != 0 <==> Bit(x, k)
    decreases k
  {
    AndHalf(x, Pow2(k));
    if k == 0 {
      AndZero(x / 2);
    } else {
      AndPow2(x / 2, k - 1);
    }
  }

  lemma {:induction false} Pow2Add(a: nat, b: nat)
    ensures Pow2(a + b) == Pow2(a) * Pow2(b)
  {
    if b > 0 {
      Pow2Add(a, b - 1);
      MulTwice(Pow2(a), Pow2(b - 1));
      assert a + b - 1 == a + (b - 1);
    }
  }

  lemma MulTwice(a: nat, b: nat)
    ensures 2 * (a * b) == a * (2 * b)
  {
  }

  lemma Pow2Values()
    ensures Pow2(12) == 4096 && Pow2(20) == 0x10_0000 && Pow2(32) == U32
    ensures Pow2(64) == U64
  {
    Pow2Sixteen();
    Pow2Add(16, 16);
    Pow2Add(32, 32);
  }

  lemma Pow2Sixteen()
    ensures Pow2(12) == 4096 && Pow2(16) == 0x1_0000 && Pow2(20) == 0x10_0000
  {
    assert Pow2(4) == 16;
    Pow2Add(4, 4);
    Pow2Add(8, 4);
    Pow2Add(12, 4);
    Pow2Add(16, 4);
  }

  /** Reducing modulo a power of two keeps the low bits. */
  lemma LowBits(x: nat, k: nat, t: nat)
    requires t < k
    ensures Bit(x % Pow2(k), t) <==> Bit(x, t)
  {
    AndLowMask(x, k);
    BitAnd(x, Not(0, k), t);
    BitNot(0, k, t);
    BitOfZero(t);
  }
}
