/** The packed IO wait counter: 26 bits of IO count above 38 bits of wait time in
    10 us units, each wrapping on its own. */
module WaitWord {
  import opened Words

  const COUNT_BITS := 26
  const WAIT_BITS := 38
  const COUNT_MODULUS: nat := 0x400_0000
  const WAIT_MODULUS: nat := 0x40_0000_0000
  const UNIT_NS: nat := 10_000

  /** `io_control_wait_add` */
  function WaitAdd(packed: nat, waitNs: nat): nat {
    var count := And(packed / WAIT_MODULUS + 1, COUNT_MODULUS - 1);
    var wait := And(And(packed, WAIT_MODULUS - 1) + waitNs / UNIT_NS, WAIT_MODULUS - 1);
    Or(count * WAIT_MODULUS, wait)
  }

  function Count(packed: nat): nat {
    packed / WAIT_MODULUS
  }

  function Wait10us(packed: nat): nat {
    packed % WAIT_MODULUS
  }

  function Fold(packed: nat, waits: seq<nat>): nat {
    if waits == [] then packed else WaitAdd(Fold(packed, waits[..|waits| - 1]), waits[|waits| - 1])
  }

  function Units(waits: seq<nat>): nat {
    if waits == [] then 0 else Units(waits[..|waits| - 1]) + waits[|waits| - 1] / UNIT_NS
  }

  function Total(waits: seq<nat>): nat {
    if waits == [] then 0 else Total(waits[..|waits| - 1]) + waits[|waits| - 1]
  }

  lemma Moduli()
    ensures Pow2(COUNT_BITS) == COUNT_MODULUS && Pow2(WAIT_BITS) == WAIT_MODULUS
    ensures COUNT_MODULUS * WAIT_MODULUS == U64
  {
    Pow2Values();
    assert Pow2(6) == 64;
    Pow2Add(20, 6);
    Pow2Add(32, 6);
  }

  /** One addition bumps both fields modulo their own width; no carry crosses. */
  lemma AddFields(packed: nat, waitNs: nat)
    ensures WaitAdd(packed, waitNs) < U64
    ensures Count(WaitAdd(packed, waitNs)) == (Count(packed) + 1) % COUNT_MODULUS
    ensures Wait10us(WaitAdd(packed, waitNs)) == (Wait10us(packed) + waitNs / UNIT_NS) % WAIT_MODULUS
  {
    Moduli();
    var count := (Count(packed) + 1) % COUNT_MODULUS;
    var wait := (Wait10us(packed) + waitNs / UNIT_NS) % WAIT_MODULUS;
    AndLowMask(packed / WAIT_MODULUS + 1, COUNT_BITS);
    AndLowMask(packed, WAIT_BITS);
    AndLowMask(packed % WAIT_MODULUS + waitNs / UNIT_NS, WAIT_BITS);
    OrFields(count, wait, WAIT_BITS);
    DivModUnique(count * WAIT_MODULUS + wait, WAIT_MODULUS, count, wait);
  }

  lemma ModAdd(a: nat, b: nat, m: nat)
    requires m > 0
    ensures (a % m + b) % m == (a + b) % m
  {
    var q := a / m;
    assert a + b == q * m + (a % m + b);
    var r := a % m + b;
    assert a + b == (q + r / m) * m + r % m by {
      assert (q + r / m) * m == q * m + (r / m) * m;
    }
    DivModUnique(a + b, m, q + r / m, r % m);
  }

  /** After any waits the count is the number of IOs and the time the sum of the
      truncated waits, each modulo its own field. */
  lemma {:induction false} FoldFields(packed: nat, waits: seq<nat>)
    requires packed < U64
    ensures Fold(packed, waits) < U64
    ensures Count(Fold(packed, waits)) == (Count(packed) + |waits|) % COUNT_MODULUS
    ensures Wait10us(Fold(packed, waits)) == (Wait10us(packed) + Units(waits)) % WAIT_MODULUS
  {
    if waits != [] {
      var before, last := waits[..|waits| - 1], waits[|waits| - 1];
      FoldFields(packed, before);
      AddFields(Fold(packed, before), last);
      ModAdd(Count(packed) + |before|, 1, COUNT_MODULUS);
      ModAdd(Wait10us(packed) + Units(before), last / UNIT_NS, WAIT_MODULUS);
    }
  }

  /** Each IO loses less than one unit to truncation. */
  lemma {:induction false} UnitsLose(waits: seq<nat>)
    ensures UNIT_NS * Units(waits) <= Total(waits)
    ensures waits != [] ==> Total(waits) < UNIT_NS * (Units(waits) + |waits|)
  {
    if waits != [] {
      UnitsLose(waits[..|waits| - 1]);
    }
  }

  /** The user-space interval: unsigned subtraction, then the field mask. */
  function Delta(current: nat, previous: nat, modulus: nat): nat
    requires modulus > 0
  {
    And((current - previous) % U64, modulus - 1)
  }

  lemma DeltaOfSum(start: nat, added: nat, bits: nat, rest: nat)
    requires start < Pow2(bits) && Pow2(bits) * rest == U64
    ensures Delta((start + added) % Pow2(bits), start, Pow2(bits)) == added % Pow2(bits)
  {
    AndLowMask(((start + added) % Pow2(bits) - start) % U64, bits);
    WrappedDifference(start, added, Pow2(bits), rest);
  }

  lemma WrappedDifference(start: nat, added: nat, m: nat, rest: nat)
    requires m > 0 && m * rest == U64
    ensures ((start + added) % m - start) % U64 % m == added % m
  {
    var q := (start + added) / m;
    assert (start + added) % m - start == added - q * m;
    ModOfMultiple(added - q * m, m, rest);
    ModShift(added, q, m);
  }

  lemma ModOfMultiple(x: int, m: nat, rest: nat)
    requires m > 0 && m * rest == U64
    ensures x % U64 % m == x % m
  {
    var q := x / U64;
    assert x == q * U64 + x % U64;
    assert q * U64 == (q * rest) * m by {
      assert q * (m * rest) == (q * rest) * m;
    }
    ModShift(x, q * rest, m);
    assert x % U64 == x - (q * rest) * m;
  }

  /** An interval is exact precisely while its own increment stays under the
      modulus of the field; past that it is undercounted by whole moduli. */
  lemma IntervalDeltas(previous: nat, waits: seq<nat>)
    requires previous < U64
    ensures var current := Fold(previous, waits);
            && Delta(Count(current), Count(previous), COUNT_MODULUS) == |waits| % COUNT_MODULUS
            && Delta(Wait10us(current), Wait10us(previous), WAIT_MODULUS) == Units(waits) % WAIT_MODULUS
    ensures Delta(Count(Fold(previous, waits)), Count(previous), COUNT_MODULUS) == |waits|
       <==> |waits| < COUNT_MODULUS
    ensures Delta(Wait10us(Fold(previous, waits)), Wait10us(previous), WAIT_MODULUS) == Units(waits)
       <==> Units(waits) < WAIT_MODULUS
  {
    hide Fold, Delta, Units;
    Moduli();
    FoldFields(previous, waits);
    DeltaOfSum(Count(previous), |waits|, COUNT_BITS, WAIT_MODULUS);
    DeltaOfSum(Wait10us(previous), Units(waits), WAIT_BITS, COUNT_MODULUS);
    Small(|waits|, COUNT_MODULUS);
    Small(Units(waits), WAIT_MODULUS);
  }

  lemma Small(x: nat, m: nat)
    requires m > 0
    ensures x % m == x <==> x < m
  {
    if x < m {
      DivModUnique(x, m, 0, x);
    }
  }
}
