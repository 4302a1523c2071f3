/** The packed slice word: duration in bits 32..63, the base waiting bitmap in
    bits 12..31, the css id in bits 0..11, plus one extra bitmap word. */
module PackedSlices {
  import opened Words

  const CSS_ID_BITS := 12
  const MAX_CSS_IDS: nat := 4096
  const BASE_BITMAP_BITS := 20
  const BASE_BITMAP_MASK: nat := 0xf_ffff
  const MAX_TARGETS: nat := 84
  const NON_TARGET: nat := 0xff
  const MAX_DURATION_NS: nat := 0xffff_ffff

  /** Waiting targets of one CPU: dense ids 0..19 in `base`, 20..83 in `extra`. */
  datatype Bitmap = Bitmap(base: nat, extra: nat) {
    predicate Fits() {
      base < U32 && extra < U64
    }

    predicate Has(dense: nat)
      requires dense < MAX_TARGETS
    {
      if dense < BASE_BITMAP_BITS then Bit(base, dense) else Bit(extra, dense - BASE_BITMAP_BITS)
    }

    function Members(): set<nat> {
      set d: nat | d < MAX_TARGETS && Has(d)
    }
  }

  const EMPTY_BITMAP := Bitmap(0, 0)

  lemma EmptyBitmapHasNoMembers()
    ensures EMPTY_BITMAP.Members() == {}
  {
    forall d: nat | d < MAX_TARGETS
      ensures !EMPTY_BITMAP.Has(d)
    {
      BitOfZero(d);
      if d >= BASE_BITMAP_BITS {
        BitOfZero(d - BASE_BITMAP_BITS);
      }
    }
  }

  /** Put a dense id into the bitmap or take it out; others are out of range. */
  function SetBit(b: Bitmap, dense: nat, on: bool): Bitmap {
    if dense >= MAX_TARGETS then b
    else if dense < BASE_BITMAP_BITS then
      b.(base := if on then Or(b.base, Pow2(dense)) else And(b.base, Mask(dense, 32)))
    else
      b.(extra := if on then Or(b.extra, Pow2(dense - BASE_BITMAP_BITS))
                  else And(b.extra, Mask(dense - BASE_BITMAP_BITS, 64)))
  }

  /** Every bit of the word but bit `k`. */
  function Mask(k: nat, width: nat): nat
    requires k < width
  {
    PowerFits(k, width);
    Not(Pow2(k), width)
  }

  lemma PowerFits(k: nat, width: nat)
    requires k < width
    ensures Pow2(k) < Pow2(width)
  {
    Pow2Mono(k + 1, width);
  }

  /** Exactly one dense id changes membership, across both words. */
  lemma SetBitChangesOne(b: Bitmap, dense: nat, on: bool)
    requires b.Fits() && dense < MAX_TARGETS
    ensures SetBit(b, dense, on).Fits()
    ensures SetBit(b, dense, on).Members() == if on then b.Members() + {dense} else b.Members() - {dense}
  {
    hide Bit;
    SetBitFits(b, dense, on);
    forall d: nat | d < MAX_TARGETS
      ensures SetBit(b, dense, on).Has(d) <==> if d == dense then on else b.Has(d)
    {
      SetBitAt(b, dense, on, d);
    }
  }

  lemma SetBitFits(b: Bitmap, dense: nat, on: bool)
    requires b.Fits() && dense < MAX_TARGETS
    ensures SetBit(b, dense, on).Fits()
  {
    Pow2Values();
    if dense < BASE_BITMAP_BITS {
      PowerFits(dense, 32);
      OrBound(b.base, Pow2(dense), 32);
      AndAtMost(b.base, Mask(dense, 32));
    } else {
      PowerFits(dense - BASE_BITMAP_BITS, 64);
      OrBound(b.extra, Pow2(dense - BASE_BITMAP_BITS), 64);
      AndAtMost(b.extra, Mask(dense - BASE_BITMAP_BITS, 64));
    }
  }

  lemma SetBitAt(b: Bitmap, dense: nat, on: bool, d: nat)
    requires dense < MAX_TARGETS && d < MAX_TARGETS
    ensures SetBit(b, dense, on).Has(d) <==> if d == dense then on else b.Has(d)
  {
    hide Bit, Or, And, Not;
    if dense < BASE_BITMAP_BITS {
      if d < BASE_BITMAP_BITS {
        WordBitAt(b.base, dense, 32, d);
      }
    } else if d >= BASE_BITMAP_BITS {
      WordBitAt(b.extra, dense - BASE_BITMAP_BITS, 64, d - BASE_BITMAP_BITS);
    }
  }

  lemma WordBitAt(w: nat, k: nat, width: nat, j: nat)
    requires k < width && j < width
    ensures Bit(Or(w, Pow2(k)), j) <==> Bit(w, j) || j == k
    ensures Bit(And(w, Mask(k, width)), j) <==> Bit(w, j) && j != k
  {
    PowerFits(k, width);
    BitOr(w, Pow2(k), j);
    BitOfPow2(k, j);
    BitNot(Pow2(k), width, j);
    BitAnd(w, Mask(k, width), j);
  }

  datatype Packed = Packed(base: nat, extra: nat) {
    predicate Fits() {
      base < U64 && extra < U64
    }
  }

  function Clamp(duration: nat): nat {
    if duration > MAX_DURATION_NS then MAX_DURATION_NS else duration
  }

  function PackSlice(duration: nat, waiting: Bitmap, css: nat): Packed {
    Packed(Or(Or(Clamp(duration) * U32, And(waiting.base, BASE_BITMAP_MASK) * MAX_CSS_IDS), css),
           waiting.extra)
  }

  function CssId(p: Packed): nat {
    And(p.base, MAX_CSS_IDS - 1)
  }

  function Duration(p: Packed): nat {
    p.base / U32
  }

  /** The base half of the waiting set, as the charging loop extracts it. */
  function BaseTargets(p: Packed): nat {
    And(p.base / MAX_CSS_IDS, BASE_BITMAP_MASK)
  }

  predicate HasTarget(p: Packed, target: int) {
    if target < 0 || target >= MAX_TARGETS then false
    else if target < BASE_BITMAP_BITS then And(p.base, Pow2(CSS_ID_BITS + target)) != 0
    else And(p.extra, Pow2(target - BASE_BITMAP_BITS)) != 0
  }

  function Targets(p: Packed): set<nat> {
    set t: nat | t < MAX_TARGETS && HasTarget(p, t)
  }

  /** The packed word is the positional sum of its three fields. */
  lemma PackIsSum(duration: nat, waiting: Bitmap, css: nat)
    requires css < MAX_CSS_IDS
    ensures PackSlice(duration, waiting, css).base
         == Clamp(duration) * U32 + (waiting.base % 0x10_0000) * 4096 + css
  {
    Pow2Values();
    var d, b := Clamp(duration), waiting.base % 0x10_0000;
    AndLowMask(waiting.base, 20);
    OrFields(d, b * 4096, 32);
    OrFields(d * 0x10_0000 + b, css, 12);
    assert d * U32 + b * 4096 == (d * 0x10_0000 + b) * Pow2(12);
  }

  /** Packing then unpacking returns the css id, the clamped duration and exactly
      the waiting set. */
  lemma PackRoundTrip(duration: nat, waiting: Bitmap, css: nat)
    requires waiting.Fits() && css < MAX_CSS_IDS
    ensures var p := PackSlice(duration, waiting, css);
            && p.Fits()
            && CssId(p) == css
            && Duration(p) == (if duration > 0xffff_ffff then 0xffff_ffff else duration)
            && Targets(p) == waiting.Members()
  {
    var p := PackSlice(duration, waiting, css);
    var d, b := Clamp(duration), waiting.base % 0x10_0000;
    Pow2Values();
    PackIsSum(duration, waiting, css);
    AndLowMask(p.base, 12);
    DivModUnique(p.base, U32, d, b * 4096 + css);
    DivModUnique(p.base, 4096, d * 0x10_0000 + b, css);
    forall t: nat | t < MAX_TARGETS
      ensures HasTarget(p, t) <==> waiting.Has(t)
    {
      TargetIsBit(p, t);
      if t < BASE_BITMAP_BITS {
        BaseFieldBit(d, waiting.base, css, t);
      }
    }
  }

  /** Bit 12 + t of the positional sum is bit t of the unmasked base bitmap. */
  lemma BaseFieldBit(d: nat, base: nat, css: nat, t: nat)
    requires css < MAX_CSS_IDS && t < BASE_BITMAP_BITS
    ensures Bit(d * U32 + (base % 0x10_0000) * 4096 + css, CSS_ID_BITS + t) <==> Bit(base, t)
  {
    Pow2Values();
    var b := base % 0x10_0000;
    assert d * U32 + b * 4096 + css == (d * 0x10_0000 + b) * Pow2(12) + css;
    BitFields(d * 0x10_0000 + b, css, 12, 12 + t);
    BitFields(d, b, 20, t);
    LowBits(base, 20, t);
  }

  lemma TargetIsBit(p: Packed, t: nat)
    requires t < MAX_TARGETS
    ensures HasTarget(p, t)
       <==> if t < BASE_BITMAP_BITS then Bit(p.base, CSS_ID_BITS + t) else Bit(p.extra, t - BASE_BITMAP_BITS)
  {
    if t < BASE_BITMAP_BITS {
      AndPow2(p.base, CSS_ID_BITS + t);
    } else {
      AndPow2(p.extra, t - BASE_BITMAP_BITS);
    }
  }

  /** The two words the charging loop walks hold the base and the extra targets. */
  lemma LoopWordsAreTargets(p: Packed, t: nat)
    requires p.Fits() && t < MAX_TARGETS
    ensures BaseTargets(p) < Pow2(BASE_BITMAP_BITS) && p.extra < Pow2(64)
    ensures t in Targets(p)
       <==> if t < BASE_BITMAP_BITS then t in Ones(BaseTargets(p), BASE_BITMAP_BITS)
            else t - BASE_BITMAP_BITS in Ones(p.extra, 64)
  {
    Pow2Values();
    TargetIsBit(p, t);
    var high := p.base / 4096;
    AndLowMask(high, 20);
    if t < BASE_BITMAP_BITS {
      assert p.base == high * Pow2(12) + p.base % 4096;
      BitFields(high, p.base % 4096, 12, 12 + t);
      LowBits(high, 20, t);
    }
  }
}
