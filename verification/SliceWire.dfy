/** The byte layout of a slice batch, as the kernel writes it and as user space
    reads it back from the perf ring or from the per-CPU map. */
module SliceWire {
  import opened Words
  import opened PackedSlices

  type byte = b: nat | b < 256

  const BATCH_MAGIC: nat := 0x3333
  const EXTRA_BITMAP_U64_COUNT: nat := 1
  const MAX_SLICES: nat := 128
  const HEADER_SIZE: nat := 8
  const SLICE_SIZE: nat := 16
  /** Header plus 128 slices of 16 bytes. */
  const VALUE_SIZE: nat := 2056

  // ------------------------------------------------ little-endian integers

  function LittleEndian(n: nat, width: nat): (s: seq<byte>)
    ensures |s| == width
  {
    if width == 0 then [] else [n % 256] + LittleEndian(n / 256, width - 1)
  }

  function FromLittleEndian(s: seq<byte>): nat {
    if s == [] then 0 else s[0] + 256 * FromLittleEndian(s[1..])
  }

  function Pow256(width: nat): (p: nat)
    ensures p > 0
  {
    if width == 0 then 1 else 256 * Pow256(width - 1)
  }

  lemma {:induction false} ReadWritten(n: nat, width: nat)
    requires n < Pow256(width)
    ensures FromLittleEndian(LittleEndian(n, width)) == n
  {
    if width > 0 {
      ReadWritten(n / 256, width - 1);
      assert LittleEndian(n, width)[1..] == LittleEndian(n / 256, width - 1);
    }
  }

  lemma {:induction false} WriteRead(s: seq<byte>)
    ensures LittleEndian(FromLittleEndian(s), |s|) == s
  {
    if s != [] {
      WriteRead(s[1..]);
      var n := FromLittleEndian(s);
      assert n / 256 == FromLittleEndian(s[1..]) && n % 256 == s[0];
    }
  }

  lemma {:induction false} ReadBound(s: seq<byte>)
    ensures FromLittleEndian(s) < Pow256(|s|)
  {
    if s != [] {
      ReadBound(s[1..]);
    }
  }

  lemma WidthValues()
    ensures Pow256(2) == 0x1_0000 && Pow256(4) == U32 && Pow256(8) == U64
  {
    assert Pow256(3) == 256 * Pow256(2) && Pow256(4) == 256 * Pow256(3);
    assert Pow256(5) == 256 * Pow256(4) && Pow256(6) == 256 * Pow256(5);
    assert Pow256(7) == 256 * Pow256(6) && Pow256(8) == 256 * Pow256(7);
  }

  // ------------------------------------------------------------ kernel side

  function Header(count: nat): (s: seq<byte>)
    ensures |s| == HEADER_SIZE
  {
    LittleEndian(BATCH_MAGIC, 2) + LittleEndian(EXTRA_BITMAP_U64_COUNT, 2) + LittleEndian(count, 4)
  }

  function SliceBytes(p: Packed): (s: seq<byte>)
    ensures |s| == SLICE_SIZE
  {
    LittleEndian(p.base, 8) + LittleEndian(p.extra, 8)
  }

  function SlotBytes(slots: seq<Packed>): (s: seq<byte>)
    ensures |s| == SLICE_SIZE * |slots|
  {
    if slots == [] then [] else SliceBytes(slots[0]) + SlotBytes(slots[1..])
  }

  ghost predicate AllFit(slots: seq<Packed>) {
    forall i :: 0 <= i < |slots| ==> slots[i].Fits()
  }

  /** The tier of `output_slice_batch` that covers `count` slices. */
  function OutputCapacity(count: nat): nat {
    if count <= 1 then 1
    else if count <= 2 then 2
    else if count <= 4 then 4
    else if count <= 8 then 8
    else if count <= 16 then 16
    else if count <= 32 then 32
    else if count <= 64 then 64
    else 128
  }

  /** The record handed to the perf ring: the header and every slot of the tier,
      including stale slots past `count`. */
  function Payload(count: nat, slots: seq<Packed>): seq<byte>
    requires |slots| == MAX_SLICES
  {
    Header(count) + SlotBytes(slots[..OutputCapacity(count)])
  }

  // -------------------------------------------------------- user-space side

  datatype Error = TooShort | BadMagic | BadExtraCount | BadCount | BadSize
  datatype Result<T> = Ok(value: T) | Err(error: Error)

  /** Bits needed to write `n`. */
  function BitLength(n: nat): nat {
    if n == 0 then 0 else 1 + BitLength(n / 2)
  }

  function BatchCapacity(count: nat): nat
    requires count > 0
  {
    Pow2(BitLength(count - 1))
  }

  /** Sample size after the ring aligns the 4-byte size field plus the payload to
      8 bytes; the reader drops the field and keeps the padding. */
  function RawSampleSize(payload: nat): int {
    var aligned := payload + 4 + 8 - 1;
    aligned - aligned % 8 - 4
  }

  function HeaderCount(raw: seq<byte>): Result<nat> {
    if |raw| < HEADER_SIZE then Err(TooShort)
    else if FromLittleEndian(raw[..2]) != BATCH_MAGIC then Err(BadMagic)
    else if FromLittleEndian(raw[2..4]) != EXTRA_BITMAP_U64_COUNT then Err(BadExtraCount)
    else
      var count := FromLittleEndian(raw[4..8]);
      if count == 0 || count > MAX_SLICES then Err(BadCount) else Ok(count)
  }

  function ReadSlice(b: seq<byte>): Packed
    requires |b| == SLICE_SIZE
  {
    Packed(FromLittleEndian(b[..8]), FromLittleEndian(b[8..]))
  }

  /** The first `n` slices of a batch body. */
  function ReadSlots(body: seq<byte>, n: nat): (slots: seq<Packed>)
    requires SLICE_SIZE * n <= |body|
    ensures |slots| == n
  {
    if n == 0 then [] else [ReadSlice(body[..SLICE_SIZE])] + ReadSlots(body[SLICE_SIZE..], n - 1)
  }

  function ExpectedSize(count: nat, mapValue: bool): int
    requires count > 0
  {
    if mapValue then VALUE_SIZE else RawSampleSize(HEADER_SIZE + BatchCapacity(count) * SLICE_SIZE)
  }

  function Decoded(raw: seq<byte>, mapValue: bool): Result<seq<Packed>> {
    match HeaderCount(raw)
    case Err(e) => Err(e)
    case Ok(count) =>
      if |raw| != ExpectedSize(count, mapValue) then Err(BadSize)
      else
        SizeCoversCount(count, mapValue);
        Ok(ReadSlots(raw[HEADER_SIZE..], count))
  }

  lemma {:induction false} ReadSlotsFit(body: seq<byte>, n: nat)
    requires SLICE_SIZE * n <= |body|
    ensures AllFit(ReadSlots(body, n))
  {
    if n > 0 {
      WidthValues();
      ReadBound(body[..SLICE_SIZE][..8]);
      ReadBound(body[..SLICE_SIZE][8..]);
      ReadSlotsFit(body[SLICE_SIZE..], n - 1);
    }
  }

  /** Whatever decodes is a batch of 64-bit words, so it can be charged. */
  lemma DecodedFits(raw: seq<byte>, mapValue: bool)
    requires Decoded(raw, mapValue).Ok?
    ensures AllFit(Decoded(raw, mapValue).value) && 1 <= |Decoded(raw, mapValue).value| <= MAX_SLICES
  {
    var count := HeaderCount(raw).value;
    SizeCoversCount(count, mapValue);
    ReadSlotsFit(raw[HEADER_SIZE..], count);
  }

  lemma {:induction false} BitLengthBounds(n: nat)
    ensures n < Pow2(BitLength(n))
    ensures n > 0 ==> BitLength(n) > 0 && Pow2(BitLength(n) - 1) <= n
  {
    if n > 0 {
      BitLengthBounds(n / 2);
    }
  }

  /** Go's capacity and the kernel's ladder agree on every legal count. */
  lemma CapacityAgrees(count: nat)
    requires 1 <= count <= MAX_SLICES
    ensures BatchCapacity(count) == OutputCapacity(count)
    ensures count <= OutputCapacity(count) <= MAX_SLICES
  {
    var n := count - 1;
    BitLengthBounds(n);
    var k := BitLength(n);
    assert Pow2(1) == 2 && Pow2(2) == 4 && Pow2(3) == 8;
    assert Pow2(4) == 16 && Pow2(5) == 32 && Pow2(6) == 64;
    assert Pow2(7) == 2 * Pow2(6);
    if k >= 8 {
      Pow2Mono(7, k - 1);
    }
  }

  lemma SizeCoversCount(count: nat, mapValue: bool)
    requires 1 <= count <= MAX_SLICES
    ensures HEADER_SIZE + SLICE_SIZE * count <= ExpectedSize(count, mapValue)
    ensures !mapValue ==> ExpectedSize(count, mapValue) == HEADER_SIZE + SLICE_SIZE * OutputCapacity(count) + 4
  {
    CapacityAgrees(count);
    PaddingIsFour(OutputCapacity(count));
  }

  lemma PaddingIsFour(capacity: nat)
    ensures RawSampleSize(HEADER_SIZE + capacity * SLICE_SIZE) == HEADER_SIZE + capacity * SLICE_SIZE + 4
  {
    assert (HEADER_SIZE + capacity * SLICE_SIZE + 11) % 8 == 3;
  }

  // ------------------------------------------------------------ round trips

  lemma SliceReads(p: Packed)
    requires p.Fits()
    ensures ReadSlice(SliceBytes(p)) == p
  {
    WidthValues();
    ReadWritten(p.base, 8);
    ReadWritten(p.extra, 8);
    assert SliceBytes(p)[..8] == LittleEndian(p.base, 8) && SliceBytes(p)[8..] == LittleEndian(p.extra, 8);
  }

  lemma SliceWrites(b: seq<byte>)
    requires |b| == SLICE_SIZE
    ensures SliceBytes(ReadSlice(b)) == b
  {
    WriteRead(b[..8]);
    WriteRead(b[8..]);
  }

  lemma HeaderReads(raw: seq<byte>, count: nat)
    requires 1 <= count <= MAX_SLICES
    requires |raw| >= HEADER_SIZE && raw[..HEADER_SIZE] == Header(count)
    ensures HeaderCount(raw) == Ok(count)
  {
    WidthValues();
    ReadWritten(BATCH_MAGIC, 2);
    ReadWritten(EXTRA_BITMAP_U64_COUNT, 2);
    ReadWritten(count, 4);
    var h := Header(count);
    assert raw[..2] == h[..2] == LittleEndian(BATCH_MAGIC, 2);
    assert raw[2..4] == h[2..4] == LittleEndian(EXTRA_BITMAP_U64_COUNT, 2);
    assert raw[4..8] == h[4..8] == LittleEndian(count, 4);
  }

  lemma {:induction false} SlotsRead(slots: seq<Packed>, rest: seq<byte>, n: nat)
    requires n <= |slots| && AllFit(slots[..n])
    ensures ReadSlots(SlotBytes(slots) + rest, n) == slots[..n]
  {
    if n > 0 {
      var body := SlotBytes(slots) + rest;
      assert slots[..n][0].Fits();
      SliceReads(slots[0]);
      assert body[..SLICE_SIZE] == SliceBytes(slots[0]);
      assert body[SLICE_SIZE..] == SlotBytes(slots[1..]) + rest;
      assert slots[1..][..n - 1] == slots[..n][1..];
      SlotsRead(slots[1..], rest, n - 1);
    }
  }

  lemma {:induction false} SlotsWrite(body: seq<byte>, n: nat)
    requires SLICE_SIZE * n <= |body|
    ensures SlotBytes(ReadSlots(body, n)) == body[..SLICE_SIZE * n]
  {
    if n > 0 {
      SliceWrites(body[..SLICE_SIZE]);
      SlotsWrite(body[SLICE_SIZE..], n - 1);
      assert ReadSlots(body, n)[1..] == ReadSlots(body[SLICE_SIZE..], n - 1);
      assert body[..SLICE_SIZE * n] == body[..SLICE_SIZE] + body[SLICE_SIZE..][..SLICE_SIZE * (n - 1)];
    }
  }

  lemma {:induction false} ReadSlotsNext(body: seq<byte>, n: nat)
    requires SLICE_SIZE * (n + 1) <= |body|
    ensures ReadSlots(body, n + 1)
         == ReadSlots(body, n) + [ReadSlice(body[SLICE_SIZE * n..SLICE_SIZE * (n + 1)])]
  {
    hide ReadSlice;
    if n > 0 {
      var rest := body[SLICE_SIZE..];
      ReadSlotsNext(rest, n - 1);
      assert rest[SLICE_SIZE * (n - 1)..SLICE_SIZE * n] == body[SLICE_SIZE * n..SLICE_SIZE * (n + 1)];
    }
  }

  lemma ImageDecodes(count: nat, slots: seq<Packed>, rest: seq<byte>, mapValue: bool)
    requires 1 <= count <= |slots| <= MAX_SLICES && AllFit(slots[..count])
    requires HEADER_SIZE + SLICE_SIZE * |slots| + |rest| == ExpectedSize(count, mapValue)
    ensures Decoded(Header(count) + SlotBytes(slots) + rest, mapValue) == Ok(slots[..count])
  {
    hide Header, SlotBytes, HeaderCount, ExpectedSize, ReadSlots;
    var raw := Header(count) + SlotBytes(slots) + rest;
    assert raw[..HEADER_SIZE] == Header(count);
    HeaderReads(raw, count);
    assert raw[HEADER_SIZE..] == SlotBytes(slots) + rest;
    SlotsRead(slots, rest, count);
  }

  /** Whatever padding the ring appends, and whatever stale slots the tier carries,
      an emitted batch decodes to exactly its `count` slices. */
  lemma EmittedBatchDecodes(count: nat, slots: seq<Packed>, padding: seq<byte>)
    requires 1 <= count <= MAX_SLICES && |slots| == MAX_SLICES && AllFit(slots[..count])
    requires |padding| == RawSampleSize(|Payload(count, slots)|) - |Payload(count, slots)|
    ensures Decoded(Payload(count, slots) + padding, false) == Ok(slots[..count])
  {
    CapacityAgrees(count);
    SizeCoversCount(count, false);
    var tier := slots[..OutputCapacity(count)];
    assert tier[..count] == slots[..count];
    ImageDecodes(count, tier, padding, false);
  }

  /** A tail value read straight from the per-CPU map decodes the same way. */
  lemma TailValueDecodes(count: nat, slots: seq<Packed>)
    requires 1 <= count <= MAX_SLICES && |slots| == MAX_SLICES && AllFit(slots[..count])
    ensures Decoded(Header(count) + SlotBytes(slots), true) == Ok(slots[..count])
  {
    ImageDecodes(count, slots, [], true);
    assert Header(count) + SlotBytes(slots) + [] == Header(count) + SlotBytes(slots);
  }

  lemma SplitHeader(raw: seq<byte>, count: nat)
    requires HeaderCount(raw) == Ok(count)
    ensures raw[..HEADER_SIZE] == Header(count)
  {
    WriteRead(raw[..2]);
    WriteRead(raw[2..4]);
    WriteRead(raw[4..8]);
    assert raw[..HEADER_SIZE] == raw[..2] + raw[2..4] + raw[4..8];
  }

  /** The other direction: a record decodes only to slices whose encoding it starts
      with, so two records with equal prefixes cannot decode differently. */
  lemma DecodedIsPrefix(raw: seq<byte>, mapValue: bool)
    requires Decoded(raw, mapValue).Ok?
    ensures var v := Decoded(raw, mapValue).value;
            && 1 <= |v| <= MAX_SLICES
            && Header(|v|) + SlotBytes(v) <= raw
  {
    var v := Decoded(raw, mapValue).value;
    SplitHeader(raw, |v|);
    SizeCoversCount(|v|, mapValue);
    SlotsWrite(raw[HEADER_SIZE..], |v|);
    assert Header(|v|) + SlotBytes(v) == raw[..HEADER_SIZE + SLICE_SIZE * |v|];
  }

  lemma SliceAt(raw: seq<byte>, n: nat)
    requires HEADER_SIZE + SLICE_SIZE * (n + 1) <= |raw|
    ensures var at := HEADER_SIZE + SLICE_SIZE * n;
            ReadSlice(raw[HEADER_SIZE..][SLICE_SIZE * n..SLICE_SIZE * (n + 1)]) ==
            Packed(FromLittleEndian(raw[at..at + 8]), FromLittleEndian(raw[at + 8..at + 16]))
  {
    var at := HEADER_SIZE + SLICE_SIZE * n;
    var slice := raw[HEADER_SIZE..][SLICE_SIZE * n..SLICE_SIZE * (n + 1)];
    assert slice == raw[at..at + 16];
    assert slice[..8] == raw[at..at + 8];
    assert slice[8..] == raw[at + 8..at + 16];
  }

  // --------------------------------------------------------- decoder objects

  class Batch {
    var count: nat
    const slots: array<Packed>

    constructor ()
      ensures count == 0 && slots.Length == MAX_SLICES && fresh(slots)
    {
      count := 0;
      slots := new Packed[MAX_SLICES](_ => Packed(0, 0));
    }

    ghost predicate Valid()
      reads this
    {
      slots.Length == MAX_SLICES && count <= MAX_SLICES
    }

    ghost function Slices(): seq<Packed>
      requires Valid()
      reads this, slots
    {
      slots[..count]
    }

    /** `decodeSchedBlameBatch`: on success the batch holds exactly the decoded
        slices; on an error it is left as it was. */
    method Decode(raw: seq<byte>, mapValue: bool) returns (error: Result<()>)
      requires Valid()
      modifies this, slots
      ensures Valid()
      ensures match Decoded(raw, mapValue)
              case Ok(slices) => error == Ok(()) && Slices() == slices && AllFit(Slices())
              case Err(e) => error == Err(e) && count == old(count) && slots[..] == old(slots[..])
    {
      var header := HeaderCount(raw);
      if header.Err? {
        return Err(header.error);
      }
      var n := header.value;
      if |raw| != ExpectedSize(n, mapValue) {
        return Err(BadSize);
      }
      SizeCoversCount(n, mapValue);
      count := n;
      ghost var body := raw[HEADER_SIZE..];
      var offset := HEADER_SIZE;
      for index := 0 to n
        invariant offset == HEADER_SIZE + SLICE_SIZE * index
        invariant count == n
        invariant slots[..index] == ReadSlots(body, index)
      {
        ReadSlotsNext(body, index);
        SliceAt(raw, index);
        var base := FromLittleEndian(raw[offset..offset + 8]);
        offset := offset + 8;
        var extra := FromLittleEndian(raw[offset..offset + 8]);
        offset := offset + 8;
        slots[index] := Packed(base, extra);
        assert slots[..index + 1] == slots[..index] + [slots[index]];
      }
      DecodedFits(raw, mapValue);
      return Ok(());
    }
  }
}
