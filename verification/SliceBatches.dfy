/** Per-CPU slice batching: append, size flush, age flush and output failure, and
    the final drain of what is still in the per-CPU batches. */
module SliceBatches {
  import opened Words
  import opened PackedSlices
  import opened SliceWire

  const MAX_AGE_NS: nat := 10_000_000

  /** One submission to the perf ring, with its outcome. */
  datatype Emission = Emission(slices: seq<Packed>, ok: bool)

  datatype State = State(pending: seq<Packed>, first: nat, emitted: seq<Emission>,
                         failures: nat, failedSlices: nat)

  const EMPTY := State([], 0, [], 0, 0)

  /** `__SLICE_BATCH_SIZE__` after the clamp in `append_sampled_slice`. */
  function EffectiveSize(size: nat): nat {
    if size < 1 then 1 else if size > MAX_SLICES then MAX_SLICES else size
  }

  function Emit(s: State, ok: bool): State {
    if |s.pending| == 0 || |s.pending| > MAX_SLICES then s
    else State([], 0, s.emitted + [Emission(s.pending, ok)],
               s.failures + if ok then 0 else 1,
               s.failedSlices + if ok then 0 else |s.pending|)
  }

  /** Unsigned 64-bit `now - first < MAX_AGE_NS`. */
  predicate Young(now: nat, first: nat) {
    (now - first) % U64 < MAX_AGE_NS
  }

  function FlushIfAged(s: State, now: nat, ok: bool): State {
    if s.first == 0 || Young(now, s.first) then s else Emit(s, ok)
  }

  function Stored(s: State, now: nat, p: Packed): State {
    s.(pending := s.pending + [p], first := if s.pending == [] then now else s.first)
  }

  function Append(s: State, size: nat, now: nat, p: Packed, fullOk: bool, sizeOk: bool): State {
    var s1 := if |s.pending| >= MAX_SLICES then Emit(s, fullOk) else s;
    var s2 := Stored(s1, now, p);
    if |s2.pending| >= EffectiveSize(size) then Emit(s2, sizeOk) else s2
  }

  // ------------------------------------------------------------------- runs

  /** One `sched_switch` on the CPU: the age flush, then a sampled slice if any.
      The three flags are the outcomes of the submissions it may make. */
  datatype Switch = Switch(now: nat, sample: seq<Packed>, ageOk: bool, fullOk: bool, sizeOk: bool) {
    predicate WellFormed() {
      0 < now < U64 && |sample| <= 1
    }
  }

  function Step(s: State, size: nat, e: Switch): State
    requires e.WellFormed()
  {
    var s1 := FlushIfAged(s, e.now, e.ageOk);
    if e.sample == [] then s1 else Append(s1, size, e.now, e.sample[0], e.fullOk, e.sizeOk)
  }

  function Run(size: nat, events: seq<Switch>): State
    requires forall e :: e in events ==> e.WellFormed()
  {
    if events == [] then EMPTY else Step(Run(size, events[..|events| - 1]), size, events[|events| - 1])
  }

  function Sampled(events: seq<Switch>): seq<Packed> {
    if events == [] then [] else Sampled(events[..|events| - 1]) + events[|events| - 1].sample
  }

  function Flatten(emitted: seq<Emission>): seq<Packed> {
    if emitted == [] then [] else Flatten(emitted[..|emitted| - 1]) + emitted[|emitted| - 1].slices
  }

  /** Slices carried by submissions with the given outcome. */
  function Count(emitted: seq<Emission>, ok: bool): nat {
    if emitted == [] then 0
    else var e := emitted[|emitted| - 1];
         Count(emitted[..|emitted| - 1], ok) + if e.ok == ok then |e.slices| else 0
  }

  /** Submissions that failed. */
  function Failed(emitted: seq<Emission>): nat {
    if emitted == [] then 0
    else Failed(emitted[..|emitted| - 1]) + if emitted[|emitted| - 1].ok then 0 else 1
  }

  ghost predicate Inv(s: State, size: nat) {
    && |s.pending| < EffectiveSize(size)
    && (s.first != 0 <==> s.pending != [])
    && s.failedSlices == Count(s.emitted, false) && s.failures == Failed(s.emitted)
    && forall e :: e in s.emitted ==> 1 <= |e.slices| <= MAX_SLICES
  }

  /** Every slice the state accounts for, oldest first. */
  function Trace(s: State): seq<Packed> {
    Flatten(s.emitted) + s.pending
  }

  ghost predicate Submissions(s: State) {
    && |s.pending| <= MAX_SLICES
    && s.failedSlices == Count(s.emitted, false) && s.failures == Failed(s.emitted)
    && (s.first != 0 <==> s.pending != [])
    && forall e :: e in s.emitted ==> 1 <= |e.slices| <= MAX_SLICES
  }

  lemma EmitKeeps(s: State, size: nat, ok: bool)
    requires Submissions(s)
    ensures Inv(Emit(s, ok), size) && Trace(Emit(s, ok)) == Trace(s)
  {
    if s.pending != [] {
      var t := Emit(s, ok);
      assert t.emitted[..|t.emitted| - 1] == s.emitted;
    }
  }

  lemma AgeKeeps(s: State, size: nat, now: nat, ok: bool)
    requires Inv(s, size)
    ensures Inv(FlushIfAged(s, now, ok), size) && Trace(FlushIfAged(s, now, ok)) == Trace(s)
  {
    EmitKeeps(s, size, ok);
  }

  lemma AppendKeeps(s: State, size: nat, now: nat, p: Packed, fullOk: bool, sizeOk: bool)
    requires Inv(s, size) && now > 0
    ensures var t := Append(s, size, now, p, fullOk, sizeOk);
            Inv(t, size) && Trace(t) == Trace(s) + [p]
  {
    var t := Stored(s, now, p);
    assert Trace(t) == Trace(s) + [p];
    EmitKeeps(t, size, sizeOk);
  }

  lemma StepKeeps(s: State, size: nat, e: Switch)
    requires e.WellFormed() && Inv(s, size)
    ensures Inv(Step(s, size, e), size) && Trace(Step(s, size, e)) == Trace(s) + e.sample
  {
    hide Append, FlushIfAged, Trace, Inv;
    AgeKeeps(s, size, e.now, e.ageOk);
    if e.sample != [] {
      assert e.sample == [e.sample[0]];
      AppendKeeps(FlushIfAged(s, e.now, e.ageOk), size, e.now, e.sample[0], e.fullOk, e.sizeOk);
    }
  }

  /** Nothing is lost, duplicated or reordered: over any run the submitted batches
      followed by the current batch spell out the sampled slices, the failure
      counter is what the failed submissions carried, and a nonzero first
      timestamp means exactly that the batch is nonempty. */
  lemma {:induction false} RunConserves(size: nat, events: seq<Switch>)
    requires forall e :: e in events ==> e.WellFormed()
    ensures var s := Run(size, events);
            && Inv(s, size)
            && Trace(s) == Sampled(events)
            && |Sampled(events)| == Count(s.emitted, true) + s.failedSlices + |s.pending|
    decreases |events|
  {
    if events != [] {
      var before, last := events[..|events| - 1], events[|events| - 1];
      RunConserves(size, before);
      StepKeeps(Run(size, before), size, last);
    }
    CountsCoverFlatten(Run(size, events).emitted);
  }

  lemma {:induction false} CountsCoverFlatten(emitted: seq<Emission>)
    ensures |Flatten(emitted)| == Count(emitted, true) + Count(emitted, false)
  {
    if emitted != [] {
      CountsCoverFlatten(emitted[..|emitted| - 1]);
    }
  }

  ghost predicate Monotone(events: seq<Switch>) {
    forall i, j :: 0 <= i < j < |events| ==> events[i].now <= events[j].now
  }

  /** With a monotone clock no slice waits past a switch: whatever is still in the
      batch after a switch entered it less than 10 ms earlier. */
  lemma {:induction false} PendingIsYoung(size: nat, events: seq<Switch>)
    requires events != [] && Monotone(events)
    requires forall e :: e in events ==> e.WellFormed()
    ensures var s := Run(size, events);
            var now := events[|events| - 1].now;
            s.pending != [] ==> s.first <= now < s.first + MAX_AGE_NS
    decreases |events|
  {
    var before, last := events[..|events| - 1], events[|events| - 1];
    var s := Run(size, before);
    RunConserves(size, before);
    if before != [] {
      PendingIsYoung(size, before);
      assert events[|events| - 2].now <= last.now;
    }
    StepIsYoung(s, size, last);
  }

  lemma StepIsYoung(s: State, size: nat, e: Switch)
    requires e.WellFormed() && Inv(s, size) && (s.pending != [] ==> s.first <= e.now)
    ensures var t := Step(s, size, e);
            t.pending != [] ==> t.first <= e.now < t.first + MAX_AGE_NS
  {
    var s1 := FlushIfAged(s, e.now, e.ageOk);
    AgeKeeps(s, size, e.now, e.ageOk);
    AgeIsYoung(s, e.now, e.ageOk);
    if e.sample != [] {
      hide FlushIfAged;
      AppendIsYoung(s1, size, e.now, e.sample[0], e.fullOk, e.sizeOk);
    }
  }

  lemma AgeIsYoung(s: State, now: nat, ok: bool)
    requires Submissions(s) && now < U64 && (s.pending != [] ==> s.first <= now)
    ensures var t := FlushIfAged(s, now, ok);
            t.pending != [] ==> t.first <= now < t.first + MAX_AGE_NS
  {
  }

  lemma AppendIsYoung(s: State, size: nat, now: nat, p: Packed, fullOk: bool, sizeOk: bool)
    requires Inv(s, size) && (s.pending != [] ==> s.first <= now < s.first + MAX_AGE_NS)
    ensures var t := Append(s, size, now, p, fullOk, sizeOk);
            t.pending != [] ==> t.first <= now < t.first + MAX_AGE_NS
  {
  }

  /** The batch holds exactly the slices sampled from the switch at `i` on, and its
      first timestamp is the time of that switch. */
  ghost predicate Oldest(events: seq<Switch>, i: nat, s: State) {
    i < |events| && events[i].sample != [] && s.first == events[i].now && s.pending == Sampled(events[i..])
  }

  lemma {:induction false} PendingSince(size: nat, events: seq<Switch>)
    requires forall e :: e in events ==> e.WellFormed()
    ensures var s := Run(size, events);
            s.pending != [] ==> exists i :: Oldest(events, i, s)
    decreases |events|
  {
    hide Step, Oldest;
    if events != [] {
      var n := |events| - 1;
      var s := Run(size, events[..n]);
      RunConserves(size, events[..n]);
      PendingSince(size, events[..n]);
      StepShape(s, size, events[n]);
      var t := Run(size, events);
      if t.pending != [] {
        if t.pending == events[n].sample && t.first == events[n].now {
          OldestNow(events, t);
        } else {
          var i :| Oldest(events[..n], i, s);
          OldestStays(events, i, s, t);
        }
      }
    }
  }

  lemma OldestNow(events: seq<Switch>, t: State)
    requires events != [] && t.pending != []
    requires t.pending == events[|events| - 1].sample && t.first == events[|events| - 1].now
    ensures Oldest(events, |events| - 1, t)
  {
    var last := events[|events| - 1..];
    assert last == [events[|events| - 1]] && last[..0] == [];
  }

  lemma OldestStays(events: seq<Switch>, i: nat, s: State, t: State)
    requires events != [] && Oldest(events[..|events| - 1], i, s)
    requires t.pending == s.pending + events[|events| - 1].sample && t.first == s.first
    ensures Oldest(events, i, t)
  {
    var n := |events| - 1;
    assert events[i..][..n - i] == events[..n][i..];
  }

  /** What one switch does to the batch: it submits everything that is ten milliseconds
      old, then whatever reaches the batch size between 1 and 128, and nothing else. */
  lemma StepShape(s: State, size: nat, e: Switch)
    requires Inv(s, size) && e.WellFormed()
    ensures var t := Step(s, size, e);
            var aged := s.pending != [] && (e.now - s.first) % 0x1_0000_0000_0000_0000 >= 10_000_000;
            var rest := if aged then [] else s.pending;
            var full := e.sample != [] && (|rest| + 1 >= size || |rest| + 1 == 128);
            && t.pending == (if full then [] else rest + e.sample)
            && (t.pending != [] ==> t.first == if rest == [] then e.now else s.first)
            && t.emitted == s.emitted + (if aged then [Emission(s.pending, e.ageOk)] else [])
                            + (if full then [Emission(rest + e.sample, e.sizeOk)] else [])
  {
    hide FlushIfAged, Append, Inv;
    AgedShape(s, size, e.now, e.ageOk);
    AgeKeeps(s, size, e.now, e.ageOk);
    if e.sample != [] {
      assert e.sample == [e.sample[0]];
      AppendShape(FlushIfAged(s, e.now, e.ageOk), size, e.now, e.sample[0], e.fullOk, e.sizeOk);
    }
  }

  lemma AgedShape(s: State, size: nat, now: nat, ok: bool)
    requires Inv(s, size)
    ensures var t := FlushIfAged(s, now, ok);
            if s.pending != [] && (now - s.first) % 0x1_0000_0000_0000_0000 >= 10_000_000
            then t.pending == [] && t.emitted == s.emitted + [Emission(s.pending, ok)]
            else t == s
  {
  }

  lemma AppendShape(s: State, size: nat, now: nat, p: Packed, fullOk: bool, sizeOk: bool)
    requires Inv(s, size)
    ensures var t := Append(s, size, now, p, fullOk, sizeOk);
            if |s.pending| + 1 >= size || |s.pending| + 1 == 128
            then t.pending == [] && t.emitted == s.emitted + [Emission(s.pending + [p], sizeOk)]
            else
              && t.pending == s.pending + [p] && t.emitted == s.emitted
              && t.first == if s.pending == [] then now else s.first
  {
  }

  /** With a monotone clock every slice that is still in the batch after a switch was
      sampled less than 10 ms before it. */
  lemma PendingIsRecent(size: nat, events: seq<Switch>) returns (i: nat)
    requires events != [] && Monotone(events) && forall e :: e in events ==> e.WellFormed()
    requires Run(size, events).pending != []
    ensures i < |events| && Run(size, events).pending == Sampled(events[i..])
    ensures events[|events| - 1].now < events[i].now + 10_000_000
  {
    hide Run;
    PendingSince(size, events);
    PendingIsYoung(size, events);
    i :| Oldest(events, i, Run(size, events));
  }

  // --------------------------------------------------------- the CPU's batch

  /** Header bytes of the batch as they stand in memory. */
  function MemoryHeader(magic: nat, extraCount: nat, count: nat): (s: seq<byte>)
    ensures |s| == HEADER_SIZE
  {
    LittleEndian(magic, 2) + LittleEndian(extraCount, 2) + LittleEndian(count, 4)
  }

  /** Whatever the ring pads it with, the record decodes to these slices. */
  ghost predicate Carries(record: seq<byte>, slices: seq<Packed>) {
    forall padding: seq<byte> {:trigger record + padding} ::
      |padding| == RawSampleSize(|record|) - |record| ==> Decoded(record + padding, false) == Ok(slices)
  }

  function Delivered(emitted: seq<Emission>): seq<seq<Packed>> {
    if emitted == [] then []
    else var e := emitted[|emitted| - 1];
         Delivered(emitted[..|emitted| - 1]) + if e.ok then [e.slices] else []
  }

  class SliceBatch {
    const size: nat
    const slots: array<Packed>
    var magic: nat
    var extraCount: nat
    var count: nat
    var firstTs: nat
    var failures: nat
    var failedSlices: nat
    /** Records accepted by the perf ring. */
    var ring: seq<seq<byte>>
    ghost var emitted: seq<Emission>

    constructor (size: nat)
      ensures Valid() && fresh(slots) && this.size == size
      ensures Model() == EMPTY
    {
      this.size := size;
      slots := new Packed[MAX_SLICES](_ => Packed(0, 0));
      magic, extraCount, count, firstTs := 0, 0, 0, 0;
      failures, failedSlices, ring, emitted := 0, 0, [], [];
    }

    ghost predicate Valid()
      reads this, slots
    {
      && slots.Length == MAX_SLICES
      && count <= MAX_SLICES
      && AllFit(slots[..count])
      && (count > 0 ==> magic == BATCH_MAGIC && extraCount == EXTRA_BITMAP_U64_COUNT)
      && |ring| == |Delivered(emitted)|
      && forall i :: 0 <= i < |ring| ==> Carries(ring[i], Delivered(emitted)[i])
    }

    ghost function Model(): State
      requires slots.Length == MAX_SLICES && count <= MAX_SLICES
      reads this, slots
    {
      State(slots[..count], firstTs, emitted, failures, failedSlices)
    }

    /** The per-CPU map value as user space reads it at shutdown. */
    function MapValue(): seq<byte>
      reads this, slots
    {
      MemoryHeader(magic, extraCount, count) + SlotBytes(slots[..])
    }

    method EmitBatch(ok: bool)
      requires Valid()
      modifies this`count, this`firstTs, this`failures, this`failedSlices, this`ring, this`emitted
      ensures Valid() && Model() == Emit(old(Model()), ok)
    {
      var submitted := count;
      if submitted == 0 || submitted > MAX_SLICES {
        return;
      }
      var record := MemoryHeader(magic, extraCount, submitted) + SlotBytes(slots[..OutputCapacity(submitted)]);
      ghost var slices := slots[..submitted];
      RecordCarries(submitted, slots[..], record);
      assert slots[..][..submitted] == slices;
      count := 0;
      firstTs := 0;
      emitted := emitted + [Emission(slices, ok)];
      assert emitted[..|emitted| - 1] == old(emitted);
      if ok {
        ring := ring + [record];
      } else {
        failures := failures + 1;
        failedSlices := failedSlices + submitted;
      }
    }

    method FlushAged(now: nat, ok: bool)
      requires Valid()
      modifies this`count, this`firstTs, this`failures, this`failedSlices, this`ring, this`emitted
      ensures Valid() && Model() == FlushIfAged(old(Model()), now, ok)
    {
      var first := firstTs;
      if first == 0 || (now - first) % U64 < MAX_AGE_NS {
        return;
      }
      EmitBatch(ok);
    }

    /** The slot write of `append_sampled_slice`. */
    method Store(now: nat, p: Packed)
      requires Valid() && p.Fits() && count < MAX_SLICES
      modifies this`magic, this`extraCount, this`count, this`firstTs, slots
      ensures Valid() && Model() == Stored(old(Model()), now, p)
    {
      hide Carries, Packed.Fits;
      var index := count;
      ghost var before := slots[..count];
      if index == 0 {
        magic := BATCH_MAGIC;
        extraCount := EXTRA_BITMAP_U64_COUNT;
        firstTs := now;
      }
      slots[index] := p;
      count := index + 1;
      assert slots[..count] == before + [p];
    }

    method AppendSlice(now: nat, p: Packed, fullOk: bool, sizeOk: bool)
      requires Valid() && p.Fits()
      modifies this, slots
      ensures Valid() && Model() == Append(old(Model()), size, now, p, fullOk, sizeOk)
    {
      hide Carries, Packed.Fits;
      var batchSize := size;
      if batchSize < 1 {
        batchSize := 1;
      }
      if batchSize > MAX_SLICES {
        batchSize := MAX_SLICES;
      }
      if count >= MAX_SLICES {
        EmitBatch(fullOk);
      }
      Store(now, p);
      if count >= batchSize {
        EmitBatch(sizeOk);
      }
    }

    /** The batch side of one `sched_switch`. */
    method OnSwitch(e: Switch)
      requires Valid() && e.WellFormed() && AllFit(e.sample)
      modifies this, slots
      ensures Valid() && Model() == Step(old(Model()), size, e)
    {
      FlushAged(e.now, e.ageOk);
      if |e.sample| > 0 {
        AppendSlice(e.now, e.sample[0], e.fullOk, e.sizeOk);
      }
    }

    /** What the shutdown drain finds: exactly the slices still pending. */
    lemma TailIsPending()
      requires Valid()
      ensures var t := Tail(magic, extraCount, count, slots[..]);
              t.Valid() && t.Image() == MapValue() && t.slots[..t.count] == Model().pending
    {
      assert slots[..][..count] == slots[..count];
    }
  }

  lemma RecordCarries(count: nat, slots: seq<Packed>, record: seq<byte>)
    requires 1 <= count <= MAX_SLICES && |slots| == MAX_SLICES && AllFit(slots[..count])
    requires record == Payload(count, slots)
    ensures Carries(record, slots[..count])
  {
    forall padding: seq<byte> | |padding| == RawSampleSize(|record|) - |record|
      ensures Decoded(record + padding, false) == Ok(slots[..count])
    {
      EmittedBatchDecodes(count, slots, padding);
    }
  }

  // -------------------------------------------------------------- tail drain

  /** One per-CPU map value: the slots and how many of them are live. */
  datatype Tail = Tail(magic: nat, extraCount: nat, count: nat, slots: seq<Packed>) {
    ghost predicate Valid() {
      && |slots| == MAX_SLICES && count <= MAX_SLICES && AllFit(slots[..count])
      && (count > 0 ==> magic == BATCH_MAGIC && extraCount == EXTRA_BITMAP_U64_COUNT)
    }

    function Image(): (s: seq<byte>)
      ensures |slots| == MAX_SLICES ==> |s| == VALUE_SIZE
    {
      MemoryHeader(magic, extraCount, count) + SlotBytes(slots)
    }
  }

  function Images(tails: seq<Tail>): seq<byte> {
    if tails == [] then [] else tails[0].Image() + Images(tails[1..])
  }

  /** What the drain must hand over: the live slices of every nonempty CPU. */
  ghost function LiveSlices(tails: seq<Tail>): seq<seq<Packed>>
    requires forall t :: t in tails ==> t.Valid()
  {
    if tails == [] then []
    else
      var t := tails[0];
      assert t.Valid();
      (if t.count == 0 then [] else [t.slots[..t.count]]) + LiveSlices(tails[1..])
  }

  /** `drainSchedBlameTailBatches`: split the concatenated per-CPU values, skip the
      empty ones, decode the rest and stop at the first malformed one. */
  function DrainTails(values: seq<byte>): (seq<seq<Packed>>, Result<()>)
    decreases |values|
  {
    if |values| % VALUE_SIZE != 0 then ([], Err(BadSize))
    else if values == [] then ([], Ok(()))
    else
      var raw := values[..VALUE_SIZE];
      if FromLittleEndian(raw[4..8]) == 0 then DrainTails(values[VALUE_SIZE..])
      else
        match Decoded(raw, true)
        case Err(e) => ([], Err(e))
        case Ok(slices) =>
          var rest := DrainTails(values[VALUE_SIZE..]);
          ([slices] + rest.0, rest.1)
  }

  method DrainTailBatches(values: seq<byte>) returns (batches: seq<seq<Packed>>, error: Result<()>)
    ensures batches == DrainTails(values).0 && error == DrainTails(values).1
  {
    batches := [];
    if |values| % VALUE_SIZE != 0 {
      return [], Err(BadSize);
    }
    var at := 0;
    assert values[at..] == values;
    while at < |values|
      invariant 0 <= at <= |values| && (|values| - at) % VALUE_SIZE == 0
      invariant DrainTails(values).0 == batches + DrainTails(values[at..]).0
      invariant DrainTails(values).1 == DrainTails(values[at..]).1
    {
      var raw := values[at..at + VALUE_SIZE];
      assert values[at..][..VALUE_SIZE] == raw;
      assert values[at..][VALUE_SIZE..] == values[at + VALUE_SIZE..];
      at := at + VALUE_SIZE;
      if FromLittleEndian(raw[4..8]) != 0 {
        var decoded := Decoded(raw, true);
        if decoded.Err? {
          return batches, Err(decoded.error);
        }
        batches := batches + [decoded.value];
      }
    }
    assert values[at..] == [];
    return batches, Ok(());
  }

  lemma CountField(t: Tail)
    requires t.Valid()
    ensures FromLittleEndian(t.Image()[4..8]) == t.count
  {
    WidthValues();
    ReadWritten(t.count, 4);
    assert t.Image()[4..8] == LittleEndian(t.count, 4);
  }

  lemma LiveTailDecodes(t: Tail)
    requires t.Valid()
    ensures t.count > 0 ==> Decoded(t.Image(), true) == Ok(t.slots[..t.count])
  {
    if t.count > 0 {
      TailValueDecodes(t.count, t.slots);
    }
  }

  lemma {:induction false} ImagesLength(tails: seq<Tail>)
    requires forall t :: t in tails ==> t.Valid()
    ensures |Images(tails)| == |tails| * VALUE_SIZE
  {
    if tails != [] {
      assert tails[0].Valid();
      ImagesLength(tails[1..]);
    }
  }

  /** The final drain recovers exactly the slices still batched on every CPU. */
  lemma {:induction false} TailDrainIsComplete(tails: seq<Tail>)
    requires forall t :: t in tails ==> t.Valid()
    ensures DrainTails(Images(tails)).0 == LiveSlices(tails)
    ensures DrainTails(Images(tails)).1 == Ok(())
  {
    ImagesLength(tails);
    if tails != [] {
      assert tails[0].Valid();
      ImagesLength(tails[1..]);
      var values := Images(tails);
      hide Decoded, Tail.Image, FromLittleEndian;
      assert values[..VALUE_SIZE] == tails[0].Image();
      assert values[VALUE_SIZE..] == Images(tails[1..]);
      CountField(tails[0]);
      LiveTailDecodes(tails[0]);
      assert |values| % VALUE_SIZE == 0;
      TailDrainIsComplete(tails[1..]);
    }
  }
}
