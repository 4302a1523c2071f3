/** Branch-free bucket classification of IO latencies and sizes, and the restored
    51-bit submission stamp. */
module IoHistogram {
  import opened Words

  const HALF: nat := 0x8000_0000_0000_0000
  const US: nat := 1000
  const MS: nat := 1000000
  const SEC: nat := 1000000000
  const KIB: nat := 1024

  /** `io_histogram_above`: the top bit of (threshold - value) | value on 64 bits. */
  function Above(value: nat, threshold: nat): nat {
    Or((threshold - value) % U64, value) / HALF
  }

  lemma HalfIsPower()
    ensures Pow2(63) == HALF
  {
    Pow2Values();
    assert Pow2(64) == 2 * Pow2(63);
  }

  /** For thresholds below 2^63 it is the comparison, for every 64-bit value. */
  lemma AboveIsGreater(value: nat, threshold: nat)
    requires value < U64 && threshold < HALF
    ensures Above(value, threshold) == if value > threshold then 1 else 0
  {
    HalfIsPower();
    Pow2Values();
    var distance := (threshold - value) % U64;
    if value > threshold {
      DivModUnique(threshold - value, U64, -1, U64 - (value - threshold));
      OrAtLeast(distance, value);
      OrBound(distance, value, 64);
      assert value >= HALF || distance >= HALF;
      DivModUnique(Or(distance, value), HALF, 1, Or(distance, value) - HALF);
    } else {
      DivModUnique(threshold - value, U64, 0, threshold - value);
      OrBound(distance, value, 63);
    }
  }

  // ---------------------------------------------------------------- buckets

  const LATENCY_THRESHOLDS: seq<nat> :=
    [50 * US, 100 * US, 250 * US, 500 * US, MS, 2 * MS, 4 * MS, 8 * MS, 16 * MS, 32 * MS, 64 * MS, 128 * MS,
     256 * MS, 512 * MS, SEC, 2 * SEC]

  const SIZE_THRESHOLDS: seq<nat> := [4 * KIB, 16 * KIB, 64 * KIB, 256 * KIB, 1024 * KIB]

  /** How many thresholds a value exceeds. */
  function Exceeded(value: nat, thresholds: seq<nat>): (n: nat)
    ensures n <= |thresholds|
  {
    if thresholds == [] then 0
    else (if value > thresholds[0] then 1 else 0) + Exceeded(value, thresholds[1..])
  }

  /** The branch-free sum over a list of thresholds. */
  function Sum(value: nat, thresholds: seq<nat>): nat {
    if thresholds == [] then 0 else Above(value, thresholds[0]) + Sum(value, thresholds[1..])
  }

  lemma {:induction false} SumIsExceeded(value: nat, thresholds: seq<nat>)
    requires value < U64 && forall i :: 0 <= i < |thresholds| ==> thresholds[i] < HALF
    ensures Sum(value, thresholds) == Exceeded(value, thresholds)
  {
    if thresholds != [] {
      AboveIsGreater(value, thresholds[0]);
      SumIsExceeded(value, thresholds[1..]);
    }
  }

  lemma {:induction false} ExceededMonotone(a: nat, b: nat, thresholds: seq<nat>)
    requires a <= b
    ensures Exceeded(a, thresholds) <= Exceeded(b, thresholds)
  {
    if thresholds != [] {
      ExceededMonotone(a, b, thresholds[1..]);
    }
  }

  predicate Ascending(thresholds: seq<nat>) {
    forall i, j :: 0 <= i < j < |thresholds| ==> thresholds[i] < thresholds[j]
  }

  /** With ascending thresholds the bucket is the interval that holds the value. */
  lemma {:induction false} ExceededIsInterval(value: nat, thresholds: seq<nat>)
    requires Ascending(thresholds)
    ensures var n := Exceeded(value, thresholds);
            && (forall i :: 0 <= i < n ==> thresholds[i] < value)
            && (forall i :: n <= i < |thresholds| ==> value <= thresholds[i])
  {
    if thresholds != [] {
      ExceededIsInterval(value, thresholds[1..]);
      if value <= thresholds[0] {
        assert forall i :: 0 < i < |thresholds| ==> thresholds[1..][i - 1] == thresholds[i];
        NoneExceeded(value, thresholds[1..]);
      }
    }
  }

  lemma {:induction false} NoneExceeded(value: nat, thresholds: seq<nat>)
    requires forall i :: 0 <= i < |thresholds| ==> value <= thresholds[i]
    ensures Exceeded(value, thresholds) == 0
  {
    if thresholds != [] {
      NoneExceeded(value, thresholds[1..]);
    }
  }

  /** `io_latency_bucket`: -1 is no sample. */
  function LatencyBucket(start: nat, end: nat, queueStage: bool): int {
    if start == 0 || end == 0 then -1
    else if end < start then (if queueStage then 0 else -1)
    else
      var ns := end - start;
      if ns <= 50 * US then 0 else 1 + Sum(ns, LATENCY_THRESHOLDS[1..])
  }

  function SizeBucket(bytes: nat): nat {
    if bytes <= 4 * KIB then 0 else Sum(bytes, SIZE_THRESHOLDS)
  }

  lemma LatencyThresholds()
    ensures Ascending(LATENCY_THRESHOLDS) && |LATENCY_THRESHOLDS| == 16
    ensures forall i :: 0 <= i < |LATENCY_THRESHOLDS| ==> LATENCY_THRESHOLDS[i] < HALF
  {
  }

  /** The latency bucket is the number of thresholds exceeded; a missing time is no
      sample, and time that ran backwards is one only for the queue stage. */
  lemma LatencyBucketIsExceeded(start: nat, end: nat, queueStage: bool)
    requires start < U64 && end < U64
    ensures LatencyBucket(start, end, queueStage)
         == if start > 0 && end >= start then Exceeded(end - start, LATENCY_THRESHOLDS)
            else if start > 0 && end > 0 && queueStage then 0
            else -1
    ensures -1 <= LatencyBucket(start, end, queueStage) < 17
  {
    LatencyThresholds();
    if 0 < start <= end {
      var ns, rest := end - start, LATENCY_THRESHOLDS[1..];
      if ns <= 50 * US {
        NoneExceeded(ns, LATENCY_THRESHOLDS);
      } else {
        SumIsExceeded(ns, rest);
      }
    }
  }

  lemma LatencyBucketMonotone(start: nat, end: nat, later: nat, queueStage: bool)
    requires 0 < start <= end <= later < U64
    ensures LatencyBucket(start, end, queueStage) <= LatencyBucket(start, later, queueStage)
  {
    LatencyBucketIsExceeded(start, end, queueStage);
    LatencyBucketIsExceeded(start, later, queueStage);
    ExceededMonotone(end - start, later - start, LATENCY_THRESHOLDS);
  }

  lemma SizeBucketIsExceeded(bytes: nat)
    requires bytes < U64
    ensures SizeBucket(bytes) == Exceeded(bytes, SIZE_THRESHOLDS) < 6
  {
    if bytes <= 4 * KIB {
      NoneExceeded(bytes, SIZE_THRESHOLDS);
    } else {
      SumIsExceeded(bytes, SIZE_THRESHOLDS);
    }
  }

  // ------------------------------------------------------------------ stamp

  const STAMP: nat := 0x8_0000_0000_0000

  lemma StampIsPower()
    ensures Pow2(51) == STAMP
  {
    Pow2Values();
    Pow2Add(20, 20);
    Pow2Add(40, 11);
    assert Pow2(12) == 2 * Pow2(11);
  }

  /** `io_latency_bio_queue_ns` for a bio that keeps 51 bits of its submission. */
  function QueueNs(issue: nat, now: nat): nat {
    var stamp := And(issue, STAMP - 1);
    if stamp == 0 then 0
    else
      var age := And((now - stamp) % U64, STAMP - 1);
      if age <= now then now - age else 0
  }

  lemma AgeIsMod(now: nat, stamp: nat)
    ensures And((now - stamp) % U64, STAMP - 1) == (now - stamp) % STAMP
  {
    StampIsPower();
    var x := (now - stamp) % U64;
    AndLowMask(x, 51);
    var q := (now - stamp) / U64;
    assert now - stamp == x + q * 0x2000 * STAMP;
    ModShift(now - stamp, q * 0x2000, STAMP);
  }

  /** The stamp restores the true submission exactly when it is less than 2^51 ns old
      and its low bits are not all zero. */
  lemma StampRestoresIff(submitted: nat, now: nat, high: nat)
    requires submitted <= now
    ensures QueueNs(submitted % STAMP + high * STAMP, now) == submitted
       <==> submitted == 0 || (submitted % STAMP != 0 && now - submitted < STAMP)
  {
    StampIsPower();
    var issue := submitted % STAMP + high * STAMP;
    AndLowMask(issue, 51);
    DivModUnique(issue, STAMP, high, submitted % STAMP);
    var stamp := submitted % STAMP;
    if stamp != 0 {
      AgeIsMod(now, stamp);
      assert now - submitted == (now - stamp) - (submitted / STAMP) * STAMP;
      ModShift(now - stamp, submitted / STAMP, STAMP);
      ModAtMost(now - submitted);
    }
  }

  lemma ModAtMost(x: nat)
    ensures x % STAMP <= x && (x % STAMP == x <==> x < STAMP)
  {
  }
}
