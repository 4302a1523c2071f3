/** The ring of external contention ratios kept for each target, and its P99. */
module RatioHistory {
  import opened Options

  const SIZE: nat := 600
  const MINIMUM_SAMPLES: nat := 60
  const PERCENTILE: nat := 99

  // ---------------------------------------------------------------- sorting

  predicate Ascending(s: seq<real>) {
    forall i, j :: 0 <= i < j < |s| ==> s[i] <= s[j]
  }

  function Insert(x: real, s: seq<real>): (r: seq<real>)
    ensures |r| == |s| + 1
  {
    if s == [] || x <= s[0] then [x] + s else [s[0]] + Insert(x, s[1..])
  }

  /** What sorting a sequence of floats yields. */
  function Sorted(s: seq<real>): (r: seq<real>)
    ensures |r| == |s|
  {
    if s == [] then [] else Insert(s[0], Sorted(s[1..]))
  }

  function AtMost(s: seq<real>, v: real): nat {
    if s == [] then 0 else AtMost(s[1..], v) + if s[0] <= v then 1 else 0
  }

  function Below(s: seq<real>, v: real): nat {
    if s == [] then 0 else Below(s[1..], v) + if s[0] < v then 1 else 0
  }

  lemma {:induction false} InsertAscends(x: real, s: seq<real>)
    requires Ascending(s)
    ensures Ascending(Insert(x, s))
  {
    if s != [] && s[0] < x {
      InsertAscends(x, s[1..]);
      InsertBounds(x, s[1..], s[0]);
      Prepend(s[0], Insert(x, s[1..]));
    } else {
      Prepend(x, s);
    }
  }

  lemma Prepend(x: real, s: seq<real>)
    requires Ascending(s) && forall i :: 0 <= i < |s| ==> x <= s[i]
    ensures Ascending([x] + s)
  {
    forall i, j | 0 <= i < j < |s| + 1
      ensures ([x] + s)[i] <= ([x] + s)[j]
    {
      assert i > 0 ==> s[i - 1] <= s[j - 1];
    }
  }

  lemma {:induction false} InsertPermutes(x: real, s: seq<real>)
    ensures multiset(Insert(x, s)) == multiset(s) + multiset{x}
  {
    if s != [] && s[0] < x {
      InsertPermutes(x, s[1..]);
      assert s == [s[0]] + s[1..];
    }
  }

  lemma {:induction false} InsertBounds(x: real, s: seq<real>, low: real)
    requires low <= x && forall i :: 0 <= i < |s| ==> low <= s[i]
    ensures forall i :: 0 <= i < |Insert(x, s)| ==> low <= Insert(x, s)[i]
  {
    if s != [] && s[0] < x {
      InsertBounds(x, s[1..], low);
    }
  }

  lemma {:induction false} InsertCounts(x: real, s: seq<real>, v: real)
    ensures AtMost(Insert(x, s), v) == AtMost(s, v) + if x <= v then 1 else 0
    ensures Below(Insert(x, s), v) == Below(s, v) + if x < v then 1 else 0
  {
    if s != [] && s[0] < x {
      InsertCounts(x, s[1..], v);
      assert ([s[0]] + Insert(x, s[1..]))[1..] == Insert(x, s[1..]);
    } else {
      assert ([x] + s)[1..] == s;
    }
  }

  lemma {:induction false} SortedSorts(s: seq<real>, v: real)
    ensures Ascending(Sorted(s)) && multiset(Sorted(s)) == multiset(s)
    ensures AtMost(Sorted(s), v) == AtMost(s, v) && Below(Sorted(s), v) == Below(s, v)
  {
    if s != [] {
      SortedSorts(s[1..], v);
      InsertAscends(s[0], Sorted(s[1..]));
      InsertPermutes(s[0], Sorted(s[1..]));
      InsertCounts(s[0], Sorted(s[1..]), v);
      assert s == [s[0]] + s[1..];
    }
  }

  /** In an ascending sequence the first `k + 1` elements are at most element `k`,
      and only elements before it can be below it. */
  lemma {:induction false} RankCounts(s: seq<real>, k: nat)
    requires Ascending(s) && k < |s|
    ensures AtMost(s, s[k]) >= k + 1 && Below(s, s[k]) <= k
  {
    if k == 0 {
      NoneBelow(s, s[0]);
    } else {
      RankCounts(s[1..], k - 1);
    }
  }

  lemma {:induction false} NoneBelow(s: seq<real>, v: real)
    requires forall i :: 0 <= i < |s| ==> v <= s[i]
    ensures Below(s, v) == 0
  {
    if s != [] {
      NoneBelow(s[1..], v);
    }
  }

  lemma {:induction false} CountsJoin(a: seq<real>, b: seq<real>, v: real)
    ensures AtMost(a + b, v) == AtMost(a, v) + AtMost(b, v)
    ensures Below(a + b, v) == Below(a, v) + Below(b, v)
  {
    if a == [] {
      assert a + b == b;
    } else {
      CountsJoin(a[1..], b, v);
      assert (a + b)[1..] == a[1..] + b;
    }
  }

  // ------------------------------------------------------------------- ring

  /** The last ratios, as many as the ring holds. */
  function Recent(added: seq<real>): seq<real> {
    if |added| <= SIZE then added else added[|added| - SIZE..]
  }

  /** `values`, `next` and `count` as the source keeps them. */
  datatype History = History(values: seq<real>, next: nat, count: nat)

  const EMPTY := History(seq(SIZE, _ => 0.0), 0, 0)

  /** The ring holds exactly the recent ratios, oldest first from `next` when full. */
  ghost predicate Holds(h: History, added: seq<real>) {
    && |h.values| == SIZE && h.next < SIZE && h.count <= SIZE
    && h.count == |Recent(added)|
    && (h.count < SIZE ==> h.next == h.count && h.values[..h.count] == Recent(added))
    && (h.count == SIZE ==> h.values[h.next..] + h.values[..h.next] == Recent(added))
  }

  function Add(h: History, value: real): History
    requires h.next < |h.values| == SIZE
  {
    History(h.values[h.next := value], (h.next + 1) % SIZE, if h.count < SIZE then h.count + 1 else h.count)
  }

  lemma HoldsShape(h: History, added: seq<real>)
    requires Holds(h, added)
    ensures |h.values| == SIZE && h.next < SIZE && h.count <= SIZE
  {
  }

  lemma EmptyHolds()
    ensures Holds(EMPTY, [])
  {
  }

  lemma AddHolds(h: History, added: seq<real>, value: real)
    requires Holds(h, added)
    ensures Holds(Add(h, value), added + [value])
  {
    hide Recent;
    RecentAdd(added, value);
    RecentShort(added);
    if h.count < SIZE {
      AddToRoom(h, value);
    } else {
      AddToFull(h, value);
    }
  }

  lemma RecentShort(added: seq<real>)
    ensures |Recent(added)| == (if |added| < SIZE then |added| else SIZE)
    ensures |added| < SIZE ==> Recent(added) == added
  {
  }

  lemma Wraps(next: nat)
    requires next < SIZE
    ensures (next + 1) % SIZE == if next + 1 < SIZE then next + 1 else 0
  {
  }

  lemma AddToRoom(h: History, value: real)
    requires |h.values| == SIZE && h.next == h.count < SIZE
    ensures var r := Add(h, value);
            && r.count == h.count + 1 && r.next == (if r.count < SIZE then r.count else 0)
            && r.values[..r.count] == h.values[..h.count] + [value]
            && (r.count == SIZE ==> r.values[r.next..] + r.values[..r.next] == h.values[..h.count] + [value])
  {
    Wraps(h.next);
    var r := Add(h, value);
    assert r.values[..r.count] == h.values[..h.count] + [value];
    assert r.count == SIZE ==> r.values[0..] + r.values[..0] == r.values[..r.count];
  }

  lemma AddToFull(h: History, value: real)
    requires |h.values| == SIZE == h.count && h.next < SIZE
    ensures var r := Add(h, value);
            && r.count == SIZE && r.next < SIZE
            && r.values[r.next..] + r.values[..r.next] == (h.values[h.next..] + h.values[..h.next])[1..] + [value]
  {
    Wraps(h.next);
    RotateAdd(h.values, h.next, value, (h.next + 1) % SIZE);
  }

  lemma RecentAdd(added: seq<real>, value: real)
    ensures Recent(added + [value])
         == if |added| < SIZE then added + [value] else Recent(added)[1..] + [value]
  {
  }

  /** Overwriting the oldest value of a full ring drops it and appends the new one. */
  lemma RotateAdd(values: seq<real>, next: nat, value: real, from: nat)
    requires next < |values| && from == if next + 1 < |values| then next + 1 else 0
    ensures var after := values[next := value];
            after[from..] + after[..from] == (values[next..] + values[..next])[1..] + [value]
  {
    var after := values[next := value];
    assert values[next..] == [values[next]] + values[next + 1..];
    assert (values[next..] + values[..next])[1..] == values[next + 1..] + values[..next];
    if next + 1 < |values| {
      assert after[next + 1..] == values[next + 1..];
      assert after[..next + 1] == values[..next] + [value];
    } else {
      assert after == values[..next] + [value];
    }
  }

  function Rank(n: nat): nat {
    (PERCENTILE * n + 100 - 1) / 100
  }

  lemma RankInRange(n: nat)
    requires n > 0
    ensures 1 <= Rank(n) <= n
    ensures 100 * Rank(n) >= 99 * n && 100 * (Rank(n) - 1) < 99 * n
  {
  }

  function P99(h: History): Option<real>
    requires h.count <= |h.values|
  {
    if h.count < MINIMUM_SAMPLES then None
    else
      RankInRange(h.count);
      Some(Sorted(h.values[..h.count])[Rank(h.count) - 1])
  }

  /** At least 99% of the ratios are at most `v`, and fewer than 99% are below it. */
  ghost predicate NearestRank(ratios: seq<real>, v: real) {
    v in ratios && 100 * AtMost(ratios, v) >= 99 * |ratios| && 100 * Below(ratios, v) < 99 * |ratios|
  }

  /** The P99 of a ring is the nearest-rank percentile of the recent ratios. */
  lemma P99IsNearestRank(h: History, added: seq<real>)
    requires Holds(h, added)
    ensures P99(h).Some? <==> |Recent(added)| >= MINIMUM_SAMPLES
    ensures P99(h).Some? ==> NearestRank(Recent(added), P99(h).value)
  {
    hide Holds, Recent, AtMost, Below, Rank, Sorted;
    HoldsCount(h, added);
    if P99(h).Some? {
      RankInRange(h.count);
      assert |h.values[..h.count]| == h.count;
      RankedValue(h.values[..h.count], P99(h).value);
      RotationCounts(h, added, P99(h).value);
    }
  }

  lemma HoldsCount(h: History, added: seq<real>)
    requires Holds(h, added)
    ensures h.count == |Recent(added)| <= |h.values|
  {
  }

  lemma RankedValue(s: seq<real>, v: real)
    requires s != [] && 1 <= Rank(|s|) <= |s| && v == Sorted(s)[Rank(|s|) - 1]
    ensures NearestRank(s, v)
  {
    hide AtMost, Below, Sorted, Rank, Ascending;
    RankInRange(|s|);
    SortedSorts(s, v);
    RankCounts(Sorted(s), Rank(|s|) - 1);
    assert v in multiset(Sorted(s));
  }

  lemma RotationCounts(h: History, added: seq<real>, v: real)
    requires Holds(h, added)
    ensures AtMost(h.values[..h.count], v) == AtMost(Recent(added), v)
    ensures Below(h.values[..h.count], v) == Below(Recent(added), v)
    ensures v in h.values[..h.count] ==> v in Recent(added)
  {
    if h.count == SIZE {
      var a, b := h.values[..h.next], h.values[h.next..];
      assert h.values[..h.count] == a + b;
      CountsJoin(a, b, v);
      CountsJoin(b, a, v);
    }
  }

  lemma NearestRankIsUnique(ratios: seq<real>, a: real, b: real)
    requires NearestRank(ratios, a) && NearestRank(ratios, b)
    ensures a == b
  {
    if a < b {
      AtMostBelow(ratios, a, b);
    } else if b < a {
      AtMostBelow(ratios, b, a);
    }
  }

  /** The P99 depends on the recent ratios alone, not on how the ring is rotated. */
  lemma P99DependsOnRecent(h: History, k: History, added: seq<real>, others: seq<real>)
    requires Holds(h, added) && Holds(k, others) && Recent(added) == Recent(others)
    ensures P99(h) == P99(k)
  {
    hide Holds, P99, NearestRank;
    HoldsShape(h, added);
    HoldsShape(k, others);
    P99IsNearestRank(h, added);
    P99IsNearestRank(k, others);
    if P99(h).Some? {
      NearestRankIsUnique(Recent(added), P99(h).value, P99(k).value);
    }
  }

  lemma {:induction false} AtMostBelow(s: seq<real>, a: real, b: real)
    requires a < b
    ensures AtMost(s, a) <= Below(s, b)
  {
    if s != [] {
      AtMostBelow(s[1..], a, b);
    }
  }

  class Ring {
    const values: array<real>
    var next: nat
    var count: nat
    ghost var added: seq<real>

    constructor ()
      ensures Valid() && fresh(values) && added == []
    {
      values := new real[SIZE](_ => 0.0);
      next, count, added := 0, 0, [];
      new;
      assert Contents() == EMPTY;
    }

    ghost function Contents(): History
      reads this, values
    {
      History(values[..], next, count)
    }

    ghost predicate Valid()
      reads this, values
    {
      values.Length == SIZE && Holds(Contents(), added)
    }

    method AddRatio(value: real)
      requires Valid()
      modifies this, values
      ensures Valid() && added == old(added) + [value] && Contents() == Add(old(Contents()), value)
    {
      hide Holds, Recent;
      HoldsShape(Contents(), added);
      AddHolds(Contents(), added, value);
      ghost var before := values[..];
      values[next] := value;
      assert values[..] == before[next := value];
      next := (next + 1) % values.Length;
      if count < values.Length {
        count := count + 1;
      }
      added := added + [value];
    }

    method Percentile() returns (v: real, ready: bool)
      requires Valid()
      ensures ready == (|Recent(added)| >= MINIMUM_SAMPLES)
      ensures ready ==> P99(Contents()) == Some(v)
    {
      if count < MINIMUM_SAMPLES {
        return 0.0, false;
      }
      var sorted := Sorted(values[..count]);
      RankInRange(count);
      return sorted[(PERCENTILE * |sorted| + 100 - 1) / 100 - 1], true;
    }
  }
}
