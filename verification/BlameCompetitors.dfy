/** The competitors named in a report: one charge per cgroup, largest first. */
module BlameCompetitors {
  import opened PackedSlices
  import opened BlameIndex
  import opened BlameCharges
  import opened BlameMachine

  const TOP: nat := 10

  datatype Charge = Charge(cgid: nat, amount: nat)

  // ------------------------------------------------------------ aggregation

  function Counts(e: Entry, amount: nat): bool {
    e.known && amount != 0 && e.cgid != 0
  }

  /** The charges of the first `n` css ids, added up per cgroup. */
  function ByCgroup(css: seq<Entry>, matrix: seq<nat>, t: nat, n: nat): map<nat, nat>
    requires |css| == MAX_CSS_IDS && |matrix| == PAIRS && t < MAX_TARGETS && n <= MAX_CSS_IDS
  {
    if n == 0 then map[]
    else
      var m, e, amount := ByCgroup(css, matrix, t, n - 1), css[n - 1], matrix[ChargeIndex(n - 1, t)];
      if Counts(e, amount) then m[e.cgid := AmountOf(m, e.cgid) + amount] else m
  }

  function AmountOf(m: map<nat, nat>, cgid: nat): nat {
    if cgid in m then m[cgid] else 0
  }

  /** All the amounts of a map together. */
  ghost function MapSum(m: map<nat, nat>): nat
    decreases |m.Keys|
  {
    if m == map[] then 0
    else
      var k :| k in m;
      var rest := m - {k};
      assert rest.Keys == m.Keys - {k};
      m[k] + MapSum(rest)
  }

  lemma {:induction false} MapSumTake(m: map<nat, nat>, k: nat)
    requires k in m
    ensures MapSum(m) == m[k] + MapSum(m - {k})
    decreases |m.Keys|
  {
    var j :| j in m && MapSum(m) == m[j] + MapSum(m - {j});
    if j != k {
      var rest := m - {j};
      assert rest.Keys == m.Keys - {j};
      MapSumTake(rest, k);
      var other := m - {k};
      assert other.Keys == m.Keys - {k};
      MapSumTake(other, j);
      assert rest - {k} == other - {j};
    }
  }

  lemma MapSumAdd(m: map<nat, nat>, k: nat, amount: nat)
    ensures MapSum(m[k := AmountOf(m, k) + amount]) == MapSum(m) + amount
  {
    var after := m[k := AmountOf(m, k) + amount];
    MapSumTake(after, k);
    assert after - {k} == m - {k};
    if k in m {
      MapSumTake(m, k);
    } else {
      assert m - {k} == m;
    }
  }

  /** What one cgroup is charged for a target: the charges of the known css ids that
      belong to it. */
  function CgroupCharge(css: seq<Entry>, matrix: seq<nat>, t: nat, cgid: nat, n: nat): nat
    requires |css| == MAX_CSS_IDS && |matrix| == PAIRS && t < MAX_TARGETS && n <= MAX_CSS_IDS
  {
    if n == 0 then 0
    else
      CgroupCharge(css, matrix, t, cgid, n - 1)
      + if css[n - 1].known && css[n - 1].cgid == cgid then matrix[ChargeIndex(n - 1, t)] else 0
  }

  /** The map holds exactly the cgroups that are charged, each with its own charge. */
  lemma {:induction false} ByCgroupIsOwn(css: seq<Entry>, matrix: seq<nat>, t: nat, n: nat, cgid: nat)
    requires |css| == MAX_CSS_IDS && |matrix| == PAIRS && t < MAX_TARGETS && n <= MAX_CSS_IDS
    ensures var m, charge := ByCgroup(css, matrix, t, n), CgroupCharge(css, matrix, t, cgid, n);
            (cgid in m <==> cgid != 0 && charge != 0) && (cgid in m ==> m[cgid] == charge)
  {
    if n > 0 {
      ByCgroupIsOwn(css, matrix, t, n - 1, cgid);
    }
  }

  /** Nothing is lost by adding up per cgroup. */
  lemma {:induction false} ByCgroupSum(s: State, t: nat, n: nat)
    requires Good(s) && t < MAX_TARGETS && n <= MAX_CSS_IDS
    ensures MapSum(ByCgroup(s.css, s.l.matrix, t, n)) == Column(s.l.matrix, t, n)
  {
    if n > 0 {
      ByCgroupSum(s, t, n - 1);
      var e, amount := s.css[n - 1], s.l.matrix[ChargeIndex(n - 1, t)];
      assert EntryOk(e, s.targets);
      MapSumAdd(ByCgroup(s.css, s.l.matrix, t, n - 1), e.cgid, amount);
    }
  }

  /** In every reachable state the competitor charges of a target, before the list is
      cut, add up to its external time. */
  lemma CompetitorsSumToExternal(s: State, t: nat)
    requires Good(s) && t < MAX_TARGETS
    ensures MapSum(ByCgroup(s.css, s.l.matrix, t, MAX_CSS_IDS)) == s.l.times[t].external
  {
    ByCgroupSum(s, t, MAX_CSS_IDS);
  }

  // ---------------------------------------------------------------- ranking

  predicate Better(a: Charge, b: Charge) {
    a.amount > b.amount || (a.amount == b.amount && a.cgid < b.cgid)
  }

  ghost predicate Ranked(s: seq<Charge>) {
    forall i, j :: 0 <= i < j < |s| ==> Better(s[i], s[j])
  }

  function Insert(x: Charge, s: seq<Charge>): seq<Charge> {
    if s == [] || Better(x, s[0]) then [x] + s else [s[0]] + Insert(x, s[1..])
  }

  /** What sorting with the source's comparison yields. */
  function Sorted(s: seq<Charge>): seq<Charge> {
    if s == [] then [] else Insert(s[0], Sorted(s[1..]))
  }

  lemma {:induction false} InsertPermutes(x: Charge, s: seq<Charge>)
    ensures multiset(Insert(x, s)) == multiset(s) + multiset{x} && |Insert(x, s)| == |s| + 1
  {
    if s != [] && !Better(x, s[0]) {
      InsertPermutes(x, s[1..]);
      assert s == [s[0]] + s[1..];
    }
  }

  lemma Prepend(x: Charge, s: seq<Charge>)
    requires Ranked(s) && (s != [] ==> Better(x, s[0]))
    ensures Ranked([x] + s)
  {
    forall i, j | 0 <= i < j < |s| + 1
      ensures Better(([x] + s)[i], ([x] + s)[j])
    {
      assert i > 0 ==> Better(s[i - 1], s[j - 1]);
      assert j > 1 ==> Better(s[0], s[j - 1]);
    }
  }

  lemma {:induction false} InsertRanks(x: Charge, s: seq<Charge>)
    requires Ranked(s) && forall y :: y in s ==> y.cgid != x.cgid
    ensures Ranked(Insert(x, s))
    ensures Insert(x, s) != [] && (Insert(x, s)[0] == x || (s != [] && Insert(x, s)[0] == s[0]))
  {
    if s == [] || Better(x, s[0]) {
      Prepend(x, s);
    } else {
      InsertRanks(x, s[1..]);
      Prepend(s[0], Insert(x, s[1..]));
    }
  }

  ghost predicate Distinct(s: seq<Charge>) {
    forall i, j :: 0 <= i < j < |s| ==> s[i].cgid != s[j].cgid
  }

  lemma {:induction false} SortedRanks(s: seq<Charge>)
    requires Distinct(s)
    ensures Ranked(Sorted(s)) && multiset(Sorted(s)) == multiset(s) && |Sorted(s)| == |s|
  {
    if s != [] {
      SortedRanks(s[1..]);
      var r := Sorted(s[1..]);
      forall y | y in r
        ensures y.cgid != s[0].cgid
      {
        assert y in multiset(r);
        assert y in s[1..];
      }
      InsertRanks(s[0], r);
      InsertPermutes(s[0], r);
      assert s == [s[0]] + s[1..];
    }
  }

  // -------------------------------------------------------------------- top

  ghost predicate Listed(top: seq<Charge>, cgid: nat) {
    exists i :: 0 <= i < |top| && top[i].cgid == cgid
  }

  /** The ten best charges of a map: every kept one beats every dropped one. */
  ghost predicate IsTop(top: seq<Charge>, m: map<nat, nat>) {
    && |top| == (if |m| <= TOP then |m| else TOP)
    && (forall i :: 0 <= i < |top| ==> top[i].cgid in m && m[top[i].cgid] == top[i].amount)
    && Ranked(top)
    && (forall cgid, i :: cgid in m && !Listed(top, cgid) && 0 <= i < |top| ==>
          Better(top[i], Charge(cgid, m[cgid])))
  }

  lemma BeatsLater(top: seq<Charge>, m: map<nat, nat>, other: seq<Charge>, i: nat)
    requires IsTop(top, m) && IsTop(other, m) && i < |top| && top[..i] == other[..i]
    ensures top[i] == other[i] || Better(top[i], other[i])
  {
    var x := other[i];
    forall j | 0 <= j < i
      ensures top[j].cgid != x.cgid
    {
      assert top[j] == top[..i][j] == other[..i][j] == other[j];
      assert Better(other[j], x) && m[top[j].cgid] == top[j].amount;
    }
    if Listed(top, x.cgid) {
      var j :| 0 <= j < |top| && top[j].cgid == x.cgid;
      assert top[j] == x;
    }
  }

  lemma TopAgrees(a: seq<Charge>, b: seq<Charge>, m: map<nat, nat>, n: nat)
    requires IsTop(a, m) && IsTop(b, m) && n < |a| && a[..n] == b[..n]
    ensures a[n] == b[n]
  {
    BeatsLater(a, m, b, n);
    BeatsLater(b, m, a, n);
  }

  lemma TopLength(top: seq<Charge>, m: map<nat, nat>)
    requires IsTop(top, m)
    ensures |top| == if |m| <= TOP then |m| else TOP
  {
  }

  /** The list depends on the charges alone, not on the order of the map. */
  lemma {:induction false} TopIsUnique(a: seq<Charge>, b: seq<Charge>, m: map<nat, nat>, n: nat)
    requires IsTop(a, m) && IsTop(b, m) && n <= |a|
    ensures |a| == |b| && a[..n] == b[..n]
    ensures n == |a| ==> a == b
  {
    hide IsTop;
    TopLength(a, m);
    TopLength(b, m);
    if n > 0 {
      TopIsUnique(a, b, m, n - 1);
      TopAgrees(a, b, m, n - 1);
    }
  }

  /** A list of all the items of the map. */
  ghost predicate Lists(s: seq<Charge>, m: map<nat, nat>) {
    && Distinct(s) && |s| == |m|
    && (forall x :: x in s ==> x.cgid in m && m[x.cgid] == x.amount)
    && (forall cgid :: cgid in m ==> Charge(cgid, m[cgid]) in s)
  }

  lemma SortedTop(s: seq<Charge>, m: map<nat, nat>)
    requires Lists(s, m)
    ensures var r := Sorted(s);
            IsTop(if |r| > TOP then r[..TOP] else r, m)
  {
    SortedRanks(s);
    var r := Sorted(s);
    var top := if |r| > TOP then r[..TOP] else r;
    forall i | 0 <= i < |r|
      ensures r[i].cgid in m && m[r[i].cgid] == r[i].amount
    {
      assert r[i] in multiset(r);
    }
    forall cgid, i | cgid in m && !Listed(top, cgid) && 0 <= i < |top|
      ensures Better(top[i], Charge(cgid, m[cgid]))
    {
      assert Charge(cgid, m[cgid]) in multiset(s);
      assert Charge(cgid, m[cgid]) in r;
      forall k | 0 <= k < |top|
        ensures r[k].cgid != cgid
      {
        assert r[k] == top[k];
      }
      var j :| 0 <= j < |r| && r[j] == Charge(cgid, m[cgid]);
    }
  }

  /** At most ten cgroups, each with its own charge, the largest first and the smaller
      id first among equals; no cgroup that is left out is charged more than a listed
      one, and one is left out only when the list is full. */
  ghost predicate Largest(top: seq<Charge>, css: seq<Entry>, matrix: seq<nat>, t: nat)
    requires |css| == MAX_CSS_IDS && |matrix| == PAIRS && t < MAX_TARGETS
  {
    && |top| <= 10
    && (forall i :: 0 <= i < |top| ==>
          && top[i].cgid != 0 && top[i].amount != 0
          && top[i].amount == CgroupCharge(css, matrix, t, top[i].cgid, MAX_CSS_IDS))
    && (forall i, j :: 0 <= i < j < |top| ==>
          top[i].amount > top[j].amount || (top[i].amount == top[j].amount && top[i].cgid < top[j].cgid))
    && (forall cgid: nat :: cgid != 0 && !Listed(top, cgid) && CgroupCharge(css, matrix, t, cgid, MAX_CSS_IDS) != 0 ==>
          |top| == 10 && NoneBelow(top, CgroupCharge(css, matrix, t, cgid, MAX_CSS_IDS)))
  }

  ghost predicate NoneBelow(top: seq<Charge>, amount: nat) {
    forall i :: 0 <= i < |top| ==> top[i].amount >= amount
  }

  lemma TopIsLargest(top: seq<Charge>, css: seq<Entry>, matrix: seq<nat>, t: nat)
    requires |css| == MAX_CSS_IDS && |matrix| == PAIRS && t < MAX_TARGETS
    requires IsTop(top, ByCgroup(css, matrix, t, MAX_CSS_IDS))
    ensures Largest(top, css, matrix, t)
  {
    hide ByCgroup, CgroupCharge;
    var m := ByCgroup(css, matrix, t, MAX_CSS_IDS);
    forall i | 0 <= i < |top|
      ensures top[i].cgid != 0 && top[i].amount != 0
      ensures top[i].amount == CgroupCharge(css, matrix, t, top[i].cgid, MAX_CSS_IDS)
    {
      ByCgroupIsOwn(css, matrix, t, MAX_CSS_IDS, top[i].cgid);
    }
    forall cgid: nat | cgid != 0 && !Listed(top, cgid) && CgroupCharge(css, matrix, t, cgid, MAX_CSS_IDS) != 0
      ensures |top| == 10 && NoneBelow(top, CgroupCharge(css, matrix, t, cgid, MAX_CSS_IDS))
    {
      ByCgroupIsOwn(css, matrix, t, MAX_CSS_IDS, cgid);
      if |m| <= TOP {
        AllListed(top, m, cgid);
      }
    }
  }

  /** A list as long as the map leaves nothing out. */
  lemma AllListed(top: seq<Charge>, m: map<nat, nat>, cgid: nat)
    requires |top| == |m| && cgid in m && Ranked(top)
    requires forall i :: 0 <= i < |top| ==> top[i].cgid in m && m[top[i].cgid] == top[i].amount
    ensures Listed(top, cgid)
  {
    if !Listed(top, cgid) {
      forall i, j | 0 <= i < j < |top|
        ensures top[i].cgid != top[j].cgid
      {
        assert Better(top[i], top[j]);
      }
      IdsFit(top, m.Keys - {cgid});
    }
  }

  lemma {:induction false} IdsFit(top: seq<Charge>, ids: set<nat>)
    requires forall i :: 0 <= i < |top| ==> top[i].cgid in ids
    requires Distinct(top)
    ensures |top| <= |ids|
  {
    if top != [] {
      IdsFit(top[1..], ids - {top[0].cgid});
    }
  }

  /** `topExternalCompetitors`; the map is iterated in any order. */
  method TopExternalCompetitors(css: array<Entry>, matrix: array<nat>, t: nat) returns (top: seq<Charge>)
    requires css.Length == MAX_CSS_IDS && matrix.Length == PAIRS && t < MAX_TARGETS
    ensures IsTop(top, ByCgroup(css[..], matrix[..], t, MAX_CSS_IDS))
    ensures Largest(top, css[..], matrix[..], t)
  {
    hide Largest, IsTop;
    var m: map<nat, nat> := map[];
    var n: nat := 0;
    while n < MAX_CSS_IDS
      invariant n <= MAX_CSS_IDS && m == ByCgroup(css[..], matrix[..], t, n)
    {
      var amount := matrix[ChargeIndex(n, t)];
      if css[n].known && amount != 0 && css[n].cgid != 0 {
        m := m[css[n].cgid := (if css[n].cgid in m then m[css[n].cgid] else 0) + amount];
      }
      n := n + 1;
    }
    var all := ListItems(m);
    SortedTop(all, m);
    top := Sorted(all);
    if |top| > TOP {
      top := top[..TOP];
    }
    TopIsLargest(top, css[..], matrix[..], t);
  }

  method ListItems(m: map<nat, nat>) returns (all: seq<Charge>)
    ensures Lists(all, m)
  {
    all := [];
    var left := m.Keys;
    while left != {}
      invariant left <= m.Keys && |all| + |left| == |m| && Distinct(all)
      invariant forall x :: x in all ==> x.cgid in m && x.cgid !in left && m[x.cgid] == x.amount
      invariant forall cgid :: cgid in m && cgid !in left ==> Charge(cgid, m[cgid]) in all
      decreases |left|
    {
      var cgid :| cgid in left;
      assert forall i :: 0 <= i < |all| ==> all[i] in all;
      all := all + [Charge(cgid, m[cgid])];
      left := left - {cgid};
    }
  }
}
