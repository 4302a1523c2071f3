/** Choosing the containers that occupy the target slots: the highlighted one, then
    the owners that survive in place, then a shuffle of the rest. */
module TargetSelection {
  import opened Options
  import opened PackedSlices
  import opened BlameTargets

  datatype Result<T> = Ok(value: T) | Err

  /** A container as selection reads it; a zero `cgid` is a missing CPU css, and
      `highlighted` says that the configured selector matches it. */
  datatype Container = Missing | Container(cgid: nat, normal: bool, qosAllowed: bool, highlighted: bool) {
    predicate HasCss() {
      Container? && cgid != 0
    }
  }

  datatype Scope = All | Normal | Invalid

  type Containers = map<string, Container>

  function TargetOf(id: string, c: Container): Target
    requires c.HasCss()
  {
    Target(id, c.cgid, 0, false)
  }

  // -------------------------------------------------------------- highlight

  ghost function Highlighted(containers: Containers): set<string> {
    set id | id in containers && containers[id].Container? && containers[id].highlighted
  }

  /** `schedBlameFindHighlightTarget`, once a selector is configured; the container
      map is iterated in any order. */
  method FindHighlight(containers: Containers, required: bool) returns (r: Result<Option<Target>>)
    ensures |Highlighted(containers)| > 1 ==> r == Err
    ensures Highlighted(containers) == {} ==> r == if required then Err else Ok(None)
    ensures forall id :: Highlighted(containers) == {id} ==>
              r == if containers[id].HasCss() then Ok(Some(TargetOf(id, containers[id])))
                   else if required then Err else Ok(None)
  {
    var matches, selected := CountHighlighted(containers);
    if matches == 0 {
      return if required then Err else Ok(None);
    }
    if matches > 1 {
      return Err;
    }
    Singleton(Highlighted(containers), selected);
    if !containers[selected].HasCss() {
      return if required then Err else Ok(None);
    }
    return Ok(Some(TargetOf(selected, containers[selected])));
  }

  method CountHighlighted(containers: Containers) returns (matches: nat, selected: string)
    ensures matches == |Highlighted(containers)| && (matches >= 1 ==> selected in Highlighted(containers))
  {
    hide Highlighted;
    var left := containers.Keys;
    selected, matches := "", 0;
    HighlightedLeft(containers);
    while left != {}
      invariant left <= containers.Keys && matches == |Highlighted(containers) - left|
      invariant matches >= 1 ==> selected in Highlighted(containers)
      decreases |left|
    {
      var id :| id in left;
      HighlightedNext(containers, left, id);
      left := left - {id};
      if containers[id].Container? && containers[id].highlighted {
        matches := matches + 1;
        selected := id;
      }
    }
    assert Highlighted(containers) - {} == Highlighted(containers);
  }

  lemma HighlightedLeft(containers: Containers)
    ensures Highlighted(containers) - containers.Keys == {}
  {
  }

  lemma HighlightedNext(containers: Containers, left: set<string>, id: string)
    requires id in left && left <= containers.Keys
    ensures var h := Highlighted(containers);
            if containers[id].Container? && containers[id].highlighted
            then id in h && |h - (left - {id})| == |h - left| + 1
            else h - (left - {id}) == h - left
  {
    var h := Highlighted(containers);
    if id in h {
      assert h - (left - {id}) == (h - left) + {id};
    } else {
      assert h - (left - {id}) == h - left;
    }
  }

  lemma Singleton(s: set<string>, x: string)
    requires |s| == 1 && x in s
    ensures s == {x}
  {
    assert |s - {x}| == 0;
  }

  // ------------------------------------------------------------- candidates

  predicate Allowed(c: Container, scope: Scope)
    requires c.Container?
  {
    (scope == All || (scope == Normal && c.normal)) && c.qosAllowed
  }

  function Candidates(containers: Containers, scope: Scope, highlight: Option<Target>): map<string, Target> {
    map id | id in containers && containers[id].HasCss() && Allowed(containers[id], scope)
             && (highlight.Some? ==> id != highlight.value.container)
      :: TargetOf(id, containers[id])
  }

  /** Every candidate is stored under its own container and has a cgroup. */
  ghost predicate Named(c: map<string, Target>) {
    forall id :: id in c ==> c[id].container == id && c[id].cgid != 0
  }

  // -------------------------------------------------------------- survivors

  predicate Survives(o: Target, left: map<string, Target>) {
    o.container in left && o.SameOwner(left[o.container])
  }

  /** The candidates that no slot below `n` has kept. */
  function LeftAfter(old': seq<Target>, c: map<string, Target>, first: nat, n: nat): map<string, Target>
    requires n <= |old'|
  {
    if n <= first then c
    else
      var left := LeftAfter(old', c, first, n - 1);
      if Survives(old'[n - 1], left) then left - {old'[n - 1].container} else left
  }

  function Kept(old': seq<Target>, c: map<string, Target>, base: seq<Target>, first: nat, n: nat): (r: seq<Target>)
    requires n <= |old'| == |base|
    ensures |r| == |base|
  {
    if n <= first then base
    else
      var r, left := Kept(old', c, base, first, n - 1), LeftAfter(old', c, first, n - 1);
      if Survives(old'[n - 1], left) then r[n - 1 := left[old'[n - 1].container]] else r
  }

  /** Put the list into the inactive slots from `i` on. */
  function Fill(slots: seq<Target>, order: seq<Target>, i: nat): (r: seq<Target>)
    requires i <= |slots|
    ensures |r| == |slots|
    decreases |slots| - i
  {
    if i == |slots| || order == [] then slots
    else if slots[i].Active() then Fill(slots, order, i + 1)
    else Fill(slots[i := order[0]], order[1..], i + 1)
  }

  /** The list holds every target of the map exactly once. */
  ghost predicate Enumerates(order: seq<Target>, left: map<string, Target>) {
    && |order| == |left|
    && (forall i :: 0 <= i < |order| ==> order[i].container in left && left[order[i].container] == order[i])
    && (forall i, j :: 0 <= i < j < |order| ==> order[i].container != order[j].container)
  }

  // ------------------------------------------------------------- properties

  /** Slots from `first` on hold distinct candidates that are no longer in `left`. */
  ghost predicate Placed(slots: seq<Target>, c: map<string, Target>, left: map<string, Target>, first: nat) {
    && (forall i :: first <= i < |slots| && slots[i].Active() ==>
          slots[i].container in c && c[slots[i].container] == slots[i] && slots[i].container !in left)
    && (forall i, j :: first <= i < j < |slots| && slots[i].Active() && slots[j].Active() ==>
          slots[i].container != slots[j].container)
  }

  lemma {:induction false} LeftIsPart(old': seq<Target>, c: map<string, Target>, first: nat, n: nat)
    requires n <= |old'|
    ensures forall id :: id in LeftAfter(old', c, first, n) ==> id in c && LeftAfter(old', c, first, n)[id] == c[id]
  {
    if n > first {
      LeftIsPart(old', c, first, n - 1);
    }
  }

  lemma {:induction false} KeptPlaced(old': seq<Target>, c: map<string, Target>, base: seq<Target>, first: nat, n: nat)
    requires n <= |old'| == |base| && Named(c) && forall i :: first <= i < |base| ==> base[i] == NO_TARGET
    ensures Placed(Kept(old', c, base, first, n), c, LeftAfter(old', c, first, n), first)
    ensures forall i :: first <= i < |base| && n <= i ==> Kept(old', c, base, first, n)[i] == NO_TARGET
    ensures forall i :: 0 <= i < first && i < |base| ==> Kept(old', c, base, first, n)[i] == base[i]
  {
    if n > first {
      KeptPlaced(old', c, base, first, n - 1);
      LeftIsPart(old', c, first, n - 1);
    }
  }

  /** Kept slots are never touched by the fill, and neither are slots below. */
  lemma {:induction false} FillKeeps(slots: seq<Target>, order: seq<Target>, i: nat, k: nat)
    requires i <= |slots| && k < |slots| && (k < i || slots[k].Active())
    ensures Fill(slots, order, i)[k] == slots[k]
    decreases |slots| - i
  {
    if i < |slots| && order != [] {
      if slots[i].Active() {
        FillKeeps(slots, order, i + 1, k);
      } else {
        FillKeeps(slots[i := order[0]], order[1..], i + 1, k);
      }
    }
  }

  /** The list can be placed: its targets are distinct candidates, and no slot holds
      one of them. */
  ghost predicate Placeable(slots: seq<Target>, order: seq<Target>, c: map<string, Target>, first: nat) {
    && (forall k :: 0 <= k < |order| ==> order[k].container in c && c[order[k].container] == order[k])
    && (forall j, k :: 0 <= j < k < |order| ==> order[j].container != order[k].container)
    && (forall i, k :: first <= i < |slots| && slots[i].Active() && 0 <= k < |order| ==>
          slots[i].container != order[k].container)
  }

  lemma {:induction false} FillPlaced(slots: seq<Target>, order: seq<Target>, c: map<string, Target>,
                                      first: nat, i: nat)
    requires first <= i <= |slots| && Placed(slots, c, map[], first) && Placeable(slots, order, c, first)
    ensures Placed(Fill(slots, order, i), c, map[], first)
    decreases |slots| - i
  {
    if i < |slots| && order != [] {
      if slots[i].Active() {
        FillPlaced(slots, order, c, first, i + 1);
      } else {
        FillPlaced(slots[i := order[0]], order[1..], c, first, i + 1);
      }
    }
  }

  /** The whole selection as a function of the shuffled rest. */
  function Selected(old': seq<Target>, c: map<string, Target>, base: seq<Target>, first: nat,
                    order: seq<Target>): seq<Target>
    requires first <= |old'| == |base|
  {
    Fill(Kept(old', c, base, first, |old'|), order, first)
  }

  /** What slot 0 holds before the candidates are placed. */
  function Base(highlight: Option<Target>): (r: seq<Target>)
    ensures |r| == MAX_TARGETS
  {
    var empty := seq(MAX_TARGETS, _ => NO_TARGET);
    if highlight.Some? then empty[0 := highlight.value] else empty
  }

  ghost predicate NoContainerTwice(slots: seq<Target>) {
    forall i, j :: 0 <= i < j < |slots| && slots[i].Active() && slots[j].Active() ==>
      slots[i].container != slots[j].container
  }

  /** For every shuffle: no container is assigned twice, every other slot holds a
      candidate, and a configured highlight reserves slot 0. */
  lemma SelectionIsSafe(old': seq<Target>, c: map<string, Target>, highlight: Option<Target>, first: nat,
                        order: seq<Target>)
    requires |old'| == MAX_TARGETS && first <= 1 && (highlight.Some? ==> first == 1)
    requires Named(c) && (highlight.Some? ==> highlight.value.container !in c)
    requires Enumerates(order, LeftAfter(old', c, first, MAX_TARGETS))
    ensures var r := Selected(old', c, Base(highlight), first, order);
            && |r| == MAX_TARGETS && NoContainerTwice(r)
            && (forall i :: first <= i < |r| && r[i].Active() ==> r[i].container in c && c[r[i].container] == r[i])
            && (first == 1 ==> r[0] == if highlight.Some? then highlight.value else NO_TARGET)
  {
    var base := Base(highlight);
    var slots, left := Kept(old', c, base, first, MAX_TARGETS), LeftAfter(old', c, first, MAX_TARGETS);
    KeptPlaced(old', c, base, first, MAX_TARGETS);
    LeftIsPart(old', c, first, MAX_TARGETS);
    FillPlaced(slots, order, c, first, first);
    if first == 1 {
      FillKeeps(slots, order, first, 0);
    }
  }

  /** A container that may be chosen: it has a CPU css, its kind and its QoS level are in
      scope, and it is not the highlighted one. */
  ghost predicate Eligible(containers: Containers, scope: Scope, highlight: Option<Target>, id: string) {
    && id in containers && containers[id].Container? && containers[id].cgid > 0 && containers[id].qosAllowed
    && (scope.All? || (scope.Normal? && containers[id].normal))
    && (highlight.None? || highlight.value.container != id)
  }

  /** For every shuffle: past the highlight's slot only eligible containers are chosen,
      each with its own cgroup and nothing known about it yet. */
  lemma ChosenAreEligible(old': seq<Target>, containers: Containers, scope: Scope, highlight: Option<Target>,
                          first: nat, order: seq<Target>)
    requires |old'| == MAX_TARGETS && first <= 1 && (highlight.Some? ==> first == 1)
    requires Enumerates(order, LeftAfter(old', Candidates(containers, scope, highlight), first, MAX_TARGETS))
    ensures forall id :: id in Candidates(containers, scope, highlight) <==>
              Eligible(containers, scope, highlight, id)
    ensures var r := Selected(old', Candidates(containers, scope, highlight), Base(highlight), first, order);
            forall i :: first <= i < |r| && r[i].Active() ==>
              && Eligible(containers, scope, highlight, r[i].container)
              && r[i].cgid == containers[r[i].container].cgid && r[i].cssId == 0 && !r[i].cssKnown
  {
    hide LeftAfter, Selected, Enumerates, Base;
    CandidatesNamed(containers, scope, highlight);
    SelectionIsSafe(old', Candidates(containers, scope, highlight), highlight, first, order);
  }

  /** The first slot that holds a container keeps it while its cgroup is the same. */
  lemma {:induction false} StillLeft(old': seq<Target>, c: map<string, Target>, first: nat, n: nat, id: string)
    requires n <= |old'| && id in c
    requires forall j :: first <= j < n ==> old'[j].container != id
    ensures id in LeftAfter(old', c, first, n) && LeftAfter(old', c, first, n)[id] == c[id]
  {
    if n > first {
      StillLeft(old', c, first, n - 1, id);
    }
  }

  lemma {:induction false} KeptStays(old': seq<Target>, c: map<string, Target>, base: seq<Target>, first: nat,
                                     n: nat, k: nat)
    requires k < n <= |old'| == |base|
    ensures Kept(old', c, base, first, n)[k] == Kept(old', c, base, first, k + 1)[k]
  {
    if n > k + 1 {
      KeptStays(old', c, base, first, n - 1, k);
    }
  }

  /** A surviving owner stays in its slot, whatever the shuffle. */
  lemma SurvivorsStay(old': seq<Target>, c: map<string, Target>, highlight: Option<Target>, first: nat,
                      order: seq<Target>, i: nat)
    requires |old'| == MAX_TARGETS && first <= i < MAX_TARGETS && Named(c)
    requires old'[i].Active() && old'[i].container in c && c[old'[i].container].cgid == old'[i].cgid
    requires forall j :: first <= j < i ==> old'[j].container != old'[i].container
    ensures Selected(old', c, Base(highlight), first, order)[i] == c[old'[i].container]
  {
    var base := Base(highlight);
    StillLeft(old', c, first, i, old'[i].container);
    KeptStays(old', c, base, first, MAX_TARGETS, i);
    FillKeeps(Kept(old', c, base, first, MAX_TARGETS), order, first, i);
  }

  // -------------------------------------------------------------- occupancy

  function ActiveFrom(slots: seq<Target>, i: nat): nat
    requires i <= |slots|
    decreases |slots| - i
  {
    if i == |slots| then 0 else (if slots[i].Active() then 1 else 0) + ActiveFrom(slots, i + 1)
  }

  function FreeFrom(slots: seq<Target>, i: nat): (n: nat)
    requires i <= |slots|
    ensures n + ActiveFrom(slots, i) == |slots| - i
    decreases |slots| - i
  {
    if i == |slots| then 0 else (if slots[i].Active() then 0 else 1) + FreeFrom(slots, i + 1)
  }

  function ActiveIn(order: seq<Target>): nat {
    if order == [] then 0 else (if order[0].Active() then 1 else 0) + ActiveIn(order[1..])
  }

  function Min(a: nat, b: nat): nat {
    if a <= b then a else b
  }

  lemma {:induction false} ActiveFromSame(a: seq<Target>, b: seq<Target>, i: nat)
    requires i <= |a| == |b| && a[i..] == b[i..]
    ensures ActiveFrom(a, i) == ActiveFrom(b, i) && FreeFrom(a, i) == FreeFrom(b, i)
    decreases |a| - i
  {
    if i < |a| {
      assert a[i] == a[i..][0] == b[i..][0] == b[i];
      assert a[i + 1..] == a[i..][1..] && b[i + 1..] == b[i..][1..];
      ActiveFromSame(a, b, i + 1);
    }
  }

  /** The fill places as many of the list as there are free slots, and only the active
      ones count. */
  lemma {:induction false} FillCount(slots: seq<Target>, order: seq<Target>, i: nat)
    requires i <= |slots|
    ensures ActiveFrom(Fill(slots, order, i), i)
         == ActiveFrom(slots, i) + ActiveIn(order[..Min(|order|, FreeFrom(slots, i))])
    decreases |slots| - i
  {
    if i < |slots| && order != [] {
      if slots[i].Active() {
        FillKeeps(slots, order, i + 1, i);
        FillCount(slots, order, i + 1);
      } else {
        var next := slots[i := order[0]];
        FillKeeps(next, order[1..], i + 1, i);
        FillCount(next, order[1..], i + 1);
        ActiveFromSame(slots, next, i + 1);
        var n := Min(|order|, FreeFrom(slots, i));
        assert order[..n][1..] == order[1..][..n - 1];
      }
    }
  }

  /** The candidates that would make a slot active. */
  function Usable(c: map<string, Target>): set<string> {
    c.Keys - {""}
  }

  lemma {:induction false} ActiveFromSet(slots: seq<Target>, first: nat, k: nat, t: Target)
    requires first <= k < |slots| && !slots[k].Active()
    ensures ActiveFrom(slots[k := t], first) == ActiveFrom(slots, first) + if t.Active() then 1 else 0
    decreases |slots| - first
  {
    if first < k {
      ActiveFromSet(slots, first + 1, k, t);
    } else {
      ActiveFromSame(slots, slots[k := t], first + 1);
    }
  }

  lemma {:induction false} NoneActive(slots: seq<Target>, first: nat)
    requires first <= |slots| && forall i :: first <= i < |slots| ==> slots[i] == NO_TARGET
    ensures ActiveFrom(slots, first) == 0
    decreases |slots| - first
  {
    if first < |slots| {
      NoneActive(slots, first + 1);
    }
  }

  /** Keeping an owner moves one candidate from the rest to its slot. */
  lemma {:induction false} KeptCount(old': seq<Target>, c: map<string, Target>, base: seq<Target>, first: nat, n: nat)
    requires first <= |old'| == |base| && n <= |old'| && Named(c)
    requires forall i :: first <= i < |base| ==> base[i] == NO_TARGET
    ensures ActiveFrom(Kept(old', c, base, first, n), first) + |Usable(LeftAfter(old', c, first, n))| == |Usable(c)|
  {
    hide Usable, Survives, ActiveFrom, Placed, Named;
    if n <= first {
      NoneActive(base, first);
    } else {
      KeptCount(old', c, base, first, n - 1);
      KeptPlaced(old', c, base, first, n - 1);
      LeftIsNamed(old', c, first, n - 1);
      var r, left := Kept(old', c, base, first, n - 1), LeftAfter(old', c, first, n - 1);
      if Survives(old'[n - 1], left) {
        KeepOne(r, left, first, n - 1, old'[n - 1]);
      }
    }
  }

  lemma LeftIsNamed(old': seq<Target>, c: map<string, Target>, first: nat, n: nat)
    requires n <= |old'| && Named(c)
    ensures Named(LeftAfter(old', c, first, n))
  {
    LeftIsPart(old', c, first, n);
  }

  lemma KeepOne(r: seq<Target>, left: map<string, Target>, first: nat, k: nat, o: Target)
    requires first <= k < |r| && r[k] == NO_TARGET && Named(left) && Survives(o, left)
    ensures ActiveFrom(r[k := left[o.container]], first) + |Usable(left - {o.container})|
         == ActiveFrom(r, first) + |Usable(left)|
  {
    ActiveFromSet(r, first, k, left[o.container]);
    var after := left - {o.container};
    assert Usable(after) == Usable(left) - {o.container};
  }

  lemma {:induction false} ActiveInAll(order: seq<Target>)
    requires forall k :: 0 <= k < |order| ==> order[k].Active()
    ensures ActiveIn(order) == |order|
  {
    if order != [] {
      ActiveInAll(order[1..]);
    }
  }

  /** Of a list without repeats at most one target is unusable. */
  lemma {:induction false} ActiveInDistinct(order: seq<Target>)
    requires forall k :: 0 <= k < |order| ==> order[k].cgid != 0
    requires forall j, k :: 0 <= j < k < |order| ==> order[j].container != order[k].container
    ensures ActiveIn(order) == |order| - if exists k :: 0 <= k < |order| && order[k].container == "" then 1 else 0
  {
    if order != [] {
      if order[0].container == "" {
        ActiveInAll(order[1..]);
      } else {
        ActiveInDistinct(order[1..]);
        if k :| 0 <= k < |order| && order[k].container == "" {
          assert order[1..][k - 1].container == "";
        } else {
          ActiveInAll(order[1..]);
        }
      }
    }
  }

  lemma OrderCovers(order: seq<Target>, left: map<string, Target>, id: string)
    requires Enumerates(order, left) && id in left
    ensures exists k :: 0 <= k < |order| && order[k].container == id
  {
    if forall k :: 0 <= k < |order| ==> order[k].container != id {
      IdsFit(order, left.Keys - {id});
    }
  }

  lemma {:induction false} IdsFit(order: seq<Target>, ids: set<string>)
    requires forall k :: 0 <= k < |order| ==> order[k].container in ids
    requires forall j, k :: 0 <= j < k < |order| ==> order[j].container != order[k].container
    ensures |order| <= |ids|
  {
    if order != [] {
      IdsFit(order[1..], ids - {order[0].container});
    }
  }

  /** Some list holds the map's targets, starting with a given one. */
  lemma {:induction false} SomeOrder(left: map<string, Target>, id: string) returns (order: seq<Target>)
    requires Named(left) && (id in left || left == map[])
    ensures Enumerates(order, left) && (left != map[] ==> order != [] && order[0].container == id)
    decreases |left.Keys|
  {
    if left == map[] {
      order := [];
    } else {
      var rest := left - {id};
      assert rest.Keys == left.Keys - {id};
      var next := if rest == map[] then "" else var x :| x in rest; x;
      var tail := SomeOrder(rest, next);
      order := [left[id]] + tail;
    }
  }

  /** The slots that end up active, when the rest is placed in this order. */
  ghost function Occupied(old': seq<Target>, c: map<string, Target>, highlight: Option<Target>, first: nat,
                          order: seq<Target>): nat
    requires first <= |old'| == MAX_TARGETS
  {
    ActiveFrom(Selected(old', c, Base(highlight), first, order), first)
  }

  ghost predicate AlwaysFull(old': seq<Target>, c: map<string, Target>, highlight: Option<Target>, first: nat)
    requires first <= |old'| == MAX_TARGETS
  {
    forall order :: Enumerates(order, LeftAfter(old', c, first, MAX_TARGETS)) ==>
      Occupied(old', c, highlight, first, order) == Min(|Usable(c)|, MAX_TARGETS - first)
  }

  lemma OccupiedIs(old': seq<Target>, c: map<string, Target>, highlight: Option<Target>, first: nat, order: seq<Target>)
    requires |old'| == MAX_TARGETS && first <= 1 && (highlight.Some? ==> first == 1) && Named(c)
    ensures var slots := Kept(old', c, Base(highlight), first, MAX_TARGETS);
            Occupied(old', c, highlight, first, order)
            == ActiveFrom(slots, first) + ActiveIn(order[..Min(|order|, FreeFrom(slots, first))])
    ensures var slots := Kept(old', c, Base(highlight), first, MAX_TARGETS);
            ActiveFrom(slots, first) + |Usable(LeftAfter(old', c, first, MAX_TARGETS))| == |Usable(c)|
  {
    KeptCount(old', c, Base(highlight), first, MAX_TARGETS);
    FillCount(Kept(old', c, Base(highlight), first, MAX_TARGETS), order, first);
  }

  lemma FullWhen(order: seq<Target>, left: map<string, Target>, free: nat)
    requires Named(left) && Enumerates(order, left)
    requires "" !in left || |left| <= free || free == 0
    ensures ActiveIn(order[..Min(|order|, free)]) == Min(|Usable(left)|, free)
  {
    var n := Min(|order|, free);
    if "" !in left {
      assert Usable(left) == left.Keys;
      ActiveInAll(order[..n]);
    } else if |left| <= free {
      OrderCovers(order, left, "");
      ActiveInDistinct(order);
      assert order[..n] == order;
      assert left.Keys == Usable(left) + {""};
    }
  }

  lemma NotFullWhen(order: seq<Target>, left: map<string, Target>, free: nat)
    requires Named(left) && Enumerates(order, left) && order != [] && order[0].container == ""
    requires 1 <= free < |left|
    ensures ActiveIn(order[..Min(|order|, free)]) == free - 1
  {
    assert order[..free][0].container == "";
    ActiveInDistinct(order[..free]);
  }

  lemma FullByRest(old': seq<Target>, c: map<string, Target>, highlight: Option<Target>, first: nat)
    requires |old'| == MAX_TARGETS && first <= 1 && (highlight.Some? ==> first == 1) && Named(c)
    ensures var left := LeftAfter(old', c, first, MAX_TARGETS);
            var free := FreeFrom(Kept(old', c, Base(highlight), first, MAX_TARGETS), first);
            AlwaysFull(old', c, highlight, first) <==> "" !in left || |left| <= free || free == 0
  {
    hide LeftAfter, Kept, FreeFrom, ActiveFrom, ActiveIn, Enumerates, Occupied, Base, Named;
    var left := LeftAfter(old', c, first, MAX_TARGETS);
    var free := FreeFrom(Kept(old', c, Base(highlight), first, MAX_TARGETS), first);
    LeftIsNamed(old', c, first, MAX_TARGETS);
    if "" !in left || |left| <= free || free == 0 {
      forall order | Enumerates(order, left)
        ensures Occupied(old', c, highlight, first, order) == Min(|Usable(c)|, MAX_TARGETS - first)
      {
        OccupiedIs(old', c, highlight, first, order);
        FullWhen(order, left, free);
      }
    } else {
      var order := SomeOrder(left, "");
      OccupiedIs(old', c, highlight, first, order);
      NotFullWhen(order, left, free);
      assert left.Keys == Usable(left) + {""};
    }
  }

  /** Slot `i` keeps its owner: its container is a named candidate with the same cgroup,
      and no slot before it took the container. */
  predicate Keeps(old': seq<Target>, c: map<string, Target>, first: nat, i: nat)
    requires i < |old'|
  {
    var o := old'[i];
    && o.container != "" && o.cgid > 0 && o.container in c && c[o.container].cgid == o.cgid
    && forall j :: first <= j < i && old'[j].container == o.container ==> old'[j].cgid != o.cgid
  }

  lemma {:induction false} LeftIff(old': seq<Target>, c: map<string, Target>, first: nat, n: nat, id: string)
    requires n <= |old'|
    ensures id in LeftAfter(old', c, first, n) <==>
              id in c && forall j :: first <= j < n && old'[j].container == id ==> !Survives(old'[j], c)
  {
    if n > first {
      LeftIff(old', c, first, n - 1, id);
      LeftIsPart(old', c, first, n - 1);
    }
  }

  lemma KeepsIff(old': seq<Target>, c: map<string, Target>, first: nat, i: nat)
    requires first <= i < |old'| && Named(c) && old'[i].container != ""
    ensures Keeps(old', c, first, i) <==> Survives(old'[i], LeftAfter(old', c, first, i))
  {
    hide LeftAfter;
    LeftIff(old', c, first, i, old'[i].container);
    LeftIsPart(old', c, first, i);
  }

  /** With a nameless candidate left over, a slot is active after the survivors
      exactly when it kept its owner. */
  lemma KeptIsActive(old': seq<Target>, c: map<string, Target>, base: seq<Target>, first: nat, i: nat)
    requires first <= i < |old'| == |base| && Named(c) && forall k :: first <= k < |base| ==> base[k] == NO_TARGET
    requires old'[i].container != ""
    ensures Kept(old', c, base, first, |old'|)[i].Active() <==> Keeps(old', c, first, i)
  {
    hide LeftAfter, Keeps, Placed;
    KeepsIff(old', c, first, i);
    KeptStays(old', c, base, first, |old'|, i);
    KeptPlaced(old', c, base, first, i);
    LeftIsPart(old', c, first, i);
  }

  lemma {:induction false} NoneFreeIff(slots: seq<Target>, first: nat)
    requires first <= |slots|
    ensures FreeFrom(slots, first) == 0 <==> forall i :: first <= i < |slots| ==> slots[i].Active()
    decreases |slots| - first
  {
    if first < |slots| {
      NoneFreeIff(slots, first + 1);
    }
  }

  /** A nameless container is a candidate that no slot gives up its place to. */
  ghost predicate NamelessLeft(old': seq<Target>, c: map<string, Target>, first: nat) {
    "" in c && forall i :: first <= i < |old'| ==> old'[i].container != ""
  }

  lemma NamelessIff(old': seq<Target>, c: map<string, Target>, first: nat)
    requires first <= |old'| && Named(c)
    ensures "" in LeftAfter(old', c, first, |old'|) <==> NamelessLeft(old', c, first)
  {
    hide LeftAfter;
    LeftIff(old', c, first, |old'|, "");
  }

  lemma RestCount(old': seq<Target>, c: map<string, Target>, base: seq<Target>, first: nat)
    requires first <= |old'| == |base| && Named(c) && NamelessLeft(old', c, first)
    requires forall k :: first <= k < |base| ==> base[k] == NO_TARGET
    ensures var left := LeftAfter(old', c, first, |old'|);
            var free := FreeFrom(Kept(old', c, base, first, |old'|), first);
            && (|left| <= free <==> |c| <= |old'| - first)
            && (free == 0 <==> forall i :: first <= i < |old'| ==> Keeps(old', c, first, i))
  {
    hide LeftAfter, Kept, Keeps, FreeFrom, ActiveFrom;
    var left, slots := LeftAfter(old', c, first, |old'|), Kept(old', c, base, first, |old'|);
    NamelessIff(old', c, first);
    KeptCount(old', c, base, first, |old'|);
    assert left.Keys == Usable(left) + {""} && c.Keys == Usable(c) + {""};
    NoneFreeIff(slots, first);
    forall i | first <= i < |old'|
      ensures slots[i].Active() <==> Keeps(old', c, first, i)
    {
      KeptIsActive(old', c, base, first, i);
    }
  }

  /** The selection fills min(candidates, available slots) for every shuffle, unless a
      nameless container competes with more candidates than there are slots, no slot
      was empty before, and some slot does not keep its owner; then a shuffle exists
      that wastes a slot on it. */
  lemma FillsExactlyIff(old': seq<Target>, c: map<string, Target>, highlight: Option<Target>, first: nat)
    requires |old'| == MAX_TARGETS && first <= 1 && (highlight.Some? ==> first == 1) && Named(c)
    ensures AlwaysFull(old', c, highlight, first) <==>
              !(&& NamelessLeft(old', c, first) && |c| > MAX_TARGETS - first
                && exists i :: first <= i < MAX_TARGETS && !Keeps(old', c, first, i))
  {
    hide AlwaysFull, LeftAfter, Kept, FreeFrom, Keeps, NamelessLeft, Named;
    FullByRest(old', c, highlight, first);
    NamelessIff(old', c, first);
    if NamelessLeft(old', c, first) {
      RestCount(old', c, Base(highlight), first);
    }
  }

  function Name(n: nat): string {
    seq(n, _ => 'a')
  }

  /** Candidates with names of length 0 up to `n`. */
  function Crowd(n: nat): map<string, Target> {
    if n == 0 then map[] else Crowd(n - 1)[Name(n - 1) := Target(Name(n - 1), 1, 0, false)]
  }

  lemma {:induction false} CrowdIs(n: nat)
    ensures |Crowd(n)| == n && Named(Crowd(n)) && (n > 0 ==> "" in Crowd(n))
    ensures forall id :: id in Crowd(n) ==> |id| < n && forall k :: 0 <= k < |id| ==> id[k] == 'a'
  {
    if n > 0 {
      CrowdIs(n - 1);
      assert |Name(n - 1)| == n - 1;
      assert n == 1 ==> Name(0) == "";
    }
  }

  /** 85 containers, one of them nameless, compete for 84 slots that all change their
      owner. */
  lemma NamelessWastes()
    ensures Named(Crowd(MAX_TARGETS + 1))
    ensures !AlwaysFull(seq(MAX_TARGETS, _ => Target("b", 1, 0, false)), Crowd(MAX_TARGETS + 1), None, 0)
  {
    hide AlwaysFull, Crowd;
    var old', c := seq(MAX_TARGETS, _ => Target("b", 1, 0, false)), Crowd(MAX_TARGETS + 1);
    CrowdIs(MAX_TARGETS + 1);
    assert "b"[0] == 'b';
    assert !Keeps(old', c, 0, 0);
    FillsExactlyIff(old', c, None, 0);
  }

  // ---------------------------------------------------------------- methods

  /** The candidate map; an unknown scope is an error once a container needs it. */
  method CollectCandidates(containers: Containers, scope: Scope, highlight: Option<Target>)
    returns (r: Result<map<string, Target>>)
    ensures r == Err <==> ScopeFails(containers, scope)
    ensures r.Ok? ==> r.value == Candidates(containers, scope, highlight)
  {
    var left := containers.Keys;
    var c: map<string, Target> := map[];
    ghost var all := Candidates(containers, scope, highlight);
    while left != {}
      invariant left <= containers.Keys
      invariant forall id :: id in c <==> id in all && id !in left
      invariant forall id :: id in c ==> c[id] == all[id]
      invariant scope == Invalid ==> forall id :: id in containers && id !in left ==> !containers[id].HasCss()
      decreases |left|
    {
      var id :| id in left;
      left := left - {id};
      var container := containers[id];
      if container.HasCss() {
        if scope == Invalid {
          return Err;
        }
        if !(highlight.Some? && id == highlight.value.container) && Allowed(container, scope) {
          c := c[id := TargetOf(id, container)];
        }
      }
    }
    assert c == all;
    return Ok(c);
  }

  method KeepOwners(selected: array<Target>, old': array<Target>, c: map<string, Target>, first: nat)
    returns (left: map<string, Target>)
    requires selected.Length == old'.Length && first <= old'.Length && selected != old'
    modifies selected
    ensures selected[..] == Kept(old'[..], c, old(selected[..]), first, old'.Length)
    ensures left == LeftAfter(old'[..], c, first, old'.Length)
  {
    ghost var base := selected[..];
    left := c;
    var i := first;
    while i < old'.Length
      invariant first <= i <= old'.Length
      invariant selected[..] == Kept(old'[..], c, base, first, i) && left == LeftAfter(old'[..], c, first, i)
    {
      if old'[i].container in left && old'[i].SameOwner(left[old'[i].container]) {
        ghost var before := selected[..];
        selected[i] := left[old'[i].container];
        assert selected[..] == before[i := left[old'[i].container]];
        left := left - {old'[i].container};
      }
      i := i + 1;
    }
  }

  method ListTargets(left: map<string, Target>) returns (order: seq<Target>)
    requires Named(left)
    ensures Enumerates(order, left)
  {
    order := [];
    var rest := left.Keys;
    while rest != {}
      invariant rest <= left.Keys && |order| + |rest| == |left|
      invariant forall i :: 0 <= i < |order| ==>
        order[i].container in left && order[i].container !in rest && left[order[i].container] == order[i]
      invariant forall i, j :: 0 <= i < j < |order| ==> order[i].container != order[j].container
      decreases |rest|
    {
      var id :| id in rest;
      order := order + [left[id]];
      rest := rest - {id};
    }
  }

  /** The random source: a number up to the given bound, or a failure. */
  ghost predicate Source(draw: nat -> Option<nat>) {
    forall i :: draw(i).Some? ==> draw(i).value <= i
  }

  ghost predicate DrawFails(draw: nat -> Option<nat>, n: nat) {
    exists i :: 0 < i < n && draw(i).None?
  }

  /** `schedBlameShuffleTargets`: it fails exactly when a draw it needs fails. */
  method Shuffle(a: array<Target>, draw: nat -> Option<nat>, ghost left: map<string, Target>) returns (ok: bool)
    requires Enumerates(a[..], left) && Source(draw)
    modifies a
    ensures Enumerates(a[..], left) && (ok <==> !DrawFails(draw, a.Length))
  {
    var i := a.Length - 1;
    while i > 0
      invariant -1 <= i < a.Length && Enumerates(a[..], left)
      invariant forall k :: i < k < a.Length && k > 0 ==> draw(k).Some?
    {
      if draw(i).None? {
        return false;
      }
      var j := draw(i).value;
      SwapEnumerates(a[..], left, i, j);
      ghost var before := a[..];
      a[i], a[j] := a[j], a[i];
      assert a[..] == before[i := before[j]][j := before[i]];
      i := i - 1;
    }
    return true;
  }

  lemma SwapEnumerates(order: seq<Target>, left: map<string, Target>, i: nat, j: nat)
    requires Enumerates(order, left) && j <= i < |order|
    ensures Enumerates(order[i := order[j]][j := order[i]], left)
  {
  }

  method FillSlots(selected: array<Target>, order: array<Target>, first: nat)
    requires first <= selected.Length && selected != order
    modifies selected
    ensures selected[..] == Fill(old(selected[..]), order[..], first)
  {
    var i, next := first, 0;
    while i < selected.Length && next < order.Length
      invariant i <= selected.Length && next <= order.Length
      invariant Fill(selected[..], order[next..], i) == Fill(old(selected[..]), order[..], first)
    {
      if !selected[i].Active() {
        ghost var before := selected[..];
        selected[i] := order[next];
        assert selected[..] == before[i := order[next..][0]];
        assert order[next..][1..] == order[next + 1..];
        next := next + 1;
      }
      i := i + 1;
    }
  }

  /** The highlight that a configured, nonblank selector finds. */
  ghost predicate IsHighlight(containers: Containers, given: bool, highlight: Option<Target>) {
    if highlight.None? then !given || forall id :: Highlighted(containers) == {id} ==> !containers[id].HasCss()
    else given && exists id :: Highlighted(containers) == {id} && containers[id].HasCss()
                               && highlight.value == TargetOf(id, containers[id])
  }

  /** A selector that matches several containers is an error; one that is required
      must match a container with a CPU css. */
  ghost predicate HighlightFails(containers: Containers, given: bool, required: bool) {
    given && (|Highlighted(containers)| > 1
              || (required && forall id :: Highlighted(containers) == {id} ==> !containers[id].HasCss()))
  }

  ghost predicate ScopeFails(containers: Containers, scope: Scope) {
    scope == Invalid && exists id :: id in containers && containers[id].HasCss()
  }

  /** `schedBlameSelectTargets`: the result is the selection of some order of the
      candidates that no slot kept, and an error exactly when the highlight, the scope
      or the shuffle fails. */
  method SelectTargets(containers: Containers, old': array<Target>, configured: bool, blank: bool, required: bool,
                       scope: Scope, draw: nat -> Option<nat>)
    returns (r: Result<seq<Target>>, ghost highlight: Option<Target>, ghost order: seq<Target>)
    requires old'.Length == MAX_TARGETS && Source(draw)
    ensures HighlightFails(containers, configured && !blank, required) ==> r == Err
    ensures !HighlightFails(containers, configured && !blank, required) ==>
              var c := Candidates(containers, scope, highlight);
              && IsHighlight(containers, configured && !blank, highlight)
              && (r == Err <==>
                    || ScopeFails(containers, scope)
                    || DrawFails(draw, |LeftAfter(old'[..], c, if configured then 1 else 0, MAX_TARGETS)|))
    ensures r.Ok? ==>
              var c := Candidates(containers, scope, highlight);
              var first := if configured then 1 else 0;
              && IsHighlight(containers, configured && !blank, highlight)
              && Enumerates(order, LeftAfter(old'[..], c, first, MAX_TARGETS))
              && r.value == Selected(old'[..], c, Base(highlight), first, order)
    ensures r.Ok? ==> |r.value| == MAX_TARGETS && NoContainerTwice(r.value)
    ensures r.Ok? && configured ==> r.value[0].Active() ==> r.value[0].container in Highlighted(containers)
  {
    hide Candidates, Kept, LeftAfter, Fill, Enumerates, Highlighted, DrawFails, ScopeFails;
    highlight, order := None, [];
    var selected := new Target[MAX_TARGETS](_ => NO_TARGET);
    var found: Option<Target> := None;
    if configured && !blank {
      var h := FindHighlight(containers, required);
      HighlightFailsIff(containers, required, h);
      if h == Err {
        return Err, highlight, order;
      }
      found := h.value;
      HighlightIs(containers, found, required);
      if found.Some? {
        selected[0] := found.value;
      }
    }
    highlight := found;
    assert selected[..] == Base(highlight);
    var first := if configured then 1 else 0;
    var candidates := CollectCandidates(containers, scope, found);
    if candidates == Err {
      return Err, highlight, order;
    }
    CandidatesNamed(containers, scope, found);
    LeftIsNamed(old'[..], candidates.value, first, MAX_TARGETS);
    var left := KeepOwners(selected, old', candidates.value, first);
    var list := ListTargets(left);
    var random := new Target[|list|](i requires 0 <= i < |list| => list[i]);
    assert random[..] == list;
    ListLength(random[..], left);
    var ok := Shuffle(random, draw, left);
    if !ok {
      return Err, highlight, order;
    }
    order := random[..];
    FillSlots(selected, random, first);
    SelectionIsSafe(old'[..], candidates.value, found, first, order);
    return Ok(selected[..]), highlight, order;
  }

  lemma CandidatesNamed(containers: Containers, scope: Scope, highlight: Option<Target>)
    ensures Named(Candidates(containers, scope, highlight))
    ensures highlight.Some? ==> highlight.value.container !in Candidates(containers, scope, highlight)
  {
  }

  lemma HighlightIs(containers: Containers, found: Option<Target>, required: bool)
    requires Highlighted(containers) == {} ==> Ok(found) == if required then Err else Ok(None)
    requires |Highlighted(containers)| <= 1
    requires forall id :: Highlighted(containers) == {id} ==>
               Ok(found) == if containers[id].HasCss() then Ok(Some(TargetOf(id, containers[id])))
                            else if required then Err else Ok(None)
    ensures IsHighlight(containers, true, found)
  {
    if Highlighted(containers) != {} {
      var id :| id in Highlighted(containers);
      Singleton(Highlighted(containers), id);
    }
  }

  lemma HighlightFailsIff(containers: Containers, required: bool, r: Result<Option<Target>>)
    requires |Highlighted(containers)| > 1 ==> r == Err
    requires Highlighted(containers) == {} ==> r == if required then Err else Ok(None)
    requires forall id :: Highlighted(containers) == {id} ==>
               r == if containers[id].HasCss() then Ok(Some(TargetOf(id, containers[id])))
                    else if required then Err else Ok(None)
    ensures r == Err <==> HighlightFails(containers, true, required)
  {
    if |Highlighted(containers)| == 1 {
      var id :| id in Highlighted(containers);
      Singleton(Highlighted(containers), id);
    }
  }

  lemma ListLength(order: seq<Target>, left: map<string, Target>)
    requires Enumerates(order, left)
    ensures |order| == |left|
  {
  }
}
