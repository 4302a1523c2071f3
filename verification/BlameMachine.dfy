/** The accounting state of scheduler blame and every record that changes it. */
module BlameMachine {
  import opened Options
  import opened Words
  import opened PackedSlices
  import opened BlameTargets
  import opened BlameIndex
  import opened BlameCharges
  import opened RatioHistory

  datatype State = State(css: seq<Entry>, targets: seq<Target>, l: Ledger, histories: seq<History>)

  function Initial(): State {
    State(seq(MAX_CSS_IDS, _ => UNKNOWN), seq(MAX_TARGETS, _ => NO_TARGET), BLANK, seq(MAX_TARGETS, _ => EMPTY))
  }

  datatype Op =
    | Identity(id: nat, cgid: nat)
    | SetTargets(targets: seq<Target>)
    | Slice(packed: Packed)
    | Throttle(dense: nat, duration: nat)
    | Evaluate

  function ActiveSet(targets: seq<Target>): set<nat> {
    set t: nat | t < |targets| && targets[t].Active()
  }

  // ------------------------------------------------------------- operations

  function IdentityOp(s: State, id: nat, cgid: nat): State
    requires |s.css| == MAX_CSS_IDS && |s.targets| == MAX_TARGETS
  {
    if !ValidIdentity(id, cgid) then s
    else s.(css := IdentityCss(s.css, s.targets, id, cgid), targets := IdentityTargets(s.css, s.targets, id, cgid))
  }

  /** Slots with a new owner start from nothing. */
  function Reused(l: Ledger, was: seq<Target>, now: seq<Target>, n: nat): (r: Ledger)
    requires l.Fits() && n <= MAX_TARGETS == |was| == |now|
    ensures r.Fits()
  {
    if n == 0 then l
    else
      var r := Reused(l, was, now, n - 1);
      if was[n - 1].SameOwner(now[n - 1]) then r else SlotCleared(r, n - 1)
  }

  function KeptHistories(histories: seq<History>, was: seq<Target>, now: seq<Target>): seq<History>
    requires |histories| == |was| == |now|
  {
    seq(|histories|, t requires 0 <= t < |histories| => if was[t].SameOwner(now[t]) then histories[t] else EMPTY)
  }

  function SetTargetsOp(s: State, targets: seq<Target>): State
    requires Shaped(s) && |targets| == MAX_TARGETS
  {
    State(RebuiltCss(s.css, targets), Linked(s.css, targets, MAX_CSS_IDS),
          Reused(s.l, s.targets, targets, MAX_TARGETS), KeptHistories(s.histories, s.targets, targets))
  }

  lemma CssIdFits(p: Packed)
    ensures CssId(p) < MAX_CSS_IDS
  {
    AndAtMost(p.base, MAX_CSS_IDS - 1);
  }

  function SliceOp(scale: nat -> nat, s: State, p: Packed): State
    requires Shaped(s)
  {
    CssIdFits(p);
    var e, amount := s.css[CssId(p)], scale(Duration(p));
    if !e.known || amount == 0 then s
    else s.(l := SliceCharged(s.l, CssId(p), e.dense, PackedSlices.Targets(p), ActiveSet(s.targets), amount))
  }

  function ThrottleOp(s: State, dense: nat, duration: nat): State
    requires Shaped(s)
  {
    if dense >= MAX_TARGETS || !s.targets[dense].Active() then s else s.(l := Throttled(s.l, dense, duration))
  }

  /** The ratio is the part that external time has in the demand. */
  lemma RatioIsShare(time: Times)
    ensures ExternalRatio(time).Some? <==> time.runtime + time.external > 0
    ensures ExternalRatio(time).Some? ==>
              ExternalRatio(time).value * (time.runtime + time.external) as real == time.external as real
  {
  }

  /** The share of demand that other cgroups denied; None without demand. */
  function ExternalRatio(time: Times): Option<real> {
    if time.runtime + time.external == 0 then None
    else Some(time.external as real / (time.runtime + time.external) as real)
  }

  function NextHistory(target: Target, time: Times, h: History): History
    requires h.next < |h.values| == SIZE
  {
    if target.Active() && ExternalRatio(time).Some? then Add(h, ExternalRatio(time).value) else h
  }

  function EvaluateOp(s: State): State
    requires Shaped(s)
  {
    s.(l := BLANK,
       histories := seq(MAX_TARGETS, t requires 0 <= t < MAX_TARGETS =>
                          NextHistory(s.targets[t], s.l.times[t], s.histories[t])))
  }

  /** The ratio exceeds `k` times the P99 of the ratios before it. */
  predicate Breached(target: Target, time: Times, h: History, k: real)
    requires h.count <= |h.values|
  {
    && target.Active() && ExternalRatio(time).Some? && P99(h).Some? && P99(h).value > 0.0
    && ExternalRatio(time).value > P99(h).value * k
  }

  // -------------------------------------------------------------- invariant

  ghost predicate RingShaped(h: History) {
    |h.values| == SIZE && h.next < SIZE && h.count <= SIZE
  }

  ghost predicate Shaped(s: State) {
    && |s.css| == MAX_CSS_IDS && |s.targets| == |s.histories| == MAX_TARGETS && s.l.Fits()
    && forall t :: 0 <= t < MAX_TARGETS ==> RingShaped(s.histories[t])
  }

  /** Only identified competitors are ever charged. */
  ghost predicate ChargesKnown(css: seq<Entry>, l: Ledger)
    requires |css| == MAX_CSS_IDS && l.Fits()
  {
    forall i :: 0 <= i < PAIRS && l.matrix[i] != 0 ==> css[i / MAX_TARGETS].known
  }

  ghost predicate Good(s: State) {
    && Shaped(s)
    && IndexInv(s.css, s.targets)
    && Balanced(s.l)
    && ChargesKnown(s.css, s.l)
  }

  predicate ValidOp(op: Op) {
    op.SetTargets? ==> |op.targets| == MAX_TARGETS
  }

  function Apply(scale: nat -> nat, s: State, op: Op): State
    requires Shaped(s) && ValidOp(op)
  {
    match op
    case Identity(id, cgid) => IdentityOp(s, id, cgid)
    case SetTargets(targets) => SetTargetsOp(s, targets)
    case Slice(p) => SliceOp(scale, s, p)
    case Throttle(dense, duration) => ThrottleOp(s, dense, duration)
    case Evaluate => EvaluateOp(s)
  }

  lemma IdentityGood(s: State, id: nat, cgid: nat)
    requires Good(s)
    ensures Good(IdentityOp(s, id, cgid))
  {
    hide Balanced;
    if ValidIdentity(id, cgid) {
      IdentityKeeps(s.css, s.targets, id, cgid);
    }
  }

  lemma {:induction false} ReusedKeeps(css: seq<Entry>, l: Ledger, was: seq<Target>, now: seq<Target>, n: nat)
    requires Balanced(l) && |css| == MAX_CSS_IDS && ChargesKnown(css, l) && n <= MAX_TARGETS == |was| == |now|
    ensures Balanced(Reused(l, was, now, n)) && ChargesKnown(css, Reused(l, was, now, n))
  {
    if n > 0 {
      ReusedKeeps(css, l, was, now, n - 1);
      var r := Reused(l, was, now, n - 1);
      SlotClearedBalanced(r, n - 1);
    }
  }

  lemma SetTargetsGood(s: State, targets: seq<Target>)
    requires Good(s) && |targets| == MAX_TARGETS
    ensures Good(SetTargetsOp(s, targets))
  {
    assert forall c :: 0 <= c < |s.css| ==> EntryOk(s.css[c], s.targets);
    RebuildEstablishes(s.css, targets);
    ReusedKeeps(s.css, s.l, s.targets, targets, MAX_TARGETS);
    hide IndexInv, Balanced, Reused, Linked, Rebuilt;
  }

  lemma SliceGood(scale: nat -> nat, s: State, p: Packed)
    requires Good(s)
    ensures Good(SliceOp(scale, s, p))
  {
    CssIdFits(p);
    SliceBalanced(s.l, CssId(p), s.css[CssId(p)].dense, PackedSlices.Targets(p), ActiveSet(s.targets),
                  scale(Duration(p)));
    hide IndexInv, Balanced, CssId, PackedSlices.Targets;
  }

  lemma OpGood(scale: nat -> nat, s: State, op: Op)
    requires Good(s) && ValidOp(op)
    ensures Good(Apply(scale, s, op))
  {
    match op
    case Identity(id, cgid) => IdentityGood(s, id, cgid);
    case SetTargets(targets) => SetTargetsGood(s, targets);
    case Slice(p) => SliceGood(scale, s, p);
    case Throttle(dense, duration) =>
    case Evaluate => BlankBalanced();
  }

  // ------------------------------------------------------------------- runs

  function Run(scale: nat -> nat, s: State, ops: seq<Op>): (r: State)
    requires Good(s) && forall op :: op in ops ==> ValidOp(op)
    ensures Good(r)
  {
    if ops == [] then s
    else
      var before := Run(scale, s, ops[..|ops| - 1]);
      OpGood(scale, before, ops[|ops| - 1]);
      Apply(scale, before, ops[|ops| - 1])
  }

  lemma InitialGood()
    ensures Good(Initial())
  {
    BlankBalanced();
  }

  /** The state that these operations reach from the start. */
  ghost function Reach(scale: nat -> nat, ops: seq<Op>): (s: State)
    requires forall op :: op in ops ==> ValidOp(op)
    ensures Good(s)
  {
    InitialGood();
    Run(scale, Initial(), ops)
  }

  /** In every reachable state each target's external time is the sum of its matrix
      column, its internal time is part of its runtime, a slot that knows its css id
      is the one this css id points to, and when the active targets have distinct
      cgroups the incrementally kept index is the one a rebuild would compute. */
  lemma ReachableStates(scale: nat -> nat, ops: seq<Op>, t: nat, c: nat)
    requires forall op :: op in ops ==> ValidOp(op)
    requires t < MAX_TARGETS && c < MAX_CSS_IDS
    ensures var s := Reach(scale, ops);
            && s.l.times[t].external == Column(s.l.matrix, t, MAX_CSS_IDS)
            && s.l.times[t].internal <= s.l.times[t].runtime
            && (s.targets[t].cssKnown ==>
                  s.targets[t].cssId < MAX_CSS_IDS && s.css[s.targets[t].cssId].dense == t)
            && (DistinctCgroups(s.targets) ==> s.css[c].dense == Rebuilt(s.css, s.targets)[c])
  {
    var s := Reach(scale, ops);
    hide Reach, Rebuilt;
    assert BackLink(s.css, s.targets, t);
    if DistinctCgroups(s.targets) {
      IndexIsRebuild(s.css, s.targets, c);
    }
  }

  /** The cgroup that the last valid identity record of a css id gave it. */
  function LastIdentity(ops: seq<Op>, id: nat): Option<nat> {
    if ops == [] then None
    else
      var n := |ops| - 1;
      if ops[n].Identity? && ops[n].id == id && ops[n].cgid != 0 then Some(ops[n].cgid)
      else LastIdentity(ops[..n], id)
  }

  /** In every reachable state a css id is known exactly when a valid identity record
      named it, and belongs to the cgroup of the last one. */
  lemma {:induction false} IdentityIsLast(scale: nat -> nat, ops: seq<Op>, id: nat)
    requires id < MAX_CSS_IDS && forall op :: op in ops ==> ValidOp(op)
    ensures var e, last := Reach(scale, ops).css[id], LastIdentity(ops, id);
            (e.known <==> last.Some?) && (last.Some? ==> e.cgid == last.value)
    decreases |ops|
  {
    hide IndexInv, Balanced, ChargesKnown, SliceCharged, Throttled, Reused, Rebuilt, Linked, CssId, KeptHistories;
    if ops != [] {
      IdentityIsLast(scale, ops[..|ops| - 1], id);
    }
  }

  // -------------------------------------------------------------- histories

  /** The slot changes hands: it becomes active or inactive, or another container or
      another cgroup has it. */
  predicate NewOwner(was: Target, now: Target) {
    var before, after := was.cgid != 0 && was.container != "", now.cgid != 0 && now.container != "";
    before != after || (before && (was.container != now.container || was.cgid != now.cgid))
  }

  /** The ratios evaluated for slot `t` since it last changed its owner. */
  ghost function Ratios(scale: nat -> nat, ops: seq<Op>, t: nat): seq<real>
    requires t < MAX_TARGETS && forall op :: op in ops ==> ValidOp(op)
  {
    if ops == [] then []
    else
      var n := |ops| - 1;
      var before, ratios := Reach(scale, ops[..n]), Ratios(scale, ops[..n], t);
      assert ValidOp(ops[n]);
      if ops[n].SetTargets? && NewOwner(before.targets[t], ops[n].targets[t]) then []
      else if ops[n].Evaluate? && before.targets[t].Active() && ExternalRatio(before.l.times[t]).Some?
      then ratios + [ExternalRatio(before.l.times[t]).value]
      else ratios
  }

  /** In every reachable state the ring of a slot holds exactly the most recent of
      these ratios. */
  lemma {:induction false} HistoriesHold(scale: nat -> nat, ops: seq<Op>, t: nat)
    requires t < MAX_TARGETS && forall op :: op in ops ==> ValidOp(op)
    ensures Holds(Reach(scale, ops).histories[t], Ratios(scale, ops, t))
    decreases |ops|
  {
    hide Holds, IndexInv, Balanced, ChargesKnown, SliceCharged, Throttled, Reused, Rebuilt, Linked, CssId;
    EmptyHolds();
    if ops != [] {
      var n := |ops| - 1;
      HistoriesHold(scale, ops[..n], t);
      var before, added := Reach(scale, ops[..n]), Ratios(scale, ops[..n], t);
      var ratio := ExternalRatio(before.l.times[t]);
      if ops[n].Evaluate? && before.targets[t].Active() && ratio.Some? {
        AddHolds(before.histories[t], added, ratio.value);
      }
    }
  }

  /** There are enough ratios, and the target's own exceeds `k` times their positive
      nearest-rank P99. */
  ghost predicate Exceeds(target: Target, time: Times, ratios: seq<real>, k: real) {
    && target.Active() && ExternalRatio(time).Some? && |ratios| >= MINIMUM_SAMPLES
    && exists v :: NearestRank(ratios, v) && v > 0.0 && ExternalRatio(time).value > v * k
  }

  /** A target breaches in a reachable state exactly when its ratio exceeds `k` times
      the nearest-rank P99 of its own recent ratios, once there are enough of them. */
  lemma BreachIsOfRecentRatios(scale: nat -> nat, ops: seq<Op>, t: nat, k: real)
    requires t < MAX_TARGETS && forall op :: op in ops ==> ValidOp(op)
    ensures var s := Reach(scale, ops);
            Breached(s.targets[t], s.l.times[t], s.histories[t], k) <==>
              Exceeds(s.targets[t], s.l.times[t], Recent(Ratios(scale, ops, t)), k)
  {
    hide Reach, Ratios, P99, NearestRank, Holds, Recent;
    HistoriesHold(scale, ops, t);
    var h, added := Reach(scale, ops).histories[t], Ratios(scale, ops, t);
    P99IsNearestRank(h, added);
    forall v | P99(h).Some? && NearestRank(Recent(added), v)
      ensures v == P99(h).value
    {
      NearestRankIsUnique(Recent(added), v, P99(h).value);
    }
  }

  // ------------------------------------------------------------- provenance

  /** Some handled slice of this competitor names this target. */
  ghost predicate Explained(ops: seq<Op>, css: nat, t: nat) {
    exists k :: 0 <= k < |ops| && Explains(ops[k], css, t)
  }

  predicate Explains(op: Op, css: nat, t: nat) {
    op.Slice? && CssId(op.packed) == css && t in PackedSlices.Targets(op.packed)
  }

  /** What one operation adds to the charge of `css` for slot `t`: the scaled duration
      of a slice of this competitor that names the target, while the competitor is
      identified, the target active and not the competitor itself. */
  function ChargeOf(scale: nat -> nat, s: State, op: Op, css: nat, t: nat): nat
    requires Shaped(s) && css < MAX_CSS_IDS && t < MAX_TARGETS
  {
    if Explains(op, css, t) && s.css[css].known && s.css[css].dense != t && s.targets[t].Active()
    then scale(Duration(op.packed)) else 0
  }

  /** An evaluation clears every charge, a new owner those of its slot. */
  predicate Clears(s: State, op: Op, t: nat)
    requires Shaped(s) && ValidOp(op) && t < MAX_TARGETS
  {
    op.Evaluate? || (op.SetTargets? && NewOwner(s.targets[t], op.targets[t]))
  }

  /** How many operations there were up to the last one that cleared slot `t`. */
  ghost function Since(scale: nat -> nat, ops: seq<Op>, t: nat): (n: nat)
    requires t < MAX_TARGETS && forall op :: op in ops ==> ValidOp(op)
    ensures n <= |ops|
  {
    if ops == [] then 0
    else
      var n := |ops| - 1;
      if Clears(Reach(scale, ops[..n]), ops[n], t) then |ops| else Since(scale, ops[..n], t)
  }

  /** The charge that operation `i` adds in its turn. */
  ghost function ChargeAt(scale: nat -> nat, ops: seq<Op>, i: nat, css: nat, t: nat): nat
    requires css < MAX_CSS_IDS && t < MAX_TARGETS && i < |ops| && forall op :: op in ops ==> ValidOp(op)
  {
    ChargeOf(scale, Reach(scale, ops[..i]), ops[i], css, t)
  }

  /** The sum of the charges of the operations from `from` up to `end`. */
  ghost function Earned(scale: nat -> nat, ops: seq<Op>, from: nat, end: nat, css: nat, t: nat): nat
    requires css < MAX_CSS_IDS && t < MAX_TARGETS && forall op :: op in ops ==> ValidOp(op)
    requires from <= end <= |ops|
    decreases end
  {
    if from == end then 0
    else Earned(scale, ops, from, end - 1, css, t) + ChargeAt(scale, ops, end - 1, css, t)
  }

  lemma {:induction false} ReusedCharge(l: Ledger, was: seq<Target>, now: seq<Target>, n: nat, css: nat, t: nat)
    requires l.Fits() && n <= MAX_TARGETS == |was| == |now| && css < MAX_CSS_IDS && t < MAX_TARGETS
    ensures Reused(l, was, now, n).matrix[ChargeIndex(css, t)]
         == if t < n && !was[t].SameOwner(now[t]) then 0 else l.matrix[ChargeIndex(css, t)]
  {
    if n > 0 {
      ReusedCharge(l, was, now, n - 1, css, t);
    }
  }

  lemma OpCharges(scale: nat -> nat, s: State, op: Op, css: nat, t: nat)
    requires Good(s) && ValidOp(op) && css < MAX_CSS_IDS && t < MAX_TARGETS
    ensures Good(Apply(scale, s, op))
    ensures Apply(scale, s, op).l.matrix[ChargeIndex(css, t)]
         == if Clears(s, op, t) then 0 else s.l.matrix[ChargeIndex(css, t)] + ChargeOf(scale, s, op, css, t)
  {
    OpGood(scale, s, op);
    hide IndexInv, Balanced, CssId, PackedSlices.Targets, Linked, Rebuilt, Reused;
    if op.SetTargets? {
      ReusedCharge(s.l, s.targets, op.targets, MAX_TARGETS, css, t);
    }
  }

  lemma {:induction false} EarnedInPrefix(scale: nat -> nat, ops: seq<Op>, n: nat, from: nat, end: nat,
                                          css: nat, t: nat)
    requires css < MAX_CSS_IDS && t < MAX_TARGETS && forall op :: op in ops ==> ValidOp(op)
    requires from <= end <= n <= |ops|
    ensures Earned(scale, ops[..n], from, end, css, t) == Earned(scale, ops, from, end, css, t)
    decreases end
  {
    hide Reach, Good;
    if from < end {
      EarnedInPrefix(scale, ops, n, from, end - 1, css, t);
      assert ops[..n][..end - 1] == ops[..end - 1];
    }
  }

  /** In every reachable state a charge is exactly what the handled slices earned since
      its slot was last cleared. */
  lemma {:induction false} ChargesAreSummed(scale: nat -> nat, ops: seq<Op>, css: nat, t: nat)
    requires forall op :: op in ops ==> ValidOp(op)
    requires css < MAX_CSS_IDS && t < MAX_TARGETS
    ensures Reach(scale, ops).l.matrix[ChargeIndex(css, t)]
         == Earned(scale, ops, Since(scale, ops, t), |ops|, css, t)
    decreases |ops|
  {
    hide Good, Apply, Clears, ChargeOf;
    GoodFits(Reach(scale, ops));
    if ops == [] {
      assert Initial().l.matrix[ChargeIndex(css, t)] == 0;
    } else {
      var n := |ops| - 1;
      var before := Reach(scale, ops[..n]);
      GoodFits(before);
      ChargesAreSummed(scale, ops[..n], css, t);
      OpCharges(scale, before, ops[n], css, t);
      if !Clears(before, ops[n], t) {
        EarnedInPrefix(scale, ops, n, Since(scale, ops[..n], t), n, css, t);
      }
    }
  }

  lemma ChargeExplains(scale: nat -> nat, ops: seq<Op>, i: nat, css: nat, t: nat)
    requires css < MAX_CSS_IDS && t < MAX_TARGETS && i < |ops| && forall op :: op in ops ==> ValidOp(op)
    requires ChargeAt(scale, ops, i, css, t) != 0
    ensures Explains(ops[i], css, t)
  {
    hide Reach, Good, Explains;
  }

  lemma {:induction false} EarnedBySome(scale: nat -> nat, ops: seq<Op>, from: nat, end: nat,
                                        css: nat, t: nat)
    returns (i: nat)
    requires css < MAX_CSS_IDS && t < MAX_TARGETS && forall op :: op in ops ==> ValidOp(op)
    requires from <= end <= |ops| && Earned(scale, ops, from, end, css, t) != 0
    ensures from <= i < end && ChargeAt(scale, ops, i, css, t) != 0 && Explains(ops[i], css, t)
    decreases end
  {
    hide Reach, Good, Explains, ChargeAt;
    if ChargeAt(scale, ops, end - 1, css, t) != 0 {
      ChargeExplains(scale, ops, end - 1, css, t);
      return end - 1;
    }
    i := EarnedBySome(scale, ops, from, end - 1, css, t);
  }

  /** Every nonzero charge of a reachable state goes back to a handled slice of that
      competitor that names that target. */
  lemma ChargesAreExplained(scale: nat -> nat, ops: seq<Op>, css: nat, t: nat)
    requires forall op :: op in ops ==> ValidOp(op)
    requires css < MAX_CSS_IDS && t < MAX_TARGETS
    ensures Reach(scale, ops).l.matrix[ChargeIndex(css, t)] != 0 ==> Explained(ops, css, t)
  {
    hide Reach, Explains;
    ChargesAreSummed(scale, ops, css, t);
    var since := Since(scale, ops, t);
    if Earned(scale, ops, since, |ops|, css, t) != 0 {
      var i := EarnedBySome(scale, ops, since, |ops|, css, t);
    }
  }

  // ------------------------------------------------------------------- times

  /** What one operation adds to the times of slot `t`.  A slice of an identified
      competitor adds its scaled duration to the runtime of the target that is the
      competitor, and to its internal time when that target waits as well; to the
      external time of any other active target that waits.  A throttle record adds to
      the throttled time of its own active target. */
  function TimeOf(scale: nat -> nat, s: State, op: Op, t: nat): Times
    requires Shaped(s) && t < MAX_TARGETS
  {
    if op.Slice? then
      CssIdFits(op.packed);
      var e, amount, waits := s.css[CssId(op.packed)], scale(Duration(op.packed)),
                              t in PackedSlices.Targets(op.packed);
      if !e.known then NO_TIME
      else if e.dense == t then Times(amount, if waits then amount else 0, 0, 0)
      else Times(0, 0, if waits && s.targets[t].Active() then amount else 0, 0)
    else if op.Throttle? && op.dense == t && s.targets[t].Active() then Times(0, 0, 0, op.duration)
    else NO_TIME
  }

  function Plus(a: Times, b: Times): Times {
    Times(a.runtime + b.runtime, a.internal + b.internal, a.external + b.external, a.throttled + b.throttled)
  }

  ghost function TimeAt(scale: nat -> nat, ops: seq<Op>, i: nat, t: nat): Times
    requires t < MAX_TARGETS && i < |ops| && forall op :: op in ops ==> ValidOp(op)
  {
    TimeOf(scale, Reach(scale, ops[..i]), ops[i], t)
  }

  /** The times that the operations from `from` up to `end` give to slot `t`. */
  ghost function Accrued(scale: nat -> nat, ops: seq<Op>, from: nat, end: nat, t: nat): Times
    requires t < MAX_TARGETS && from <= end <= |ops| && forall op :: op in ops ==> ValidOp(op)
    decreases end
  {
    if from == end then NO_TIME else Plus(Accrued(scale, ops, from, end - 1, t), TimeAt(scale, ops, end - 1, t))
  }

  lemma {:induction false} ReusedTimes(l: Ledger, was: seq<Target>, now: seq<Target>, n: nat, t: nat)
    requires l.Fits() && n <= MAX_TARGETS == |was| == |now| && t < MAX_TARGETS
    ensures Reused(l, was, now, n).times[t] == if t < n && NewOwner(was[t], now[t]) then NO_TIME else l.times[t]
  {
    if n > 0 {
      ReusedTimes(l, was, now, n - 1, t);
    }
  }

  lemma OpTimes(scale: nat -> nat, s: State, op: Op, t: nat)
    requires Good(s) && ValidOp(op) && t < MAX_TARGETS
    ensures Good(Apply(scale, s, op))
    ensures Apply(scale, s, op).l.times[t]
         == if Clears(s, op, t) then NO_TIME else Plus(s.l.times[t], TimeOf(scale, s, op, t))
  {
    OpGood(scale, s, op);
    hide IndexInv, Balanced, CssId, PackedSlices.Targets, Linked, Rebuilt, Reused;
    if op.SetTargets? {
      ReusedTimes(s.l, s.targets, op.targets, MAX_TARGETS, t);
    }
  }

  lemma {:induction false} AccruedInPrefix(scale: nat -> nat, ops: seq<Op>, n: nat, from: nat, end: nat, t: nat)
    requires t < MAX_TARGETS && from <= end <= n <= |ops| && forall op :: op in ops ==> ValidOp(op)
    ensures Accrued(scale, ops[..n], from, end, t) == Accrued(scale, ops, from, end, t)
    decreases end
  {
    hide Reach, Good, TimeOf;
    if from < end {
      AccruedInPrefix(scale, ops, n, from, end - 1, t);
      assert ops[..n][..end - 1] == ops[..end - 1];
    }
  }

  /** In every reachable state the runtime, internal, external and throttled times of a
      slot are exactly what the operations gave it since it was last cleared. */
  lemma {:induction false} TimesAreSummed(scale: nat -> nat, ops: seq<Op>, t: nat)
    requires t < MAX_TARGETS && forall op :: op in ops ==> ValidOp(op)
    ensures Reach(scale, ops).l.times[t] == Accrued(scale, ops, Since(scale, ops, t), |ops|, t)
    decreases |ops|
  {
    hide Good, Apply, Clears, TimeOf;
    GoodFits(Reach(scale, ops));
    if ops == [] {
      assert Initial().l.times[t] == NO_TIME;
    } else {
      var n := |ops| - 1;
      var before := Reach(scale, ops[..n]);
      GoodFits(before);
      TimesAreSummed(scale, ops[..n], t);
      OpTimes(scale, before, ops[n], t);
      if !Clears(before, ops[n], t) {
        AccruedInPrefix(scale, ops, n, Since(scale, ops[..n], t), n, t);
      }
    }
  }

  // ------------------------------------------------------------ conservation

  /** The slices that are handled, in order. */
  function SlicesIn(ops: seq<Op>): seq<Packed> {
    if ops == [] then []
    else SlicesIn(ops[..|ops| - 1]) + if ops[|ops| - 1].Slice? then [ops[|ops| - 1].packed] else []
  }

  /** What a list of slices is worth as a charge of `css` for slot `t`: the scaled
      durations of those of this competitor that name the target. */
  function Worth(scale: nat -> nat, slices: seq<Packed>, css: nat, t: nat): nat {
    if slices == [] then 0 else Worth(scale, slices[1..], css, t) + WorthOf(scale, slices[0], css, t)
  }

  function WorthOf(scale: nat -> nat, p: Packed, css: nat, t: nat): nat {
    if CssId(p) == css && t in PackedSlices.Targets(p) then scale(Duration(p)) else 0
  }

  lemma {:induction false} WorthJoins(scale: nat -> nat, a: seq<Packed>, b: seq<Packed>, css: nat, t: nat)
    ensures Worth(scale, a + b, css, t) == Worth(scale, a, css, t) + Worth(scale, b, css, t)
  {
    hide WorthOf;
    if a == [] {
      assert a + b == b;
    } else {
      WorthJoins(scale, a[1..], b, css, t);
      assert (a + b)[1..] == a[1..] + b;
    }
  }

  lemma WorthOne(scale: nat -> nat, p: Packed, css: nat, t: nat)
    ensures Worth(scale, [p], css, t) == WorthOf(scale, p, css, t)
  {
    assert [p][1..] == [];
  }

  /** Fewer slices are worth no more. */
  lemma {:induction false} WorthIsMonotone(scale: nat -> nat, a: seq<Packed>, b: seq<Packed>, css: nat, t: nat)
    requires multiset(a) <= multiset(b)
    ensures Worth(scale, a, css, t) <= Worth(scale, b, css, t)
    decreases |a|
  {
    hide WorthOf;
    if a != [] {
      assert a[0] in multiset(b);
      var k :| 0 <= k < |b| && b[k] == a[0];
      WithoutOne(a, b, k);
      WorthIsMonotone(scale, a[1..], b[..k] + b[k + 1..], css, t);
      WorthWithout(scale, b, k, css, t);
    }
  }

  lemma LessEach(x: multiset<Packed>, a: multiset<Packed>, b: multiset<Packed>)
    requires x + a <= x + b
    ensures a <= b
  {
    forall p | p in a
      ensures a[p] <= b[p]
    {
      assert (x + a)[p] <= (x + b)[p];
    }
  }

  lemma WithoutOne(a: seq<Packed>, b: seq<Packed>, k: nat)
    requires multiset(a) <= multiset(b) && a != [] && k < |b| && b[k] == a[0]
    ensures multiset(a[1..]) <= multiset(b[..k] + b[k + 1..])
  {
    assert multiset(a) == multiset{a[0]} + multiset(a[1..]) by {
      assert a == [a[0]] + a[1..];
    }
    assert multiset(b) == multiset{a[0]} + multiset(b[..k] + b[k + 1..]) by {
      assert b == b[..k] + ([b[k]] + b[k + 1..]);
    }
    LessEach(multiset{a[0]}, multiset(a[1..]), multiset(b[..k] + b[k + 1..]));
  }

  lemma WorthWithout(scale: nat -> nat, b: seq<Packed>, k: nat, css: nat, t: nat)
    requires k < |b|
    ensures Worth(scale, b, css, t) == Worth(scale, b[..k] + b[k + 1..], css, t) + WorthOf(scale, b[k], css, t)
  {
    hide Worth, WorthOf;
    assert b == b[..k] + ([b[k]] + b[k + 1..]);
    WorthJoins(scale, b[..k], [b[k]] + b[k + 1..], css, t);
    WorthJoins(scale, [b[k]], b[k + 1..], css, t);
    WorthJoins(scale, b[..k], b[k + 1..], css, t);
    WorthOne(scale, b[k], css, t);
  }

  /** Operations earn no more than their slices are worth. */
  lemma {:induction false} EarnedAtMost(scale: nat -> nat, ops: seq<Op>, from: nat, end: nat, css: nat, t: nat)
    requires css < MAX_CSS_IDS && t < MAX_TARGETS && forall op :: op in ops ==> ValidOp(op)
    requires from <= end <= |ops|
    ensures Earned(scale, ops, from, end, css, t) <= Worth(scale, SlicesIn(ops[..end]), css, t)
    decreases end
  {
    hide Reach, Good, Worth, WorthOf, ChargeAt;
    if from < end {
      var op := ops[end - 1];
      assert ops[..end][..end - 1] == ops[..end - 1];
      EarnedAtMost(scale, ops, from, end - 1, css, t);
      ChargeAtMost(scale, ops, end - 1, css, t);
      if op.Slice? {
        WorthJoins(scale, SlicesIn(ops[..end - 1]), [op.packed], css, t);
        WorthOne(scale, op.packed, css, t);
      } else {
        assert SlicesIn(ops[..end]) == SlicesIn(ops[..end - 1]);
      }
    }
  }

  lemma ChargeAtMost(scale: nat -> nat, ops: seq<Op>, i: nat, css: nat, t: nat)
    requires css < MAX_CSS_IDS && t < MAX_TARGETS && i < |ops| && forall op :: op in ops ==> ValidOp(op)
    ensures ChargeAt(scale, ops, i, css, t) <= if ops[i].Slice? then WorthOf(scale, ops[i].packed, css, t) else 0
  {
    hide Reach, Good, CssId, PackedSlices.Targets;
  }

  /** No charge exceeds what the handled slices of that competitor that name that target
      are worth, each counted as often as it was handled. */
  lemma ChargesAreCovered(scale: nat -> nat, ops: seq<Op>, css: nat, t: nat)
    requires forall op :: op in ops ==> ValidOp(op)
    requires css < MAX_CSS_IDS && t < MAX_TARGETS
    ensures Reach(scale, ops).l.matrix[ChargeIndex(css, t)] <= Worth(scale, SlicesIn(ops), css, t)
  {
    hide Reach, Worth, Earned, SlicesIn;
    GoodFits(Reach(scale, ops));
    ChargesAreSummed(scale, ops, css, t);
    assert ops[..|ops|] == ops;
    EarnedAtMost(scale, ops, Since(scale, ops, t), |ops|, css, t);
  }

  lemma GoodFits(s: State)
    requires Good(s)
    ensures Shaped(s) && s.l.Fits()
  {
  }
}
