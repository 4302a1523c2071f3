/** The accounting state of scheduler blame in place. */
module BlameState {
  import opened Options
  import opened Words
  import opened PackedSlices
  import opened SliceWire
  import opened BlameTargets
  import opened BlameIndex
  import opened BlameCharges
  import opened RatioHistory
  import opened BlameMachine
  import opened BlameCompetitors

  // ------------------------------------------------------- the waiting loops

  /** The targets that a word of waiting bits names and that may be charged. */
  ghost function Chargeable(ones: set<nat>, offset: nat, active: set<nat>, own: nat): set<nat> {
    set b | b in ones && offset + b in active && offset + b != own :: offset + b
  }

  lemma ChargedTwice(l: Ledger, css: nat, a: set<nat>, b: set<nat>, amount: nat)
    requires l.Fits() && a !! b
    ensures Charged(Charged(l, css, a, amount), css, b, amount) == Charged(l, css, a + b, amount)
  {
    var x, y := Charged(Charged(l, css, a, amount), css, b, amount), Charged(l, css, a + b, amount);
    assert x.matrix == y.matrix && x.times == y.times;
  }

  /** Both words together name exactly the waiting, active, other targets. */
  lemma WordsCover(p: Packed, active: set<nat>, own: nat)
    requires p.Fits() && forall t :: t in active ==> t < MAX_TARGETS
    ensures BaseTargets(p) < Pow2(BASE_BITMAP_BITS) && p.extra < Pow2(64)
    ensures var a := Chargeable(Ones(BaseTargets(p), BASE_BITMAP_BITS), 0, active, own);
            var b := Chargeable(Ones(p.extra, 64), BASE_BITMAP_BITS, active, own);
            a !! b && a + b == PackedSlices.Targets(p) * active - {own}
  {
    hide BaseTargets, Ones, PackedSlices.Targets;
    LoopWordsAreTargets(p, 0);
    var a := Chargeable(Ones(BaseTargets(p), BASE_BITMAP_BITS), 0, active, own);
    var b := Chargeable(Ones(p.extra, 64), BASE_BITMAP_BITS, active, own);
    forall t | t in active
      ensures t in a + b <==> t in PackedSlices.Targets(p) && t != own
    {
      LoopWordsAreTargets(p, t);
      if t >= BASE_BITMAP_BITS {
        assert BASE_BITMAP_BITS + (t - BASE_BITMAP_BITS) == t;
      } else {
        assert 0 + t == t;
      }
    }
    assert a + b == PackedSlices.Targets(p) * active - {own};
  }

  // ------------------------------------------------------------------ class

  /** A breach of the external contention threshold. */
  datatype Event = Event(target: nat, ratio: real, p99: real, threshold: real, times: Times, top: seq<Charge>)

  class BlameState {
    const scale: nat -> nat
    const css: array<Entry>
    const targets: array<Target>
    var active: Bitmap
    const matrix: array<nat>
    const times: array<Times>
    const histories: array<History>
    var invalidThrottles: nat

    constructor (scale: nat -> nat)
      ensures Valid() && Model() == Initial() && this.scale == scale
      ensures fresh(css) && fresh(targets) && fresh(matrix) && fresh(times) && fresh(histories)
    {
      this.scale := scale;
      css := new Entry[MAX_CSS_IDS](_ => UNKNOWN);
      targets := new Target[MAX_TARGETS](_ => NO_TARGET);
      active := EMPTY_BITMAP;
      matrix := new nat[PAIRS](_ => 0);
      times := new Times[MAX_TARGETS](_ => NO_TIME);
      histories := new History[MAX_TARGETS](_ => EMPTY);
      invalidThrottles := 0;
      new;
      assert Model() == Initial();
      BlameMachine.InitialGood();
      EmptyBitmapHasNoMembers();
    }

    ghost function Charges(): Ledger
      reads matrix, times
    {
      Ledger(matrix[..], times[..])
    }

    ghost function Model(): State
      reads css, targets, matrix, times, histories
    {
      State(css[..], targets[..], Charges(), histories[..])
    }

    ghost predicate Valid()
      reads this, css, targets, matrix, times, histories
    {
      && Good(Model())
      && active.Fits() && active.Members() == ActiveSet(targets[..])
    }

    // -------------------------------------------------------------- slices

    /** One clear-lowest-bit loop over a word of waiting targets. */
    method ChargeWord(cssId: nat, own: nat, word: nat, width: nat, offset: nat, amount: nat)
      requires matrix.Length == PAIRS && times.Length == MAX_TARGETS
      requires cssId < MAX_CSS_IDS && word < Pow2(width) && offset + width <= MAX_TARGETS
      modifies matrix, times
      ensures Charges() == Charged(old(Charges()), cssId,
                                   Chargeable(Ones(word, width), offset, active.Members(), own), amount)
    {
      hide Pow2, Ones, And, TrailingZeros, Charged, ChargeOne;
      ghost var l, ones := Charges(), Ones(word, width);
      var waiting: nat := word;
      ghost var done: set<nat> := {};
      ChargedNone(l, cssId, amount);
      while waiting != 0
        invariant waiting <= word && done == Chargeable(ones - Ones(waiting, width), offset, active.Members(), own)
        invariant Ones(waiting, width) <= ones
        invariant Charges() == Charged(l, cssId, done, amount)
        decreases waiting
      {
        OnesClearLowest(waiting, width);
        var bit := TrailingZeros(waiting);
        var target := offset + bit;
        NextChargeable(ones, Ones(waiting, width), bit, offset, active.Members(), own);
        if target != own && active.Has(target) {
          ChargedNext(l, cssId, done, target, amount);
          ChargeTarget(cssId, target, amount);
          done := done + {target};
        }
        waiting := And(waiting, waiting - 1);
      }
      OnesOfZero(width);
      assert ones - {} == ones;
    }

    method ChargeTarget(cssId: nat, target: nat, amount: nat)
      requires matrix.Length == PAIRS && times.Length == MAX_TARGETS
      requires cssId < MAX_CSS_IDS && target < MAX_TARGETS
      modifies matrix, times
      ensures Charges() == ChargeOne(old(Charges()), cssId, target, amount)
    {
      ghost var l := Charges();
      var i := ChargeIndex(cssId, target);
      matrix[i] := matrix[i] + amount;
      times[target] := times[target].(external := times[target].external + amount);
      assert matrix[..] == l.matrix[i := l.matrix[i] + amount];
      assert times[..] == ChargeOne(l, cssId, target, amount).times;
    }

    method RunTarget(own: nat, waits: bool, amount: nat)
      requires matrix.Length == PAIRS && times.Length == MAX_TARGETS && own < MAX_TARGETS
      modifies times
      ensures Charges() == Ran(old(Charges()), own, waits, amount)
    {
      ghost var l := Charges();
      times[own] := times[own].(runtime := times[own].runtime + amount);
      if waits {
        times[own] := times[own].(internal := times[own].internal + amount);
      }
      assert times[..] == Ran(l, own, waits, amount).times;
    }

    /** The base word, then the extra word: exactly the active, other members. */
    method ChargeWaiting(p: Packed, cssId: nat, own: nat, amount: nat)
      requires matrix.Length == PAIRS && times.Length == MAX_TARGETS
      requires cssId < MAX_CSS_IDS && p.Fits()
      modifies matrix, times
      ensures Charges() == Charged(old(Charges()), cssId,
                                   PackedSlices.Targets(p) * active.Members() - {own}, amount)
    {
      hide BaseTargets, Bitmap.Members, Charged, Ones, PackedSlices.Targets, Chargeable, Pow2;
      ghost var l := Charges();
      ActiveBelow(active);
      WordsCover(p, active.Members(), own);
      ChargeWord(cssId, own, BaseTargets(p), BASE_BITMAP_BITS, 0, amount);
      ChargeWord(cssId, own, p.extra, 64, BASE_BITMAP_BITS, amount);
      ChargedTwice(l, cssId, Chargeable(Ones(BaseTargets(p), BASE_BITMAP_BITS), 0, active.Members(), own),
                   Chargeable(Ones(p.extra, 64), BASE_BITMAP_BITS, active.Members(), own), amount);
    }

    method HandlePackedSlice(p: Packed)
      requires Valid() && p.Fits()
      modifies matrix, times
      ensures Valid() && Model() == SliceOp(scale, old(Model()), p)
    {
      hide Good, CssId, Duration, Bitmap.Members, Charged, Ran, ActiveSet, HasTarget, PackedSlices.Targets;
      ghost var s := Model();
      GoodShape(s);
      SliceGood(scale, s, p);
      CssIdFits(p);
      var cssId, duration := CssId(p), Duration(p);
      if !css[cssId].known {
        return;
      }
      var amount := scale(duration);
      if amount == 0 {
        return;
      }
      var own := css[cssId].dense;
      if own < MAX_TARGETS {
        TargetsHas(p, own);
        RunTarget(own, HasTarget(p, own), amount);
      }
      ChargeWaiting(p, cssId, own, amount);
    }

    /** The first `count` slices of a batch, in order. */
    method HandleBatch(slices: seq<Packed>, count: nat)
      requires Valid() && count <= |slices| && AllFit(slices[..count])
      modifies matrix, times
      ensures Valid() && Good(old(Model()))
      ensures Model() == Run(scale, old(Model()), SliceOps(slices[..count]))
    {
      ghost var s := Model();
      var i := 0;
      while i < count
        invariant i <= count && Valid() && Good(s)
        invariant Model() == Run(scale, s, SliceOps(slices[..i]))
      {
        assert slices[..count][i].Fits();
        HandlePackedSlice(slices[i]);
        NextSliceOp(scale, s, slices, i);
        i := i + 1;
      }
    }

    /** A raw batch record, or a per-CPU value at shutdown: everything it decodes to is
        charged, and a malformed one changes nothing. */
    method HandleEncoded(batch: Batch, raw: seq<byte>, mapValue: bool) returns (error: Result<()>)
      requires Valid() && batch.Valid()
      modifies batch, batch.slots, matrix, times
      ensures Valid() && batch.Valid() && Good(old(Model()))
      ensures match Decoded(raw, mapValue)
              case Ok(slices) => error == Ok(()) && Model() == Run(scale, old(Model()), SliceOps(slices))
              case Err(e) => error == Err(e) && Model() == old(Model())
    {
      error := batch.Decode(raw, mapValue);
      if error.Ok? {
        assert batch.slots[..][..batch.count] == batch.Slices();
        HandleBatch(batch.slots[..], batch.count);
      }
    }

    method HandleThrottle(dense: nat, duration: nat)
      requires Valid()
      modifies times, this`invalidThrottles
      ensures Valid() && Model() == ThrottleOp(old(Model()), dense, duration)
      ensures invalidThrottles == old(invalidThrottles) + if dense >= MAX_TARGETS then 1 else 0
    {
      hide Bitmap.Has;
      ghost var s := Model();
      OpGood(scale, s, Throttle(dense, duration));
      if dense >= MAX_TARGETS {
        invalidThrottles := invalidThrottles + 1;
        return;
      }
      assert active.Has(dense) <==> dense in active.Members();
      if active.Has(dense) {
        times[dense] := times[dense].(throttled := times[dense].throttled + duration);
        assert times[..] == Throttled(s.l, dense, duration).times;
      }
    }

    // ------------------------------------------------------------ identities

    method HandleIdentity(id: nat, cgid: nat)
      requires Valid()
      modifies css, targets
      ensures Valid() && Model() == IdentityOp(old(Model()), id, cgid)
    {
      hide Good, Bitmap.Members, IndexInv;
      ghost var s := Model();
      GoodShape(s);
      IdentityGood(s, id, cgid);
      if id >= MAX_CSS_IDS || cgid == 0 {
        return;
      }
      GoodIndex(s);
      IdentityKeeps(s.css, s.targets, id, cgid);
      SameSlotsActive(IdentityTargets(s.css, s.targets, id, cgid), s.targets);
      var was := css[id].dense;
      if was != NON_TARGET && was < MAX_TARGETS && targets[was].cssKnown && targets[was].cssId == id {
        targets[was] := targets[was].(cssKnown := false);
      }
      ghost var left := Forgotten(s.css, s.targets, id);
      assert targets[..] == left;
      ForgottenFirst(s.css, s.targets, id, cgid);
      var t := FindTarget(cgid);
      css[id] := Entry(true, cgid, t);
      if t != NON_TARGET {
        targets[t] := targets[t].(cssId := id, cssKnown := true);
        assert targets[..] == left[t := left[t].(cssId := id, cssKnown := true)];
      }
      assert css[..] == IdentityCss(s.css, s.targets, id, cgid);
    }

    method FindTarget(cgid: nat) returns (t: nat)
      requires targets.Length == MAX_TARGETS
      ensures t == First(targets[..], cgid)
    {
      var i := 0;
      while i < targets.Length
        invariant i <= targets.Length && First(targets[..], cgid) == First(targets[..], cgid, i)
      {
        if targets[i].Active() && targets[i].cgid == cgid {
          return i;
        }
        i := i + 1;
      }
      return NON_TARGET;
    }

    // --------------------------------------------------------------- targets

    method ClearReusedSlot(t: nat)
      requires matrix.Length == PAIRS && times.Length == histories.Length == MAX_TARGETS && t < MAX_TARGETS
      modifies matrix, times, histories
      ensures Charges() == SlotCleared(old(Charges()), t)
      ensures histories[..] == old(histories[..])[t := EMPTY]
    {
      ghost var l, h := Charges(), histories[..];
      times[t] := NO_TIME;
      histories[t] := EMPTY;
      assert times[..] == l.times[t := NO_TIME] && histories[..] == h[t := EMPTY];
      var c: nat := 0;
      while c < MAX_CSS_IDS
        modifies matrix
        invariant c <= MAX_CSS_IDS
        invariant forall i :: 0 <= i < PAIRS ==>
          matrix[i] == if i % MAX_TARGETS == t && i / MAX_TARGETS < c then 0 else l.matrix[i]
      {
        var k := ChargeIndex(c, t);
        assert forall i :: 0 <= i < PAIRS && i % MAX_TARGETS == t && i / MAX_TARGETS == c ==> i == k;
        matrix[k] := 0;
        c := c + 1;
      }
      assert matrix[..] == SlotCleared(l, t).matrix;
    }

    /** `rebuildTargetDenseByCSSID` */
    method Rebuild()
      requires css.Length == MAX_CSS_IDS && targets.Length == MAX_TARGETS
      modifies css, targets
      ensures css[..] == RebuiltCss(old(css[..]), old(targets[..]))
      ensures targets[..] == Linked(old(css[..]), old(targets[..]), MAX_CSS_IDS)
    {
      ForgetSlots();
      var byCgroup := Unlink();
      Link(byCgroup, old(css[..]), old(targets[..]));
    }

    method ForgetSlots()
      requires css.Length == MAX_CSS_IDS
      modifies css
      ensures forall i :: 0 <= i < MAX_CSS_IDS ==> css[i] == old(css[i]).(dense := NON_TARGET)
    {
      var c: nat := 0;
      while c < MAX_CSS_IDS
        invariant c <= MAX_CSS_IDS
        invariant forall i :: 0 <= i < MAX_CSS_IDS ==>
          css[i] == if i < c then old(css[i]).(dense := NON_TARGET) else old(css[i])
      {
        css[c] := css[c].(dense := NON_TARGET);
        c := c + 1;
      }
    }

    method Link(byCgroup: map<nat, nat>, ghost e: seq<Entry>, ghost ts: seq<Target>)
      requires css.Length == |e| == MAX_CSS_IDS && targets.Length == |ts| == MAX_TARGETS
      requires byCgroup == MapOf(ts) && targets[..] == Unlinked(ts)
      requires forall i :: 0 <= i < MAX_CSS_IDS ==> css[i] == e[i].(dense := NON_TARGET)
      modifies css, targets
      ensures css[..] == RebuiltCss(e, ts) && targets[..] == Linked(e, ts, MAX_CSS_IDS)
    {
      hide MapOf, Linked, Rebuilt, Mapped;
      LinkedNone(e, ts);
      var c: nat := 0;
      while c < MAX_CSS_IDS
        invariant c <= MAX_CSS_IDS
        invariant targets[..] == Linked(e, ts, c)
        invariant forall i :: 0 <= i < MAX_CSS_IDS ==>
          css[i] == if i < c then e[i].(dense := Rebuilt(e, ts)[i]) else e[i].(dense := NON_TARGET)
      {
        LinkedNext(e, ts, c);
        if css[c].known && css[c].cgid in byCgroup {
          var t := byCgroup[css[c].cgid];
          css[c] := css[c].(dense := t);
          ghost var before := targets[..];
          targets[t] := targets[t].(cssId := c, cssKnown := true);
          assert targets[..] == before[t := before[t].(cssId := c, cssKnown := true)];
        }
        c := c + 1;
      }
      assert css[..] == RebuiltCss(e, ts);
    }

    method Unlink() returns (byCgroup: map<nat, nat>)
      requires targets.Length == MAX_TARGETS
      modifies targets
      ensures targets[..] == Unlinked(old(targets[..])) && byCgroup == MapOf(old(targets[..]))
    {
      ghost var ts := targets[..];
      byCgroup := map[];
      var t: nat := 0;
      while t < MAX_TARGETS
        invariant t <= MAX_TARGETS && byCgroup == MapOf(ts[..t])
        invariant forall i :: 0 <= i < MAX_TARGETS ==>
          targets[i] == if i < t then ts[i].(cssKnown := false) else ts[i]
      {
        assert ts[..t + 1][..t] == ts[..t];
        targets[t] := targets[t].(cssKnown := false);
        if targets[t].Active() {
          byCgroup := byCgroup[targets[t].cgid := t];
        }
        t := t + 1;
      }
      assert ts[..t] == ts;
      assert targets[..] == Unlinked(ts);
    }

    /** `schedBlameTargetsBitmap` */
    method TargetsBitmap() returns (b: Bitmap)
      requires targets.Length == MAX_TARGETS
      ensures b.Fits() && b.Members() == ActiveSet(targets[..])
    {
      hide Bitmap.Members, SetBit;
      b := EMPTY_BITMAP;
      EmptyBitmapHasNoMembers();
      var t: nat := 0;
      while t < MAX_TARGETS
        invariant t <= MAX_TARGETS && b.Fits()
        invariant b.Members() == set i: nat | i < t && targets[i].Active()
      {
        if targets[t].Active() {
          SetBitChangesOne(b, t, true);
          b := SetBit(b, t, true);
        }
        t := t + 1;
      }
    }

    method ClearReused(next: array<Target>)
      requires Valid() && next.Length == MAX_TARGETS
      modifies matrix, times, histories
      ensures Shaped(old(Model()))
      ensures Charges() == Reused(old(Charges()), targets[..], next[..], MAX_TARGETS)
      ensures histories[..] == KeptHistories(old(histories[..]), targets[..], next[..])
    {
      hide Balanced, IndexInv, ChargesKnown, SlotCleared, Bitmap.Members, Target.SameOwner;
      ghost var l, h := Charges(), histories[..];
      var t: nat := 0;
      while t < MAX_TARGETS
        invariant t <= MAX_TARGETS && Charges() == Reused(l, targets[..], next[..], t)
        invariant forall i :: 0 <= i < MAX_TARGETS ==>
          histories[i] == if i < t && !targets[i].SameOwner(next[i]) then EMPTY else h[i]
      {
        if !targets[t].SameOwner(next[t]) {
          ClearReusedSlot(t);
        }
        t := t + 1;
      }
      assert histories[..] == KeptHistories(h, targets[..], next[..]);
    }

    method SetTargets(next: array<Target>)
      requires Valid() && next.Length == MAX_TARGETS && next != targets
      modifies this`active, css, targets, matrix, times, histories
      ensures Valid() && Shaped(old(Model())) && next[..] == old(next[..])
      ensures Model() == SetTargetsOp(old(Model()), next[..])
    {
      hide Good, Reused, KeptHistories, Linked, RebuiltCss, Bitmap.Members, ActiveSet;
      ghost var s := Model();
      GoodShape(s);
      SetTargetsGood(s, next[..]);
      ClearReused(next);
      CopyTargets(next);
      active := TargetsBitmap();
      Rebuild();
      SameSlotsActive(targets[..], next[..]);
    }

    method CopyTargets(next: array<Target>)
      requires targets.Length == next.Length && next != targets
      modifies targets
      ensures targets[..] == next[..]
    {
      var t := 0;
      while t < next.Length
        invariant t <= next.Length && targets[..t] == next[..t]
      {
        targets[t] := next[t];
        t := t + 1;
      }
      assert targets[..] == targets[..t] && next[..] == next[..t];
    }

    // ------------------------------------------------------------ evaluation

    method ClearCharges()
      requires matrix.Length == PAIRS && times.Length == MAX_TARGETS
      modifies matrix, times
      ensures Charges() == BLANK
    {
      var i: nat := 0;
      while i < MAX_TARGETS
        modifies times
        invariant i <= MAX_TARGETS && forall k :: 0 <= k < i ==> times[k] == NO_TIME
      {
        times[i] := NO_TIME;
        i := i + 1;
      }
      i := 0;
      while i < PAIRS
        modifies matrix
        invariant i <= PAIRS && forall k :: 0 <= k < i ==> matrix[k] == 0
      {
        matrix[i] := 0;
        i := i + 1;
      }
      assert matrix[..] == BLANK.matrix && times[..] == BLANK.times;
    }

    /** `evaluateExternalContentionRatiosWithDebug`: the ratio of this second enters
        the history only after its own threshold was taken from it. */
    method EvaluateRatios(k: real) returns (events: seq<Event>)
      requires Valid()
      modifies matrix, times, histories
      ensures Valid() && Shaped(old(Model()))
      ensures Model() == EvaluateOp(old(Model()))
      ensures Reports(events, old(Model()), k, MAX_TARGETS)
    {
      hide Good, Bitmap.Members, Bitmap.Has, ActiveSet, Extends, Reports, NextHistory;
      ReportsNone(Model(), k);
      ghost var s := Model();
      GoodShape(s);
      OpGood(scale, s, Op.Evaluate);
      events := [];
      var t: nat := 0;
      while t < MAX_TARGETS
        modifies histories
        invariant t <= MAX_TARGETS && Reports(events, s, k, t)
        invariant forall i :: 0 <= i < MAX_TARGETS ==>
          histories[i] == if i < t then NextHistory(s.targets[i], s.l.times[i], s.histories[i]) else s.histories[i]
      {
        ActiveAt(active, s.targets, t);
        ghost var before := events;
        events := EvaluateTarget(t, k, events);
        assert css[..] == s.css && matrix[..] == s.l.matrix;
        assert targets[t] == s.targets[t] && times[t] == s.l.times[t];
        ReportsNext(before, events, s, k, t);
        t := t + 1;
      }
      ClearCharges();
      assert histories[..] == EvaluateOp(s).histories;
    }

    method EvaluateTarget(t: nat, k: real, events: seq<Event>) returns (all: seq<Event>)
      requires css.Length == MAX_CSS_IDS && matrix.Length == PAIRS && t < MAX_TARGETS
      requires times.Length == targets.Length == histories.Length == MAX_TARGETS
      requires RingShaped(histories[t]) && (active.Has(t) <==> targets[t].Active())
      modifies histories
      ensures histories[..] == old(histories[..])[t := NextHistory(targets[t], times[t], old(histories[t]))]
      ensures Extends(events, all, css[..], matrix[..], targets[t], t, times[t], old(histories[t]), k)
    {
      hide Bitmap.Has, EventOf, P99;
      ghost var h := histories[..];
      all := events;
      if active.Has(t) {
        all := ReportTarget(t, k, events);
        var ratio := ExternalRatio(times[t]);
        if ratio.Some? {
          histories[t] := Add(histories[t], ratio.value);
        }
      }
      assert histories[..] == h[t := NextHistory(targets[t], times[t], h[t])];
    }

    method ReportTarget(t: nat, k: real, events: seq<Event>) returns (all: seq<Event>)
      requires css.Length == MAX_CSS_IDS && matrix.Length == PAIRS && t < MAX_TARGETS
      requires times.Length == targets.Length == histories.Length == MAX_TARGETS
      requires targets[t].Active() && RingShaped(histories[t])
      ensures Extends(events, all, css[..], matrix[..], targets[t], t, times[t], histories[t], k)
    {
      all := events;
      var time := times[t];
      var p99, ratio := P99(histories[t]), ExternalRatio(time);
      if ratio.Some? && p99.Some? && p99.value > 0.0 && ratio.value > p99.value * k {
        var top := TopExternalCompetitors(css, matrix, t);
        all := events + [Event(t, ratio.value, p99.value, p99.value * k, time, top)];
      }
    }
  }

  /** An event holds the ratio of this second, the threshold of the seconds before it
      and the ten largest competitors. */
  ghost predicate EventOf(e: Event, css: seq<Entry>, matrix: seq<nat>, t: nat, time: Times, h: History, k: real)
    requires |css| == MAX_CSS_IDS && |matrix| == PAIRS && t < MAX_TARGETS && h.count <= |h.values|
  {
    && e.target == t && e.times == time
    && ExternalRatio(time) == Some(e.ratio)
    && P99(h) == Some(e.p99) && e.threshold == e.p99 * k
    && IsTop(e.top, ByCgroup(css, matrix, t, MAX_CSS_IDS))
  }

  /** A breaching target adds its event, any other target adds none. */
  ghost predicate Extends(events: seq<Event>, all: seq<Event>, css: seq<Entry>, matrix: seq<nat>,
                          target: Target, t: nat, time: Times, h: History, k: real)
    requires |css| == MAX_CSS_IDS && |matrix| == PAIRS && t < MAX_TARGETS && h.count <= |h.values|
  {
    if Breached(target, time, h, k)
    then |all| == |events| + 1 && all[..|events|] == events && EventOf(all[|events|], css, matrix, t, time, h, k)
    else all == events
  }

  /** One event for each breaching target below `n`, in slot order, and no other. */
  ghost predicate Reports(events: seq<Event>, s: State, k: real, n: nat)
    requires Shaped(s) && n <= MAX_TARGETS
  {
    if n == 0 then events == []
    else if Breached(s.targets[n - 1], s.l.times[n - 1], s.histories[n - 1], k) then
      && events != []
      && EventOf(events[|events| - 1], s.css, s.l.matrix, n - 1, s.l.times[n - 1], s.histories[n - 1], k)
      && Reports(events[..|events| - 1], s, k, n - 1)
    else Reports(events, s, k, n - 1)
  }

  lemma ReportsNone(s: State, k: real)
    requires Good(s)
    ensures Reports([], s, k, 0)
  {
  }

  lemma ReportsNext(before: seq<Event>, events: seq<Event>, s: State, k: real, t: nat)
    requires Shaped(s) && t < MAX_TARGETS && Reports(before, s, k, t)
    requires Extends(before, events, s.css, s.l.matrix, s.targets[t], t, s.l.times[t], s.histories[t], k)
    ensures Reports(events, s, k, t + 1)
  {
    hide EventOf, Breached;
  }

  lemma {:induction false} ReportsBreaches(events: seq<Event>, s: State, k: real, n: nat, t: nat)
    requires Shaped(s) && n <= MAX_TARGETS && Reports(events, s, k, n)
    ensures forall e :: e in events ==>
              e.target < n && EventOf(e, s.css, s.l.matrix, e.target, s.l.times[e.target], s.histories[e.target], k)
    ensures t < n ==>
              ((exists e :: e in events && e.target == t)
               <==> Breached(s.targets[t], s.l.times[t], s.histories[t], k))
    decreases n
  {
    hide EventOf, Breached;
    if n > 0 {
      if Breached(s.targets[n - 1], s.l.times[n - 1], s.histories[n - 1], k) {
        var m := |events| - 1;
        ReportsBreaches(events[..m], s, k, n - 1, t);
        EventTarget(events[m], s, n - 1, k);
        assert events == events[..m] + [events[m]];
        assert events[m] in events;
      } else {
        ReportsBreaches(events, s, k, n - 1, t);
      }
    }
  }

  lemma EventTarget(e: Event, s: State, t: nat, k: real)
    requires Shaped(s) && t < MAX_TARGETS
    requires EventOf(e, s.css, s.l.matrix, t, s.l.times[t], s.histories[t], k)
    ensures e.target == t
  {
  }

  /** The event has the ratio of this second and the P99 of the given ones. */
  ghost predicate Measures(e: Event, time: Times, ratios: seq<real>, k: real) {
    && ExternalRatio(time) == Some(e.ratio)
    && NearestRank(ratios, e.p99) && e.threshold == e.p99 * k
  }

  /** What an evaluation reports in a reachable state: an event for a target exactly
      when it breaches, with the nearest-rank P99 of the target's own recent ratios. */
  lemma EventsUseRecentRatios(scale: nat -> nat, ops: seq<Op>, events: seq<Event>, k: real, t: nat)
    requires t < MAX_TARGETS && forall op :: op in ops ==> ValidOp(op)
    requires Reports(events, Reach(scale, ops), k, MAX_TARGETS)
    ensures var s, recent := Reach(scale, ops), Recent(Ratios(scale, ops, t));
            && (forall e :: e in events && e.target == t ==> Measures(e, s.l.times[t], recent, k))
            && ((exists e :: e in events && e.target == t) <==> Exceeds(s.targets[t], s.l.times[t], recent, k))
  {
    hide Reach, Ratios, Reports, P99, NearestRank, Holds, Recent, Breached, Exceeds;
    var s := Reach(scale, ops);
    ReportsBreaches(events, s, k, MAX_TARGETS, t);
    BreachIsOfRecentRatios(scale, ops, t, k);
    HistoriesHold(scale, ops, t);
    P99IsNearestRank(s.histories[t], Ratios(scale, ops, t));
  }

  lemma ActiveAt(active: Bitmap, targets: seq<Target>, t: nat)
    requires active.Members() == ActiveSet(targets) && |targets| == MAX_TARGETS && t < MAX_TARGETS
    ensures active.Has(t) <==> targets[t].Active()
  {
    assert active.Has(t) <==> t in active.Members();
  }

  lemma LinkedNone(e: seq<Entry>, ts: seq<Target>)
    ensures Linked(e, ts, 0) == Unlinked(ts)
  {
  }

  /** What linking one more css id does, in terms of the map. */
  lemma LinkedNext(e: seq<Entry>, ts: seq<Target>, c: nat)
    requires c < |e| && |ts| == MAX_TARGETS
    ensures |Linked(e, ts, c)| == MAX_TARGETS
    ensures if e[c].known && e[c].cgid in MapOf(ts) then
              var t, r := MapOf(ts)[e[c].cgid], Linked(e, ts, c);
              && t < MAX_TARGETS && Rebuilt(e, ts)[c] == t
              && Linked(e, ts, c + 1) == r[t := r[t].(cssId := c, cssKnown := true)]
            else Rebuilt(e, ts)[c] == NON_TARGET && Linked(e, ts, c + 1) == Linked(e, ts, c)
  {
    MapOfIsSlots(ts);
  }

  lemma GoodIndex(s: State)
    requires Good(s)
    ensures IndexInv(s.css, s.targets)
  {
  }

  lemma SameSlotsActive(a: seq<Target>, b: seq<Target>)
    requires SameSlots(a, b)
    ensures ActiveSet(a) == ActiveSet(b)
  {
  }

  lemma {:induction false} FirstSame(a: seq<Target>, b: seq<Target>, cgid: nat, from: nat)
    requires SameSlots(a, b) && from <= |a| <= MAX_TARGETS
    ensures First(a, cgid, from) == First(b, cgid, from)
    decreases |a| - from
  {
    if from < |a| {
      FirstSame(a, b, cgid, from + 1);
    }
  }

  lemma ForgottenFirst(css: seq<Entry>, targets: seq<Target>, id: nat, cgid: nat)
    requires id < |css| && |targets| == MAX_TARGETS
    ensures First(Forgotten(css, targets, id), cgid) == First(targets, cgid)
  {
    FirstSame(Forgotten(css, targets, id), targets, cgid, 0);
  }

  lemma GoodShape(s: State)
    requires Good(s)
    ensures Shaped(s)
  {
  }

  lemma TargetsHas(p: Packed, t: nat)
    requires t < MAX_TARGETS
    ensures t in PackedSlices.Targets(p) <==> HasTarget(p, t)
  {
  }

  lemma ActiveBelow(active: Bitmap)
    ensures forall t :: t in active.Members() ==> t < MAX_TARGETS
  {
  }

  function SliceOps(slices: seq<Packed>): (ops: seq<Op>)
    ensures forall op :: op in ops ==> ValidOp(op)
  {
    seq(|slices|, i requires 0 <= i < |slices| => Op.Slice(slices[i]))
  }

  lemma NextSliceOp(scale: nat -> nat, s: State, slices: seq<Packed>, i: nat)
    requires Good(s) && i < |slices|
    ensures Run(scale, s, SliceOps(slices[..i + 1]))
         == SliceOp(scale, Run(scale, s, SliceOps(slices[..i])), slices[i])
  {
    var ops := SliceOps(slices[..i + 1]);
    assert ops[..i] == SliceOps(slices[..i]);
  }

  lemma OnesOfZero(width: nat)
    ensures Ones(0, width) == {}
  {
    forall k: nat | k < width
      ensures !Bit(0, k)
    {
      BitOfZero(k);
    }
  }

  lemma NextChargeable(ones: set<nat>, left: set<nat>, bit: nat, offset: nat, active: set<nat>, own: nat)
    requires bit in left && left <= ones
    ensures var done := Chargeable(ones - left, offset, active, own);
            && offset + bit !in done
            && Chargeable(ones - (left - {bit}), offset, active, own)
               == if offset + bit in active && offset + bit != own then done + {offset + bit} else done
  {
    var done, next := Chargeable(ones - left, offset, active, own),
                      Chargeable(ones - (left - {bit}), offset, active, own);
    assert ones - (left - {bit}) == (ones - left) + {bit};
    forall t
      ensures t in next <==> t in done || (t == offset + bit && offset + bit in active && offset + bit != own)
    {
    }
  }
}
