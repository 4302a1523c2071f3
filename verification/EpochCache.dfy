/** Publications racing with scheduler hooks: the publisher rewrites the target map
    item by item and only then raises the epoch, while hooks on every CPU read the
    epoch first and use the cache, the map and their CPU's bitmap afterwards.

    Hooks that update the same CPU's bitmap are serialized by its runqueue lock;
    everything else interleaves. */
module EpochCache {
  import opened Words
  import opened PackedSlices
  import opened SchedHooks
  import W = SchedWaiting

  // ---------------------------------------------------------------- machine

  /** How far a hook got; `css` is the cgroup it is working on. */
  datatype Hook =
    | Idle
    | Begun(css: nat, epoch: nat)
    | Ready(css: nat, epoch: nat)
    | Missed(css: nat, epoch: nat)
    | Found(css: nat, epoch: nat, dense: nat)
    | Resolved(css: nat, epoch: nat, dense: nat)

  /** A bitmap remembers, for each set bit, the cgroup it was set for. */
  datatype Bits = Bits(epoch: nat, setFor: map<nat, nat>)

  datatype State = State(
    epoch: nat,
    stable: bool,
    targets: map<nat, nat>,
    cache: map<nat, nat>,
    hooks: map<nat, Hook>,
    bits: map<nat, Bits>)

  datatype Event =
    | StartPublish
    | Delete(cgid: nat)
    | Write(cgid: nat, dense: nat)
    | FinishPublish
    | Begin(cpu: nat, css: nat)
    | Ensure(cpu: nat)
    | ReadCache(cpu: nat)
    | ReadMap(cpu: nat)
    | StoreCache(cpu: nat)
    | Apply(cpu: nat, on: bool)
    | NextGroup(cpu: nat, css: nat)
    | End(cpu: nat)

  function HookOf(s: State, cpu: nat): Hook {
    if cpu in s.hooks then s.hooks[cpu] else Idle
  }

  /** Zero-initialised, as the BPF globals are. */
  function Cached(s: State, css: nat): nat {
    if css in s.cache then s.cache[css] else 0
  }

  function BitsOf(s: State, cpu: nat): Bits {
    if cpu in s.bits then s.bits[cpu] else Bits(0, map[])
  }

  predicate Enabled(s: State, e: Event) {
    match e
    case StartPublish => s.stable && s.epoch + 1 < U32
    case Delete(_) => !s.stable
    case Write(_, _) => !s.stable
    case FinishPublish => !s.stable && s.epoch + 1 < U32
    case Begin(cpu, css) => HookOf(s, cpu).Idle? && css < MAX_CSS_IDS
    case Ensure(cpu) => HookOf(s, cpu).Begun?
    case ReadCache(cpu) => HookOf(s, cpu).Ready?
    case ReadMap(cpu) => HookOf(s, cpu).Missed?
    case StoreCache(cpu) => HookOf(s, cpu).Found?
    case Apply(cpu, _) => HookOf(s, cpu).Resolved?
    case NextGroup(cpu, css) => HookOf(s, cpu).Ready? && css < MAX_CSS_IDS
    case End(cpu) => !HookOf(s, cpu).Idle?
  }

  function WithHook(s: State, cpu: nat, h: Hook): State {
    s.(hooks := s.hooks[cpu := h])
  }

  function ApplyBit(b: Bits, dense: nat, css: nat, on: bool): Bits {
    if dense >= MAX_TARGETS then b
    else b.(setFor := if on then b.setFor[dense := css] else b.setFor - {dense})
  }

  function Step(owner: nat -> nat, s: State, e: Event): State
    requires Enabled(s, e)
  {
    match e
    case StartPublish => s.(stable := false)
    case Delete(cgid) => s.(targets := s.targets - {cgid})
    case Write(cgid, dense) => s.(targets := s.targets[cgid := dense])
    case FinishPublish => s.(epoch := s.epoch + 1, stable := true)
    case Begin(cpu, css) => WithHook(s, cpu, Begun(css, s.epoch))
    case Ensure(cpu) =>
      var h := HookOf(s, cpu);
      var b := BitsOf(s, cpu);
      WithHook(s.(bits := s.bits[cpu := if b.epoch == h.epoch then b else Bits(h.epoch, map[])]),
               cpu, Ready(h.css, h.epoch))
    case ReadCache(cpu) =>
      var h := HookOf(s, cpu);
      WithHook(s, cpu, if CacheEpoch(Cached(s, h.css)) == h.epoch
                       then Resolved(h.css, h.epoch, CacheDense(Cached(s, h.css)))
                       else Missed(h.css, h.epoch))
    case ReadMap(cpu) =>
      var h := HookOf(s, cpu);
      WithHook(s, cpu, Found(h.css, h.epoch, Lookup(s.targets, owner(h.css))))
    case StoreCache(cpu) =>
      var h := HookOf(s, cpu);
      WithHook(s.(cache := s.cache[h.css := PackCache(h.epoch, h.dense)]), cpu, Resolved(h.css, h.epoch, h.dense))
    case Apply(cpu, on) =>
      var h := HookOf(s, cpu);
      WithHook(s.(bits := s.bits[cpu := ApplyBit(BitsOf(s, cpu), h.dense, h.css, on)]), cpu, Ready(h.css, h.epoch))
    case NextGroup(cpu, css) => WithHook(s, cpu, Ready(css, HookOf(s, cpu).epoch))
    case End(cpu) => WithHook(s, cpu, Idle)
  }

  // -------------------------------------------------------------- invariant

  /** Whatever was classified in the current epoch agrees with the map. */
  ghost predicate CacheCurrent(owner: nat -> nat, s: State) {
    forall css: nat :: CacheEpoch(Cached(s, css)) == s.epoch ==>
      CacheDense(Cached(s, css)) == Lookup(s.targets, owner(css))
  }

  ghost predicate HookCurrent(owner: nat -> nat, s: State, h: Hook) {
    (h.Found? || h.Resolved?) && h.epoch == s.epoch ==> h.dense == Lookup(s.targets, owner(h.css))
  }

  ghost predicate BitsCurrent(owner: nat -> nat, s: State, b: Bits) {
    b.epoch == s.epoch ==> forall d :: d in b.setFor ==> Lookup(s.targets, owner(b.setFor[d])) == d
  }

  ghost predicate Ordered(s: State) {
    && s.epoch >= 1
    && (forall css: nat :: CacheEpoch(Cached(s, css)) <= s.epoch)
    && (forall cpu: nat :: HookOf(s, cpu) != Idle ==> 1 <= HookOf(s, cpu).epoch <= s.epoch)
    && (forall cpu: nat :: BitsOf(s, cpu).epoch <= s.epoch)
    && (forall cpu: nat :: !HookOf(s, cpu).Idle? && !HookOf(s, cpu).Begun? ==>
          BitsOf(s, cpu).epoch == HookOf(s, cpu).epoch)
    && (forall cpu: nat :: HookOf(s, cpu).Found? ==> HookOf(s, cpu).dense <= DENSE_MASK)
  }

  ghost predicate Current(owner: nat -> nat, s: State) {
    && CacheCurrent(owner, s)
    && (forall cpu: nat :: HookCurrent(owner, s, HookOf(s, cpu)))
    && (forall cpu: nat :: BitsCurrent(owner, s, BitsOf(s, cpu)))
  }

  ghost predicate Inv(owner: nat -> nat, s: State) {
    Ordered(s) && (s.stable ==> Current(owner, s))
  }

  lemma CacheOrdered(owner: nat -> nat, s: State, e: Event, css: nat)
    requires Ordered(s) && Enabled(s, e)
    ensures CacheEpoch(Cached(Step(owner, s, e), css)) <= Step(owner, s, e).epoch
  {
    hide PackCache, CacheEpoch, CacheDense;
    if e.StoreCache? {
      var h := HookOf(s, e.cpu);
      CacheRoundTrip(h.epoch, h.dense);
    }
    assert CacheEpoch(Cached(s, css)) <= s.epoch;
  }

  lemma HookOrdered(owner: nat -> nat, s: State, e: Event, cpu: nat)
    requires Ordered(s) && Enabled(s, e)
    ensures var t := Step(owner, s, e);
            && (HookOf(t, cpu) != Idle ==> 1 <= HookOf(t, cpu).epoch <= t.epoch)
            && BitsOf(t, cpu).epoch <= t.epoch
            && (!HookOf(t, cpu).Idle? && !HookOf(t, cpu).Begun? ==> BitsOf(t, cpu).epoch == HookOf(t, cpu).epoch)
            && (HookOf(t, cpu).Found? ==> HookOf(t, cpu).dense <= DENSE_MASK)
  {
    hide PackCache, CacheEpoch, CacheDense, Cached;
    assert HookOf(s, cpu) != Idle ==> HookOf(s, cpu).epoch <= s.epoch;
    assert BitsOf(s, cpu).epoch <= s.epoch;
  }

  lemma EpochRises(owner: nat -> nat, s: State, e: Event)
    requires Enabled(s, e)
    ensures Step(owner, s, e).epoch >= s.epoch
  {
  }

  lemma StepOrdered(owner: nat -> nat, s: State, e: Event)
    requires Ordered(s) && Enabled(s, e)
    ensures Ordered(Step(owner, s, e))
  {
    hide Step, Enabled, CacheEpoch, Cached, HookOf, BitsOf;
    EpochRises(owner, s, e);
    var t := Step(owner, s, e);
    forall css: nat
      ensures CacheEpoch(Cached(t, css)) <= t.epoch
    {
      CacheOrdered(owner, s, e, css);
    }
    forall cpu: nat
      ensures HookOf(t, cpu) != Idle ==> 1 <= HookOf(t, cpu).epoch <= t.epoch
      ensures BitsOf(t, cpu).epoch <= t.epoch
      ensures !HookOf(t, cpu).Idle? && !HookOf(t, cpu).Begun? ==> BitsOf(t, cpu).epoch == HookOf(t, cpu).epoch
      ensures HookOf(t, cpu).Found? ==> HookOf(t, cpu).dense <= DENSE_MASK
    {
      HookOrdered(owner, s, e, cpu);
    }
  }

  lemma StepCurrent(owner: nat -> nat, s: State, e: Event)
    requires Ordered(s) && Enabled(s, e) && s.stable && Current(owner, s)
    ensures Step(owner, s, e).stable ==> Current(owner, Step(owner, s, e))
  {
    hide PackCache, CacheEpoch, CacheDense;
    var t := Step(owner, s, e);
    if e.StoreCache? {
      var h := HookOf(s, e.cpu);
      CacheRoundTrip(h.epoch, h.dense);
      assert HookCurrent(owner, s, h);
    } else if e.Apply? {
      assert HookCurrent(owner, s, HookOf(s, e.cpu));
      assert BitsCurrent(owner, s, BitsOf(s, e.cpu));
    }
    if t.stable {
      forall cpu: nat
        ensures HookCurrent(owner, t, HookOf(t, cpu)) && BitsCurrent(owner, t, BitsOf(t, cpu))
      {
        assert HookCurrent(owner, s, HookOf(s, cpu)) && BitsCurrent(owner, s, BitsOf(s, cpu));
      }
    }
  }

  /** The new epoch is one that nothing carries yet. */
  lemma FinishCurrent(owner: nat -> nat, s: State)
    requires Ordered(s) && Enabled(s, FinishPublish)
    ensures Current(owner, Step(owner, s, FinishPublish))
  {
    hide CacheEpoch, CacheDense;
    var t := Step(owner, s, FinishPublish);
    forall cpu: nat
      ensures HookCurrent(owner, t, HookOf(t, cpu)) && BitsCurrent(owner, t, BitsOf(t, cpu))
    {
      assert HookOf(t, cpu) == HookOf(s, cpu) && BitsOf(t, cpu) == BitsOf(s, cpu);
    }
    forall css: nat
      ensures CacheEpoch(Cached(t, css)) != t.epoch
    {
      assert Cached(t, css) == Cached(s, css);
    }
  }

  lemma StepKeeps(owner: nat -> nat, s: State, e: Event)
    requires Inv(owner, s) && Enabled(s, e)
    ensures Inv(owner, Step(owner, s, e))
  {
    hide Ordered, Current;
    StepOrdered(owner, s, e);
    if e == FinishPublish {
      FinishCurrent(owner, s);
    } else if s.stable {
      StepCurrent(owner, s, e);
    }
  }

  ghost predicate Runs(owner: nat -> nat, s: State, events: seq<Event>)
    decreases |events|
  {
    events == [] || (Enabled(s, events[0]) && Runs(owner, Step(owner, s, events[0]), events[1..]))
  }

  ghost function After(owner: nat -> nat, s: State, events: seq<Event>): State
    requires Runs(owner, s, events)
    decreases |events|
  {
    if events == [] then s else After(owner, Step(owner, s, events[0]), events[1..])
  }

  /** Hooks attach after epoch 1 is published, to zeroed caches and bitmaps. */
  function Attached(targets: map<nat, nat>): State {
    State(1, true, targets, map[], map[], map[])
  }

  lemma AttachedInv(owner: nat -> nat, targets: map<nat, nat>)
    ensures Inv(owner, Attached(targets))
  {
  }

  lemma {:induction false} RunKeeps(owner: nat -> nat, s: State, events: seq<Event>)
    requires Inv(owner, s) && Runs(owner, s, events)
    ensures Inv(owner, After(owner, s, events))
    decreases |events|
  {
    hide Inv, Enabled, Step;
    if events != [] {
      StepKeeps(owner, s, events[0]);
      RunKeeps(owner, Step(owner, s, events[0]), events[1..]);
    }
  }

  /** In every interleaving, whenever no publication is in progress: a cache entry of
      the current epoch is the direct map lookup, a hook of the current epoch resolved
      its cgroup to the direct map lookup, and every bit of a current-epoch bitmap was
      set for the cgroup that the map assigns to it.  A cache never written never
      hits. */
  lemma RaceIsHarmless(owner: nat -> nat, targets: map<nat, nat>, events: seq<Event>, css: nat, cpu: nat, d: nat)
    requires Runs(owner, Attached(targets), events)
    ensures var s := After(owner, Attached(targets), events);
            && (!HookOf(s, cpu).Idle? && css !in s.cache ==> CacheEpoch(Cached(s, css)) != HookOf(s, cpu).epoch)
            && (s.stable && CacheEpoch(Cached(s, css)) == s.epoch ==>
                  CacheDense(Cached(s, css)) == Lookup(s.targets, owner(css)))
            && (s.stable && HookOf(s, cpu).Resolved? && HookOf(s, cpu).epoch == s.epoch ==>
                  HookOf(s, cpu).dense == Lookup(s.targets, owner(HookOf(s, cpu).css)))
            && (s.stable && BitsOf(s, cpu).epoch == s.epoch && d in BitsOf(s, cpu).setFor ==>
                  Lookup(s.targets, owner(BitsOf(s, cpu).setFor[d])) == d)
  {
    hide Runs, After, Step, Enabled;
    AttachedInv(owner, targets);
    RunKeeps(owner, Attached(targets), events);
    var s := After(owner, Attached(targets), events);
    if s.stable {
      assert HookCurrent(owner, s, HookOf(s, cpu)) && BitsCurrent(owner, s, BitsOf(s, cpu));
    }
    assert CacheEpoch(0) == 0;
    assert HookOf(s, cpu) != Idle ==> 1 <= HookOf(s, cpu).epoch;
  }

  /** What `SchedWaiting.Sees` allows is what a hook can find: an epoch published
      before, and when the hook ends with no publication in progress and its epoch
      still current, the published dense id. */
  lemma HooksSeePublication(owner: nat -> nat, targets: map<nat, nat>, events: seq<Event>, cpu: nat)
    requires Runs(owner, Attached(targets), events)
    ensures var s := After(owner, Attached(targets), events);
            var h := HookOf(s, cpu);
            && (!h.Idle? ==> h.epoch <= s.epoch)
            && (s.stable && h.Resolved? && h.epoch == s.epoch && h.css < MAX_CSS_IDS ==>
                  h.dense == W.Resolve(PublishedAs(owner, s.epoch, s.targets), h.css))
  {
    hide Runs, After, Step, Enabled;
    AttachedInv(owner, targets);
    RunKeeps(owner, Attached(targets), events);
    var s := After(owner, Attached(targets), events);
    assert HookOf(s, cpu) != Idle ==> HookOf(s, cpu).epoch <= s.epoch;
    if s.stable {
      assert HookCurrent(owner, s, HookOf(s, cpu));
    }
  }

  // --------------------------------------------------- during a publication

  lemma {:induction false} RunThen(owner: nat -> nat, s: State, events: seq<Event>, e: Event)
    requires Runs(owner, s, events) && Enabled(After(owner, s, events), e)
    ensures Runs(owner, s, events + [e]) && After(owner, s, events + [e]) == Step(owner, After(owner, s, events), e)
    decreases |events|
  {
    hide Enabled, Step;
    if events == [] {
      assert events + [e] == [e] && [e][1..] == [];
      assert Runs(owner, Step(owner, s, e), []);
    } else {
      RunThen(owner, Step(owner, s, events[0]), events[1..], e);
      assert (events + [e])[1..] == events[1..] + [e];
    }
  }

  const REWRITE: seq<Event> := [] + [StartPublish] + [Delete(7)] + [Write(9, 0)]
  const MISS: seq<Event> := REWRITE + [Begin(0, 9)] + [Ensure(0)] + [ReadCache(0)]
  const HOOK: seq<Event> := MISS + [ReadMap(0)] + [StoreCache(0)] + [Apply(0, true)]

  function Rewritten(h: Hook, cache: map<nat, nat>, bits: map<nat, Bits>): State {
    State(1, false, map[9 := 0], cache, map[0 := h], bits)
  }

  lemma RewriteRuns(owner: nat -> nat)
    ensures Runs(owner, Attached(map[7 := 0]), REWRITE)
    ensures After(owner, Attached(map[7 := 0]), REWRITE) == State(1, false, map[9 := 0], map[], map[], map[])
  {
    var s := Attached(map[7 := 0]);
    assert Runs(owner, s, []);
    RunThen(owner, s, [], StartPublish);
    RunThen(owner, s, [] + [StartPublish], Delete(7));
    assert map[7 := 0] - {7} == map[];
    RunThen(owner, s, [] + [StartPublish] + [Delete(7)], Write(9, 0));
  }

  lemma MissRuns(owner: nat -> nat)
    ensures Runs(owner, Attached(map[7 := 0]), MISS)
    ensures After(owner, Attached(map[7 := 0]), MISS) == Rewritten(Missed(9, 1), map[], map[0 := Bits(1, map[])])
  {
    hide PackCache, Runs, After;
    var s := Attached(map[7 := 0]);
    RewriteRuns(owner);
    RunThen(owner, s, REWRITE, Begin(0, 9));
    assert After(owner, s, REWRITE + [Begin(0, 9)]) == Rewritten(Begun(9, 1), map[], map[]);
    RunThen(owner, s, REWRITE + [Begin(0, 9)], Ensure(0));
    RunThen(owner, s, REWRITE + [Begin(0, 9)] + [Ensure(0)], ReadCache(0));
  }

  /** A publication in progress does let a hook set a bit of the current epoch for a
      cgroup that the published map never assigned to it. */
  lemma WindowRaces(owner: nat -> nat)
    requires owner(9) == 9
    ensures Runs(owner, Attached(map[7 := 0]), HOOK)
    ensures var s := After(owner, Attached(map[7 := 0]), HOOK);
            !s.stable && s.epoch == 1 && BitsOf(s, 0) == Bits(1, map[0 := 9])
  {
    hide PackCache, Runs, After;
    var s := Attached(map[7 := 0]);
    MissRuns(owner);
    RunThen(owner, s, MISS, ReadMap(0));
    RunThen(owner, s, MISS + [ReadMap(0)], StoreCache(0));
    RunThen(owner, s, MISS + [ReadMap(0)] + [StoreCache(0)], Apply(0, true));
  }
}
