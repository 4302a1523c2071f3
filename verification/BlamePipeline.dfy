/** From the runqueue to the report: switches of a CPU become slices, slices become
    batches, batches become charges.  What the report blames really happened. */
module BlamePipeline {
  import opened Words
  import opened PackedSlices
  import W = SchedWaiting
  import S = SchedSlices
  import B = SliceBatches
  import M = BlameMachine
  import C = BlameCharges

  /** The chances of one switch: whether its slice is kept, and the outcomes of the
      submissions it may make. */
  datatype Chance = Chance(keep: bool, ageOk: bool, fullOk: bool, sizeOk: bool)

  function SampleOf(s: W.State, e: W.Event, keep: bool): seq<Packed>
    requires e.Switch? && e.cpu < |s.cpus|
  {
    var cpu := s.cpus[e.cpu];
    var slice := W.SwitchSlice(cpu.bpf, e.view, e.now, W.CssOf(cpu.rq.curr), keep);
    if slice.Some? then [slice.value] else []
  }

  /** What one CPU's batch sees of a run: one entry for each switch on that CPU. */
  ghost function Observed(s: W.State, events: seq<W.Event>, chances: seq<Chance>, c: nat): seq<B.Switch>
    requires W.Runs(s, events) && |chances| == |events|
    decreases |events|
  {
    if events == [] then []
    else
      var n := |events| - 1;
      S.RunLast(s, events);
      Observed(s, events[..n], chances[..n], c) + Seen(W.After(s, events[..n]), events[n], chances[n], c)
  }

  function Seen(s: W.State, e: W.Event, x: Chance, c: nat): seq<B.Switch> {
    if e.Switch? && e.cpu == c && e.cpu < |s.cpus|
    then [B.Switch(e.now, SampleOf(s, e, x.keep), x.ageOk, x.fullOk, x.sizeOk)] else []
  }

  /** The clock fits its 64-bit word. */
  ghost predicate Timely(events: seq<W.Event>) {
    forall i :: 0 <= i < |events| && events[i].Switch? ==> events[i].now < U64
  }

  /** The slice was taken at switch `i` of this run, and it is fair there: it is of the
      stay since the CPU's last switch, with the cgroup that ran and for as long as it
      ran, and unless a publication overlapped the hook the targets it names were
      waiting. */
  ghost predicate TakenAt(s: W.State, events: seq<W.Event>, c: nat, i: nat, p: Packed)
    requires W.Runs(s, events) && i < |events|
  {
    && events[i].Switch? && events[i].cpu == c
    && S.Spans(events[..i], c, events[i].now, p)
    && W.Runs(s, events[..i]) && c < |W.After(s, events[..i]).cpus|
    && S.Fair(W.After(s, events[..i]), c, events[i].view, p)
  }

  ghost predicate TakenFairly(s: W.State, events: seq<W.Event>, c: nat, p: Packed)
    requires W.Runs(s, events)
  {
    exists i :: 0 <= i < |events| && TakenAt(s, events, c, i, p)
  }

  lemma {:induction false} ObservedIsWellFormed(s: W.State, events: seq<W.Event>, chances: seq<Chance>, c: nat)
    requires W.Runs(s, events) && |chances| == |events| && Timely(events)
    ensures forall b :: b in Observed(s, events, chances, c) ==> b.WellFormed()
    decreases |events|
  {
    hide W.Step;
    if events != [] {
      var n := |events| - 1;
      S.RunLast(s, events);
      S.SwitchTimeIsPositive(W.After(s, events[..n]), events[n]);
      ObservedIsWellFormed(s, events[..n], chances[..n], c);
    }
  }

  lemma SampledNext(a: seq<B.Switch>, b: seq<B.Switch>)
    requires |b| <= 1
    ensures B.Sampled(a + b) == B.Sampled(a) + if b == [] then [] else b[0].sample
  {
    if b == [] {
      assert a + b == a;
    } else {
      assert (a + b)[..|a|] == a;
    }
  }

  lemma {:induction false} SampledIsFair(s: W.State, events: seq<W.Event>, chances: seq<Chance>, c: nat, p: Packed)
    requires W.Init(s) && W.Runs(s, events) && |chances| == |events| && |s.cpus| <= W.MAX_CPUS && Timely(events)
    requires p in B.Sampled(Observed(s, events, chances, c))
    ensures TakenFairly(s, events, c, p)
    decreases |events|
  {
    hide W.Init, W.Runs, W.After, W.Step, S.Fair, S.Spans, Seen, TakenAt;
    if events != [] {
      var n := |events| - 1;
      S.RunLast(s, events);
      var seen := Seen(W.After(s, events[..n]), events[n], chances[n], c);
      SeenIsShort(W.After(s, events[..n]), events[n], chances[n], c);
      SampledNext(Observed(s, events[..n], chances[..n], c), seen);
      if p in B.Sampled(Observed(s, events[..n], chances[..n], c)) {
        SampledIsFair(s, events[..n], chances[..n], c, p);
        var i :| 0 <= i < n && TakenAt(s, events[..n], c, i, p);
        TakenStays(s, events, c, n, i, p);
      } else {
        SeenIsFair(s, events, chances[n], c, p);
      }
    }
  }

  lemma SeenIsShort(s: W.State, e: W.Event, x: Chance, c: nat)
    ensures |Seen(s, e, x, c)| <= 1
  {
  }

  lemma TakenStays(s: W.State, events: seq<W.Event>, c: nat, n: nat, i: nat, p: Packed)
    requires W.Runs(s, events) && i < n <= |events| && W.Runs(s, events[..n]) && TakenAt(s, events[..n], c, i, p)
    ensures TakenAt(s, events, c, i, p)
  {
    hide W.Runs, W.After, S.Fair, S.Spans;
    assert events[..n][..i] == events[..i];
  }

  lemma SeenIsFair(s: W.State, events: seq<W.Event>, x: Chance, c: nat, p: Packed)
    requires W.Init(s) && W.Runs(s, events) && events != [] && |s.cpus| <= W.MAX_CPUS && Timely(events)
    requires var n := |events| - 1;
             && W.Runs(s, events[..n]) && W.Enabled(W.After(s, events[..n]), events[n])
             && var seen := Seen(W.After(s, events[..n]), events[n], x, c);
                seen != [] && p in seen[0].sample
    ensures TakenAt(s, events, c, |events| - 1, p)
  {
    hide W.Init, W.Runs, W.After, S.Fair, S.Spans, W.SwitchSlice;
    var n := |events| - 1;
    var before, e := W.After(s, events[..n]), events[n];
    W.InitInv(s);
    W.RunKeeps(s, events[..n]);
    S.SlicesAreFair(before, c, e.view, e.now, x.keep);
    S.SliceSpansStay(s, events[..n], c, e.view, e.now, x.keep);
  }

  /** Whatever a CPU's batch submitted or still holds was taken fairly. */
  lemma BatchedIsFair(s: W.State, events: seq<W.Event>, chances: seq<Chance>, c: nat, size: nat, p: Packed)
    requires W.Init(s) && W.Runs(s, events) && |chances| == |events| && |s.cpus| <= W.MAX_CPUS && Timely(events)
    ensures forall b :: b in Observed(s, events, chances, c) ==> b.WellFormed()
    ensures var batch := B.Run(size, Observed(s, events, chances, c));
            p in B.Flatten(batch.emitted) || p in batch.pending ==> TakenFairly(s, events, c, p)
  {
    hide W.Runs, Observed, TakenFairly, B.Run;
    ObservedIsWellFormed(s, events, chances, c);
    var seen := Observed(s, events, chances, c);
    B.RunConserves(size, seen);
    var batch := B.Run(size, seen);
    if p in B.Flatten(batch.emitted) || p in batch.pending {
      SampledIsFair(s, events, chances, c, p);
    }
  }

  /** What one CPU's batches hand to the accounting: the slices of the submissions
      that the perf ring took, and at shutdown those still pending. */
  ghost function HandedOver(s: W.State, events: seq<W.Event>, chances: seq<Chance>, c: nat, size: nat): seq<Packed>
    requires W.Runs(s, events) && |chances| == |events| && Timely(events)
  {
    ObservedIsWellFormed(s, events, chances, c);
    var batch := B.Run(size, Observed(s, events, chances, c));
    Concat(B.Delivered(batch.emitted)) + batch.pending
  }

  function Concat(batches: seq<seq<Packed>>): seq<Packed> {
    if batches == [] then [] else Concat(batches[..|batches| - 1]) + batches[|batches| - 1]
  }

  lemma {:induction false} DeliveredArePart(emitted: seq<B.Emission>)
    ensures multiset(Concat(B.Delivered(emitted))) <= multiset(B.Flatten(emitted))
    decreases |emitted|
  {
    if emitted != [] {
      var n := |emitted| - 1;
      DeliveredArePart(emitted[..n]);
      if emitted[n].ok {
        assert (B.Delivered(emitted[..n]) + [emitted[n].slices])[..|B.Delivered(emitted[..n])|]
            == B.Delivered(emitted[..n]);
      } else {
        assert B.Delivered(emitted) == B.Delivered(emitted[..n]);
      }
    }
  }

  /** Nothing is handed over more often than it was sampled. */
  lemma HandedOverWasSampled(s: W.State, events: seq<W.Event>, chances: seq<Chance>, c: nat, size: nat)
    requires W.Runs(s, events) && |chances| == |events| && Timely(events)
    ensures multiset(HandedOver(s, events, chances, c, size)) <= multiset(B.Sampled(Observed(s, events, chances, c)))
  {
    hide W.Runs, Observed, B.Run, Timely, Concat, B.Inv;
    ObservedIsWellFormed(s, events, chances, c);
    var seen := Observed(s, events, chances, c);
    var batch := B.Run(size, seen);
    B.RunConserves(size, seen);
    DeliveredArePart(batch.emitted);
    assert multiset(B.Trace(batch)) == multiset(B.Flatten(batch.emitted)) + multiset(batch.pending);
  }

  /** What the first `n` CPUs hand over, and what they sampled. */
  ghost function AllHandedOver(s: W.State, events: seq<W.Event>, chances: seq<Chance>, n: nat, size: nat): seq<Packed>
    requires W.Runs(s, events) && |chances| == |events| && Timely(events)
  {
    if n == 0 then []
    else AllHandedOver(s, events, chances, n - 1, size) + HandedOver(s, events, chances, n - 1, size)
  }

  ghost function AllSampled(s: W.State, events: seq<W.Event>, chances: seq<Chance>, n: nat): seq<Packed>
    requires W.Runs(s, events) && |chances| == |events|
  {
    if n == 0 then []
    else AllSampled(s, events, chances, n - 1) + B.Sampled(Observed(s, events, chances, n - 1))
  }

  lemma {:induction false} AllHandedOverWasSampled(s: W.State, events: seq<W.Event>, chances: seq<Chance>,
                                                   n: nat, size: nat)
    requires W.Runs(s, events) && |chances| == |events| && Timely(events)
    ensures multiset(AllHandedOver(s, events, chances, n, size)) <= multiset(AllSampled(s, events, chances, n))
  {
    hide W.Runs, Observed, Timely, HandedOver, B.Sampled;
    if n > 0 {
      AllHandedOverWasSampled(s, events, chances, n - 1, size);
      HandedOverWasSampled(s, events, chances, n - 1, size);
      PartsJoin(AllHandedOver(s, events, chances, n - 1, size), HandedOver(s, events, chances, n - 1, size),
                AllSampled(s, events, chances, n - 1), B.Sampled(Observed(s, events, chances, n - 1)));
    }
  }

  lemma PartsJoin(a: seq<Packed>, b: seq<Packed>, x: seq<Packed>, y: seq<Packed>)
    requires multiset(a) <= multiset(x) && multiset(b) <= multiset(y)
    ensures multiset(a + b) <= multiset(x + y)
  {
    assert multiset(a + b) == multiset(a) + multiset(b);
    assert multiset(x + y) == multiset(x) + multiset(y);
  }

  /** The slice was taken fairly on some CPU. */
  ghost predicate Taken(s: W.State, events: seq<W.Event>, p: Packed)
    requires W.Runs(s, events)
  {
    exists c :: TakenFairly(s, events, c, p)
  }

  lemma {:induction false} AllSampledIsTaken(s: W.State, events: seq<W.Event>, chances: seq<Chance>, n: nat, p: Packed)
    requires W.Init(s) && W.Runs(s, events) && |chances| == |events| && |s.cpus| <= W.MAX_CPUS && Timely(events)
    requires p in AllSampled(s, events, chances, n)
    ensures Taken(s, events, p)
  {
    hide W.Runs, W.Init, Observed, TakenFairly;
    if p in AllSampled(s, events, chances, n - 1) {
      AllSampledIsTaken(s, events, chances, n - 1, p);
    } else {
      SampledIsFair(s, events, chances, n - 1, p);
      assert TakenFairly(s, events, n - 1, p);
    }
  }

  lemma SliceIsTaken(s: W.State, events: seq<W.Event>, chances: seq<Chance>, size: nat, ops: seq<M.Op>, i: nat)
    requires W.Init(s) && W.Runs(s, events) && |chances| == |events| && |s.cpus| <= W.MAX_CPUS && Timely(events)
    requires multiset(M.SlicesIn(ops)) <= multiset(AllHandedOver(s, events, chances, |s.cpus|, size))
    requires i < |ops| && ops[i].Slice?
    ensures Taken(s, events, ops[i].packed)
  {
    hide W.Runs, W.Init, Timely, AllHandedOver, AllSampled, Taken;
    InSlices(ops, i);
    AllHandedOverWasSampled(s, events, chances, |s.cpus|, size);
    assert ops[i].packed in multiset(M.SlicesIn(ops));
    assert ops[i].packed in multiset(AllSampled(s, events, chances, |s.cpus|));
    AllSampledIsTaken(s, events, chances, |s.cpus|, ops[i].packed);
  }

  lemma {:induction false} InSlices(ops: seq<M.Op>, i: nat)
    requires i < |ops| && ops[i].Slice?
    ensures ops[i].packed in M.SlicesIn(ops)
  {
    if i < |ops| - 1 {
      InSlices(ops[..|ops| - 1], i);
    }
  }

  lemma IsSlice(op: M.Op, css: nat, t: nat)
    requires M.Explains(op, css, t)
    ensures op.Slice?
  {
  }

  /** When the accounting handles no slice more often than the batches of a run handed
      it over, every charge is earned.  It is the sum of what the slices since its slot
      was last cleared add to it; each of those was taken at a switch at which the
      competitor was running and, unless a publication overlapped the hook, a cgroup
      that had the target's slot was waiting for that CPU; and it is no more than what
      the sampled slices are worth, each of them counted once. */
  lemma BlameIsEarned(s: W.State, events: seq<W.Event>, chances: seq<Chance>, size: nat,
                      scale: nat -> nat, ops: seq<M.Op>, css: nat, t: nat)
    requires W.Init(s) && W.Runs(s, events) && |chances| == |events| && |s.cpus| <= W.MAX_CPUS && Timely(events)
    requires forall op :: op in ops ==> M.ValidOp(op)
    requires multiset(M.SlicesIn(ops)) <= multiset(AllHandedOver(s, events, chances, |s.cpus|, size))
    requires css < MAX_CSS_IDS && t < MAX_TARGETS
    ensures M.Reach(scale, ops).l.matrix[C.ChargeIndex(css, t)]
         == M.Earned(scale, ops, M.Since(scale, ops, t), |ops|, css, t)
    ensures forall i :: 0 <= i < |ops| && M.ChargeAt(scale, ops, i, css, t) != 0 ==>
              M.Explains(ops[i], css, t) && ops[i].Slice? && Taken(s, events, ops[i].packed)
    ensures M.Reach(scale, ops).l.matrix[C.ChargeIndex(css, t)]
         <= M.Worth(scale, AllSampled(s, events, chances, |s.cpus|), css, t)
  {
    hide *;
    M.ChargesAreSummed(scale, ops, css, t);
    forall i | 0 <= i < |ops| && M.ChargeAt(scale, ops, i, css, t) != 0
      ensures M.Explains(ops[i], css, t) && ops[i].Slice? && Taken(s, events, ops[i].packed)
    {
      M.ChargeExplains(scale, ops, i, css, t);
      IsSlice(ops[i], css, t);
      SliceIsTaken(s, events, chances, size, ops, i);
    }
    BlameIsCovered(s, events, chances, size, scale, ops, css, t);
  }

  lemma BlameIsCovered(s: W.State, events: seq<W.Event>, chances: seq<Chance>, size: nat,
                       scale: nat -> nat, ops: seq<M.Op>, css: nat, t: nat)
    requires W.Runs(s, events) && |chances| == |events| && Timely(events)
    requires forall op :: op in ops ==> M.ValidOp(op)
    requires multiset(M.SlicesIn(ops)) <= multiset(AllHandedOver(s, events, chances, |s.cpus|, size))
    requires css < MAX_CSS_IDS && t < MAX_TARGETS
    ensures M.Reach(scale, ops).l.matrix[C.ChargeIndex(css, t)]
         <= M.Worth(scale, AllSampled(s, events, chances, |s.cpus|), css, t)
  {
    hide *;
    M.ChargesAreCovered(scale, ops, css, t);
    AllHandedOverWasSampled(s, events, chances, |s.cpus|, size);
    M.WorthIsMonotone(scale, M.SlicesIn(ops), AllSampled(s, events, chances, |s.cpus|), css, t);
  }
}
