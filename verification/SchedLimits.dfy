/** Where the waiting bits are wrong: exactly on machines with more CPUs than the hooks
    track, and while a publication is in progress. */
module SchedLimits {
  import opened Options
  import opened PackedSlices
  import opened SchedWaiting

  ghost predicate Truthful(s: State) {
    forall c, css :: 0 <= c < |s.cpus| && s.cpus[c].bpf.previous != 0 && BitSet(s, c, css)
      ==> ReallyWaits(s.cpus[c].rq, css)
  }

  /** In every run of such a machine, whenever a publication is in progress or
      whenever none is. */
  ghost predicate AlwaysTruthful(cpus: nat, publishing: bool) {
    forall s, events :: Init(s) && |s.cpus| == cpus && Runs(s, events) && After(s, events).stable == !publishing
      ==> Truthful(After(s, events))
  }

  const FIRST := Targets(1, map[7 := 0])

  /** An idle machine with one target, cgroup 7 in slot 0. */
  function IdleMachine(cpus: nat): State {
    State(seq(cpus, _ => Cpu(Rq(None, {}, {}), ZEROED)), FIRST, FIRST.dense, true)
  }

  lemma RunOfOne(s: State, e: Event)
    requires Enabled(s, e)
    ensures Runs(s, [e]) && After(s, [e]) == Step(s, e)
  {
    hide Enabled, Step;
    assert Runs(Step(s, e), []) && [e][1..] == [];
  }

  lemma {:induction false} RunThen(s: State, events: seq<Event>, e: Event)
    requires Runs(s, events) && Enabled(After(s, events), e)
    ensures Runs(s, events + [e]) && After(s, events + [e]) == Step(After(s, events), e)
    decreases |events|
  {
    hide Enabled, Step;
    if events == [] {
      RunOfOne(s, e);
      assert events + [e] == [e];
    } else {
      RunThen(Step(s, events[0]), events[1..], e);
      assert (events + [e])[1..] == events[1..] + [e];
    }
  }

  const QUIET_SWITCH := Switch(0, None, false, false, 1, FIRST)

  /** The machine after its first switch. */
  function Switched(cpus: nat): State
    requires cpus > 0
  {
    IdleMachine(cpus).(cpus := IdleMachine(cpus).cpus[0 := Cpu(Rq(None, {}, {}), Bpf(EMPTY_BITMAP, 1, 0, 1))])
  }

  lemma SwitchedRuns(cpus: nat)
    requires cpus > 0
    ensures Init(IdleMachine(cpus)) && Runs(IdleMachine(cpus), [QUIET_SWITCH])
    ensures After(IdleMachine(cpus), [QUIET_SWITCH]) == Switched(cpus)
  {
    RunOfOne(IdleMachine(cpus), QUIET_SWITCH);
  }

  /** A task of `css` wakes on the idle CPU 0, and its hook resolves slot 0. */
  lemma WakeupSetsBit(s: State, cpus: nat, css: nat, view: Targets)
    requires cpus > 0 && s.cpus == Switched(cpus).cpus && s.g == FIRST
    requires css in view.dense && view.dense[css] == 0 && css < MAX_CSS_IDS && view.epoch == 1
    ensures WakeupCpu(s.cpus[0], view, true, Task(1, css), false)
         == Cpu(Rq(None, {Task(1, css)}, {}), Bpf(SetBit(EMPTY_BITMAP, 0, true), 1, 0, 1))
    ensures 0 in SetBit(EMPTY_BITMAP, 0, true).Members()
  {
    var rq := Rq(None, {Task(1, css)}, {});
    assert Enqueue(s.cpus[0].rq, Task(1, css), false) == rq;
    assert rq.Of(css) == {Task(1, css)};
    SetBitChangesOne(EMPTY_BITMAP, 0, true);
  }

  const STRAY := Task(1, 7)

  /** A task wakes on CPU 0 and migrates to the first CPU that the hooks do not
      track: that migration is not observed at its source either. */
  const OVERFLOW: seq<Event> :=
    [QUIET_SWITCH] + [Wakeup(1, 0, STRAY, true, false, FIRST)] + [Migrate(0, MAX_CPUS, STRAY, true, false, FIRST)]

  lemma OverflowBreaks(cpus: nat)
    requires cpus > MAX_CPUS
    ensures Init(IdleMachine(cpus)) && Runs(IdleMachine(cpus), OVERFLOW)
    ensures After(IdleMachine(cpus), OVERFLOW).stable && !Truthful(After(IdleMachine(cpus), OVERFLOW))
  {
    var s := IdleMachine(cpus);
    SwitchedRuns(cpus);
    var s1 := Switched(cpus);
    var e1 := Wakeup(1, 0, STRAY, true, false, FIRST);
    WakeupSetsBit(s1, cpus, 7, FIRST);
    var s2 := Step(s1, e1);
    RunThen(s, [QUIET_SWITCH], e1);
    var e2 := Migrate(0, MAX_CPUS, STRAY, true, false, FIRST);
    assert s2.cpus[MAX_CPUS] == s.cpus[MAX_CPUS];
    var s3 := Step(s2, e2);
    RunThen(s, [QUIET_SWITCH] + [e1], e2);
    assert s3.cpus[0].rq.queued == {};
    assert BitSet(s3, 0, 7) && s3.cpus[0].rq.Waiting(7) == {};
  }

  /** The publisher gives slot 0 to cgroup 9; a task of cgroup 9 wakes before the epoch
      is raised, and its hook resolves by the new map. */
  const WINDOW: seq<Event> :=
    [QUIET_SWITCH] + [StartPublish] + [Delete(7)] + [Write(9, 0)]
    + [Wakeup(0, 0, Task(1, 9), true, false, Targets(1, map[9 := 0]))]

  lemma WindowBreaks(cpus: nat)
    requires cpus > 0
    ensures Init(IdleMachine(cpus)) && Runs(IdleMachine(cpus), WINDOW)
    ensures !After(IdleMachine(cpus), WINDOW).stable && !Truthful(After(IdleMachine(cpus), WINDOW))
  {
    var s := IdleMachine(cpus);
    SwitchedRuns(cpus);
    var s1 := Switched(cpus);
    RunThen(s, [QUIET_SWITCH], StartPublish);
    var s2 := Step(s1, StartPublish);
    RunThen(s, [QUIET_SWITCH] + [StartPublish], Delete(7));
    var s3 := Step(s2, Delete(7));
    RunThen(s, [QUIET_SWITCH] + [StartPublish] + [Delete(7)], Write(9, 0));
    var s4 := Step(s3, Write(9, 0));
    assert s4.live == map[9 := 0];
    var e := Wakeup(0, 0, Task(1, 9), true, false, Targets(1, map[9 := 0]));
    WakeupSetsBit(s4, cpus, 9, e.view);
    RunThen(s, [QUIET_SWITCH] + [StartPublish] + [Delete(7)] + [Write(9, 0)], e);
    var s5 := Step(s4, e);
    assert BitSet(s5, 0, 7) && s5.cpus[0].rq.Waiting(7) == {};
  }

  /** The bits are true in every run exactly while no publication is in progress, on
      machines that fit the per-CPU arrays. */
  lemma TruthfulIffTracked(cpus: nat, publishing: bool)
    ensures AlwaysTruthful(cpus, publishing) <==> cpus == 0 || (cpus <= MAX_CPUS && !publishing)
  {
    hide Truthful, Init, Runs, After, IdleMachine;
    if cpus == 0 || (cpus <= MAX_CPUS && !publishing) {
      forall s, events | Init(s) && |s.cpus| == cpus && Runs(s, events) && After(s, events).stable == !publishing
        ensures Truthful(After(s, events))
      {
        InitInv(s);
        RunKeeps(s, events);
        TruthfulFromInv(After(s, events));
      }
    } else if publishing {
      IdleCpus(cpus);
      WindowBreaks(cpus);
    } else {
      IdleCpus(cpus);
      OverflowBreaks(cpus);
    }
  }

  lemma IdleCpus(cpus: nat)
    ensures |IdleMachine(cpus).cpus| == cpus
  {
  }

  lemma TruthfulFromInv(s: State)
    requires Inv(s) && (s.stable || s.cpus == [])
    ensures Truthful(s)
  {
    forall c, css | 0 <= c < |s.cpus| && s.cpus[c].bpf.previous != 0 && BitSet(s, c, css)
      ensures ReallyWaits(s.cpus[c].rq, css)
    {
      assert CpuOk(s.cpus[c], s.g, s.stable);
    }
  }
}
