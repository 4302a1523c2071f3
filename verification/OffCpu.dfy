/** Off-CPU profiling: every task moves between running, blocked and waiting for a
    CPU, and the profiler emits intervals of the time in between. */
module OffCpu {
  import opened Options

  datatype Kind = Blocked | Runqueue | Yielded | Preempted | MissedWakeup
  datatype Filter = All | OnlyBlocked | OnlyRunqueue
  datatype Config = Config(filter: Filter, minimum: nat)

  datatype Phase = Phase(start: nat, kind: Kind)
  datatype Interval = Interval(task: nat, from: nat, to: nat, kind: Kind)

  /** The state map and everything submitted for output. */
  datatype Trace = Trace(states: map<nat, Phase>, emitted: seq<Interval>)

  const EMPTY := Trace(map[], [])

  // ------------------------------------------------------------------ hooks

  predicate KindEnabled(c: Config, kind: Kind) {
    match c.filter
    case All => true
    case OnlyBlocked => kind == Blocked
    case OnlyRunqueue => kind != Blocked
  }

  /** `offcpu_emit_event` */
  function Emit(c: Config, emitted: seq<Interval>, task: nat, phase: Phase, now: nat, kind: Kind): seq<Interval> {
    if !KindEnabled(c, kind) || now <= phase.start || now - phase.start < c.minimum then emitted
    else emitted + [Interval(task, phase.start, now, kind)]
  }

  /** `offcpu_handle_wakeup` */
  function Wake(c: Config, t: Trace, task: nat, now: nat): Trace {
    if task !in t.states || t.states[task].kind != Blocked then t
    else
      var emitted := Emit(c, t.emitted, task, t.states[task], now, Blocked);
      if c.filter == OnlyBlocked then Trace(t.states - {task}, emitted)
      else Trace(t.states[task := Phase(now, Runqueue)], emitted)
  }

  /** `offcpu_finish_sched_in` */
  function SchedIn(c: Config, t: Trace, task: nat, now: nat): Trace {
    if task !in t.states then t
    else
      var kind := if t.states[task].kind == Blocked then MissedWakeup else t.states[task].kind;
      Trace(t.states - {task}, Emit(c, t.emitted, task, t.states[task], now, kind))
  }

  /** How a switched-out task looked; `recorded` says that it is traced on this CPU,
      that its stack was read and that the map took its state. */
  datatype Out = Out(recorded: bool, preempted: bool, runnable: bool)

  function OutKind(o: Out): Kind {
    if o.preempted then Preempted else if o.runnable then Yielded else Blocked
  }

  /** `offcpu_record_sched_out` */
  function SchedOut(c: Config, t: Trace, task: nat, now: nat, o: Out): Trace {
    if !o.recorded || ((o.preempted || o.runnable) && c.filter == OnlyBlocked) then t
    else t.(states := t.states[task := Phase(now, OutKind(o))])
  }

  /** `offcpu_cleanup_task_state` */
  function Cleanup(c: Config, t: Trace, task: nat, now: nat, emitPending: bool): Trace {
    if task !in t.states then t
    else
      Trace(t.states - {task},
            if emitPending then Emit(c, t.emitted, task, t.states[task], now, t.states[task].kind) else t.emitted)
  }

  // ---------------------------------------------------------------- machine

  /** A finished stay on a CPU. */
  datatype Stay = Stay(task: nat, since: nat, until: nat)

  datatype State = State(t: Trace, clock: nat, running: map<nat, nat>, stays: seq<Stay>)

  datatype Event =
    | Switch(prev: nat, next: nat, out: Out)
    | Wakeup(task: nat)
    | Exit(task: nat)
    | Free(task: nat)

  /** The clock does not go back, and only a running task is switched out, for one
      that is not running. */
  ghost predicate Enabled(s: State, e: Event, now: nat) {
    && now >= s.clock
    && (e.Switch? ==> e.prev in s.running && e.next !in s.running)
  }

  function Step(c: Config, s: State, e: Event, now: nat): State
    requires Enabled(s, e, now)
  {
    match e
    case Switch(prev, next, out) =>
      State(SchedOut(c, SchedIn(c, s.t, next, now), prev, now, out), now,
            (s.running - {prev})[next := now], s.stays + [Stay(prev, s.running[prev], now)])
    case Wakeup(task) => s.(t := Wake(c, s.t, task, now), clock := now)
    case Exit(task) => s.(t := Cleanup(c, s.t, task, now, true), clock := now)
    case Free(task) => s.(t := Cleanup(c, s.t, task, now, false), clock := now)
  }

  // -------------------------------------------------------------- invariant

  ghost predicate Apart(i: Interval, r: Stay) {
    i.task == r.task ==> i.to <= r.since || r.until <= i.from
  }

  /** What may be said of an interval whatever comes later. */
  ghost predicate IntervalOk(s: State, i: Interval) {
    && i.from < i.to <= s.clock
    && (i.task in s.running ==> i.to <= s.running[i.task])
    && (i.task in s.t.states ==> i.to <= s.t.states[i.task].start)
    && forall k :: 0 <= k < |s.stays| ==> Apart(i, s.stays[k])
  }

  ghost predicate PhaseOk(s: State, task: nat)
    requires task in s.t.states
  {
    && s.t.states[task].start <= s.clock
    && task !in s.running
    && forall k :: 0 <= k < |s.stays| && s.stays[k].task == task ==> s.stays[k].until <= s.t.states[task].start
  }

  ghost predicate Ordered(emitted: seq<Interval>) {
    forall i, j :: 0 <= i < j < |emitted| && emitted[i].task == emitted[j].task ==> emitted[i].to <= emitted[j].from
  }

  ghost predicate Inv(s: State) {
    && (forall task :: task in s.running ==> s.running[task] <= s.clock)
    && (forall k :: 0 <= k < |s.stays| ==> s.stays[k].since <= s.stays[k].until <= s.clock)
    && (forall task :: task in s.t.states ==> PhaseOk(s, task))
    && (forall i :: 0 <= i < |s.t.emitted| ==> IntervalOk(s, s.t.emitted[i]))
    && Ordered(s.t.emitted)
  }

  /** Ending a phase now: at most one interval is added, and it may be added. */
  lemma EmitKeeps(c: Config, s: State, task: nat, now: nat, kind: Kind, states: map<nat, Phase>)
    requires Inv(s) && now >= s.clock && task in s.t.states
    requires states == s.t.states - {task} || states == s.t.states[task := Phase(now, Runqueue)]
    ensures Inv(s.(t := Trace(states, Emit(c, s.t.emitted, task, s.t.states[task], now, kind)), clock := now))
  {
    var r := s.(t := Trace(states, Emit(c, s.t.emitted, task, s.t.states[task], now, kind)), clock := now);
    assert PhaseOk(s, task);
    forall i | 0 <= i < |r.t.emitted|
      ensures IntervalOk(r, r.t.emitted[i])
    {
      if i < |s.t.emitted| {
        assert IntervalOk(s, s.t.emitted[i]);
      }
    }
    forall x | x in r.t.states
      ensures PhaseOk(r, x)
    {
      assert PhaseOk(s, x);
    }
    EmitOrdered(s, task, r.t.emitted);
  }

  lemma EmitOrdered(s: State, task: nat, emitted: seq<Interval>)
    requires Inv(s) && task in s.t.states
    requires emitted == s.t.emitted
          || (|emitted| == |s.t.emitted| + 1 && emitted[..|s.t.emitted|] == s.t.emitted
              && emitted[|s.t.emitted|].task == task && emitted[|s.t.emitted|].from == s.t.states[task].start)
    ensures Ordered(emitted)
  {
    forall i, j | 0 <= i < j < |emitted| && emitted[i].task == emitted[j].task
      ensures emitted[i].to <= emitted[j].from
    {
      assert IntervalOk(s, s.t.emitted[i]);
      assert emitted[i] == s.t.emitted[i];
    }
  }

  lemma TickKeeps(s: State, now: nat, states: map<nat, Phase>)
    requires Inv(s) && now >= s.clock && states.Keys <= s.t.states.Keys
    requires forall x :: x in states ==> states[x] == s.t.states[x]
    ensures Inv(s.(t := s.t.(states := states), clock := now))
  {
    var r := s.(t := s.t.(states := states), clock := now);
    forall i | 0 <= i < |r.t.emitted|
      ensures IntervalOk(r, r.t.emitted[i])
    {
      assert IntervalOk(s, s.t.emitted[i]);
    }
    forall x | x in r.t.states
      ensures PhaseOk(r, x)
    {
      assert PhaseOk(s, x);
    }
  }

  lemma WakeKeeps(c: Config, s: State, task: nat, now: nat)
    requires Inv(s) && now >= s.clock
    ensures Inv(s.(t := Wake(c, s.t, task, now), clock := now))
  {
    hide Inv, Emit;
    TickKeeps(s, now, s.t.states);
    if task in s.t.states {
      EmitKeeps(c, s, task, now, Blocked, s.t.states - {task});
      EmitKeeps(c, s, task, now, Blocked, s.t.states[task := Phase(now, Runqueue)]);
    }
  }

  lemma SchedInKeeps(c: Config, s: State, task: nat, now: nat)
    requires Inv(s) && now >= s.clock
    ensures Inv(s.(t := SchedIn(c, s.t, task, now), clock := now))
    ensures task !in SchedIn(c, s.t, task, now).states
  {
    hide Inv, Emit;
    TickKeeps(s, now, s.t.states);
    if task in s.t.states {
      var kind := if s.t.states[task].kind == Blocked then MissedWakeup else s.t.states[task].kind;
      EmitKeeps(c, s, task, now, kind, s.t.states - {task});
    }
  }

  lemma CleanupKeeps(c: Config, s: State, task: nat, now: nat, emitPending: bool)
    requires Inv(s) && now >= s.clock
    ensures Inv(s.(t := Cleanup(c, s.t, task, now, emitPending), clock := now))
  {
    hide Inv, Emit;
    TickKeeps(s, now, s.t.states);
    TickKeeps(s, now, s.t.states - {task});
    if task in s.t.states {
      EmitKeeps(c, s, task, now, s.t.states[task].kind, s.t.states - {task});
    }
  }

  /** The exchange of the two tasks on the CPU, after `next` was finished. */
  lemma ExchangeKeeps(c: Config, s: State, prev: nat, next: nat, out: Out)
    requires Inv(s) && prev in s.running && next !in s.running && next !in s.t.states
    ensures Inv(State(SchedOut(c, s.t, prev, s.clock, out), s.clock,
                      (s.running - {prev})[next := s.clock], s.stays + [Stay(prev, s.running[prev], s.clock)]))
  {
    var r := State(SchedOut(c, s.t, prev, s.clock, out), s.clock,
                   (s.running - {prev})[next := s.clock], s.stays + [Stay(prev, s.running[prev], s.clock)]);
    forall i | 0 <= i < |r.t.emitted|
      ensures IntervalOk(r, r.t.emitted[i])
    {
      assert IntervalOk(s, s.t.emitted[i]);
      assert prev in s.t.states ==> PhaseOk(s, prev);
    }
    forall x | x in r.t.states
      ensures PhaseOk(r, x)
    {
      assert x in s.t.states ==> PhaseOk(s, x);
    }
  }

  lemma StepKeeps(c: Config, s: State, e: Event, now: nat)
    requires Inv(s) && Enabled(s, e, now)
    ensures Inv(Step(c, s, e, now))
  {
    hide Inv, Wake, SchedIn, SchedOut, Cleanup;
    match e
    case Switch(prev, next, out) =>
      SchedInKeeps(c, s, next, now);
      ExchangeKeeps(c, s.(t := SchedIn(c, s.t, next, now), clock := now), prev, next, out);
    case Wakeup(task) => WakeKeeps(c, s, task, now);
    case Exit(task) => CleanupKeeps(c, s, task, now, true);
    case Free(task) => CleanupKeeps(c, s, task, now, false);
  }

  // ------------------------------------------------------------------- runs

  datatype Timed = Timed(event: Event, now: nat)

  ghost predicate Runs(c: Config, s: State, events: seq<Timed>)
    decreases |events|
  {
    events == [] ||
    (Enabled(s, events[0].event, events[0].now) && Runs(c, Step(c, s, events[0].event, events[0].now), events[1..]))
  }

  ghost function After(c: Config, s: State, events: seq<Timed>): State
    requires Runs(c, s, events)
    decreases |events|
  {
    if events == [] then s else After(c, Step(c, s, events[0].event, events[0].now), events[1..])
  }

  /** The probes attach at some time, with some tasks already running. */
  ghost predicate Init(s: State) {
    s.t == EMPTY && s.stays == [] && forall task :: task in s.running ==> s.running[task] <= s.clock
  }

  lemma {:induction false} RunKeeps(c: Config, s: State, events: seq<Timed>)
    requires Inv(s) && Runs(c, s, events)
    ensures Inv(After(c, s, events))
    decreases |events|
  {
    if events != [] {
      StepKeeps(c, s, events[0].event, events[0].now);
      RunKeeps(c, Step(c, s, events[0].event, events[0].now), events[1..]);
    }
  }

  /** In every run: a running task holds no state, the intervals of one task are
      disjoint and in order, and none of them overlaps a time that it spent on a
      CPU. */
  lemma IntervalsAreOffCpu(c: Config, s: State, events: seq<Timed>)
    requires Init(s) && Runs(c, s, events)
    ensures var r := After(c, s, events);
            && (forall task :: task in r.running ==> task !in r.t.states)
            && Ordered(r.t.emitted)
            && (forall i, k :: 0 <= i < |r.t.emitted| && 0 <= k < |r.stays| ==> Apart(r.t.emitted[i], r.stays[k]))
            && (forall i :: 0 <= i < |r.t.emitted| && r.t.emitted[i].task in r.running ==>
                  r.t.emitted[i].to <= r.running[r.t.emitted[i].task])
  {
    RunKeeps(c, s, events);
    var r := After(c, s, events);
    forall task | task in r.running
      ensures task !in r.t.states
    {
      assert task in r.t.states ==> PhaseOk(r, task);
    }
    forall i, k | 0 <= i < |r.t.emitted| && 0 <= k < |r.stays|
      ensures Apart(r.t.emitted[i], r.stays[k])
    {
      assert IntervalOk(r, r.t.emitted[i]);
    }
    forall i | 0 <= i < |r.t.emitted| && r.t.emitted[i].task in r.running
      ensures r.t.emitted[i].to <= r.running[r.t.emitted[i].task]
    {
      assert IntervalOk(r, r.t.emitted[i]);
    }
  }

  // ----------------------------------------------------------- one episode

  /** The time that the intervals from index `from` on give to a task. */
  function Spent(emitted: seq<Interval>, from: nat, task: nat): int
    decreases |emitted|
  {
    if |emitted| <= from then 0
    else
      var last := emitted[|emitted| - 1];
      Spent(emitted[..|emitted| - 1], from, task) + if last.task == task then last.to - last.from else 0
  }

  lemma SpentNext(emitted: seq<Interval>, from: nat, task: nat, i: Interval)
    requires from <= |emitted|
    ensures Spent(emitted + [i], from, task)
         == Spent(emitted, from, task) + if i.task == task then i.to - i.from else 0
  {
    assert (emitted + [i])[..|emitted|] == emitted;
  }

  predicate Complete(c: Config) {
    c.filter == All && c.minimum == 0
  }

  /** What an emission adds for a task: all of the phase, or with a filter or a
      threshold possibly nothing. */
  lemma SpentEmit(c: Config, emitted: seq<Interval>, from: nat, task: nat, who: nat, phase: Phase, now: nat, kind: Kind)
    requires from <= |emitted| && phase.start <= now
    ensures var after := Emit(c, emitted, who, phase, now, kind);
            var added := Spent(after, from, task) - Spent(emitted, from, task);
            && |emitted| <= |after|
            && (who != task ==> added == 0)
            && (who == task ==> 0 <= added <= now - phase.start && (Complete(c) ==> added == now - phase.start))
  {
    SpentNext(emitted, from, task, Interval(who, phase.start, now, kind));
  }

  /** It is off the CPU since `out`, and its intervals so far cover no more than
      the time up to its current phase; with everything enabled, exactly that. */
  ghost predicate Tracking(c: Config, t: Trace, clock: nat, task: nat, out: nat, from: nat, recorded: bool) {
    && from <= |t.emitted| && out <= clock
    && (if task in t.states
        then out <= t.states[task].start && Spent(t.emitted, from, task) <= t.states[task].start - out
        else Spent(t.emitted, from, task) <= clock - out)
    && (Complete(c) && recorded ==>
          task in t.states && Spent(t.emitted, from, task) == t.states[task].start - out)
  }

  /** This event ends its time off the CPU. */
  predicate Ends(e: Event, task: nat) {
    match e
    case Switch(_, next, _) => next == task
    case Wakeup(_) => false
    case Exit(who) => who == task
    case Free(who) => who == task
  }

  lemma TrackingEmits(c: Config, s: State, who: nat, now: nat, kind: Kind, states: map<nat, Phase>,
                      task: nat, out: nat, from: nat, recorded: bool)
    requires Inv(s) && now >= s.clock && who in s.t.states
    requires Tracking(c, s.t, s.clock, task, out, from, recorded)
    requires states == s.t.states - {who} || states == s.t.states[who := Phase(now, Runqueue)]
    requires who == task && recorded && Complete(c) ==> task in states
    ensures var emitted := Emit(c, s.t.emitted, who, s.t.states[who], now, kind);
            Tracking(c, Trace(states, emitted), now, task, out, from, recorded)
  {
    assert PhaseOk(s, who);
    SpentEmit(c, s.t.emitted, from, task, who, s.t.states[who], now, kind);
  }

  lemma TrackingStep(c: Config, s: State, e: Event, now: nat, task: nat, out: nat, from: nat, recorded: bool)
    requires Inv(s) && Enabled(s, e, now) && task !in s.running && !Ends(e, task)
    requires Tracking(c, s.t, s.clock, task, out, from, recorded)
    ensures var r := Step(c, s, e, now);
            task !in r.running && Tracking(c, r.t, r.clock, task, out, from, recorded)
  {
    hide Inv, Emit, Spent;
    match e
    case Switch(prev, next, o) =>
      if next in s.t.states {
        var kind := if s.t.states[next].kind == Blocked then MissedWakeup else s.t.states[next].kind;
        TrackingEmits(c, s, next, now, kind, s.t.states - {next}, task, out, from, recorded);
      }
    case Wakeup(who) =>
      if who in s.t.states && (who != task || c.filter != OnlyBlocked) {
        TrackingEmits(c, s, who, now, Blocked, s.t.states[who := Phase(now, Runqueue)], task, out, from, recorded);
      }
      if who in s.t.states && c.filter == OnlyBlocked {
        TrackingEmits(c, s, who, now, Blocked, s.t.states - {who}, task, out, from, recorded);
      }
    case Exit(who) =>
      if who in s.t.states {
        TrackingEmits(c, s, who, now, s.t.states[who].kind, s.t.states - {who}, task, out, from, recorded);
      }
    case Free(who) =>
  }

  lemma {:induction false} TrackingRun(c: Config, s: State, events: seq<Timed>, task: nat, out: nat, from: nat,
                                       recorded: bool)
    requires Inv(s) && Runs(c, s, events) && task !in s.running
    requires forall m :: m in events ==> !Ends(m.event, task)
    requires Tracking(c, s.t, s.clock, task, out, from, recorded)
    ensures var r := After(c, s, events);
            Inv(r) && task !in r.running && Tracking(c, r.t, r.clock, task, out, from, recorded)
    decreases |events|
  {
    hide Inv, Tracking, Step, Enabled;
    if events != [] {
      StepKeeps(c, s, events[0].event, events[0].now);
      TrackingStep(c, s, events[0].event, events[0].now, task, out, from, recorded);
      TrackingRun(c, Step(c, s, events[0].event, events[0].now), events[1..], task, out, from, recorded);
    }
  }

  lemma SwitchOutTracks(c: Config, s: State, e: Event, now: nat)
    requires Inv(s) && e.Switch? && Enabled(s, e, now)
    ensures var r := Step(c, s, e, now);
            e.prev !in r.running && Tracking(c, r.t, r.clock, e.prev, now, |s.t.emitted|, e.out.recorded)
  {
    var mid := SchedIn(c, s.t, e.next, now);
    assert e.prev in s.t.states ==> PhaseOk(s, e.prev);
    if e.next in s.t.states {
      assert PhaseOk(s, e.next);
      var kind := if s.t.states[e.next].kind == Blocked then MissedWakeup else s.t.states[e.next].kind;
      SpentEmit(c, s.t.emitted, |s.t.emitted|, e.prev, e.next, s.t.states[e.next], now, kind);
    }
  }

  lemma SwitchInSettles(c: Config, s: State, e: Event, now: nat, out: nat, from: nat, recorded: bool)
    requires Inv(s) && e.Switch? && Enabled(s, e, now)
    requires Tracking(c, s.t, s.clock, e.next, out, from, recorded)
    ensures var spent := Spent(Step(c, s, e, now).t.emitted, from, e.next);
            spent <= now - out && (Complete(c) && recorded ==> spent == now - out)
  {
    if e.next in s.t.states {
      assert PhaseOk(s, e.next);
      var kind := if s.t.states[e.next].kind == Blocked then MissedWakeup else s.t.states[e.next].kind;
      SpentEmit(c, s.t.emitted, from, e.next, e.next, s.t.states[e.next], now, kind);
    }
  }

  /** From the switch that takes a task off its CPU to the switch that puts it back,
      its intervals add up to at most the time in between, whatever the filter and
      the threshold; with all phases and no threshold, to exactly that time. */
  lemma EpisodeAddsUp(c: Config, s: State, out: Event, outAt: nat, middle: seq<Timed>, back: Event, backAt: nat)
    requires Inv(s) && out.Switch? && Enabled(s, out, outAt)
    requires Runs(c, Step(c, s, out, outAt), middle)
    requires forall m :: m in middle ==> !Ends(m.event, out.prev)
    requires back.Switch? && back.next == out.prev
    requires Enabled(After(c, Step(c, s, out, outAt), middle), back, backAt)
    ensures var r := Step(c, After(c, Step(c, s, out, outAt), middle), back, backAt);
            var spent := Spent(r.t.emitted, |s.t.emitted|, out.prev);
            spent <= backAt - outAt && (Complete(c) && out.out.recorded ==> spent == backAt - outAt)
  {
    hide Inv, Tracking, Step, Enabled, Runs, After, Spent;
    StepKeeps(c, s, out, outAt);
    SwitchOutTracks(c, s, out, outAt);
    TrackingRun(c, Step(c, s, out, outAt), middle, out.prev, outAt, |s.t.emitted|, out.out.recorded);
    SwitchInSettles(c, After(c, Step(c, s, out, outAt), middle), back, backAt, outAt, |s.t.emitted|, out.out.recorded);
  }

  // ------------------------------------------------ what is submitted, and when

  /** A run up to its last event. */
  lemma {:induction false} RunLast(c: Config, s: State, events: seq<Timed>)
    requires Runs(c, s, events) && events != []
    ensures var n := |events| - 1;
            && Runs(c, s, events[..n])
            && Enabled(After(c, s, events[..n]), events[n].event, events[n].now)
            && After(c, s, events) == Step(c, After(c, s, events[..n]), events[n].event, events[n].now)
    decreases |events|
  {
    hide Enabled, Step;
    var n := |events| - 1;
    if n == 0 {
      assert events[..0] == [] && events[1..] == [];
    } else {
      RunLast(c, Step(c, s, events[0].event, events[0].now), events[1..]);
      assert events[..n][1..] == events[1..][..n - 1];
    }
  }

  /** The phase that a task is in, told from the events alone: how it was switched out,
      a wakeup that turns blocked into waiting, and everything that ends its time off
      the CPU. */
  function PhaseOf(c: Config, events: seq<Timed>, task: nat): Option<Phase> {
    if events == [] then None
    else
      var n := |events| - 1;
      var before, e, now := PhaseOf(c, events[..n], task), events[n].event, events[n].now;
      if Ends(e, task) then None
      else if e.Switch? && e.prev == task then
        if !e.out.recorded then None
        else if e.out.preempted then if c.filter == OnlyBlocked then None else Some(Phase(now, Preempted))
        else if e.out.runnable then if c.filter == OnlyBlocked then None else Some(Phase(now, Yielded))
        else Some(Phase(now, Blocked))
      else if e == Wakeup(task) && before.Some? && before.value.kind == Blocked then
        if c.filter == OnlyBlocked then None else Some(Phase(now, Runqueue))
      else before
  }

  /** The task whose phase an event may end. */
  function Subject(e: Event): nat {
    match e
    case Switch(_, next, _) => next
    case Wakeup(task) => task
    case Exit(task) => task
    case Free(task) => task
  }

  /** Blocked time passes the filter for blocked time, all other kinds the filter for
      runqueue time. */
  predicate Passes(filter: Filter, kind: Kind) {
    filter == All || (filter == OnlyBlocked <==> kind == Blocked)
  }

  /** What an event submits when its subject is in this phase: a switch-in ends any
      phase, and a blocked one counts as a missed wakeup; a wakeup ends a blocked phase
      only; an exit ends any phase as it is; a free submits nothing. */
  function Submitted(c: Config, phase: Option<Phase>, e: Event, now: nat): seq<Interval> {
    if phase.None? || e.Free? || (e.Wakeup? && phase.value.kind != Blocked) then []
    else
      var kind := if e.Switch? && phase.value.kind == Blocked then MissedWakeup else phase.value.kind;
      var lasted := now - phase.value.start;
      if lasted > 0 && lasted >= c.minimum && Passes(c.filter, kind)
      then [Interval(Subject(e), phase.value.start, now, kind)] else []
  }

  /** Everything that the events submit. */
  function AllSubmitted(c: Config, events: seq<Timed>): seq<Interval> {
    if events == [] then []
    else
      var n := |events| - 1;
      var e := events[n].event;
      AllSubmitted(c, events[..n]) + Submitted(c, PhaseOf(c, events[..n], Subject(e)), e, events[n].now)
  }

  function PhaseIn(t: Trace, task: nat): Option<Phase> {
    if task in t.states then Some(t.states[task]) else None
  }

  /** One event changes the map and the output as the reference says. */
  lemma StepSubmits(c: Config, s: State, e: Event, now: nat)
    requires Inv(s) && Enabled(s, e, now)
    ensures Step(c, s, e, now).t.emitted == s.t.emitted + Submitted(c, PhaseIn(s.t, Subject(e)), e, now)
  {
    assert Subject(e) in s.t.states ==> PhaseOk(s, Subject(e));
    hide Inv;
  }

  lemma StepPhase(c: Config, s: State, events: seq<Timed>, task: nat)
    requires events != []
    requires var last := events[|events| - 1]; Inv(s) && Enabled(s, last.event, last.now)
    requires PhaseOf(c, events[..|events| - 1], task) == PhaseIn(s.t, task)
    ensures var last := events[|events| - 1];
            PhaseOf(c, events, task) == PhaseIn(Step(c, s, last.event, last.now).t, task)
  {
    assert task in s.t.states ==> PhaseOk(s, task);
    hide Inv, Emit;
  }

  /** In every run the map holds exactly the phases that the events tell, and the output
      is exactly what the events submit. */
  lemma {:induction false} OutputIsExact(c: Config, s: State, events: seq<Timed>)
    requires Init(s) && Runs(c, s, events)
    ensures var r := After(c, s, events);
            && r.t.emitted == AllSubmitted(c, events)
            && forall task: nat :: PhaseIn(r.t, task) == PhaseOf(c, events, task)
    decreases |events|
  {
    hide Step, Enabled, Submitted, Inv;
    if events != [] {
      var n := |events| - 1;
      RunLast(c, s, events);
      OutputIsExact(c, s, events[..n]);
      var before := After(c, s, events[..n]);
      InitInv(s);
      RunKeeps(c, s, events[..n]);
      StepSubmits(c, before, events[n].event, events[n].now);
      forall task: nat
        ensures PhaseIn(After(c, s, events).t, task) == PhaseOf(c, events, task)
      {
        StepPhase(c, before, events, task);
      }
    }
  }

  lemma InitInv(s: State)
    requires Init(s)
    ensures Inv(s)
  {
  }

  /** The event at `i` ends this phase of its subject with this interval. */
  predicate EndedAt(c: Config, events: seq<Timed>, i: nat, interval: Interval)
    requires i < |events|
  {
    Submitted(c, PhaseOf(c, events[..i], Subject(events[i].event)), events[i].event, events[i].now) == [interval]
  }

  /** An interval is submitted if and only if some event ends its phase, and then it is
      at least as long as the threshold and of a kind that the filter passes. */
  lemma {:induction false} SubmittedIff(c: Config, events: seq<Timed>, interval: Interval)
    ensures interval in AllSubmitted(c, events) <==> exists i :: 0 <= i < |events| && EndedAt(c, events, i, interval)
    ensures interval in AllSubmitted(c, events) ==>
              && interval.to - interval.from >= c.minimum && interval.to > interval.from
              && (c.filter == OnlyBlocked ==> interval.kind == Blocked)
              && (c.filter == OnlyRunqueue ==> interval.kind != Blocked)
    decreases |events|
  {
    if events != [] {
      var n := |events| - 1;
      SubmittedIff(c, events[..n], interval);
      hide PhaseOf;
      forall i | 0 <= i < n
        ensures EndedAt(c, events[..n], i, interval) <==> EndedAt(c, events, i, interval)
      {
        assert events[..n][..i] == events[..i];
      }
      assert interval in Submitted(c, PhaseOf(c, events[..n], Subject(events[n].event)), events[n].event, events[n].now)
        <==> EndedAt(c, events, n, interval);
    }
  }

  // ------------------------------------------------------------------ class

  class Profiler {
    const config: Config
    var states: map<nat, Phase>
    var output: seq<Interval>
    var stackFailures: nat
    var updateFailures: nat
    var missedWakeups: nat
    var cleanups: nat

    constructor (config: Config)
      ensures this.config == config && Contents() == EMPTY
    {
      this.config, states, output := config, map[], [];
      stackFailures, updateFailures, missedWakeups, cleanups := 0, 0, 0, 0;
    }

    ghost function Contents(): Trace
      reads this
    {
      Trace(states, output)
    }

    method EmitEvent(task: nat, phase: Phase, end: nat, kind: Kind)
      modifies this`output
      ensures output == Emit(config, old(output), task, phase, end, kind)
    {
      if !KindEnabled(config, kind) || end <= phase.start {
        return;
      }
      var duration := end - phase.start;
      if duration >= config.minimum {
        output := output + [Interval(task, phase.start, end, kind)];
      }
    }

    method HandleWakeup(task: nat, now: nat)
      modifies this`states, this`output
      ensures Contents() == Wake(config, old(Contents()), task, now)
    {
      if task !in states || states[task].kind != Blocked {
        return;
      }
      EmitEvent(task, states[task], now, Blocked);
      if config.filter == OnlyBlocked {
        states := states - {task};
        return;
      }
      states := states[task := states[task].(kind := Runqueue, start := now)];
    }

    /** `traced` is the choice of tasks and CPUs, the flags the outcomes of reading the
        stack and updating the map. */
    method RecordSchedOut(prev: nat, now: nat, traced: bool, preempted: bool, runnable: bool, filled: bool,
                          stored: bool)
      modifies this`states, this`stackFailures, this`updateFailures
      ensures Contents() == SchedOut(config, old(Contents()), prev, now,
                                     Out(traced && filled && stored, preempted, runnable))
      ensures var wanted := traced && !((preempted || runnable) && config.filter == OnlyBlocked);
              && stackFailures == old(stackFailures) + (if wanted && !filled then 1 else 0)
              && updateFailures == old(updateFailures) + (if wanted && filled && !stored then 1 else 0)
    {
      if !traced {
        return;
      }
      var isRunnable := preempted || runnable;
      if isRunnable && config.filter == OnlyBlocked {
        return;
      }
      if !filled {
        stackFailures := stackFailures + 1;
        return;
      }
      var kind := Blocked;
      if isRunnable {
        kind := Yielded;
        if preempted {
          kind := Preempted;
        }
      }
      if !stored {
        updateFailures := updateFailures + 1;
        return;
      }
      states := states[prev := Phase(now, kind)];
    }

    method FinishSchedIn(next: nat, now: nat)
      modifies this`states, this`output, this`missedWakeups
      ensures Contents() == SchedIn(config, old(Contents()), next, now)
      ensures missedWakeups
           == old(missedWakeups) + if next in old(states) && old(states[next]).kind == Blocked then 1 else 0
    {
      if next !in states {
        return;
      }
      var kind := states[next].kind;
      if kind == Blocked {
        // Its wakeup was never seen, so the time cannot be split.
        kind := MissedWakeup;
        missedWakeups := missedWakeups + 1;
      }
      EmitEvent(next, states[next], now, kind);
      states := states - {next};
    }

    /** `native_offcpu_switch`: next is completed first. */
    method OnSwitch(prev: nat, next: nat, now: nat, traced: bool, preempted: bool, runnable: bool, filled: bool,
                    stored: bool)
      modifies this`states, this`output, this`missedWakeups, this`stackFailures, this`updateFailures
      ensures Contents() == SchedOut(config, SchedIn(config, old(Contents()), next, now), prev, now,
                                     Out(traced && filled && stored, preempted, runnable))
    {
      FinishSchedIn(next, now);
      RecordSchedOut(prev, now, traced, preempted, runnable, filled, stored);
    }

    method CleanupTask(task: nat, now: nat, emitPending: bool)
      modifies this`states, this`output, this`cleanups
      ensures Contents() == Cleanup(config, old(Contents()), task, now, emitPending)
      ensures cleanups == old(cleanups) + if task in old(states) then 1 else 0
    {
      if task !in states {
        return;
      }
      if emitPending {
        EmitEvent(task, states[task], now, states[task].kind);
      }
      states := states - {task};
      cleanups := cleanups + 1;
    }
  }
}
