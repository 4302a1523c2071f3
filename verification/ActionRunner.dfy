/** The snapshot scheduler and its one capture worker: a one-slot job channel, a
    one-slot done channel and a cooldown between attempts, in every interleaving. */
module ActionRunner {
  import opened Options

  datatype Worker = Waiting | Running | Exited

  /** A submission and the attempt recorded when it was made. */
  datatype Start = Start(now: nat, lastAttempt: Option<nat>)

  datatype State = State(
    /* runner */
    batch: Option<set<nat>>,
    canceled: bool,
    jobs: seq<set<nat>>,
    worker: Worker,
    done: nat,
    finished: Option<nat>,
    lastAttempt: Option<nat>,
    /* scheduler */
    pending: set<nat>,
    armed: bool,
    closing: bool,
    joined: bool,
    clock: nat,
    /* observed */
    starts: seq<Start>,
    busy: bool,
    blocked: bool)

  /** A runner starts idle; the last attempt survives from the runner before it. */
  function Idle(lastAttempt: Option<nat>, clock: nat): State {
    State(None, false, [], Waiting, 0, None, lastAttempt, {}, false, false, false, clock, [], false, false)
  }

  predicate Allowed(lastAttempt: Option<nat>, interval: nat, now: nat) {
    lastAttempt.None? || now - lastAttempt.value >= interval
  }

  /** One step of the scheduler's loop, of the worker, or of the shutdown.  `Process`
      gets what the tracker would add and has dropped, and what it invalidated.  The
      worker may exit at any time: its context ends with the caller's. */
  datatype Event =
    | Process(now: nat, unavailable: bool, observed: set<nat>, dropped: set<nat>, invalidated: set<nat>)
    | Arm
    | Fire(now: nat, ctxErr: bool)
    | Receive(now: nat)
    | Take
    | Complete(finished: Option<nat>)
    | StartClose
    | WorkerExit
    | Join

  predicate Enabled(s: State, e: Event) {
    match e
    case Process(now, _, _, _, _) => !s.closing && now >= s.clock
    case Arm => !s.closing
    case Fire(now, _) => !s.closing && s.armed && now >= s.clock
    case Receive(now) => !s.closing && s.batch.Some? && s.done > 0 && now >= s.clock
    case Take => s.worker.Waiting? && s.jobs != []
    case Complete(_) => s.worker.Running?
    case StartClose => !s.closing
    case WorkerExit => s.worker.Waiting?
    case Join => s.closing && !s.joined && s.worker.Exited?
  }

  // ------------------------------------------------------------------ steps

  function ProcessStep(s: State, interval: nat, e: Event): State
    requires e.Process?
  {
    var accept := !e.unavailable && e.observed != {} && Allowed(s.lastAttempt, interval, e.now);
    var pending := (s.pending - e.dropped) + if accept then e.observed else {};
    var hit := s.batch.Some? && (e.unavailable || e.invalidated * s.batch.value != {});
    s.(clock := e.now, pending := if e.unavailable then {} else pending, canceled := s.canceled || hit)
  }

  function ArmStep(s: State): State {
    if s.pending != {} && !s.armed && s.batch.None? then s.(armed := true) else s
  }

  /** `Submit`: a send on a full job channel would block. */
  function Submit(s: State, targets: set<nat>): State {
    if s.batch.Some? then s.(busy := true)
    else
      s.(batch := Some(targets), canceled := false, finished := None, jobs := s.jobs + [targets],
         starts := s.starts + [Start(s.clock, s.lastAttempt)], blocked := s.blocked || s.jobs != [])
  }

  function FireStep(s: State, now: nat, ctxErr: bool): State {
    var drained := s.(armed := false, clock := now, pending := {});
    if s.pending == {} || ctxErr then drained else Submit(drained, s.pending)
  }

  /** `Finish`: a zero completion time records no attempt. */
  function Finish(s: State): State {
    if s.batch.None? then s
    else s.(batch := None, canceled := false, lastAttempt := if s.finished.Some? then s.finished else s.lastAttempt)
  }

  function ReceiveStep(s: State, interval: nat, now: nat): State
    requires s.done > 0
  {
    var f := Finish(s.(done := s.done - 1, clock := now));
    if Allowed(f.lastAttempt, interval, now) then f else f.(pending := {})
  }

  /** The worker reports; a send on a full done channel would block. */
  function CompleteStep(s: State, finished: Option<nat>): State {
    s.(worker := Waiting, finished := finished, done := s.done + 1, blocked := s.blocked || s.done > 0)
  }

  function Step(interval: nat, s: State, e: Event): State
    requires Enabled(s, e)
  {
    match e
    case Process(_, _, _, _, _) => ProcessStep(s, interval, e)
    case Arm => ArmStep(s)
    case Fire(now, ctxErr) => FireStep(s, now, ctxErr)
    case Receive(now) => ReceiveStep(s, interval, now)
    case Take => s.(worker := Running, jobs := s.jobs[1..])
    case Complete(finished) => CompleteStep(s, finished)
    case StartClose => s.(closing := true, canceled := s.canceled || s.batch.Some?)
    case WorkerExit => s.(worker := Exited)
    case Join => Finish(s.(joined := true))
  }

  // -------------------------------------------------------------- invariant

  /** Jobs queued, running or awaiting acknowledgement. */
  function InFlight(s: State): nat {
    |s.jobs| + (if s.worker.Running? then 1 else 0) + s.done
  }

  ghost predicate Inv(interval: nat, s: State) {
    && !s.busy && !s.blocked
    && (!s.joined ==> InFlight(s) == if s.batch.Some? then 1 else 0)
    && (s.joined ==> s.batch.None? && s.closing && s.worker.Exited?)
    && (s.armed ==> s.batch.None?)
    && (!s.joined && s.pending != {} ==> Allowed(s.lastAttempt, interval, s.clock))
    && (forall k :: 0 <= k < |s.starts| ==> Allowed(s.starts[k].lastAttempt, interval, s.starts[k].now))
  }

  lemma SubmitKeeps(interval: nat, s: State, targets: set<nat>)
    requires Inv(interval, s) && !s.joined && s.batch.None? && !s.armed && s.pending == {}
    requires Allowed(s.lastAttempt, interval, s.clock)
    ensures Inv(interval, Submit(s, targets))
  {
    assert s.jobs == [];
  }

  lemma StepKeeps(interval: nat, s: State, e: Event)
    requires Inv(interval, s) && Enabled(s, e)
    ensures Inv(interval, Step(interval, s, e))
  {
    match e
    case Process(_, _, _, dropped, _) =>
      assert s.pending == {} ==> s.pending - dropped + {} == {};
    case Fire(now, ctxErr) =>
      if s.pending != {} && !ctxErr {
        SubmitKeeps(interval, s.(armed := false, clock := now, pending := {}), s.pending);
      }
    case _ =>
  }

  // ------------------------------------------------------------------- runs

  ghost predicate Runs(interval: nat, s: State, events: seq<Event>)
    decreases |events|
  {
    events == [] || (Enabled(s, events[0]) && Runs(interval, Step(interval, s, events[0]), events[1..]))
  }

  ghost function After(interval: nat, s: State, events: seq<Event>): State
    requires Runs(interval, s, events)
    decreases |events|
  {
    if events == [] then s else After(interval, Step(interval, s, events[0]), events[1..])
  }

  lemma {:induction false} RunKeeps(interval: nat, s: State, events: seq<Event>)
    requires Inv(interval, s) && Runs(interval, s, events)
    ensures Inv(interval, After(interval, s, events))
    decreases |events|
  {
    hide Inv, Step, Enabled;
    if events != [] {
      StepKeeps(interval, s, events[0]);
      RunKeeps(interval, Step(interval, s, events[0]), events[1..]);
    }
  }

  /** In every interleaving at most one batch is queued, running or awaiting
      acknowledgement; no send ever finds its channel full, Submit never finds a batch
      active, and every batch is submitted at least an interval after the attempt
      recorded last. */
  lemma OneBatchAtATime(interval: nat, lastAttempt: Option<nat>, clock: nat, events: seq<Event>)
    requires Runs(interval, Idle(lastAttempt, clock), events)
    ensures var s := After(interval, Idle(lastAttempt, clock), events);
            && !s.blocked && !s.busy
            && (!s.joined ==> InFlight(s) <= 1)
            && (forall k :: 0 <= k < |s.starts| && s.starts[k].lastAttempt.Some? ==>
                  s.starts[k].now >= s.starts[k].lastAttempt.value + interval)
  {
    RunKeeps(interval, Idle(lastAttempt, clock), events);
  }

  /** The completion time has one writer at a time: whenever Submit clears it, the
      worker is neither running nor about to run. */
  lemma SubmitIsExclusive(interval: nat, s: State, now: nat)
    requires Inv(interval, s) && Enabled(s, Fire(now, false)) && s.pending != {}
    ensures s.batch.None? && InFlight(s) == 0
    ensures Step(interval, s, Fire(now, false)).batch == Some(s.pending)
    ensures Step(interval, s, Fire(now, false)).jobs == [s.pending]
  {
    assert s.jobs == [];
  }

  // --------------------------------------------------- a run told by its events

  /** A run up to its last event. */
  lemma {:induction false} RunLast(interval: nat, s: State, events: seq<Event>)
    requires Runs(interval, s, events) && events != []
    ensures var n := |events| - 1;
            && Runs(interval, s, events[..n])
            && Enabled(After(interval, s, events[..n]), events[n])
            && After(interval, s, events) == Step(interval, After(interval, s, events[..n]), events[n])
    decreases |events|
  {
    hide Enabled, Step;
    var n := |events| - 1;
    if n == 0 {
      assert events[..0] == [] && events[1..] == [];
    } else {
      RunLast(interval, Step(interval, s, events[0]), events[1..]);
      assert events[..n][1..] == events[1..][..n - 1];
    }
  }

  /** The completion time that the worker reported last. */
  function LastReport(events: seq<Event>): Option<nat> {
    if events == [] then None
    else if events[|events| - 1].Complete? then events[|events| - 1].finished
    else LastReport(events[..|events| - 1])
  }

  /** The attempt on record: the last nonzero completion time that was acknowledged. */
  function Attempt(initial: Option<nat>, events: seq<Event>): Option<nat> {
    if events == [] then initial
    else
      var n := |events| - 1;
      if events[n].Receive? && LastReport(events[..n]).Some? then LastReport(events[..n])
      else Attempt(initial, events[..n])
  }

  predicate CooledDown(attempt: Option<nat>, interval: nat, now: nat) {
    attempt.Some? ==> now >= attempt.value + interval
  }

  /** The candidates: what was observed outside the cooldown with a complete view and
      neither dropped, nor drained by the timer, nor overtaken by a new cooldown. */
  function Candidates(interval: nat, initial: Option<nat>, events: seq<Event>): set<nat> {
    if events == [] then {}
    else
      var n := |events| - 1;
      var before := Candidates(interval, initial, events[..n]);
      match events[n]
      case Process(now, unavailable, observed, dropped, _) =>
        if unavailable then {}
        else before - dropped + if CooledDown(Attempt(initial, events[..n]), interval, now) then observed else {}
      case Fire(_, _) => {}
      case Receive(now) => if CooledDown(Attempt(initial, events), interval, now) then before else {}
      case _ => before
  }

  /** The batches: all candidates at every firing of the timer, with the attempt on
      record then. */
  function Batches(interval: nat, initial: Option<nat>, events: seq<Event>): seq<Start> {
    if events == [] then []
    else
      var n := |events| - 1;
      Batches(interval, initial, events[..n])
      + if events[n].Fire? && !events[n].ctxErr && Candidates(interval, initial, events[..n]) != {}
        then [Start(events[n].now, Attempt(initial, events[..n]))] else []
  }

  /** The active batch: what the timer submitted and was not acknowledged since. */
  function Active(interval: nat, initial: Option<nat>, events: seq<Event>): Option<set<nat>> {
    if events == [] then None
    else
      var n := |events| - 1;
      var drained := Candidates(interval, initial, events[..n]);
      if events[n].Fire? && !events[n].ctxErr && drained != {} then Some(drained)
      else if events[n].Receive? then None
      else Active(interval, initial, events[..n])
  }

  /** The state agrees with what its events tell. */
  ghost predicate Told(interval: nat, initial: Option<nat>, events: seq<Event>, s: State) {
    && s.lastAttempt == Attempt(initial, events)
    && s.pending == Candidates(interval, initial, events)
    && (s.done > 0 ==> s.finished == LastReport(events))
    && BatchTold(interval, initial, events, s)
  }

  ghost predicate BatchTold(interval: nat, initial: Option<nat>, events: seq<Event>, s: State) {
    && s.starts == Batches(interval, initial, events)
    && s.batch == Active(interval, initial, events)
    && (s.jobs != [] ==> s.batch.Some? && s.jobs == [s.batch.value])
  }

  lemma StepTold(interval: nat, initial: Option<nat>, events: seq<Event>, s: State)
    requires events != [] && Inv(interval, s) && !s.joined
    requires Enabled(s, events[|events| - 1]) && !events[|events| - 1].Join?
    requires Told(interval, initial, events[..|events| - 1], s)
    ensures Told(interval, initial, events, Step(interval, s, events[|events| - 1]))
  {
    hide BatchTold;
    StepBatchTold(interval, initial, events, s);
    var e := events[|events| - 1];
    if e.Process? {
      assert e.observed == {} ==> s.pending - e.dropped + e.observed == s.pending - e.dropped;
      assert s.pending - e.dropped + {} == s.pending - e.dropped;
    }
  }

  lemma StepBatchTold(interval: nat, initial: Option<nat>, events: seq<Event>, s: State)
    requires events != [] && Inv(interval, s) && !s.joined
    requires Enabled(s, events[|events| - 1]) && !events[|events| - 1].Join?
    requires Told(interval, initial, events[..|events| - 1], s)
    ensures BatchTold(interval, initial, events, Step(interval, s, events[|events| - 1]))
  {
    hide Attempt, LastReport, Candidates, Allowed, ArmStep;
    var e := events[|events| - 1];
    if e.Arm? {
      ArmKeepsBatch(s);
    }
  }

  lemma ArmKeepsBatch(s: State)
    ensures ArmStep(s) == s.(armed := ArmStep(s).armed)
  {
  }

  /** Until the runner is joined, in every interleaving: the attempt on record is the
      last acknowledged completion, the candidates are exactly those that the events
      tell, every firing of the timer submits all of them as one batch, and that batch is
      the active one until it is acknowledged. */
  lemma {:induction false} RunIsTold(interval: nat, initial: Option<nat>, clock: nat, events: seq<Event>)
    requires Runs(interval, Idle(initial, clock), events)
    requires forall e :: e in events ==> !e.Join?
    ensures Told(interval, initial, events, After(interval, Idle(initial, clock), events))
    ensures !After(interval, Idle(initial, clock), events).joined
    decreases |events|
  {
    hide Inv, Told, Step, Enabled;
    if events == [] {
      TellsNothing(interval, initial, clock);
    } else {
      var n := |events| - 1;
      RunLast(interval, Idle(initial, clock), events);
      RunIsTold(interval, initial, clock, events[..n]);
      IdleInv(interval, initial, clock);
      RunKeeps(interval, Idle(initial, clock), events[..n]);
      StepTold(interval, initial, events, After(interval, Idle(initial, clock), events[..n]));
      OnlyJoinJoins(interval, After(interval, Idle(initial, clock), events[..n]), events[n]);
    }
  }

  lemma TellsNothing(interval: nat, initial: Option<nat>, clock: nat)
    ensures Told(interval, initial, [], Idle(initial, clock))
  {
  }

  lemma IdleInv(interval: nat, initial: Option<nat>, clock: nat)
    ensures Inv(interval, Idle(initial, clock))
  {
  }

  lemma OnlyJoinJoins(interval: nat, s: State, e: Event)
    requires Enabled(s, e)
    ensures Step(interval, s, e).joined <==> s.joined || e.Join?
  {
    hide ProcessStep, ReceiveStep, FireStep;
    match e
    case Process(_, _, _, _, _) =>
      ProcessKeepsJoined(interval, s, e);
    case Fire(now, ctxErr) =>
      FireKeepsJoined(s, now, ctxErr);
    case Receive(now) =>
      ReceiveKeepsJoined(interval, s, now);
    case _ =>
  }

  lemma ProcessKeepsJoined(interval: nat, s: State, e: Event)
    requires e.Process?
    ensures ProcessStep(s, interval, e).joined == s.joined
  {
  }

  lemma FireKeepsJoined(s: State, now: nat, ctxErr: bool)
    ensures FireStep(s, now, ctxErr).joined == s.joined
  {
  }

  lemma ReceiveKeepsJoined(interval: nat, s: State, now: nat)
    requires s.done > 0
    ensures ReceiveStep(s, interval, now).joined == s.joined
  {
  }

  /** The event cancels the active batch: the shutdown begins, the view is lost, or a
      target of the batch is invalidated. */
  ghost predicate Cancels(s: State, e: Event) {
    s.batch.Some?
    && (e.StartClose? || (e.Process? && (e.unavailable || exists x :: x in e.invalidated && x in s.batch.value)))
  }

  /** The event at `i` cancels the batch of its time, which is not acknowledged since. */
  ghost predicate CanceledAt(interval: nat, s: State, events: seq<Event>, i: nat)
    requires i < |events|
  {
    && Runs(interval, s, events[..i]) && Cancels(After(interval, s, events[..i]), events[i])
    && forall j :: i < j < |events| ==> !events[j].Receive? && !events[j].Join?
  }

  lemma StepCancels(interval: nat, s: State, e: Event)
    requires Inv(interval, s) && Enabled(s, e) && (s.canceled ==> s.batch.Some?)
    ensures var t := Step(interval, s, e);
            && (t.canceled <==> Cancels(s, e) || (s.canceled && !e.Receive? && !e.Join?))
            && (t.canceled ==> t.batch.Some?)
  {
    if e.Process? && s.batch.Some? {
      var hit := e.invalidated * s.batch.value;
      assert hit != {} <==> exists x :: x in e.invalidated && x in s.batch.value by {
        if hit != {} {
          var x :| x in hit;
        }
        forall x | x in e.invalidated && x in s.batch.value
          ensures x in hit
        {
        }
      }
    }
  }

  /** In every interleaving the active batch is canceled if and only if some event since
      its submission cancels it. */
  lemma {:induction false} CanceledIff(interval: nat, initial: Option<nat>, clock: nat, events: seq<Event>)
    requires Runs(interval, Idle(initial, clock), events)
    ensures var s := After(interval, Idle(initial, clock), events);
            && (s.canceled <==>
                  exists i :: 0 <= i < |events| && CanceledAt(interval, Idle(initial, clock), events, i))
            && (s.canceled ==> s.batch.Some?)
    decreases |events|
  {
    hide Inv, Step, Enabled, Cancels, Runs, After;
    var idle := Idle(initial, clock);
    EmptyRun(interval, initial, clock);
    if events != [] {
      var n := |events| - 1;
      RunLast(interval, idle, events);
      CanceledIff(interval, initial, clock, events[..n]);
      IdleInv(interval, initial, clock);
      RunKeeps(interval, idle, events[..n]);
      var before := After(interval, idle, events[..n]);
      StepCancels(interval, before, events[n]);
      assert Cancels(before, events[n]) <==> CanceledAt(interval, idle, events, n);
      forall i | 0 <= i < n
        ensures CanceledAt(interval, idle, events, i) <==>
                  CanceledAt(interval, idle, events[..n], i) && !events[n].Receive? && !events[n].Join?
      {
        assert events[..n][..i] == events[..i];
        assert forall j :: i < j < n ==> events[..n][j] == events[j];
      }
    }
  }

  lemma EmptyRun(interval: nat, initial: Option<nat>, clock: nat)
    ensures Runs(interval, Idle(initial, clock), [])
    ensures After(interval, Idle(initial, clock), []) == Idle(initial, clock)
  {
  }

  // ------------------------------------------------------------------ class

  /** The runner as the scheduler goroutine drives it, and the worker's loop body. */
  class Runner {
    const interval: nat
    var batch: Option<set<nat>>
    var canceled: bool
    var jobs: seq<set<nat>>
    var worker: Worker
    var done: nat
    var finished: Option<nat>
    var lastAttempt: Option<nat>
    var closed: bool
    ghost var model: State

    constructor (interval: nat, lastAttempt: Option<nat>, ghost clock: nat)
      ensures Valid() && this.interval == interval && model == Idle(lastAttempt, clock)
    {
      this.interval, this.lastAttempt := interval, lastAttempt;
      batch, canceled, jobs, worker, done, finished, closed := None, false, [], Waiting, 0, None, false;
      model := Idle(lastAttempt, clock);
    }

    ghost predicate Valid()
      reads this
    {
      && Inv(interval, model)
      && model.batch == batch && model.canceled == canceled && model.jobs == jobs && model.worker == worker
      && model.done == done && model.finished == finished && model.lastAttempt == lastAttempt
      && model.closing == closed
    }

    method IsAllowed(now: nat) returns (allowed: bool)
      ensures allowed == Allowed(lastAttempt, interval, now)
    {
      return lastAttempt == None || now - lastAttempt.value >= interval;
    }

    /** Firing the arbitration timer: drain the candidates and submit them.  The send
        needs no room check, since nothing is queued. */
    method SubmitBatch(targets: set<nat>, now: nat) returns (ok: bool)
      requires Valid() && Enabled(model, Fire(now, false)) && targets == model.pending != {}
      modifies this`batch, this`canceled, this`finished, this`jobs, this`model
      ensures Valid() && ok && |jobs| == 1
      ensures model == Step(interval, old(model), Fire(now, false))
    {
      StepKeeps(interval, model, Fire(now, false));
      SubmitIsExclusive(interval, model, now);
      if closed || batch.Some? {
        return false;
      }
      batch, canceled, finished := Some(targets), false, None;
      jobs := jobs + [targets];
      model := Step(interval, model, Fire(now, false));
      return true;
    }

    /** Receiving from Done, then Finish and the cooldown check. */
    method Acknowledge(now: nat) returns (keepPending: bool)
      requires Valid() && Enabled(model, Receive(now))
      modifies this`done, this`batch, this`canceled, this`lastAttempt, this`model
      ensures Valid() && model == Step(interval, old(model), Receive(now))
      ensures keepPending == Allowed(lastAttempt, interval, now)
    {
      StepKeeps(interval, model, Receive(now));
      done := done - 1;
      FinishBatch();
      model := Step(interval, model, Receive(now));
      keepPending := IsAllowed(now);
    }

    method FinishBatch()
      modifies this`batch, this`canceled, this`lastAttempt
      ensures batch.None? && (old(batch).None? ==> lastAttempt == old(lastAttempt) && canceled == old(canceled))
      ensures old(batch).Some? ==>
                !canceled && lastAttempt == if finished.Some? then finished else old(lastAttempt)
    {
      if batch.None? {
        return;
      }
      batch, canceled := None, false;
      if finished.Some? {
        lastAttempt := finished;
      }
    }

    method CancelIfInvalidated(e: Event)
      requires Valid() && e.Process? && Enabled(model, e)
      modifies this`canceled, this`model
      ensures Valid() && model == Step(interval, old(model), e)
    {
      StepKeeps(interval, model, e);
      if batch.Some? && (e.unavailable || e.invalidated * batch.value != {}) {
        canceled := true;
      }
      model := Step(interval, model, e);
    }

    /** The worker takes the queued batch. */
    method TakeJob() returns (targets: set<nat>)
      requires Valid() && Enabled(model, Take)
      modifies this`jobs, this`worker, this`model
      ensures Valid() && model == Step(interval, old(model), Take) && targets == old(jobs)[0]
    {
      StepKeeps(interval, model, Take);
      targets := jobs[0];
      jobs, worker := jobs[1..], Running;
      model := Step(interval, model, Take);
    }

    /** The worker reports; the done channel has room. */
    method Report(time: Option<nat>)
      requires Valid() && Enabled(model, Complete(time))
      modifies this`finished, this`done, this`worker, this`model
      ensures Valid() && model == Step(interval, old(model), Complete(time)) && done == 1
    {
      StepKeeps(interval, model, Complete(time));
      finished := time;
      done, worker := done + 1, Waiting;
      model := Step(interval, model, Complete(time));
    }
  }

  /** The scheduler's loop: its candidates, its arbitration timer and its runner. */
  class Scheduler {
    const runner: Runner
    var pending: set<nat>
    var armed: bool

    constructor (runner: Runner)
      requires runner.Valid() && runner.model.pending == {} && !runner.model.armed && !runner.closed
      ensures Valid() && this.runner == runner && pending == {} && !armed
    {
      this.runner, pending, armed := runner, {}, false;
    }

    ghost predicate Valid()
      reads this, runner
    {
      && runner.Valid() && !runner.closed
      && runner.model.pending == pending && runner.model.armed == armed
    }

    /** What the tracker saw: candidates are admitted only outside the cooldown and
        with a complete view, and a lost view drops them all. */
    method ProcessEvents(e: Event)
      requires Valid() && e.Process? && Enabled(runner.model, e)
      modifies this`pending, runner`canceled, runner`model
      ensures Valid() && runner.model == Step(runner.interval, old(runner.model), e)
    {
      var allowed := runner.IsAllowed(e.now);
      var accept := !e.unavailable && e.observed != {} && allowed;
      pending := pending - e.dropped;
      if accept {
        pending := pending + e.observed;
      }
      runner.CancelIfInvalidated(e);
      if e.unavailable {
        pending := {};
      }
    }

    /** Before each wait: arm the timer for waiting candidates while no batch is
        active. */
    method ArmIfIdle()
      requires Valid()
      modifies this`armed, runner`model
      ensures Valid() && runner.model == Step(runner.interval, old(runner.model), Arm)
      ensures armed == (old(armed) || (pending != {} && runner.batch.None?))
    {
      StepKeeps(runner.interval, runner.model, Arm);
      if pending != {} && !armed && runner.batch.None? {
        armed := true;
      }
      runner.model := Step(runner.interval, runner.model, Arm);
    }

    /** The timer fired: the candidates go to the runner, which is never busy. */
    method OnArbitration(now: nat) returns (ok: bool)
      requires Valid() && Enabled(runner.model, Fire(now, false))
      modifies this, runner
      ensures Valid() && ok && runner.model == Step(runner.interval, old(runner.model), Fire(now, false))
      ensures pending == {} && !armed && (old(pending) != {} ==> runner.batch == Some(old(pending)))
    {
      armed := false;
      var targets := pending;
      pending := {};
      if targets != {} {
        SubmitIsExclusive(runner.interval, runner.model, now);
        ok := runner.SubmitBatch(targets, now);
      } else {
        StepKeeps(runner.interval, runner.model, Fire(now, false));
        runner.model := Step(runner.interval, runner.model, Fire(now, false));
        ok := true;
      }
    }

    /** The batch is done: inside the cooldown the waiting candidates are dropped. */
    method OnDone(now: nat)
      requires Valid() && Enabled(runner.model, Receive(now))
      modifies this`pending, runner
      ensures Valid() && runner.model == Step(runner.interval, old(runner.model), Receive(now))
    {
      var keep := runner.Acknowledge(now);
      if !keep {
        pending := {};
      }
    }
  }
}
