/** The window rate limiters: at most `burst` events in each window. */
module RateLimit {
  /** A zero `start` means that no window is open yet. */
  datatype Window = Window(start: nat, events: nat)

  const CLOSED := Window(0, 0)

  datatype Limits = Limits(interval: nat, burst: nat)

  /** The window that a call at `now` falls into. */
  function Opened(w: Window, l: Limits, now: nat): Window {
    if w.start == 0 || now - w.start >= l.interval then Window(now, 0) else w
  }

  predicate Admits(w: Window, l: Limits, now: nat) {
    Opened(w, l, now).events < l.burst
  }

  function Called(w: Window, l: Limits, now: nat): Window {
    var o := Opened(w, l, now);
    if o.events < l.burst then o.(events := o.events + 1) else o
  }

  // ------------------------------------------------------------------- runs

  /** An admitted event and the window that admitted it. */
  datatype Admitted = Admitted(time: nat, window: nat)

  datatype Run = Run(w: Window, clock: nat, log: seq<Admitted>)

  const START := Run(CLOSED, 0, [])

  function Call(r: Run, l: Limits, now: nat): Run {
    Run(Called(r.w, l, now), now,
        if Admits(r.w, l, now) then r.log + [Admitted(now, Opened(r.w, l, now).start)] else r.log)
  }

  ghost predicate Inv(r: Run, l: Limits) {
    && r.w.start <= r.clock && r.w.events <= l.burst && r.w.events <= |r.log|
    && (r.w.start == 0 ==> r.log == [])
    && (forall i :: 0 <= i < |r.log| ==>
          r.log[i].window <= r.log[i].time <= r.clock && r.log[i].time - r.log[i].window < l.interval)
    // The last `events` admissions are those of the open window.
    && (forall i :: 0 <= i < |r.log| ==>
          if i < |r.log| - r.w.events
          then r.log[i].window + l.interval <= r.w.start && r.log[i].time < r.w.start
          else r.log[i].window == r.w.start)
    && (forall i, j :: 0 <= i < j < |r.log| ==> WindowsApart(r.log[i], r.log[j], j - i, l))
  }

  /** Two admissions of one window are fewer than `burst` apart; otherwise the later
      window opened at least an interval after the earlier one, and after its events. */
  ghost predicate WindowsApart(a: Admitted, b: Admitted, distance: nat, l: Limits) {
    && a.time <= b.time
    && if a.window == b.window then distance < l.burst
       else a.window + l.interval <= b.window && a.time < b.window
  }

  lemma CallKeeps(r: Run, l: Limits, now: nat)
    requires Inv(r, l) && l.interval > 0 && now > 0 && now >= r.clock
    ensures Inv(Call(r, l, now), l)
  {
    OpenKeeps(r, l, now);
    var o := Run(Opened(r.w, l, now), now, r.log);
    if o.w.events < l.burst {
      AdmitKeeps(o, l);
    }
  }

  lemma OpenKeeps(r: Run, l: Limits, now: nat)
    requires Inv(r, l) && l.interval > 0 && now > 0 && now >= r.clock
    ensures Inv(Run(Opened(r.w, l, now), now, r.log), l)
    ensures var w := Opened(r.w, l, now); 0 < w.start <= now && now - w.start < l.interval
  {
    var o := Run(Opened(r.w, l, now), now, r.log);
    forall i | 0 <= i < |o.log|
      ensures if i < |o.log| - o.w.events
              then o.log[i].window + l.interval <= o.w.start && o.log[i].time < o.w.start
              else o.log[i].window == o.w.start
    {
      assert r.log[i].window <= r.w.start;
      assert r.log[i].time - r.log[i].window < l.interval;
    }
  }

  lemma AdmitKeeps(o: Run, l: Limits)
    requires Inv(o, l) && o.w.events < l.burst && 0 < o.w.start && o.clock - o.w.start < l.interval
    ensures Inv(Run(o.w.(events := o.w.events + 1), o.clock, o.log + [Admitted(o.clock, o.w.start)]), l)
  {
  }

  function CallAll(r: Run, l: Limits, times: seq<nat>): Run {
    if times == [] then r else Call(CallAll(r, l, times[..|times| - 1]), l, times[|times| - 1])
  }

  ghost predicate Monotone(times: seq<nat>) {
    && (forall i :: 0 <= i < |times| ==> times[i] > 0)
    && (forall i, j :: 0 <= i < j < |times| ==> times[i] <= times[j])
  }

  lemma {:induction false} RunKeeps(l: Limits, times: seq<nat>)
    requires l.interval > 0 && Monotone(times)
    ensures Inv(CallAll(START, l, times), l)
    ensures CallAll(START, l, times).clock == if times == [] then 0 else times[|times| - 1]
    decreases |times|
  {
    if times != [] {
      var n := |times| - 1;
      RunKeeps(l, times[..n]);
      CallKeeps(CallAll(START, l, times[..n]), l, times[n]);
    }
  }

  /** The admitted ones among the calls, in order. */
  function Granted(l: Limits, times: seq<nat>): seq<nat> {
    if times == [] then []
    else
      var n := |times| - 1;
      Granted(l, times[..n]) + if Admits(CallAll(START, l, times[..n]).w, l, times[n]) then [times[n]] else []
  }

  /** The log is exactly the admitted calls, at the times they were made. */
  lemma {:induction false} LogIsGranted(l: Limits, times: seq<nat>)
    ensures var log := CallAll(START, l, times).log;
            |log| == |Granted(l, times)| && forall i :: 0 <= i < |log| ==> log[i].time == Granted(l, times)[i]
    decreases |times|
  {
    hide Admits, Called;
    if times != [] {
      LogIsGranted(l, times[..|times| - 1]);
    }
  }

  /** For every monotone sequence of calls: a window never admits more than `burst`,
      and any 2 * burst + 1 admissions span at least an interval. */
  lemma SpansAreBounded(l: Limits, times: seq<nat>, i: nat)
    requires l.interval > 0 && Monotone(times)
    ensures var log := CallAll(START, l, times).log;
            && (i + l.burst < |log| ==> log[i].window != log[i + l.burst].window)
            && (i + 2 * l.burst < |log| ==> log[i + 2 * l.burst].time - log[i].time >= l.interval)
  {
    RunKeeps(l, times);
    var log := CallAll(START, l, times).log;
    if l.burst > 0 {
      if i + l.burst < |log| {
        assert WindowsApart(log[i], log[i + l.burst], l.burst, l);
      }
      if i + 2 * l.burst < |log| {
        assert WindowsApart(log[i + l.burst], log[i + 2 * l.burst], l.burst, l);
      }
    } else {
      NothingAdmitted(l, times);
    }
  }

  lemma {:induction false} NothingAdmitted(l: Limits, times: seq<nat>)
    requires l.burst == 0
    ensures CallAll(START, l, times).log == []
    decreases |times|
  {
    if times != [] {
      NothingAdmitted(l, times[..|times| - 1]);
    }
  }

  /** How many admissions fall into the closed span from `from` to `to`. */
  function InSpan(log: seq<Admitted>, from: nat, to: nat): nat {
    if log == [] then 0
    else
      var last := log[|log| - 1];
      InSpan(log[..|log| - 1], from, to) + if from <= last.time <= to then 1 else 0
  }

  /** The index of the first admission not before `from`, and one past the last not
      after `to`. */
  function FirstAt(log: seq<Admitted>, from: nat): (i: nat)
    ensures i <= |log|
  {
    if log == [] then 0
    else if log[|log| - 1].time < from then |log|
    else FirstAt(log[..|log| - 1], from)
  }

  function UpTo(log: seq<Admitted>, to: nat): (i: nat)
    ensures i <= |log|
  {
    if log == [] then 0
    else if log[|log| - 1].time <= to then |log|
    else UpTo(log[..|log| - 1], to)
  }

  lemma {:induction false} SpanCount(log: seq<Admitted>, from: nat, to: nat)
    requires forall i, j :: 0 <= i < j < |log| ==> log[i].time <= log[j].time
    ensures forall i :: 0 <= i < |log| ==> (log[i].time >= from <==> i >= FirstAt(log, from))
    ensures forall i :: 0 <= i < |log| ==> (log[i].time <= to <==> i < UpTo(log, to))
    ensures InSpan(log, from, to)
         == if UpTo(log, to) >= FirstAt(log, from) then UpTo(log, to) - FirstAt(log, from) else 0
    decreases |log|
  {
    if log != [] {
      SpanCount(log[..|log| - 1], from, to);
    }
  }

  ghost predicate Spread(log: seq<Admitted>, i: nat, width: nat, span: nat) {
    i + width < |log| ==> log[i + width].time - log[i].time > span
  }

  lemma SpanIsWithin(log: seq<Admitted>, from: nat, span: nat, width: nat)
    requires forall i, j :: 0 <= i < j < |log| ==> log[i].time <= log[j].time
    requires forall i: nat :: Spread(log, i, width, span)
    ensures InSpan(log, from, from + span) <= width
  {
    SpanCount(log, from, from + span);
    assert Spread(log, FirstAt(log, from), width, span);
  }

  /** Any span shorter than the interval admits at most 2 * burst. */
  lemma ShortSpansAdmitTwice(l: Limits, times: seq<nat>, from: nat, span: nat)
    requires l.interval > 0 && Monotone(times) && span < l.interval
    ensures InSpan(CallAll(START, l, times).log, from, from + span) <= 2 * l.burst
  {
    var log, width := CallAll(START, l, times).log, 2 * l.burst;
    RunKeeps(l, times);
    forall i: nat
      ensures Spread(log, i, width, span)
    {
      SpansAreBounded(l, times, i);
    }
    forall i, j | 0 <= i < j < |log|
      ensures log[i].time <= log[j].time
    {
      assert WindowsApart(log[i], log[j], j - i, l);
    }
    SpanIsWithin(log, from, span, width);
  }

  /** A call is refused only when its own window has already admitted `burst`. */
  lemma RefusedOnlyWhenFull(l: Limits, times: seq<nat>, now: nat)
    requires l.interval > 0 && Monotone(times + [now])
    ensures var r := CallAll(START, l, times);
            !Admits(r.w, l, now) ==>
              && l.burst <= |r.log|
              && (forall i :: |r.log| - l.burst <= i < |r.log| ==>
                    r.log[i].window == Opened(r.w, l, now).start && now - r.log[i].window < l.interval)
  {
    forall i, j | 0 <= i < j < |times|
      ensures times[i] <= times[j] && times[i] > 0
    {
      assert (times + [now])[i] <= (times + [now])[j];
    }
    assert forall i :: 0 <= i < |times| ==> (times + [now])[i] == times[i];
    assert (times + [now])[|times|] == now;
    RunKeeps(l, times);
    OpenKeeps(CallAll(START, l, times), l, now);
  }

  // ---------------------------------------------------------------- limiters

  /** `bpf_percpu_ratelimited_ns` over its per-CPU state. */
  class PerCpuLimiter {
    var start: nat
    var events: nat

    constructor ()
      ensures State() == CLOSED
    {
      start, events := 0, 0;
    }

    ghost function State(): Window
      reads this
    {
      Window(start, events)
    }

    method Limited(l: Limits, now: nat) returns (limited: bool)
      requires now >= start
      modifies this
      ensures l.interval == 0 ==> !limited && State() == old(State())
      ensures l.interval > 0 ==> State() == Called(old(State()), l, now) && limited == !Admits(old(State()), l, now)
    {
      if l.interval == 0 {
        return false;
      }
      if start == 0 || now - start >= l.interval {
        start := now;
        events := 0;
      }
      if events >= l.burst {
        return true;
      }
      events := events + 1;
      return false;
    }
  }

  /** `bpf_ratelimited` over the shared state, called one at a time. */
  class SharedLimiter {
    var interval: nat
    var burst: nat
    var start: nat
    var events: nat
    var missed: nat
    var totalEvents: nat
    var totalMissed: nat
    var totalElapsed: nat
    /** Calls made while the limiter was enabled. */
    ghost var calls: nat

    constructor (interval: nat, burst: nat)
      ensures Valid() && State() == CLOSED && calls == 0 && this.interval == interval && this.burst == burst
    {
      this.interval, this.burst := interval, burst;
      start, events, missed, totalEvents, totalMissed, totalElapsed, calls := 0, 0, 0, 0, 0, 0, 0;
    }

    ghost function State(): Window
      reads this
    {
      Window(start, events)
    }

    ghost predicate Valid()
      reads this
    {
      totalEvents + totalMissed == calls && (start == 0 ==> events == 0)
    }

    method Limited(now: nat) returns (limited: bool)
      requires Valid() && now >= start && now > 0
      modifies this
      ensures Valid() && interval == old(interval) && burst == old(burst)
      ensures calls == old(calls) + if interval > 0 then 1 else 0
      ensures interval == 0 ==> !limited && State() == old(State())
      ensures interval > 0 ==>
                && State() == Called(old(State()), Limits(interval, burst), now)
                && limited == !Admits(old(State()), Limits(interval, burst), now)
      ensures totalMissed == old(totalMissed) + if limited then 1 else 0
    {
      if interval == 0 {
        return false;
      }
      calls := calls + 1;
      if start == 0 {
        start := now;
      }
      var elapsed := now - start;
      if elapsed >= interval {
        totalElapsed := totalElapsed + elapsed;
        start := now;
        events := 0;
        missed := 0;
      }
      if events < burst {
        events := events + 1;
        totalEvents := totalEvents + 1;
        return false;
      }
      missed := missed + 1;
      totalMissed := totalMissed + 1;
      return true;
    }
  }
}
