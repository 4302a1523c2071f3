/** What a sampled slice says: whose stay on the CPU it is, how long that lasted, and who
    waited meanwhile. */
module SchedSlices {
  import opened Options
  import opened Words
  import opened PackedSlices
  import opened SchedWaiting

  /** A run up to its last event. */
  lemma {:induction false} RunLast(s: State, events: seq<Event>)
    requires Runs(s, events) && events != []
    ensures var n := |events| - 1;
            && Runs(s, events[..n])
            && Enabled(After(s, events[..n]), events[n])
            && After(s, events) == Step(After(s, events[..n]), events[n])
    decreases |events|
  {
    hide Enabled, Step;
    var n := |events| - 1;
    if n == 0 {
      assert events[..0] == [] && events[1..] == [];
    } else {
      RunLast(Step(s, events[0]), events[1..]);
      assert events[..n][1..] == events[1..][..n - 1];
    }
  }

  /** The last switch of a CPU among the events. */
  function LastSwitch(events: seq<Event>, c: nat): (r: Option<Event>)
    ensures r.Some? ==> r.value.Switch? && r.value.cpu == c && r.value in events
  {
    if events == [] then None
    else
      var n := |events| - 1;
      if events[n].Switch? && events[n].cpu == c then Some(events[n]) else LastSwitch(events[..n], c)
  }

  /** Only a switch of the CPU itself changes its running task or its switch time. */
  lemma StepKeepsStay(s: State, e: Event, c: nat)
    requires Enabled(s, e) && c < |s.cpus|
    ensures |Step(s, e).cpus| == |s.cpus|
    ensures var was, now := s.cpus[c], Step(s, e).cpus[c];
            if e.Switch? && e.cpu == c
            then now.rq.curr == e.next && (c < MAX_CPUS ==> now.bpf.previous == e.now)
            else now.rq.curr == was.rq.curr && now.bpf.previous == was.bpf.previous
  {
    hide Mark, WaitingNr, MayEnqueue, Sees;
    MarksKeepStay();
  }

  lemma MarksKeepStay()
    ensures forall b: Bpf, g: Targets, css: nat, waiting: bool, throttled: bool ::
              Mark(b, g, css, waiting, throttled).previous == b.previous
  {
  }

  /** Since its last switch a CPU runs what was switched in, and the hooks know
      when that was. */
  lemma {:induction false} StayIsLastSwitch(s: State, events: seq<Event>, c: nat)
    requires Init(s) && Runs(s, events) && c < |s.cpus| && c < MAX_CPUS
    ensures |After(s, events).cpus| == |s.cpus|
    ensures var cpu, last := After(s, events).cpus[c], LastSwitch(events, c);
            && cpu.bpf.previous == (if last.Some? then last.value.now else 0)
            && (last.Some? ==> last.value.now > 0 && cpu.rq.curr == last.value.next)
    decreases |events|
  {
    hide Enabled, Step;
    if events != [] {
      var n := |events| - 1;
      RunLast(s, events);
      StayIsLastSwitch(s, events[..n], c);
      StepKeepsStay(After(s, events[..n]), events[n], c);
      SwitchTimeIsPositive(After(s, events[..n]), events[n]);
    }
  }

  lemma SwitchTimeIsPositive(s: State, e: Event)
    requires Enabled(s, e)
    ensures e.Switch? ==> e.now > 0
  {
  }

  /** The slice is of the stay since the CPU's last switch: it names the cgroup of the
      task that was switched in then, and lasts from then to `now`, on a 64-bit clock
      and up to the largest duration that a slice can hold. */
  ghost predicate Spans(events: seq<Event>, c: nat, now: nat, slice: Packed) {
    var last := LastSwitch(events, c);
    && last.Some? && last.value.next.Some?
    && CssId(slice) == last.value.next.value.css
    && var lasted := (now - last.value.now) % U64;
       Duration(slice) == if lasted > 0xffff_ffff then 0xffff_ffff else lasted
  }

  /** A switch samples a slice exactly when the slice is kept, the CPU was switched
      before and a task of a cgroup with a valid css id ran since, and then the slice
      is of that stay. */
  lemma SliceSpansStay(s: State, events: seq<Event>, c: nat, view: Targets, now: nat, keep: bool)
    requires Init(s) && Runs(s, events) && c < |s.cpus| <= MAX_CPUS && Sees(After(s, events), view)
    requires now < U64 && forall e :: e in events && e.Switch? ==> e.now < U64
    ensures |After(s, events).cpus| == |s.cpus|
    ensures var cpu, last := After(s, events).cpus[c], LastSwitch(events, c);
            var slice := SwitchSlice(cpu.bpf, view, now, CssOf(cpu.rq.curr), keep);
            && (slice.Some? <==>
                  keep && last.Some? && last.value.next.Some? && last.value.next.value.css < MAX_CSS_IDS)
            && (slice.Some? ==> Spans(events, c, now, slice.value))
  {
    hide Runs, After, Init, Sees, PackSlice, CssId, Duration, PackedSlices.Targets, Bitmap.Members;
    StayIsLastSwitch(s, events, c);
    InitInv(s);
    RunKeeps(s, events);
    var cpu := After(s, events).cpus[c];
    assert CpuOk(cpu, After(s, events).g, After(s, events).stable);
    var slice := SwitchSlice(cpu.bpf, view, now, CssOf(cpu.rq.curr), keep);
    if slice.Some? {
      SliceLasts(cpu, view, now, keep);
    }
  }

  lemma SliceLasts(cpu: Cpu, g: Targets, now: nat, keep: bool)
    requires cpu.bpf.bits.Fits() && now < U64 && cpu.bpf.previous < U64
    requires SwitchSlice(cpu.bpf, g, now, CssOf(cpu.rq.curr), keep).Some?
    ensures var slice := SwitchSlice(cpu.bpf, g, now, CssOf(cpu.rq.curr), keep).value;
            var lasted := (now - cpu.bpf.previous) % U64;
            && Duration(slice) == (if lasted > 0xffff_ffff then 0xffff_ffff else lasted)
            && cpu.rq.curr.Some? && CssId(slice) == cpu.rq.curr.value.css
  {
    hide PackSlice, CssId, Duration, PackedSlices.Targets, Bitmap.Members;
    PackRoundTrip((now + U64 - cpu.bpf.previous % U64) % U64, Ensured(cpu.bpf, g.epoch).bits, cpu.rq.curr.value.css);
  }

  /** The slice names the running cgroup, and when its hook ran between publications
      only cgroups that wait. */
  ghost predicate Fair(s: State, c: nat, view: Targets, slice: Packed)
    requires c < |s.cpus|
  {
    && s.cpus[c].rq.Runs(CssId(slice))
    && (Quiet(s, view) ==> forall d :: d in PackedSlices.Targets(slice) ==> WaitsAs(s, c, d))
  }

  /** Some cgroup that slot `d` was assigned to waits on the CPU. */
  ghost predicate WaitsAs(s: State, c: nat, d: nat)
    requires c < |s.cpus|
  {
    exists css :: css in s.g.dense && s.g.dense[css] == d && ReallyWaits(s.cpus[c].rq, css)
  }

  lemma SlicesAreFair(s: State, c: nat, view: Targets, now: nat, keep: bool)
    requires Inv(s) && c < |s.cpus| && Sees(s, view)
    ensures var slice := SwitchSlice(s.cpus[c].bpf, view, now, CssOf(s.cpus[c].rq.curr), keep);
            slice.Some? ==> Fair(s, c, view, slice.value)
  {
    hide SwitchSlice, CssId, PackedSlices.Targets, Bitmap.Members;
    var cpu := s.cpus[c];
    assert CpuOk(cpu, s.g, s.stable);
    var slice := SwitchSlice(cpu.bpf, view, now, CssOf(cpu.rq.curr), keep);
    if slice.Some? {
      SliceOf(cpu, view, now, keep);
      if Quiet(s, view) {
        EnsuredTrue(cpu, s.g);
        forall d | d in PackedSlices.Targets(slice.value)
          ensures WaitsAs(s, c, d)
        {
          assert Assigned(s.g, d);
          var css :| css in s.g.dense && s.g.dense[css] == d;
          assert Waits(cpu.rq, false, css);
        }
      }
    }
  }

  /** In every run a sampled slice carries the css id of whoever ran, and blames a
      target only when that target waited meanwhile, unless a publication overlapped
      its hook. */
  lemma SlicesBlameWaiters(s: State, events: seq<Event>, c: nat, view: Targets, now: nat, keep: bool)
    requires Init(s) && Runs(s, events) && c < |s.cpus| <= MAX_CPUS && Sees(After(s, events), view)
    ensures |After(s, events).cpus| == |s.cpus|
    ensures var t := After(s, events);
            var slice := SwitchSlice(t.cpus[c].bpf, view, now, CssOf(t.cpus[c].rq.curr), keep);
            slice.Some? ==> Fair(t, c, view, slice.value)
  {
    InitInv(s);
    RunKeeps(s, events);
    SlicesAreFair(After(s, events), c, view, now, keep);
  }

  lemma SliceOf(cpu: Cpu, g: Targets, now: nat, keep: bool)
    requires Ensured(cpu.bpf, g.epoch).bits.Fits()
    requires SwitchSlice(cpu.bpf, g, now, CssOf(cpu.rq.curr), keep).Some?
    ensures var slice := SwitchSlice(cpu.bpf, g, now, CssOf(cpu.rq.curr), keep).value;
            && cpu.bpf.previous != 0
            && cpu.rq.Runs(CssId(slice))
            && PackedSlices.Targets(slice) == Ensured(cpu.bpf, g.epoch).bits.Members()
  {
    hide PackSlice, CssId, PackedSlices.Targets, Bitmap.Members;
    PackRoundTrip((now + U64 - cpu.bpf.previous % U64) % U64, Ensured(cpu.bpf, g.epoch).bits, cpu.rq.curr.value.css);
  }
}
