/** Which targets are waiting on each CPU: the runqueue steps of the kernel, the
    scheduler hooks that follow them, and what a set bit then means.

    Only CFS tasks of leaf cgroups are modelled.  A hook runs under the lock of the
    runqueue it describes, so one kernel step and its hook are one step here.  A
    publication is not one step: the target map is rewritten item by item, with any
    hooks in between, before the epoch is raised. */
module SchedWaiting {
  import opened Options
  import opened Words
  import opened PackedSlices

  const MAX_CPUS: nat := 512

  // -------------------------------------------------------------- runqueues

  datatype Task = Task(id: nat, css: nat)

  /** One CFS runqueue: the running task (None is idle), all runnable tasks with the
      running one among them, and the cgroups throttled on this CPU. */
  datatype Rq = Rq(curr: Option<Task>, queued: set<Task>, throttled: set<nat>) {
    function Of(css: nat): set<Task> {
      set t | t in queued && t.css == css
    }

    /** `h_nr_running`: throttling does not change the group's own count. */
    function Nr(css: nat): nat {
      |Of(css)|
    }

    /** Runnable but not running. */
    function Waiting(css: nat): set<Task> {
      set t | t in queued && t.css == css && curr != Some(t)
    }

    predicate Runs(css: nat) {
      curr.Some? && curr.value.css == css
    }

    ghost predicate Valid() {
      && |queued| < U32
      && (curr.Some? ==> curr.value in queued && curr.value.css !in throttled)
    }
  }

  lemma NrOfWaiting(rq: Rq, css: nat)
    requires rq.Valid()
    ensures rq.Nr(css) < U32
    ensures rq.Nr(css) == |rq.Waiting(css)| + if rq.Runs(css) then 1 else 0
  {
    SubsetCard(rq.Of(css), rq.queued);
    if rq.Runs(css) {
      assert rq.Of(css) == rq.Waiting(css) + {rq.curr.value};
    } else {
      assert rq.Of(css) == rq.Waiting(css);
    }
  }

  lemma {:induction false} SubsetCard<T>(a: set<T>, b: set<T>)
    requires a <= b
    ensures |a| <= |b|
  {
    if a != {} {
      var x :| x in a;
      SubsetCard(a - {x}, b - {x});
    }
  }

  // ------------------------------------------------------------------ hooks

  /** An epoch and the dense id of each target cgroup: what was published, or what
      one hook found. */
  datatype Targets = Targets(epoch: nat, dense: map<nat, nat>)

  /** A dense id is a slot of the target array, so it names one cgroup. */
  ghost predicate OneOwner(dense: map<nat, nat>) {
    forall a, b :: a in dense && b in dense && dense[a] == dense[b] ==> a == b
  }

  function Resolve(g: Targets, css: nat): nat {
    if css in g.dense && g.dense[css] < MAX_TARGETS then g.dense[css] else NON_TARGET
  }

  /** What the hooks keep for one CPU. */
  datatype Bpf = Bpf(bits: Bitmap, epoch: nat, running: nat, previous: nat)

  const ZEROED := Bpf(EMPTY_BITMAP, 0, 0, 0)

  /** `ensure_waiting_bitmap_epoch` */
  function Ensured(b: Bpf, epoch: nat): Bpf {
    if b.epoch == epoch then b else b.(bits := EMPTY_BITMAP, epoch := epoch)
  }

  function Mark(b: Bpf, g: Targets, css: nat, waiting: bool, throttled: bool): Bpf {
    if Resolve(g, css) == NON_TARGET then b
    else b.(bits := SetBit(b.bits, Resolve(g, css), waiting && !throttled))
  }

  /** The waiting count, leaving out a same-cgroup task known to be running; the
      subtraction is on 32 bits. */
  function WaitingNr(b: Bpf, css: nat, nr: nat): nat {
    if b.running == css + 1 then (nr + U32 - 1) % U32 else nr
  }

  /** `on_sched_switch` without the slice: `prev` and `next` are css ids, None idle. */
  function SwitchHook(b: Bpf, g: Targets, now: nat, prev: Option<nat>, prevNr: nat, prevThrottled: bool,
                      next: Option<nat>, nextNr: nat): Bpf
  {
    var b1 := Ensured(b, g.epoch).(previous := now);
    var b2 := if prev.Some? && prev.value < MAX_CSS_IDS
              then Mark(b1, g, prev.value, prevNr >= 1, prevThrottled) else b1;
    var b3 := b2.(running := 0);
    if next.Some? && next.value < MAX_CSS_IDS
    then Mark(b3, g, next.value, nextNr >= 2, false).(running := next.value + 1)
    else b3
  }

  /** The slice that the switch samples, with the bits as they were while the
      outgoing task ran. */
  function SwitchSlice(b: Bpf, g: Targets, now: nat, prev: Option<nat>, keep: bool): Option<Packed> {
    if b.previous != 0 && prev.Some? && prev.value < MAX_CSS_IDS && keep
    then Some(PackSlice((now + U64 - b.previous % U64) % U64, Ensured(b, g.epoch).bits, prev.value))
    else None
  }

  /** `update_wakeup_waiting` on the destination CPU. */
  function WakeupHook(b: Bpf, g: Targets, css: nat, nr: nat, throttled: bool): Bpf {
    if css >= MAX_CSS_IDS then b
    else
      var b1 := Ensured(b, g.epoch);
      if nr == 0 then b1 else Mark(b1, g, css, WaitingNr(b1, css, nr) >= 1, throttled)
  }

  /** `on_sched_migrate_task` on the source CPU. */
  function MigrateHook(b: Bpf, g: Targets, css: nat, nr: nat, throttled: bool): Bpf {
    if css >= MAX_CSS_IDS then b
    else
      var b1 := Ensured(b, g.epoch);
      Mark(b1, g, css, WaitingNr(b1, css, nr) >= 1, throttled)
  }

  /** `on_unthrottle_cfs_rq_return` on the CPU of the runqueue. */
  function UnthrottleHook(b: Bpf, g: Targets, css: nat, nr: nat): Bpf {
    if css >= MAX_CSS_IDS then b
    else Mark(Ensured(b, g.epoch), g, css, nr >= 1, false)
  }

  // ------------------------------------------------------------------ steps

  datatype Cpu = Cpu(rq: Rq, bpf: Bpf)

  /** `g` is the last publication that was finished, `live` the map behind it; a
      publication in progress has made `live` its own. */
  datatype State = State(cpus: seq<Cpu>, g: Targets, live: map<nat, nat>, stable: bool)

  /** One kernel step with its hook.  `throttles` says that the bandwidth of the
      cgroup ran out in this step: of the outgoing task when it is put back, of an
      enqueued task when its group had nothing queued.  `on` is the CPU that runs a
      wakeup; a migration with `runnable` false is a wakeup placement.  `view` is the
      epoch that the hook read and what it resolved cgroups to. */
  datatype Event =
    | Switch(cpu: nat, next: Option<Task>, blocks: bool, throttles: bool, now: nat, view: Targets)
    | Wakeup(on: nat, cpu: nat, task: Task, runnable: bool, throttles: bool, view: Targets)
    | Migrate(cpu: nat, dst: nat, task: Task, runnable: bool, throttles: bool, view: Targets)
    | Unthrottle(on: nat, cpu: nat, css: nat, returned: bool, view: Targets)
    | StartPublish
    | Delete(css: nat)
    | Write(css: nat, dense: nat)
    | FinishPublish

  /** A hook that ran between two publications. */
  predicate Quiet(s: State, view: Targets) {
    s.stable && view.epoch == s.g.epoch
  }

  /** What a hook may have found by the time it ends: anything of an epoch published
      before, and the publication itself when none of its steps fell into the hook. */
  predicate Sees(s: State, view: Targets) {
    view.epoch <= s.g.epoch && (Quiet(s, view) ==> view == s.g)
  }

  function CssOf(t: Option<Task>): Option<nat> {
    if t.Some? then Some(t.value.css) else None
  }

  function PutPrev(rq: Rq, blocks: bool, throttles: bool): Rq {
    if rq.curr.None? then rq
    else
      Rq(None,
         if blocks then rq.queued - {rq.curr.value} else rq.queued,
         if throttles then rq.throttled + {rq.curr.value.css} else rq.throttled)
  }

  function Enqueue(rq: Rq, t: Task, throttles: bool): Rq {
    rq.(queued := rq.queued + {t}, throttled := if throttles then rq.throttled + {t.css} else rq.throttled)
  }

  ghost predicate MayEnqueue(rq: Rq, t: Task, throttles: bool) {
    && |rq.queued + {t}| < U32
    && (throttles ==> rq.Of(t.css) == {})
  }

  ghost predicate Enabled(s: State, e: Event) {
    match e
    case Switch(c, next, blocks, throttles, now, view) =>
      && c < |s.cpus| && now > 0 && Sees(s, view)
      && var rq := PutPrev(s.cpus[c].rq, blocks, throttles);
         next.Some? ==> next.value in rq.queued && next.value.css !in rq.throttled
    case Wakeup(on, c, task, runnable, throttles, view) =>
      on < |s.cpus| && c < |s.cpus| && Sees(s, view) && MayEnqueue(s.cpus[c].rq, task, throttles)
    case Migrate(c, dst, task, runnable, throttles, view) =>
      && c < |s.cpus| && dst < |s.cpus| && c != dst && Sees(s, view)
      && (runnable ==>
            && task in s.cpus[c].rq.queued && s.cpus[c].rq.curr != Some(task)
            && MayEnqueue(s.cpus[dst].rq, task, throttles))
    case Unthrottle(on, c, css, returned, view) =>
      on < |s.cpus| && c < |s.cpus| && Sees(s, view) && (returned ==> css in s.cpus[c].rq.throttled)
    case StartPublish => s.stable && s.g.epoch + 1 < U32
    case Delete(_) => !s.stable
    case Write(_, _) => !s.stable
    case FinishPublish => !s.stable && OneOwner(s.live) && s.g.epoch + 1 < U32
  }

  function SwitchCpu(cpu: Cpu, g: Targets, hooked: bool, next: Option<Task>, blocks: bool, throttles: bool,
                     now: nat): Cpu
  {
    var prev := cpu.rq.curr;
    var rq := PutPrev(cpu.rq, blocks, throttles).(curr := next);
    Cpu(rq, if !hooked then cpu.bpf
            else SwitchHook(cpu.bpf, g, now,
                            CssOf(prev), if prev.Some? then rq.Nr(prev.value.css) else 0,
                            prev.Some? && prev.value.css in rq.throttled,
                            CssOf(next), if next.Some? then rq.Nr(next.value.css) else 0))
  }

  function WakeupCpu(cpu: Cpu, g: Targets, hooked: bool, t: Task, throttles: bool): Cpu {
    var rq := Enqueue(cpu.rq, t, throttles);
    Cpu(rq, if !hooked then cpu.bpf else WakeupHook(cpu.bpf, g, t.css, rq.Nr(t.css), t.css in rq.throttled))
  }

  function MigrateCpu(cpu: Cpu, g: Targets, hooked: bool, t: Task): Cpu {
    var rq := cpu.rq.(queued := cpu.rq.queued - {t});
    Cpu(rq, if !hooked then cpu.bpf else MigrateHook(cpu.bpf, g, t.css, rq.Nr(t.css), t.css in rq.throttled))
  }

  function UnthrottleCpu(cpu: Cpu, g: Targets, hooked: bool, css: nat): Cpu {
    var rq := cpu.rq.(throttled := cpu.rq.throttled - {css});
    Cpu(rq, if !hooked then cpu.bpf else UnthrottleHook(cpu.bpf, g, css, rq.Nr(css)))
  }

  function Step(s: State, e: Event): State
    requires Enabled(s, e)
  {
    match e
    case Switch(c, next, blocks, throttles, now, view) =>
      s.(cpus := s.cpus[c := SwitchCpu(s.cpus[c], view, c < MAX_CPUS, next, blocks, throttles, now)])
    case Wakeup(on, c, task, runnable, throttles, view) =>
      // A task that wakes itself is not new work.
      var hooked := on < MAX_CPUS && c < MAX_CPUS && runnable && s.cpus[on].rq.curr != Some(task);
      s.(cpus := s.cpus[c := WakeupCpu(s.cpus[c], view, hooked, task, throttles)])
    case Migrate(c, dst, task, runnable, throttles, view) =>
      if !runnable then s
      else
        var left := MigrateCpu(s.cpus[c], view, c < MAX_CPUS && dst < MAX_CPUS, task);
        // The hook leaves the bits of the destination alone.
        var joined := s.cpus[dst].(rq := Enqueue(s.cpus[dst].rq, task, throttles));
        s.(cpus := s.cpus[c := left][dst := joined])
    case Unthrottle(on, c, css, returned, view) =>
      if !returned then s
      else s.(cpus := s.cpus[c := UnthrottleCpu(s.cpus[c], view, on < MAX_CPUS && c < MAX_CPUS, css)])
    case StartPublish => s.(stable := false)
    case Delete(css) => s.(live := s.live - {css})
    case Write(css, dense) => s.(live := s.live[css := dense])
    case FinishPublish => s.(g := Targets(s.g.epoch + 1, s.live), stable := true)
  }

  // ------------------------------------------------------------- invariants

  /** Why a bit may be set: before the first switch the hooks do not know that the
      running task is running. */
  ghost predicate Waits(rq: Rq, unseen: bool, css: nat) {
    && css < MAX_CSS_IDS && css !in rq.throttled
    && (rq.Waiting(css) != {} || (unseen && rq.Runs(css)))
  }

  /** Every member is an assigned slot, and except for `but` its cgroup waits. */
  ghost predicate BitsTrue(members: set<nat>, g: Targets, rq: Rq, unseen: bool, but: set<nat>) {
    && (forall d :: d in members ==> Assigned(g, d))
    && forall css :: css in g.dense && css !in but && g.dense[css] in members ==> Waits(rq, unseen, css)
  }

  ghost predicate Assigned(g: Targets, d: nat) {
    exists css :: css in g.dense && g.dense[css] == d
  }

  function RunningCode(b: Bpf, rq: Rq): nat {
    if b.previous != 0 && rq.curr.Some? && rq.curr.value.css < MAX_CSS_IDS then rq.curr.value.css + 1 else 0
  }

  /** What holds of a CPU whatever its hooks saw. */
  ghost predicate CpuBase(cpu: Cpu, g: Targets) {
    && cpu.rq.Valid()
    && cpu.bpf.bits.Fits()
    && cpu.bpf.epoch <= g.epoch
    && cpu.bpf.running == RunningCode(cpu.bpf, cpu.rq)
  }

  ghost predicate CpuInv(cpu: Cpu, g: Targets) {
    && CpuBase(cpu, g)
    && (cpu.bpf.epoch == g.epoch ==> BitsTrue(cpu.bpf.bits.Members(), g, cpu.rq, cpu.bpf.previous == 0, {}))
  }

  /** During a publication a hook may classify by the map of the next epoch and set a
      bit of the current one, so the bits are right only between publications. */
  ghost predicate CpuOk(cpu: Cpu, g: Targets, stable: bool) {
    CpuBase(cpu, g) && (stable ==> CpuInv(cpu, g))
  }

  ghost predicate Inv(s: State) {
    && OneOwner(s.g.dense)
    && forall c :: 0 <= c < |s.cpus| ==> CpuOk(s.cpus[c], s.g, s.stable)
  }

  /** The bitmap a hook works on is of the current epoch and true. */
  lemma EnsuredTrue(cpu: Cpu, g: Targets)
    requires CpuInv(cpu, g)
    ensures var b := Ensured(cpu.bpf, g.epoch);
            b.bits.Fits() && BitsTrue(b.bits.Members(), g, cpu.rq, cpu.bpf.previous == 0, {})
  {
    EmptyBitmapHasNoMembers();
  }

  lemma MarkTrue(b: Bpf, g: Targets, rq: Rq, unseen: bool, css: nat, waiting: bool, throttled: bool, but: set<nat>)
    requires b.bits.Fits() && OneOwner(g.dense)
    requires BitsTrue(b.bits.Members(), g, rq, unseen, but + {css})
    requires waiting && !throttled && css !in but ==> Waits(rq, unseen, css)
    ensures Mark(b, g, css, waiting, throttled).bits.Fits()
    ensures BitsTrue(Mark(b, g, css, waiting, throttled).bits.Members(), g, rq, unseen, but)
  {
    hide Waits;
    var before, after := b.bits.Members(), Mark(b, g, css, waiting, throttled).bits.Members();
    var d := Resolve(g, css);
    if d != NON_TARGET {
      hide Bitmap.Members;
      SetBitChangesOne(b.bits, d, waiting && !throttled);
      assert Assigned(g, d);
      forall x | x in g.dense && x !in but && g.dense[x] in after
        ensures Waits(rq, unseen, x)
      {
        if x != css {
          assert g.dense[x] in before;
        }
      }
    }
  }

  /** A member stays justified when its cgroup's own tasks did not change. */
  lemma OthersTrue(members: set<nat>, g: Targets, prior: Rq, rq: Rq, was: bool, unseen: bool, but: set<nat>)
    requires BitsTrue(members, g, prior, was, {})
    requires forall css: nat :: css !in but && Waits(prior, was, css) ==> Waits(rq, unseen, css)
    ensures BitsTrue(members, g, rq, unseen, but)
  {
  }

  /** The cgroup that a hook will mark, if any. */
  function Marked(css: Option<nat>): set<nat> {
    if css.Some? && css.value < MAX_CSS_IDS then {css.value} else {}
  }

  lemma SwitchRqValid(rq: Rq, next: Option<Task>, blocks: bool, throttles: bool)
    requires rq.Valid()
    requires var put := PutPrev(rq, blocks, throttles);
             next.Some? ==> next.value in put.queued && next.value.css !in put.throttled
    ensures PutPrev(rq, blocks, throttles).(curr := next).Valid()
  {
    SubsetCard(PutPrev(rq, blocks, throttles).queued, rq.queued);
  }

  /** Only the outgoing and the incoming cgroup can stop waiting in a switch. */
  lemma SwitchOthers(rq: Rq, next: Option<Task>, blocks: bool, throttles: bool, unseen: bool, css: nat)
    requires css !in Marked(CssOf(rq.curr)) + Marked(CssOf(next)) && Waits(rq, unseen, css)
    ensures Waits(PutPrev(rq, blocks, throttles).(curr := next), false, css)
  {
    assert PutPrev(rq, blocks, throttles).(curr := next).Waiting(css) == rq.Waiting(css);
  }

  lemma NrMeansWaiting(rq: Rq, css: nat)
    requires rq.Valid() && css < MAX_CSS_IDS && css !in rq.throttled
    requires rq.Nr(css) >= if rq.Runs(css) then 2 else 1
    ensures Waits(rq, false, css)
  {
    NrOfWaiting(rq, css);
  }

  lemma SwitchKeeps(cpu: Cpu, g: Targets, next: Option<Task>, blocks: bool, throttles: bool, now: nat)
    requires CpuInv(cpu, g) && OneOwner(g.dense) && now > 0
    requires var put := PutPrev(cpu.rq, blocks, throttles);
             next.Some? ==> next.value in put.queued && next.value.css !in put.throttled
    ensures CpuInv(SwitchCpu(cpu, g, true, next, blocks, throttles, now), g)
  {
    var rq := PutPrev(cpu.rq, blocks, throttles).(curr := next);
    SwitchRqValid(cpu.rq, next, blocks, throttles);
    EnsuredTrue(cpu, g);
    var b1 := Ensured(cpu.bpf, g.epoch).(previous := now);
    var p, n := CssOf(cpu.rq.curr), CssOf(next);
    assert BitsTrue(b1.bits.Members(), g, rq, false, Marked(n) + Marked(p)) by {
      forall css: nat | css !in Marked(n) + Marked(p) && Waits(cpu.rq, cpu.bpf.previous == 0, css)
        ensures Waits(rq, false, css)
      {
        SwitchOthers(cpu.rq, next, blocks, throttles, cpu.bpf.previous == 0, css);
      }
      OthersTrue(b1.bits.Members(), g, cpu.rq, rq, cpu.bpf.previous == 0, false, Marked(n) + Marked(p));
    }
    SwitchMarks(b1, g, rq, now, p, n);
  }

  /** The bits after the outgoing cgroup is marked. */
  function OutMarked(b: Bpf, g: Targets, rq: Rq, p: Option<nat>): Bpf {
    if p.Some? && p.value < MAX_CSS_IDS then Mark(b, g, p.value, rq.Nr(p.value) >= 1, p.value in rq.throttled) else b
  }

  lemma OutMarkedTrue(b: Bpf, g: Targets, rq: Rq, p: Option<nat>, next: set<nat>)
    requires rq.Valid() && OneOwner(g.dense) && b.bits.Fits() && next == Marked(CssOf(rq.curr))
    requires BitsTrue(b.bits.Members(), g, rq, false, next + Marked(p))
    ensures var r := OutMarked(b, g, rq, p);
            && r == b.(bits := r.bits) && r.bits.Fits()
            && BitsTrue(r.bits.Members(), g, rq, false, next)
  {
    hide Bitmap.Members, BitsTrue, Mark, OneOwner;
    if Marked(p) != {} {
      if rq.Nr(p.value) >= 1 && p.value !in rq.throttled && p.value !in next {
        NrMeansWaiting(rq, p.value);
      }
      MarkTrue(b, g, rq, false, p.value, rq.Nr(p.value) >= 1, p.value in rq.throttled, next);
      MarkKeepsRest(b, g, p.value, rq.Nr(p.value) >= 1, p.value in rq.throttled);
    } else {
      assert next + Marked(p) == next;
    }
  }

  lemma SwitchMarks(b: Bpf, g: Targets, rq: Rq, now: nat, p: Option<nat>, n: Option<nat>)
    requires rq.Valid() && OneOwner(g.dense) && b.bits.Fits() && b.epoch == g.epoch && b.previous == now > 0
    requires n == CssOf(rq.curr)
    requires BitsTrue(b.bits.Members(), g, rq, false, Marked(n) + Marked(p))
    ensures CpuInv(Cpu(rq, SwitchHook(b, g, now,
                                      p, if p.Some? then rq.Nr(p.value) else 0, p.Some? && p.value in rq.throttled,
                                      n, if n.Some? then rq.Nr(n.value) else 0)), g)
  {
    hide Bitmap.Members, BitsTrue, Mark, OneOwner;
    OutMarkedTrue(b, g, rq, p, Marked(n));
    var b3 := OutMarked(b, g, rq, p).(running := 0);
    if Marked(n) != {} {
      assert {} + {n.value} == Marked(n);
      if rq.Nr(n.value) >= 2 {
        NrMeansWaiting(rq, n.value);
      }
      MarkTrue(b3, g, rq, false, n.value, rq.Nr(n.value) >= 2, false, {});
      MarkKeepsRest(b3, g, n.value, rq.Nr(n.value) >= 2, false);
    }
  }

  lemma MarkKeepsRest(b: Bpf, g: Targets, css: nat, waiting: bool, throttled: bool)
    ensures Mark(b, g, css, waiting, throttled) == b.(bits := Mark(b, g, css, waiting, throttled).bits)
  {
  }

  lemma EnqueueOthers(rq: Rq, t: Task, throttles: bool, unseen: bool, css: nat)
    requires rq.Valid() && MayEnqueue(rq, t, throttles) && Waits(rq, unseen, css)
    ensures Waits(Enqueue(rq, t, throttles), unseen, css)
  {
    var after := Enqueue(rq, t, throttles);
    if rq.Waiting(css) != {} {
      var x :| x in rq.Waiting(css);
      assert x in after.Waiting(css) && x in rq.Of(css);
    } else {
      assert rq.curr.value in rq.Of(css);
    }
  }

  /** Work that arrives without its hook never falsifies a bit. */
  lemma EnqueueKeeps(cpu: Cpu, g: Targets, t: Task, throttles: bool)
    requires CpuInv(cpu, g) && MayEnqueue(cpu.rq, t, throttles)
    ensures CpuInv(cpu.(rq := Enqueue(cpu.rq, t, throttles)), g)
  {
    EnqueueValid(cpu.rq, t, throttles);
    if cpu.bpf.epoch == g.epoch {
      var unseen := cpu.bpf.previous == 0;
      forall css: nat | Waits(cpu.rq, unseen, css)
        ensures Waits(Enqueue(cpu.rq, t, throttles), unseen, css)
      {
        EnqueueOthers(cpu.rq, t, throttles, unseen, css);
      }
      OthersTrue(cpu.bpf.bits.Members(), g, cpu.rq, Enqueue(cpu.rq, t, throttles), unseen, unseen, {});
    }
  }

  lemma EnqueueValid(rq: Rq, t: Task, throttles: bool)
    requires rq.Valid() && MayEnqueue(rq, t, throttles)
    ensures Enqueue(rq, t, throttles).Valid()
  {
    if rq.Runs(t.css) {
      assert rq.curr.value in rq.Of(t.css);
    }
  }

  /** With the running code right, the hooks count exactly the waiting tasks. */
  lemma WaitingNrIsExact(b: Bpf, rq: Rq, css: nat)
    requires rq.Valid() && css < MAX_CSS_IDS && b.running == RunningCode(b, rq)
    ensures WaitingNr(b, css, rq.Nr(css)) >= 1 <==> rq.Waiting(css) != {} || (b.previous == 0 && rq.Runs(css))
  {
    NrOfWaiting(rq, css);
  }

  /** A hook that recounts one cgroup of a runqueue in which all others are right. */
  lemma RecountKeeps(b: Bpf, g: Targets, rq: Rq, css: nat, waiting: bool)
    requires rq.Valid() && OneOwner(g.dense) && b.bits.Fits() && b.epoch == g.epoch
    requires b.running == RunningCode(b, rq)
    requires BitsTrue(b.bits.Members(), g, rq, b.previous == 0, {css})
    requires waiting && css !in rq.throttled ==> Waits(rq, b.previous == 0, css)
    ensures CpuInv(Cpu(rq, Mark(b, g, css, waiting, css in rq.throttled)), g)
  {
    hide Bitmap.Members, BitsTrue, Mark, OneOwner, Waits;
    assert {} + {css} == {css};
    MarkTrue(b, g, rq, b.previous == 0, css, waiting, css in rq.throttled, {});
    MarkKeepsRest(b, g, css, waiting, css in rq.throttled);
  }

  lemma RecountAfter(cpu: Cpu, g: Targets, rq: Rq, unseen: bool, css: nat, waiting: bool)
    requires CpuInv(cpu, g) && OneOwner(g.dense) && rq.Valid() && rq.curr == cpu.rq.curr
    requires unseen == (cpu.bpf.previous == 0)
    requires forall x: nat :: x != css && Waits(cpu.rq, unseen, x) ==> Waits(rq, unseen, x)
    requires waiting && css !in rq.throttled ==> Waits(rq, unseen, css)
    ensures CpuInv(Cpu(rq, Mark(Ensured(cpu.bpf, g.epoch), g, css, waiting, css in rq.throttled)), g)
  {
    hide Waits, BitsTrue, Bitmap.Members, Mark, OneOwner;
    EnsuredTrue(cpu, g);
    var b := Ensured(cpu.bpf, g.epoch);
    OthersTrue(b.bits.Members(), g, cpu.rq, rq, unseen, unseen, {css});
    RecountKeeps(b, g, rq, css, waiting);
  }

  lemma WakeupKeeps(cpu: Cpu, g: Targets, hooked: bool, t: Task, throttles: bool)
    requires CpuInv(cpu, g) && OneOwner(g.dense) && MayEnqueue(cpu.rq, t, throttles)
    ensures CpuInv(WakeupCpu(cpu, g, hooked, t, throttles), g)
  {
    EnqueueKeeps(cpu, g, t, throttles);
    if hooked && t.css < MAX_CSS_IDS {
      var after := cpu.(rq := Enqueue(cpu.rq, t, throttles));
      var b := Ensured(cpu.bpf, g.epoch);
      WaitingNrIsExact(b, after.rq, t.css);
      assert t in after.rq.Of(t.css);
      RecountAfter(after, g, after.rq, b.previous == 0, t.css, WaitingNr(b, t.css, after.rq.Nr(t.css)) >= 1);
    }
  }

  /** A migration takes away work of its own cgroup only. */
  lemma LeaveOthers(rq: Rq, t: Task, unseen: bool, css: nat)
    requires css != t.css && Waits(rq, unseen, css)
    ensures Waits(rq.(queued := rq.queued - {t}), unseen, css)
  {
    assert rq.(queued := rq.queued - {t}).Waiting(css) == rq.Waiting(css);
  }

  lemma UnmarkedLeaves(cpu: Cpu, g: Targets, t: Task)
    requires CpuInv(cpu, g) && t.css >= MAX_CSS_IDS && cpu.rq.curr != Some(t)
    ensures CpuInv(cpu.(rq := cpu.rq.(queued := cpu.rq.queued - {t})), g)
  {
    var rq, unseen := cpu.rq.(queued := cpu.rq.queued - {t}), cpu.bpf.previous == 0;
    SubsetCard(rq.queued, cpu.rq.queued);
    forall css: nat | Waits(cpu.rq, unseen, css)
      ensures Waits(rq, unseen, css)
    {
      LeaveOthers(cpu.rq, t, unseen, css);
    }
  }

  lemma MigrateKeeps(cpu: Cpu, g: Targets, t: Task)
    requires CpuInv(cpu, g) && OneOwner(g.dense) && cpu.rq.curr != Some(t)
    ensures CpuInv(MigrateCpu(cpu, g, true, t), g)
  {
    if t.css >= MAX_CSS_IDS {
      UnmarkedLeaves(cpu, g, t);
    } else {
      var rq, unseen := cpu.rq.(queued := cpu.rq.queued - {t}), cpu.bpf.previous == 0;
      SubsetCard(rq.queued, cpu.rq.queued);
      var b := Ensured(cpu.bpf, g.epoch);
      WaitingNrIsExact(b, rq, t.css);
      forall css: nat | css != t.css && Waits(cpu.rq, unseen, css)
        ensures Waits(rq, unseen, css)
      {
        LeaveOthers(cpu.rq, t, unseen, css);
      }
      RecountAfter(cpu, g, rq, unseen, t.css, WaitingNr(b, t.css, rq.Nr(t.css)) >= 1);
    }
  }

  lemma UnthrottleKeeps(cpu: Cpu, g: Targets, hooked: bool, css: nat)
    requires CpuInv(cpu, g) && OneOwner(g.dense) && css in cpu.rq.throttled
    ensures CpuInv(UnthrottleCpu(cpu, g, hooked, css), g)
  {
    var rq, unseen := cpu.rq.(throttled := cpu.rq.throttled - {css}), cpu.bpf.previous == 0;
    assert forall x: nat :: rq.Waiting(x) == cpu.rq.Waiting(x);
    if hooked && css < MAX_CSS_IDS {
      NrOfWaiting(rq, css);
      RecountAfter(cpu, g, rq, unseen, css, rq.Nr(css) >= 1);
    }
  }

  // -------------------------------------------------- hooks and publications

  lemma MarkFits(b: Bpf, g: Targets, css: nat, waiting: bool, throttled: bool)
    requires b.bits.Fits()
    ensures Mark(b, g, css, waiting, throttled).bits.Fits()
    ensures Mark(b, g, css, waiting, throttled) == b.(bits := Mark(b, g, css, waiting, throttled).bits)
  {
    if Resolve(g, css) != NON_TARGET {
      SetBitFits(b.bits, Resolve(g, css), waiting && !throttled);
    }
  }

  /** A hook with any view leaves a bitmap of the epoch that it read. */
  lemma RecountBase(b: Bpf, g: Targets, view: Targets, rq: Rq, css: nat, waiting: bool, throttled: bool)
    requires rq.Valid() && b.bits.Fits() && b.running == RunningCode(b, rq) && view.epoch <= g.epoch
    ensures var after := Mark(Ensured(b, view.epoch), view, css, waiting, throttled);
            CpuBase(Cpu(rq, after), g) && after.epoch == view.epoch
  {
    hide Mark;
    MarkFits(Ensured(b, view.epoch), view, css, waiting, throttled);
  }

  lemma SwitchBase(cpu: Cpu, g: Targets, view: Targets, next: Option<Task>, blocks: bool, throttles: bool, now: nat)
    requires CpuBase(cpu, g) && view.epoch <= g.epoch && now > 0
    requires var put := PutPrev(cpu.rq, blocks, throttles);
             next.Some? ==> next.value in put.queued && next.value.css !in put.throttled
    ensures var after := SwitchCpu(cpu, view, true, next, blocks, throttles, now);
            CpuBase(after, g) && after.bpf.epoch == view.epoch
  {
    hide Mark;
    SwitchRqValid(cpu.rq, next, blocks, throttles);
    var rq := PutPrev(cpu.rq, blocks, throttles).(curr := next);
    var b := Ensured(cpu.bpf, view.epoch).(previous := now);
    var p, n := CssOf(cpu.rq.curr), CssOf(next);
    if p.Some? && p.value < MAX_CSS_IDS {
      MarkFits(b, view, p.value, rq.Nr(p.value) >= 1, p.value in rq.throttled);
      b := Mark(b, view, p.value, rq.Nr(p.value) >= 1, p.value in rq.throttled);
    }
    if n.Some? && n.value < MAX_CSS_IDS {
      MarkFits(b.(running := 0), view, n.value, rq.Nr(n.value) >= 2, false);
    }
  }

  lemma SwitchOk(s: State, e: Event)
    requires Inv(s) && e.Switch? && Enabled(s, e)
    ensures CpuOk(SwitchCpu(s.cpus[e.cpu], e.view, true, e.next, e.blocks, e.throttles, e.now), s.g, s.stable)
  {
    hide CpuBase, OneOwner, SwitchCpu;
    var cpu := s.cpus[e.cpu];
    assert CpuOk(cpu, s.g, s.stable);
    SwitchBase(cpu, s.g, e.view, e.next, e.blocks, e.throttles, e.now);
    if Quiet(s, e.view) {
      SwitchKeeps(cpu, s.g, e.next, e.blocks, e.throttles, e.now);
    }
  }

  lemma EnqueueOk(cpu: Cpu, g: Targets, stable: bool, t: Task, throttles: bool)
    requires CpuOk(cpu, g, stable) && MayEnqueue(cpu.rq, t, throttles)
    ensures CpuOk(cpu.(rq := Enqueue(cpu.rq, t, throttles)), g, stable)
  {
    hide BitsTrue, MayEnqueue;
    EnqueueValid(cpu.rq, t, throttles);
    if stable {
      EnqueueKeeps(cpu, g, t, throttles);
    }
  }

  lemma WakeupOk(s: State, c: nat, view: Targets, hooked: bool, t: Task, throttles: bool)
    requires Inv(s) && c < |s.cpus| && Sees(s, view) && MayEnqueue(s.cpus[c].rq, t, throttles)
    ensures CpuOk(WakeupCpu(s.cpus[c], view, hooked, t, throttles), s.g, s.stable)
  {
    hide BitsTrue, MayEnqueue, OneOwner, Mark, WaitingNr;
    var cpu := s.cpus[c];
    assert CpuOk(cpu, s.g, s.stable);
    if Quiet(s, view) {
      WakeupKeeps(cpu, s.g, hooked, t, throttles);
    } else {
      EnqueueOk(cpu, s.g, s.stable, t, throttles);
      var rq, b := Enqueue(cpu.rq, t, throttles), Ensured(cpu.bpf, view.epoch);
      if hooked && t.css < MAX_CSS_IDS {
        assert t in rq.Of(t.css);
        RecountBase(cpu.bpf, s.g, view, rq, t.css, WaitingNr(b, t.css, rq.Nr(t.css)) >= 1, t.css in rq.throttled);
      }
    }
  }

  lemma MigrateOk(s: State, c: nat, view: Targets, t: Task)
    requires Inv(s) && c < |s.cpus| && Sees(s, view) && s.cpus[c].rq.curr != Some(t)
    ensures CpuOk(MigrateCpu(s.cpus[c], view, true, t), s.g, s.stable)
  {
    hide BitsTrue, OneOwner, Mark, WaitingNr;
    var cpu := s.cpus[c];
    assert CpuOk(cpu, s.g, s.stable);
    var rq, b := cpu.rq.(queued := cpu.rq.queued - {t}), Ensured(cpu.bpf, view.epoch);
    SubsetCard(rq.queued, cpu.rq.queued);
    if Quiet(s, view) {
      MigrateKeeps(cpu, s.g, t);
    } else if t.css < MAX_CSS_IDS {
      RecountBase(cpu.bpf, s.g, view, rq, t.css, WaitingNr(b, t.css, rq.Nr(t.css)) >= 1, t.css in rq.throttled);
    } else if s.stable {
      UnmarkedLeaves(cpu, s.g, t);
    }
  }

  lemma UnthrottleOk(s: State, c: nat, view: Targets, hooked: bool, css: nat)
    requires Inv(s) && c < |s.cpus| && Sees(s, view) && css in s.cpus[c].rq.throttled
    ensures CpuOk(UnthrottleCpu(s.cpus[c], view, hooked, css), s.g, s.stable)
  {
    hide BitsTrue, OneOwner, Mark;
    var cpu := s.cpus[c];
    assert CpuOk(cpu, s.g, s.stable);
    var rq := cpu.rq.(throttled := cpu.rq.throttled - {css});
    if s.stable && (Quiet(s, view) || !hooked || css >= MAX_CSS_IDS) {
      UnthrottleKeeps(cpu, s.g, hooked, css);
    }
    if hooked && css < MAX_CSS_IDS {
      RecountBase(cpu.bpf, s.g, view, rq, css, rq.Nr(css) >= 1, false);
    }
  }

  /** The raised epoch is carried by no bitmap yet: whatever the hooks did while the
      map was rewritten is cleared before it is used. */
  lemma FinishKeeps(cpu: Cpu, g: Targets, next: Targets)
    requires CpuBase(cpu, g) && next.epoch > g.epoch
    ensures CpuInv(cpu, next)
  {
  }

  lemma PublicationKeeps(s: State, e: Event)
    requires Inv(s) && Enabled(s, e) && (e.StartPublish? || e.Delete? || e.Write? || e.FinishPublish?)
    ensures Inv(Step(s, e)) && |Step(s, e).cpus| == |s.cpus|
  {
    hide CpuBase, OneOwner, BitsTrue;
    var t := Step(s, e);
    forall c | 0 <= c < |s.cpus|
      ensures CpuOk(t.cpus[c], t.g, t.stable)
    {
      assert CpuOk(s.cpus[c], s.g, s.stable);
      if e.FinishPublish? {
        FinishKeeps(s.cpus[c], s.g, t.g);
      }
    }
  }

  lemma StepKeeps(s: State, e: Event)
    requires Inv(s) && Enabled(s, e) && |s.cpus| <= MAX_CPUS
    ensures Inv(Step(s, e)) && |Step(s, e).cpus| == |s.cpus|
  {
    hide CpuOk, OneOwner, SwitchCpu, WakeupCpu, MigrateCpu, UnthrottleCpu, MayEnqueue;
    match e
    case Switch(c, next, blocks, throttles, now, view) =>
      SwitchOk(s, e);
    case Wakeup(on, c, task, runnable, throttles, view) =>
      var hooked := on < MAX_CPUS && c < MAX_CPUS && runnable && s.cpus[on].rq.curr != Some(task);
      WakeupOk(s, c, view, hooked, task, throttles);
    case Migrate(c, dst, task, runnable, throttles, view) =>
      if runnable {
        MigrateOk(s, c, view, task);
        EnqueueOk(s.cpus[dst], s.g, s.stable, task, throttles);
      }
    case Unthrottle(on, c, css, returned, view) =>
      if returned {
        UnthrottleOk(s, c, view, on < MAX_CPUS && c < MAX_CPUS, css);
      }
    case _ =>
      PublicationKeeps(s, e);
  }

  // ------------------------------------------------------------------- runs

  ghost predicate Runs(s: State, events: seq<Event>)
    decreases |events|
  {
    events == [] || (Enabled(s, events[0]) && Runs(Step(s, events[0]), events[1..]))
  }

  ghost function After(s: State, events: seq<Event>): State
    requires Runs(s, events)
    decreases |events|
  {
    if events == [] then s else After(Step(s, events[0]), events[1..])
  }

  /** The hooks attach to zeroed state, with any runqueues, after the first
      publication. */
  ghost predicate Init(s: State) {
    && s.g.epoch >= 1 && OneOwner(s.g.dense) && s.live == s.g.dense && s.stable
    && forall c :: 0 <= c < |s.cpus| ==> s.cpus[c].rq.Valid() && s.cpus[c].bpf == ZEROED
  }

  lemma {:induction false} RunKeeps(s: State, events: seq<Event>)
    requires Inv(s) && Runs(s, events) && |s.cpus| <= MAX_CPUS
    ensures Inv(After(s, events)) && |After(s, events).cpus| == |s.cpus|
    decreases |events|
  {
    if events != [] {
      StepKeeps(s, events[0]);
      RunKeeps(Step(s, events[0]), events[1..]);
    }
  }

  lemma InitInv(s: State)
    requires Init(s)
    ensures Inv(s)
  {
  }

  /** The bit of a target on a CPU, when the CPU's bitmap is of the current epoch. */
  ghost predicate BitSet(s: State, c: nat, css: nat)
    requires c < |s.cpus|
  {
    && s.cpus[c].bpf.epoch == s.g.epoch
    && css in s.g.dense && s.g.dense[css] in s.cpus[c].bpf.bits.Members()
  }

  ghost predicate ReallyWaits(rq: Rq, css: nat) {
    css !in rq.throttled && rq.Waiting(css) != {}
  }

  /** Between publications, from a CPU's first observed switch on, a set bit means
      that the target has a runnable, unthrottled task there that is not running. */
  lemma SetBitsAreTrue(s: State, events: seq<Event>, c: nat, css: nat)
    requires Init(s) && Runs(s, events) && c < |s.cpus| <= MAX_CPUS
    ensures |After(s, events).cpus| == |s.cpus|
    ensures var t := After(s, events);
            t.stable && t.cpus[c].bpf.previous != 0 && BitSet(t, c, css) ==> ReallyWaits(t.cpus[c].rq, css)
  {
    InitInv(s);
    RunKeeps(s, events);
    var t := After(s, events);
    assert CpuOk(t.cpus[c], t.g, t.stable);
  }

  lemma MarkExact(b: Bpf, g: Targets, css: nat, waiting: bool, throttled: bool)
    requires b.bits.Fits() && OneOwner(g.dense)
    ensures Mark(b, g, css, waiting, throttled).bits.Fits()
    ensures Resolve(g, css) != NON_TARGET ==>
              (Resolve(g, css) in Mark(b, g, css, waiting, throttled).bits.Members() <==> waiting && !throttled)
    ensures forall x :: x != css && Resolve(g, x) != NON_TARGET ==>
              (Resolve(g, x) in Mark(b, g, css, waiting, throttled).bits.Members()
               <==> Resolve(g, x) in b.bits.Members())
  {
    if Resolve(g, css) != NON_TARGET {
      hide Bitmap.Members;
      SetBitChangesOne(b.bits, Resolve(g, css), waiting && !throttled);
    }
  }

  /** Right after a switch between publications the bits of the outgoing and the
      incoming target are exact. */
  lemma SwitchIsExact(s: State, events: seq<Event>, e: Event, css: nat)
    requires Init(s) && Runs(s, events) && |s.cpus| <= MAX_CPUS
    requires e.Switch? && Enabled(After(s, events), e) && Quiet(After(s, events), e.view)
    requires CssOf(After(s, events).cpus[e.cpu].rq.curr) == Some(css) || CssOf(e.next) == Some(css)
    requires css < MAX_CSS_IDS && Resolve(After(s, events).g, css) != NON_TARGET
    ensures var t := Step(After(s, events), e);
            BitSet(t, e.cpu, css) <==> ReallyWaits(t.cpus[e.cpu].rq, css)
  {
    InitInv(s);
    RunKeeps(s, events);
    var before := After(s, events);
    assert CpuOk(before.cpus[e.cpu], before.g, before.stable);
    SwitchExact(before.cpus[e.cpu], before.g, e.next, e.blocks, e.throttles, e.now, css);
  }

  lemma SwitchExact(cpu: Cpu, g: Targets, next: Option<Task>, blocks: bool, throttles: bool, now: nat, css: nat)
    requires CpuInv(cpu, g) && OneOwner(g.dense)
    requires var put := PutPrev(cpu.rq, blocks, throttles);
             next.Some? ==> next.value in put.queued && next.value.css !in put.throttled
    requires CssOf(cpu.rq.curr) == Some(css) || CssOf(next) == Some(css)
    requires css < MAX_CSS_IDS && Resolve(g, css) != NON_TARGET
    ensures var t := SwitchCpu(cpu, g, true, next, blocks, throttles, now);
            && t.bpf.epoch == g.epoch
            && (Resolve(g, css) in t.bpf.bits.Members() <==> ReallyWaits(t.rq, css))
  {
    hide Bitmap.Members, Mark, OneOwner, Resolve;
    var rq := PutPrev(cpu.rq, blocks, throttles).(curr := next);
    SwitchRqValid(cpu.rq, next, blocks, throttles);
    EnsuredTrue(cpu, g);
    NrOfWaiting(rq, css);
    var b1 := Ensured(cpu.bpf, g.epoch).(previous := now);
    var p, n := CssOf(cpu.rq.curr), CssOf(next);
    var b2 := b1;
    if p.Some? && p.value < MAX_CSS_IDS {
      MarkExact(b1, g, p.value, rq.Nr(p.value) >= 1, p.value in rq.throttled);
      b2 := Mark(b1, g, p.value, rq.Nr(p.value) >= 1, p.value in rq.throttled);
      MarkKeepsRest(b1, g, p.value, rq.Nr(p.value) >= 1, p.value in rq.throttled);
    }
    var b3 := b2.(running := 0);
    if n.Some? && n.value < MAX_CSS_IDS {
      MarkExact(b3, g, n.value, rq.Nr(n.value) >= 2, false);
      MarkKeepsRest(b3, g, n.value, rq.Nr(n.value) >= 2, false);
    }
  }

  /** The cgroup that a wakeup, migration or unthrottle recounts, on the CPU whose
      runqueue it recounts, when its hook runs to the end. */
  function Recounted(e: Event): nat
    requires e.Wakeup? || e.Migrate? || e.Unthrottle?
  {
    if e.Unthrottle? then e.css else e.task.css
  }

  predicate Observed(s: State, e: Event)
    requires Enabled(s, e)
  {
    match e
    case Wakeup(on, c, task, runnable, _, _) => runnable && s.cpus[on].rq.curr != Some(task)
    case Migrate(_, _, _, runnable, _, _) => runnable
    case Unthrottle(_, _, _, returned, _) => returned
    case _ => false
  }

  lemma RecountExact(cpu: Cpu, g: Targets, rq: Rq, css: nat, waiting: bool)
    requires CpuInv(cpu, g) && OneOwner(g.dense) && Resolve(g, css) != NON_TARGET
    ensures var b := Mark(Ensured(cpu.bpf, g.epoch), g, css, waiting, css in rq.throttled);
            && b.epoch == g.epoch && b.previous == cpu.bpf.previous
            && (Resolve(g, css) in b.bits.Members() <==> waiting && css !in rq.throttled)
  {
    hide Bitmap.Members, Mark, OneOwner, Resolve;
    EnsuredTrue(cpu, g);
    MarkExact(Ensured(cpu.bpf, g.epoch), g, css, waiting, css in rq.throttled);
    MarkKeepsRest(Ensured(cpu.bpf, g.epoch), g, css, waiting, css in rq.throttled);
  }

  /** Every other hook leaves its own target exact too: the bit says whether a task
      of the cgroup waits, where before a CPU's first switch its unseen running task
      also counts. */
  lemma HooksAreExact(s: State, events: seq<Event>, e: Event)
    requires Init(s) && Runs(s, events) && |s.cpus| <= MAX_CPUS
    requires Enabled(After(s, events), e) && Observed(After(s, events), e) && Quiet(After(s, events), e.view)
    requires Recounted(e) < MAX_CSS_IDS && Resolve(After(s, events).g, Recounted(e)) != NON_TARGET
    ensures var t := Step(After(s, events), e);
            var cpu := t.cpus[e.cpu];
            BitSet(t, e.cpu, Recounted(e)) <==> Waits(cpu.rq, cpu.bpf.previous == 0, Recounted(e))
  {
    InitInv(s);
    RunKeeps(s, events);
    var before := After(s, events);
    var cpu, g, css := before.cpus[e.cpu], before.g, Recounted(e);
    assert CpuOk(cpu, g, before.stable);
    hide Runs, After, Init, OneOwner, Resolve, Mark, Bitmap.Members;
    match e
    case Wakeup(_, _, task, _, throttles, _) => WakeupExact(cpu, g, task, throttles);
    case Migrate(_, _, task, _, _, _) => MigrateExact(cpu, g, task);
    case Unthrottle(_, _, _, _, _) => UnthrottleExact(cpu, g, css);
  }

  ghost predicate ExactFor(cpu: Cpu, g: Targets, css: nat) {
    && cpu.bpf.epoch == g.epoch
    && (Resolve(g, css) in cpu.bpf.bits.Members() <==> Waits(cpu.rq, cpu.bpf.previous == 0, css))
  }

  lemma WakeupExact(cpu: Cpu, g: Targets, t: Task, throttles: bool)
    requires CpuInv(cpu, g) && OneOwner(g.dense) && MayEnqueue(cpu.rq, t, throttles)
    requires t.css < MAX_CSS_IDS && Resolve(g, t.css) != NON_TARGET
    ensures ExactFor(WakeupCpu(cpu, g, true, t, throttles), g, t.css)
  {
    var rq, b := Enqueue(cpu.rq, t, throttles), Ensured(cpu.bpf, g.epoch);
    EnqueueValid(cpu.rq, t, throttles);
    WaitingNrIsExact(b, rq, t.css);
    assert t in rq.Of(t.css);
    RecountExact(cpu, g, rq, t.css, WaitingNr(b, t.css, rq.Nr(t.css)) >= 1);
  }

  lemma MigrateExact(cpu: Cpu, g: Targets, t: Task)
    requires CpuInv(cpu, g) && OneOwner(g.dense) && cpu.rq.curr != Some(t)
    requires t.css < MAX_CSS_IDS && Resolve(g, t.css) != NON_TARGET
    ensures ExactFor(MigrateCpu(cpu, g, true, t), g, t.css)
  {
    var rq, b := cpu.rq.(queued := cpu.rq.queued - {t}), Ensured(cpu.bpf, g.epoch);
    SubsetCard(rq.queued, cpu.rq.queued);
    WaitingNrIsExact(b, rq, t.css);
    RecountExact(cpu, g, rq, t.css, WaitingNr(b, t.css, rq.Nr(t.css)) >= 1);
  }

  lemma UnthrottleExact(cpu: Cpu, g: Targets, css: nat)
    requires CpuInv(cpu, g) && OneOwner(g.dense) && css in cpu.rq.throttled
    requires css < MAX_CSS_IDS && Resolve(g, css) != NON_TARGET
    ensures ExactFor(UnthrottleCpu(cpu, g, true, css), g, css)
  {
    var rq := cpu.rq.(throttled := cpu.rq.throttled - {css});
    NrOfWaiting(rq, css);
    RecountExact(cpu, g, rq, css, rq.Nr(css) >= 1);
  }
}
