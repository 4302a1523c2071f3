/** A wake entry claims a sample and a later return settles it or puts it back, whatever
    other CPUs do in between. */
module IoCostClaims {
  import opened Options
  import opened IoCost

  /** The step is a wake probe on this CPU. */
  predicate OnCpu(e: Event, cpu: nat) {
    (e.WakeEntry? || e.WakeReturn?) && e.cpu == cpu
  }

  /** No wake probe of this CPU, whatever else happens. */
  ghost predicate OffCpu(middle: seq<Event>, cpu: nat) {
    forall e :: e in middle ==> !OnCpu(e, cpu)
  }

  /** Nothing another CPU does changes this CPU's frame or rewrites the log. */
  ghost predicate FrameSame(s: State, t: State, cpu: nat)
    requires cpu in s.l.frames
  {
    cpu in t.l.frames && t.l.frames[cpu] == s.l.frames[cpu] && s.l.log <= t.l.log
  }

  lemma ReturnFrame(s: State, c: nat, ret: int, restoreOk: bool, cpu: nat)
    requires Inv(s.l) && cpu in s.l.frames && c != cpu
    ensures FrameSame(s, WakeReturnStep(s, c, ret, restoreOk), cpu)
  {
    hide Inv, WakeReturnStep;
    if c in s.l.frames {
      ReturnEffect(s, c, ret, restoreOk);
    } else {
      IdleReturn(s, c, ret, restoreOk);
    }
  }

  lemma EntryFrame(s: State, e: Event, cpu: nat)
    requires Inv(s.l) && cpu in s.l.frames && e.WakeEntry? && e.cpu != cpu
    ensures FrameSame(s, WakeEntryStep(s, e), cpu)
  {
    ClearedKeeps(s.l, e.cpu, MissedReturn);
    var t := s.(l := Cleared(s.l, e.cpu, MissedReturn));
    hide Inv, ClaimStep;
    ClaimFrame(t, e, cpu);
  }

  lemma ClaimFrame(s: State, e: Event, cpu: nat)
    requires Inv(s.l) && cpu in s.l.frames && e.WakeEntry? && e.cpu != cpu
    ensures FrameSame(s, ClaimStep(s, e), cpu)
  {
    hide Inv;
  }

  lemma FrameKept(s: State, e: Event, cpu: nat)
    requires Inv(s.l) && cpu in s.l.frames && !OnCpu(e, cpu)
    ensures FrameSame(s, Step(s, e), cpu)
  {
    hide Inv, WakeReturnStep, WakeEntryStep;
    match e
    case WakeEntry(_, _, _, _, _, _, _, _) => EntryFrame(s, e, cpu);
    case WakeReturn(c, ret, restoreOk) => ReturnFrame(s, c, ret, restoreOk, cpu);
    case _ =>
  }

  lemma OffCpuPrefix(middle: seq<Event>, cpu: nat)
    requires OffCpu(middle, cpu) && middle != []
    ensures OffCpu(middle[..|middle| - 1], cpu) && !OnCpu(middle[|middle| - 1], cpu)
  {
    hide OnCpu;
  }

  lemma {:induction false} FrameKeptOverRun(s: State, middle: seq<Event>, cpu: nat)
    requires Good(s) && cpu in s.l.frames && OffCpu(middle, cpu)
    ensures FrameSame(s, RunFrom(s, middle), cpu)
    decreases |middle|
  {
    hide Good, Inv, Step, OffCpu, OnCpu;
    if middle != [] {
      var before, last := RunFrom(s, middle[..|middle| - 1]), middle[|middle| - 1];
      OffCpuPrefix(middle, cpu);
      FrameKeptOverRun(s, middle[..|middle| - 1], cpu);
      GoodInv(before);
      FrameKept(before, last, cpu);
    }
  }

  /** Only reclaiming its identity drops a row. */
  lemma RowKept(s: State, e: Event, key: Key)
    requires Inv(s.l) && key in s.rows && e != Reclaim(key.identity)
    ensures key in Step(s, e).rows
  {
    hide Inv, WakeReturnStep, WakeEntryStep;
    match e
    case WakeEntry(_, _, _, _, _, _, _, _) => EntryRow(s, e, key);
    case WakeReturn(c, ret, restoreOk) =>
      if c in s.l.frames {
        ReturnEffect(s, c, ret, restoreOk);
      } else {
        IdleReturn(s, c, ret, restoreOk);
      }
    case _ =>
  }

  lemma EntryRow(s: State, e: Event, key: Key)
    requires Inv(s.l) && key in s.rows && e.WakeEntry?
    ensures key in WakeEntryStep(s, e).rows
  {
    ClearedKeeps(s.l, e.cpu, MissedReturn);
    var t := s.(l := Cleared(s.l, e.cpu, MissedReturn));
    hide Inv, ClaimStep;
    ClaimRow(t, e, key);
  }

  lemma ClaimRow(s: State, e: Event, key: Key)
    requires Inv(s.l) && key in s.rows && e.WakeEntry?
    ensures key in ClaimStep(s, e).rows
  {
    hide Inv, Claimed;
  }

  lemma {:induction false} RowKeptOverRun(s: State, middle: seq<Event>, key: Key)
    requires Good(s) && key in s.rows && Reclaim(key.identity) !in middle
    ensures key in RunFrom(s, middle).rows
    decreases |middle|
  {
    hide Good, Inv, Step;
    if middle != [] {
      var before, last := RunFrom(s, middle[..|middle| - 1]), middle[|middle| - 1];
      assert last in middle;
      RowKeptOverRun(s, middle[..|middle| - 1], key);
      GoodInv(before);
      RowKept(before, last, key);
    }
  }

  /** The wake entry that takes ownership of `bio`'s sample. */
  ghost predicate Claims(s: State, e: Event) {
    && Good(s) && e.WakeEntry? && s.l.healthy && e.bio != 0 && e.bio in s.l.pending
    && 0 < s.l.log[s.l.pending[e.bio]].start <= e.now
    && (e.iocg in s.owners || (e.ownerOk && e.identity.Some?)) && e.rowOk && e.deleteOk
  }

  /** The row that the claim is for: the cgroup and disk known for the iocg, or else
      those that the probe read, and the operation of the admission. */
  ghost function ClaimedKey(s: State, e: Event): Key
    requires Claims(s, e)
  {
    Key(if e.iocg in s.owners then s.owners[e.iocg] else e.identity.value, s.l.log[s.l.pending[e.bio]].operation)
  }

  lemma ClaimEffect(s: State, e: Event)
    requires Claims(s, e)
    ensures var t := Step(s, e);
            && e.cpu in t.l.frames && t.l.frames[e.cpu] == Held(s.l.pending[e.bio], e.now, ClaimedKey(s, e))
            && t.l.pending == s.l.pending - {e.bio} && t.l.log == s.l.log
            && ClaimedKey(s, e) in t.rows
            && t.l.frames - {e.cpu} == s.l.frames - {e.cpu}
  {
    hide Good, Inv, ClaimStep;
    GoodInv(s);
    PendingLogged(s.l, e.bio);
    if e.cpu in s.l.frames {
      FrameLogged(s.l, e.cpu);
    }
    ClearedKeeps(s.l, e.cpu, MissedReturn);
    ClaimStepEffect(s.(l := Cleared(s.l, e.cpu, MissedReturn)), e);
  }

  lemma ClaimStepEffect(s: State, e: Event)
    requires Inv(s.l) && e.WakeEntry? && s.l.healthy && e.bio != 0 && e.bio in s.l.pending && e.rowOk && e.deleteOk
    requires s.l.log[s.l.pending[e.bio]].start > 0 && OwnerOf(s, e.iocg, e.identity, e.ownerOk).Some?
    ensures var key := Key(OwnerOf(s, e.iocg, e.identity, e.ownerOk).value, s.l.log[s.l.pending[e.bio]].operation);
            && ClaimStep(s, e).l == Claimed(s.l, e.bio, e.cpu, e.now, key)
            && key in ClaimStep(s, e).rows
  {
    hide Inv, Claimed;
  }

  lemma ReturnSettles(s: State, cpu: nat, restoreOk: bool)
    requires Inv(s.l) && cpu in s.l.frames && s.l.frames[cpu].key in s.rows
    requires s.l.frames[cpu].end >= s.l.log[s.l.frames[cpu].id].start
    ensures WakeReturnStep(s, cpu, 0, restoreOk) == Settles(s, cpu)
  {
    hide Inv, Settles;
  }

  lemma ReturnDrops(s: State, cpu: nat, restoreOk: bool)
    requires Inv(s.l) && cpu in s.l.frames && s.l.frames[cpu].key !in s.rows
    ensures WakeReturnStep(s, cpu, 0, restoreOk) == s.(l := Cleared(s.l, cpu, RowGone))
  {
    hide Inv, Cleared;
  }

  lemma SettleAfter(s: State, cpu: nat, restoreOk: bool)
    requires Inv(s.l) && cpu in s.l.frames && s.l.frames[cpu].end >= s.l.log[s.l.frames[cpu].id].start
    ensures var t := Step(s, WakeReturn(cpu, 0, restoreOk));
            var held := s.l.frames[cpu];
            && t.l.settled == s.l.settled
                 + (if held.key in s.rows
                    then [Settlement(held.id, cpu, held.key, held.end, held.end - s.l.log[held.id].start)] else [])
            && t.l.pending == s.l.pending && t.l.healthy == s.l.healthy
            && t.l.frames == s.l.frames - {cpu}
  {
    hide Inv, WakeReturnStep;
    FrameLogged(s.l, cpu);
    if s.l.frames[cpu].key in s.rows {
      ReturnSettles(s, cpu, restoreOk);
    } else {
      ReturnDrops(s, cpu, restoreOk);
    }
  }

  /** A successful return settles the claimed admission with exactly its own wait,
      whatever other CPUs did meanwhile — including admitting the same bio again —
      and leaves every pending sample alone.  It counts nothing exactly when the row is
      gone, which only a reclaim of its identity can cause. */
  lemma ClaimThenSettle(s: State, e: Event, middle: seq<Event>, restoreOk: bool)
    requires Claims(s, e) && OffCpu(middle, e.cpu)
    ensures Good(Step(s, e))
    ensures var before := RunFrom(Step(s, e), middle);
            var after := Step(before, WakeReturn(e.cpu, 0, restoreOk));
            var id, key := s.l.pending[e.bio], ClaimedKey(s, e);
            && after.l.settled == before.l.settled
                 + (if key in before.rows
                    then [Settlement(id, e.cpu, key, e.now, e.now - s.l.log[id].start)] else [])
            && after.l.pending == before.l.pending && after.l.healthy == before.l.healthy
            && after.l.frames == before.l.frames - {e.cpu}
            && (Reclaim(key.identity) !in middle ==> key in before.rows)
  {
    hide Good, Inv, RunFrom, ClaimedKey, Step, OffCpu;
    GoodInv(s);
    var id := s.l.pending[e.bio];
    PendingLogged(s.l, e.bio);
    StepKeeps(s, e);
    ClaimEffect(s, e);
    FrameKeptOverRun(Step(s, e), middle, e.cpu);
    if Reclaim(ClaimedKey(s, e).identity) !in middle {
      RowKeptOverRun(Step(s, e), middle, ClaimedKey(s, e));
    }
    var before := RunFrom(Step(s, e), middle);
    GoodInv(before);
    assert before.l.log[id] == s.l.log[id];
    SettleAfter(before, e.cpu, restoreOk);
  }

  lemma ReturnRestores(s: State, cpu: nat)
    requires Inv(s.l) && cpu in s.l.frames
    ensures WakeReturnStep(s, cpu, -1, true)
         == s.(l := if s.l.log[s.l.frames[cpu].id].bio in s.l.pending then Cleared(Unhealthy(s.l), cpu, Faulted)
                    else Restored(s.l, cpu))
  {
    hide Inv, Cleared, Restored;
  }

  /** The sample is pending again, under its own admission. */
  ghost predicate Restores(before: State, after: State, bio: nat, id: nat) {
    && after.l.pending == before.l.pending[bio := id]
    && after.l.settled == before.l.settled && after.l.log == before.l.log && after.l.healthy == before.l.healthy
  }

  lemma RestoreAfter(s: State, cpu: nat)
    requires Inv(s.l) && cpu in s.l.frames
    ensures var id := s.l.frames[cpu].id;
            var t := Step(s, WakeReturn(cpu, -1, true));
            && id < |s.l.log|
            && (Restores(s, t, s.l.log[id].bio, id) <==> s.l.log[id].bio !in s.l.pending)
            && (s.l.log[id].bio in s.l.pending ==> t.l.pending == s.l.pending && !t.l.healthy)
  {
    FrameLogged(s.l, cpu);
    if s.l.log[s.l.frames[cpu].id].bio in s.l.pending {
      HeldIsNotPending(s.l, cpu);
    }
    hide Inv, WakeReturnStep;
    ReturnRestores(s, cpu);
  }

  lemma HeldIsNotPending(l: Ledger, cpu: nat)
    requires Inv(l) && cpu in l.frames
    ensures forall b :: b in l.pending ==> l.pending[b] != l.frames[cpu].id
  {
  }

  /** A -1 return makes the very sample that the entry claimed pending again if and only
      if the bio has no other pending sample by then; otherwise the session fails and
      no pending sample changes. */
  lemma RestoresIffAbsent(s: State, e: Event, middle: seq<Event>)
    requires Claims(s, e) && OffCpu(middle, e.cpu)
    ensures Good(Step(s, e))
    ensures var before := RunFrom(Step(s, e), middle);
            var after := Step(before, WakeReturn(e.cpu, -1, true));
            && (Restores(before, after, e.bio, s.l.pending[e.bio]) <==> e.bio !in before.l.pending)
            && (e.bio in before.l.pending ==> after.l.pending == before.l.pending && !after.l.healthy)
  {
    hide Good, Inv, RunFrom, ClaimedKey, Step, OffCpu, Restores;
    GoodInv(s);
    BioLogged(s.l, e.bio);
    StepKeeps(s, e);
    ClaimEffect(s, e);
    FrameKeptOverRun(Step(s, e), middle, e.cpu);
    var before := RunFrom(Step(s, e), middle);
    GoodInv(before);
    assert before.l.log[s.l.pending[e.bio]] == s.l.log[s.l.pending[e.bio]];
    RestoreAfter(before, e.cpu);
  }

  // --------------------------------------------------- what queues a bio again

  /** The step puts a sample of this bio into the pending map: it admits the bio, or a
      -1 return ends a frame that holds the bio. */
  ghost predicate Queues(s: State, e: Event, bio: nat) {
    || (e.Admit? && e.bio == bio)
    || (&& e.WakeReturn? && e.ret == -1 && e.cpu in s.l.frames && s.l.frames[e.cpu].id < |s.l.log|
        && s.l.log[s.l.frames[e.cpu].id].bio == bio)
  }

  /** Only a -1 return adds to the pending map, and only its own bio. */
  lemma ReturnPending(s: State, c: nat, ret: int, restoreOk: bool)
    requires Inv(s.l) && c in s.l.frames && s.l.frames[c].id < |s.l.log|
    ensures var t := WakeReturnStep(s, c, ret, restoreOk);
            var id := s.l.frames[c].id;
            t.l.pending == s.l.pending || (ret == -1 && t.l.pending == s.l.pending[s.l.log[id].bio := id])
  {
    FrameLogged(s.l, c);
    hide Inv;
  }

  lemma ReturnQueues(s: State, c: nat, ret: int, restoreOk: bool, bio: nat)
    requires Inv(s.l) && bio !in s.l.pending && !Queues(s, WakeReturn(c, ret, restoreOk), bio)
    ensures bio !in WakeReturnStep(s, c, ret, restoreOk).l.pending
  {
    if c in s.l.frames {
      FrameLogged(s.l, c);
      hide Inv, WakeReturnStep;
      ReturnPending(s, c, ret, restoreOk);
    } else {
      IdleReturn(s, c, ret, restoreOk);
    }
  }

  lemma ClaimQueues(s: State, e: Event, bio: nat)
    requires Inv(s.l) && bio !in s.l.pending && e.WakeEntry?
    ensures bio !in ClaimStep(s, e).l.pending
  {
    hide Inv, OwnerOf, EnsureRow;
  }

  lemma EntryQueues(s: State, e: Event, bio: nat)
    requires Inv(s.l) && bio !in s.l.pending && e.WakeEntry?
    ensures bio !in WakeEntryStep(s, e).l.pending
  {
    ClearedKeeps(s.l, e.cpu, MissedReturn);
    var t := s.(l := Cleared(s.l, e.cpu, MissedReturn));
    hide Inv, ClaimStep;
    ClaimQueues(t, e, bio);
  }

  lemma StaysUnqueued(s: State, e: Event, bio: nat)
    requires Inv(s.l) && bio !in s.l.pending && !Queues(s, e, bio)
    ensures bio !in Step(s, e).l.pending
  {
    hide Inv, WakeReturnStep, WakeEntryStep;
    match e
    case WakeEntry(_, _, _, _, _, _, _, _) => EntryQueues(s, e, bio);
    case WakeReturn(c, ret, restoreOk) => ReturnQueues(s, c, ret, restoreOk, bio);
    case _ =>
  }

  /** No step of the run queues the bio. */
  ghost predicate Unqueued(s: State, middle: seq<Event>, bio: nat) {
    Good(s) && forall i :: 0 <= i < |middle| ==> !Queues(RunFrom(s, middle[..i]), middle[i], bio)
  }

  lemma UnqueuedPrefix(s: State, middle: seq<Event>, bio: nat)
    requires Unqueued(s, middle, bio) && middle != []
    ensures Unqueued(s, middle[..|middle| - 1], bio)
    ensures !Queues(RunFrom(s, middle[..|middle| - 1]), middle[|middle| - 1], bio)
  {
    hide Good, Queues, RunFrom;
    var n := |middle| - 1;
    forall i | 0 <= i < n
      ensures !Queues(RunFrom(s, middle[..n][..i]), middle[..n][i], bio)
    {
      assert middle[..n][..i] == middle[..i];
    }
  }

  lemma {:induction false} UnqueuedOverRun(s: State, middle: seq<Event>, bio: nat)
    requires Good(s) && bio !in s.l.pending && Unqueued(s, middle, bio)
    ensures bio !in RunFrom(s, middle).l.pending
    decreases |middle|
  {
    hide Good, Inv, Step, Unqueued, Queues;
    if middle != [] {
      UnqueuedPrefix(s, middle, bio);
      UnqueuedOverRun(s, middle[..|middle| - 1], bio);
      GoodInv(RunFrom(s, middle[..|middle| - 1]));
      StaysUnqueued(RunFrom(s, middle[..|middle| - 1]), middle[|middle| - 1], bio);
    }
  }

  /** A -1 return means that nothing was woken, so the bio was neither admitted nor
      restored meanwhile: the very sample that the entry claimed is pending again.
      Frames of other CPUs may still hold earlier samples of the bio. */
  lemma ClaimThenRestore(s: State, e: Event, middle: seq<Event>)
    requires Claims(s, e) && OffCpu(middle, e.cpu) && Unqueued(Step(s, e), middle, e.bio)
    ensures Good(Step(s, e))
    ensures var before := RunFrom(Step(s, e), middle);
            var after := Step(before, WakeReturn(e.cpu, -1, true));
            && e.bio !in before.l.pending && s.l.log <= after.l.log
            && Restores(before, after, e.bio, s.l.pending[e.bio])
  {
    hide Good, Inv, RunFrom, ClaimedKey, Step, OffCpu, Unqueued;
    GoodInv(s);
    StepKeeps(s, e);
    ClaimEffect(s, e);
    FrameKeptOverRun(Step(s, e), middle, e.cpu);
    UnqueuedOverRun(Step(s, e), middle, e.bio);
    RestoresIffAbsent(s, e, middle);
  }
}
