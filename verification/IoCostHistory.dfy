/** What a run of IOCOST probes did, told from its events: the admissions, the identity
    remembered for each cgroup, the claims and the settlements. */
module IoCostHistory {
  import opened Options
  import opened IoCost
  import opened IoCostClaims

  lemma RunNext(events: seq<Event>)
    requires events != []
    ensures Inv(Run(events[..|events| - 1]).l)
    ensures Run(events) == Step(Run(events[..|events| - 1]), events[|events| - 1])
  {
    hide Good, Inv, Step;
    InitialGood();
    GoodInv(Run(events[..|events| - 1]));
  }

  lemma EmptyRun()
    ensures Run([]) == INITIAL
  {
  }

  /** What a claim does to the ledger: nothing, a failure, or the move of the sample
      into the frame of the CPU. */
  lemma ClaimShape(s: State, e: Event)
    requires Inv(s.l) && e.WakeEntry?
    ensures var t := ClaimStep(s, e);
            || t.l == s.l || t.l == Unhealthy(s.l)
            || (&& e.bio in s.l.pending && s.l.pending[e.bio] < |s.l.places| == |s.l.log|
                && e.cpu in t.l.frames
                && var key := t.l.frames[e.cpu].key;
                   && t.l == Claimed(s.l, e.bio, e.cpu, e.now, key)
                   && key.operation == s.l.log[s.l.pending[e.bio]].operation
                   && (if e.iocg in s.owners then key.identity == s.owners[e.iocg]
                       else e.identity == Some(key.identity)))
  {
    if e.bio in s.l.pending {
      PendingLogged(s.l, e.bio);
    }
    hide Inv, EnsureRow;
  }

  /** The admission probe ran to its end. */
  predicate Admits(s: State, e: Event) {
    e.Admit? && s.l.healthy && e.bio != 0 && e.insertOk
  }

  lemma StepLog(s: State, e: Event)
    requires Inv(s.l)
    ensures Step(s, e).l.log == s.l.log + if Admits(s, e) then [Admission(e.bio, e.now, e.operation)] else []
  {
    hide Inv, WakeReturnStep, WakeEntryStep;
    match e
    case WakeEntry(_, _, _, _, _, _, _, _) => EntryLog(s, e);
    case WakeReturn(c, ret, restoreOk) =>
      if c in s.l.frames {
        ReturnEffect(s, c, ret, restoreOk);
      } else {
        IdleReturn(s, c, ret, restoreOk);
      }
    case Admit(bio, _, _, _) => SupersedingKeeps(s.l, bio);
    case _ =>
  }

  lemma EntryLog(s: State, e: Event)
    requires Inv(s.l) && e.WakeEntry?
    ensures WakeEntryStep(s, e).l.log == s.l.log
  {
    ClearedKeeps(s.l, e.cpu, MissedReturn);
    var t := s.(l := Cleared(s.l, e.cpu, MissedReturn));
    hide Inv, ClaimStep;
    ClaimShape(t, e);
  }

  /** The admissions of a run, told from its events: one for each admission probe that
      found the session healthy, its bio readable and room in the map, with the bio,
      the time and the operation of the probe. */
  ghost function Admissions(events: seq<Event>): seq<Admission> {
    if events == [] then []
    else
      var n := |events| - 1;
      var e := events[n];
      Admissions(events[..n])
      + if Admits(Run(events[..n]), e) then [Admission(e.bio, e.now, e.operation)] else []
  }

  /** The log is exactly the admissions of the run, in order. */
  lemma {:induction false} LogIsAdmissions(events: seq<Event>)
    ensures Run(events).l.log == Admissions(events)
    decreases |events|
  {
    hide Good, Inv, Step, Admits;
    EmptyRun();
    if events != [] {
      RunNext(events);
      LogIsAdmissions(events[..|events| - 1]);
      StepLog(Run(events[..|events| - 1]), events[|events| - 1]);
    }
  }

  predicate Frees(e: Event, iocg: nat) {
    e.PdFree? && e.iocg == iocg && e.deleteOk
  }

  /** A wake entry of this iocg read this identity, and the iocg was not freed since. */
  ghost predicate ReadSince(events: seq<Event>, iocg: nat, identity: Identity) {
    exists i :: 0 <= i < |events| && ReadAt(events, i, iocg, identity)
  }

  ghost predicate ReadAt(events: seq<Event>, i: nat, iocg: nat, identity: Identity)
    requires i < |events|
  {
    && events[i].WakeEntry? && events[i].iocg == iocg && events[i].identity == Some(identity)
    && forall j :: i < j < |events| ==> !Frees(events[j], iocg)
  }

  lemma StepOwner(s: State, e: Event, iocg: nat)
    requires Inv(s.l) && iocg in Step(s, e).owners
    ensures var owner := Step(s, e).owners[iocg];
            || (iocg in s.owners && s.owners[iocg] == owner && !Frees(e, iocg))
            || (e.WakeEntry? && e.iocg == iocg && e.identity == Some(owner))
  {
    hide Inv, Claimed;
    match e
    case WakeEntry(_, _, _, _, _, _, _, _) => EntryOwner(s, e, iocg);
    case _ =>
  }

  lemma EntryOwner(s: State, e: Event, iocg: nat)
    requires Inv(s.l) && e.WakeEntry? && iocg in WakeEntryStep(s, e).owners
    ensures var owner := WakeEntryStep(s, e).owners[iocg];
            || (iocg in s.owners && s.owners[iocg] == owner)
            || (e.iocg == iocg && e.identity == Some(owner))
  {
    ClearedKeeps(s.l, e.cpu, MissedReturn);
    hide Inv, Claimed;
  }

  /** Every cached owner of a reachable state is the cgroup and disk that some wake
      entry of that iocg read, with no free of the iocg since. */
  lemma {:induction false} OwnersAreRead(events: seq<Event>, iocg: nat)
    requires iocg in Run(events).owners
    ensures ReadSince(events, iocg, Run(events).owners[iocg])
    decreases |events|
  {
    hide Good, Inv, Step, Frees;
    EmptyRun();
    if events != [] {
      var n := |events| - 1;
      RunNext(events);
      StepOwner(Run(events[..n]), events[n], iocg);
      var owner := Run(events).owners[iocg];
      if events[n].WakeEntry? && events[n].iocg == iocg && events[n].identity == Some(owner) {
        assert ReadAt(events, n, iocg, owner);
      } else {
        OwnersAreRead(events[..n], iocg);
        var i :| 0 <= i < n && ReadAt(events[..n], i, iocg, owner);
        ReadStays(events, i, iocg, owner);
      }
    }
  }

  lemma ReadStays(events: seq<Event>, i: nat, iocg: nat, owner: Identity)
    requires i < |events| - 1 && ReadAt(events[..|events| - 1], i, iocg, owner)
    requires !Frees(events[|events| - 1], iocg)
    ensures ReadAt(events, i, iocg, owner)
  {
    forall j | i < j < |events|
      ensures !Frees(events[j], iocg)
    {
      assert j < |events| - 1 ==> events[..|events| - 1][j] == events[j];
    }
  }

  /** This wake entry claims this admission on this CPU, at this time, for the cgroup
      and disk known for its iocg or read by it. */
  ghost predicate ClaimedNow(s: State, e: Event, cpu: nat, held: Held) {
    && e.WakeEntry? && e.cpu == cpu && e.now == held.end
    && e.bio in s.l.pending && s.l.pending[e.bio] == held.id < |s.l.log|
    && held.key.operation == s.l.log[held.id].operation
    && (if e.iocg in s.owners then held.key.identity == s.owners[e.iocg] else e.identity == Some(held.key.identity))
  }

  /** No wake probe ran on the CPU after the event at `i`. */
  ghost predicate QuietSince(events: seq<Event>, i: nat, cpu: nat) {
    forall j :: i < j < |events| ==> !OnCpu(events[j], cpu)
  }

  lemma QuietStays(events: seq<Event>, i: nat, cpu: nat)
    requires events != [] && QuietSince(events[..|events| - 1], i, cpu) && !OnCpu(events[|events| - 1], cpu)
    ensures QuietSince(events, i, cpu)
  {
    hide OnCpu;
    var n := |events| - 1;
    forall j | i < j < |events|
      ensures !OnCpu(events[j], cpu)
    {
      assert j < n ==> events[..n][j] == events[j];
    }
  }

  /** The event at `i` made this claim, and no wake probe of the CPU came since. */
  ghost predicate ClaimedAt(events: seq<Event>, i: nat, cpu: nat, held: Held)
    requires i < |events|
  {
    ClaimedNow(Run(events[..i]), events[i], cpu, held) && QuietSince(events, i, cpu)
  }

  lemma StepFrame(s: State, e: Event, cpu: nat)
    requires Inv(s.l) && cpu in Step(s, e).l.frames
    ensures var held := Step(s, e).l.frames[cpu];
            (cpu in s.l.frames && s.l.frames[cpu] == held && !OnCpu(e, cpu)) || ClaimedNow(s, e, cpu, held)
  {
    hide Inv, WakeReturnStep, WakeEntryStep, ClaimedNow;
    match e
    case WakeEntry(_, _, _, _, _, _, _, _) => EntryClaims(s, e, cpu);
    case WakeReturn(c, ret, restoreOk) =>
      if c in s.l.frames {
        ReturnEffect(s, c, ret, restoreOk);
      } else {
        IdleReturn(s, c, ret, restoreOk);
      }
    case _ =>
  }

  lemma EntryClaims(s: State, e: Event, cpu: nat)
    requires Inv(s.l) && e.WakeEntry? && cpu in WakeEntryStep(s, e).l.frames
    ensures var held := WakeEntryStep(s, e).l.frames[cpu];
            (cpu in s.l.frames && s.l.frames[cpu] == held && !OnCpu(e, cpu)) || ClaimedNow(s, e, cpu, held)
  {
    ClearedKeeps(s.l, e.cpu, MissedReturn);
    var t := s.(l := Cleared(s.l, e.cpu, MissedReturn));
    hide Inv, ClaimStep;
    ClaimShape(t, e);
  }

  /** Whatever a frame holds was claimed by the last wake probe of its CPU. */
  lemma {:induction false} FramesAreClaims(events: seq<Event>, cpu: nat)
    requires cpu in Run(events).l.frames
    ensures exists i :: 0 <= i < |events| && ClaimedAt(events, i, cpu, Run(events).l.frames[cpu])
    decreases |events|
  {
    hide Good, Inv, Step, ClaimedAt, ClaimedNow, OnCpu;
    EmptyRun();
    if events != [] {
      var n, held := |events| - 1, Run(events).l.frames[cpu];
      RunNext(events);
      StepFrame(Run(events[..n]), events[n], cpu);
      if ClaimedNow(Run(events[..n]), events[n], cpu, held) {
        ClaimedLast(events, cpu, held);
      } else {
        FramesAreClaims(events[..n], cpu);
        var i :| 0 <= i < n && ClaimedAt(events[..n], i, cpu, held);
        ClaimStays(events, i, cpu, held);
      }
    }
  }

  lemma ClaimedLast(events: seq<Event>, cpu: nat, held: Held)
    requires events != [] && ClaimedNow(Run(events[..|events| - 1]), events[|events| - 1], cpu, held)
    ensures ClaimedAt(events, |events| - 1, cpu, held)
  {
    hide Run, ClaimedNow;
  }

  lemma ClaimStays(events: seq<Event>, i: nat, cpu: nat, held: Held)
    requires i < |events| - 1 && ClaimedAt(events[..|events| - 1], i, cpu, held)
    requires !OnCpu(events[|events| - 1], cpu)
    ensures ClaimedAt(events, i, cpu, held)
  {
    hide Run, OnCpu, ClaimedNow, QuietSince;
    QuietStays(events, i, cpu);
    assert events[..|events| - 1][..i] == events[..i];
  }

  /** The settlement is of the claim that the last wake probe of its CPU made before the
      successful return at `j`. */
  ghost predicate SettledAt(events: seq<Event>, i: nat, j: nat, x: Settlement)
    requires i < j < |events|
  {
    && events[j].WakeReturn? && events[j].cpu == x.cpu && events[j].ret == 0
    && ClaimedAt(events[..j], i, x.cpu, Held(x.id, x.end, x.key))
  }

  lemma StepSettles(s: State, e: Event)
    requires Inv(s.l)
    ensures var t := Step(s, e);
            || t.l.settled == s.l.settled
            || (&& e.WakeReturn? && e.ret == 0 && e.cpu in s.l.frames
                && |t.l.settled| == |s.l.settled| + 1 && t.l.settled[..|s.l.settled|] == s.l.settled
                && var x, held := t.l.settled[|s.l.settled|], s.l.frames[e.cpu];
                   x.id == held.id && x.end == held.end && x.key == held.key && x.cpu == e.cpu)
  {
    hide Inv, WakeReturnStep, WakeEntryStep;
    match e
    case WakeEntry(_, _, _, _, _, _, _, _) => EntrySettles(s, e);
    case WakeReturn(c, ret, restoreOk) => ReturnSettled(s, c, ret, restoreOk);
    case Admit(bio, _, _, _) => SupersedingKeeps(s.l, bio);
    case _ =>
  }

  lemma EntrySettles(s: State, e: Event)
    requires Inv(s.l) && e.WakeEntry?
    ensures WakeEntryStep(s, e).l.settled == s.l.settled
  {
    ClearedKeeps(s.l, e.cpu, MissedReturn);
    var t := s.(l := Cleared(s.l, e.cpu, MissedReturn));
    hide Inv, ClaimStep;
    ClaimShape(t, e);
  }

  lemma ReturnSettled(s: State, c: nat, ret: int, restoreOk: bool)
    requires Inv(s.l)
    ensures var t := WakeReturnStep(s, c, ret, restoreOk);
            || t.l.settled == s.l.settled
            || (&& ret == 0 && c in s.l.frames
                && |t.l.settled| == |s.l.settled| + 1 && t.l.settled[..|s.l.settled|] == s.l.settled
                && var x, held := t.l.settled[|s.l.settled|], s.l.frames[c];
                   x.id == held.id && x.end == held.end && x.key == held.key && x.cpu == c)
  {
    if c in s.l.frames {
      FrameLogged(s.l, c);
    }
    hide Inv;
  }

  /** Every settlement of a run goes back to a claim and the first wake probe of its CPU
      after it, a successful return: it carries the admission that was pending under
      the claimed bio, the time of the claim, the operation of the admission and the
      cgroup and disk of the claim's iocg. */
  lemma {:induction false} SettlementsAreClaims(events: seq<Event>, k: nat)
    requires k < |Run(events).l.settled|
    ensures exists i, j :: 0 <= i < j < |events| && SettledAt(events, i, j, Run(events).l.settled[k])
    decreases |events|
  {
    hide Good, Inv, Step, ClaimedAt, SettledAt;
    EmptyRun();
    if events != [] {
      var n, x := |events| - 1, Run(events).l.settled[k];
      var before := Run(events[..n]);
      RunNext(events);
      StepSettles(before, events[n]);
      if k < |before.l.settled| {
        SettlementsAreClaims(events[..n], k);
        assert before.l.settled[k] == x;
        var i, j :| 0 <= i < j < n && SettledAt(events[..n], i, j, x);
        SettledStays(events, i, j, x);
      } else {
        FramesAreClaims(events[..n], x.cpu);
        var i :| 0 <= i < n && ClaimedAt(events[..n], i, x.cpu, before.l.frames[x.cpu]);
        SettledLast(events, i, x, before.l.frames[x.cpu]);
      }
    }
  }

  lemma SettledStays(events: seq<Event>, i: nat, j: nat, x: Settlement)
    requires events != [] && i < j < |events| - 1 && SettledAt(events[..|events| - 1], i, j, x)
    ensures SettledAt(events, i, j, x)
  {
    hide ClaimedAt;
    assert events[..|events| - 1][..j] == events[..j];
  }

  lemma SettledLast(events: seq<Event>, i: nat, x: Settlement, held: Held)
    requires events != [] && i < |events| - 1 && ClaimedAt(events[..|events| - 1], i, x.cpu, held)
    requires var e := events[|events| - 1]; e.WakeReturn? && e.cpu == x.cpu && e.ret == 0
    requires x.id == held.id && x.end == held.end && x.key == held.key
    ensures SettledAt(events, i, |events| - 1, x)
  {
    hide ClaimedAt;
  }
}
