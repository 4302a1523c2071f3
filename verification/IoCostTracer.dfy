/** The IOCOST probes over their maps: what each one does to the pending map, the
    per-CPU wake frames, the owner cache and the packed counters. */
module IoCostTracer {
  import opened Options
  import opened WaitWord
  import opened IoCost

  datatype Sample = Sample(start: nat, operation: nat)

  /** A zero `bio` means the frame is idle. */
  datatype Frame = Frame(bio: nat, end: nat, pending: Sample, key: Key)

  const FAILURE: nat := 1

  type Counters = map<Key, map<nat, nat>>

  function CounterOf(counters: Counters, key: Key, cpu: nat): nat {
    if key in counters && cpu in counters[key] then counters[key][cpu] else 0
  }

  function Counted(counters: Counters, key: Key, cpu: nat, word: nat): Counters
    requires key in counters
  {
    var row: map<nat, nat> := counters[key];
    counters[key := row[cpu := word]]
  }

  // -------------------------------------------- maps against specification

  ghost predicate SampleOf(l: Ledger, id: nat, sample: Sample) {
    id < |l.log| && sample == Sample(l.log[id].start, l.log[id].operation)
  }

  ghost predicate LinkedPending(pending: map<nat, Sample>, l: Ledger) {
    && pending.Keys == l.pending.Keys
    && forall b :: b in l.pending ==> b != 0 && SampleOf(l, l.pending[b], pending[b])
  }

  ghost predicate FrameOf(f: Frame, l: Ledger, cpu: nat) {
    if cpu in l.frames then
      && SampleOf(l, l.frames[cpu].id, f.pending)
      && f.bio != 0 && f.bio == l.log[l.frames[cpu].id].bio
      && f.end == l.frames[cpu].end && f.key == l.frames[cpu].key
    else f.bio == 0
  }

  ghost predicate LinkedFrames(frames: seq<Frame>, l: Ledger) {
    && (forall c :: c in l.frames ==> c < |frames|)
    && forall c :: 0 <= c < |frames| ==> FrameOf(frames[c], l, c)
  }

  /** Each counter word is the packed fold of the waits its row was fed. */
  ghost predicate LinkedCounters(counters: Counters, rows: Rows) {
    && counters.Keys == rows.Keys
    && forall key, cpu :: key in rows ==> CounterOf(counters, key, cpu) == Fold(0, RowOf(rows, key, cpu))
  }

  lemma AdmitLinks(pending: map<nat, Sample>, frames: seq<Frame>, l: Ledger, a: Admission)
    requires Inv(l) && LinkedPending(pending, l) && LinkedFrames(frames, l) && a.bio != 0
    ensures LinkedPending(pending[a.bio := Sample(a.start, a.operation)], Admitted(l, a))
    ensures LinkedFrames(frames, Admitted(l, a))
  {
    hide Inv;
    AdmittedKeeps(l, a);
    var m := Admitted(l, a);
    assert l.log <= m.log && m.frames == l.frames;
    forall c | 0 <= c < |frames|
      ensures FrameOf(frames[c], m, c)
    {
      assert FrameOf(frames[c], l, c);
    }
    forall b | b in m.pending
      ensures b != 0 && SampleOf(m, m.pending[b], pending[a.bio := Sample(a.start, a.operation)][b])
    {
      assert b != a.bio ==> SampleOf(l, l.pending[b], pending[b]);
    }
  }

  lemma ClearLinks(pending: map<nat, Sample>, frames: seq<Frame>, l: Ledger, cpu: nat, reason: Reason)
    requires Inv(l) && LinkedPending(pending, l) && LinkedFrames(frames, l) && cpu < |frames|
    ensures LinkedPending(pending, Cleared(l, cpu, reason))
    ensures LinkedFrames(frames[cpu := frames[cpu].(bio := 0)], Cleared(l, cpu, reason))
  {
    if cpu in l.frames {
      FrameLogged(l, cpu);
    }
    hide Inv;
    var m, after := Cleared(l, cpu, reason), frames[cpu := frames[cpu].(bio := 0)];
    forall c | 0 <= c < |after|
      ensures FrameOf(after[c], m, c)
    {
      assert FrameOf(frames[c], l, c);
    }
    forall b | b in m.pending
      ensures b != 0 && SampleOf(m, m.pending[b], pending[b])
    {
      assert SampleOf(l, l.pending[b], pending[b]);
    }
  }

  lemma ClaimLinks(pending: map<nat, Sample>, frames: seq<Frame>, l: Ledger,
                   bio: nat, cpu: nat, end: nat, key: Key)
    requires Inv(l) && LinkedPending(pending, l) && LinkedFrames(frames, l)
    requires cpu < |frames| && cpu !in l.frames && bio in l.pending
    ensures l.pending[bio] < |l.places|
    ensures LinkedPending(pending - {bio}, Claimed(l, bio, cpu, end, key))
    ensures LinkedFrames(frames[cpu := Frame(bio, end, pending[bio], key)], Claimed(l, bio, cpu, end, key))
  {
    hide Inv, LinkedPending, LinkedFrames, SampleOf;
    BioLogged(l, bio);
    PendingLogged(l, bio);
    SameKeys(pending, l);
    SampleAt(pending, l, bio);
    ClaimFrames(frames, l, bio, cpu, Frame(bio, end, pending[bio], key));
    ClaimPending(pending, l, bio, cpu, end, key);
  }

  lemma ClaimFrames(frames: seq<Frame>, l: Ledger, bio: nat, cpu: nat, f: Frame)
    requires LinkedFrames(frames, l) && cpu < |frames|
    requires bio in l.pending && l.pending[bio] < |l.places| && SampleOf(l, l.pending[bio], f.pending)
    requires bio != 0 && f.bio == bio == l.log[l.pending[bio]].bio
    ensures LinkedFrames(frames[cpu := f], Claimed(l, bio, cpu, f.end, f.key))
  {
    var m, after := Claimed(l, bio, cpu, f.end, f.key), frames[cpu := f];
    forall c | 0 <= c < |after|
      ensures FrameOf(after[c], m, c)
    {
      assert FrameOf(frames[c], l, c);
    }
  }

  lemma ClaimPending(pending: map<nat, Sample>, l: Ledger, bio: nat, cpu: nat, end: nat, key: Key)
    requires LinkedPending(pending, l) && bio in l.pending && l.pending[bio] < |l.places|
    ensures LinkedPending(pending - {bio}, Claimed(l, bio, cpu, end, key))
  {
    var m := Claimed(l, bio, cpu, end, key);
    forall b | b in m.pending
      ensures b != 0 && SampleOf(m, m.pending[b], (pending - {bio})[b])
    {
      assert SampleOf(l, l.pending[b], pending[b]);
    }
  }

  lemma RestoreLinks(pending: map<nat, Sample>, frames: seq<Frame>, l: Ledger, cpu: nat)
    requires Inv(l) && LinkedPending(pending, l) && LinkedFrames(frames, l)
    requires cpu < |frames| && cpu in l.frames
    ensures l.frames[cpu].id < |l.places| == |l.log|
    ensures LinkedPending(pending[frames[cpu].bio := frames[cpu].pending], Restored(l, cpu))
    ensures LinkedFrames(frames[cpu := frames[cpu].(bio := 0)], Restored(l, cpu))
  {
    FrameLogged(l, cpu);
    hide Inv;
    var m, after := Restored(l, cpu), frames[cpu := frames[cpu].(bio := 0)];
    assert FrameOf(frames[cpu], l, cpu);
    forall c | 0 <= c < |after|
      ensures FrameOf(after[c], m, c)
    {
      assert FrameOf(frames[c], l, c);
    }
    forall b | b in m.pending
      ensures b != 0 && SampleOf(m, m.pending[b], pending[frames[cpu].bio := frames[cpu].pending][b])
    {
      assert b in l.pending ==> SampleOf(l, l.pending[b], pending[b]);
    }
  }

  lemma SettleLinks(pending: map<nat, Sample>, frames: seq<Frame>, l: Ledger, cpu: nat)
    requires Inv(l) && LinkedPending(pending, l) && LinkedFrames(frames, l)
    requires cpu < |frames| && cpu in l.frames && frames[cpu].end >= frames[cpu].pending.start
    ensures l.frames[cpu].id < |l.places| == |l.log| && l.frames[cpu].end >= l.log[l.frames[cpu].id].start
    ensures LinkedPending(pending, Settle(l, cpu))
    ensures LinkedFrames(frames[cpu := frames[cpu].(bio := 0)], Settle(l, cpu))
  {
    FrameLogged(l, cpu);
    hide Inv;
    assert FrameOf(frames[cpu], l, cpu);
    var m, after := Settle(l, cpu), frames[cpu := frames[cpu].(bio := 0)];
    forall c | 0 <= c < |after|
      ensures FrameOf(after[c], m, c)
    {
      assert FrameOf(frames[c], l, c);
    }
    forall b | b in m.pending
      ensures b != 0 && SampleOf(m, m.pending[b], pending[b])
    {
      assert SampleOf(l, l.pending[b], pending[b]);
    }
  }

  lemma FoldNext(waits: seq<nat>, wait: nat)
    ensures Fold(0, waits + [wait]) == WaitAdd(Fold(0, waits), wait)
  {
    assert (waits + [wait])[..|waits|] == waits;
  }

  lemma CountLinks(counters: Counters, rows: Rows, key: Key, cpu: nat, wait: nat)
    requires LinkedCounters(counters, rows) && key in rows
    ensures LinkedCounters(Counted(counters, key, cpu, WaitAdd(CounterOf(counters, key, cpu), wait)),
                           AppendWait(rows, key, cpu, wait))
  {
    hide WaitAdd, Fold;
    FoldNext(RowOf(rows, key, cpu), wait);
    var after := AppendWait(rows, key, cpu, wait);
    var words := Counted(counters, key, cpu, WaitAdd(CounterOf(counters, key, cpu), wait));
    forall k, c | k in after
      ensures CounterOf(words, k, c) == Fold(0, RowOf(after, k, c))
    {
      assert CounterOf(counters, k, c) == Fold(0, RowOf(rows, k, c));
    }
  }

  lemma EnsureLinks(counters: Counters, rows: Rows, key: Key)
    requires LinkedCounters(counters, rows)
    ensures LinkedCounters(if key in counters then counters else counters[key := map[]], EnsureRow(rows, key))
  {
    var after, words := EnsureRow(rows, key), if key in counters then counters else counters[key := map[]];
    forall k, c | k in after
      ensures CounterOf(words, k, c) == Fold(0, RowOf(after, k, c))
    {
      assert k in rows ==> CounterOf(counters, k, c) == Fold(0, RowOf(rows, k, c));
    }
  }

  // ------------------------------------------------------------- the probes

  class Tracer {
    /** Zero while healthy; never cleared. */
    var failure: nat
    var pending: map<nat, Sample>
    const frames: array<Frame>
    var owners: map<nat, Identity>
    var retired: set<Identity>
    var counters: Counters
    ghost var model: State

    constructor (cpus: nat)
      ensures Valid() && fresh(frames) && frames.Length == cpus && model == INITIAL
    {
      failure, pending, owners, retired, counters := 0, map[], map[], {}, map[];
      frames := new Frame[cpus](_ => Frame(0, 0, Sample(0, 0), Key(Identity(0, 0, 0, 0), 0)));
      model := INITIAL;
      new;
      InitialGood();
    }

    ghost predicate Valid()
      reads this, frames
    {
      Linked(failure, pending, frames[..], owners, retired, counters, model)
    }

    /** `kprobe_iocg_kick_waitq`, called from an enqueueing caller with a read or
        write bio at the tail of the wait queue. */
    method KickWaitq(bio: nat, now: nat, operation: nat, updateRet: int)
      requires Valid()
      modifies this`failure, this`pending, this`model
      ensures Valid() && Inv(old(model).l)
      ensures model == Step(old(model), Admit(bio, now, operation, updateRet == 0))
    {
      hide Good, LinkedPending, LinkedFrames, LinkedCounters, Inv;
      GoodInv(model);
      StepKeeps(model, Admit(bio, now, operation, updateRet == 0));
      AdmitStepEffect(model, bio, now, operation, updateRet == 0);
      if failure == 0 {
        if bio == 0 || updateRet != 0 {
          UnhealthyLinks(pending, frames[..], model.l);
          failure := FAILURE;
        } else {
          AdmitLinks(pending, frames[..], model.l, Admission(bio, now, operation));
          pending := pending[bio := Sample(now, operation)];
        }
      }
      model := Step(model, Admit(bio, now, operation, updateRet == 0));
    }

    /** `iocost_fail` */
    method Fail()
      requires Valid()
      modifies this`failure, this`model
      ensures Valid() && failure != 0 && model == IoCost.Fail(old(model))
    {
      hide Good, LinkedPending, LinkedFrames, LinkedCounters, Inv;
      GoodInv(model);
      FailKeeps(model);
      UnhealthyLinks(pending, frames[..], model.l);
      failure, model := FAILURE, IoCost.Fail(model);
    }

    /** `iocost_clear_wake_frame`; the specification also says why. */
    method ClearFrame(cpu: nat, ghost reason: Reason)
      requires Valid() && cpu < frames.Length && (reason == Faulted ==> failure != 0)
      modifies this`model, frames
      ensures Valid() && Inv(old(model).l) && cpu !in model.l.frames
      ensures model == old(model).(l := Cleared(old(model).l, cpu, reason))
      ensures frames[..] == old(frames[..])[cpu := old(frames[cpu]).(bio := 0)]
    {
      hide Good, LinkedPending, LinkedFrames, LinkedCounters, Inv;
      GoodInv(model);
      ClearLinks(pending, frames[..], model.l, cpu, reason);
      ClearedGood(model, cpu, reason);
      if cpu in model.l.frames {
        FrameLogged(model.l, cpu);
      }
      ghost var before := frames[..];
      frames[cpu] := frames[cpu].(bio := 0);
      assert frames[..] == before[cpu := before[cpu].(bio := 0)];
      model := model.(l := Cleared(model.l, cpu, reason));
    }

    /** Stores into a frame that is not published: nobody owns its sample yet. */
    method Prepare(cpu: nat, f: Frame)
      requires Valid() && cpu < frames.Length && cpu !in model.l.frames && f.bio == 0
      modifies frames
      ensures Valid() && frames[cpu] == f
    {
      hide Good, LinkedPending, LinkedFrames, LinkedCounters, Inv;
      IdleFrame(frames[..], model.l, cpu, f);
      ghost var before := frames[..];
      frames[cpu] := f;
      assert frames[..] == before[cpu := f];
    }

    /** `iocost_ensure_owner` */
    method EnsureOwner(iocg: nat, identity: Option<Identity>, ownerRet: int) returns (owner: Option<Identity>)
      requires Valid()
      modifies this`failure, this`owners, this`model
      ensures Valid() && owner == OwnerOf(old(model), iocg, identity, ownerRet == 0)
      ensures model == if owner.None? then IoCost.Fail(old(model))
                       else old(model).(owners := old(model).owners[iocg := owner.value])
    {
      hide Good, LinkedPending, LinkedFrames, LinkedCounters, Inv;
      if iocg in owners {
        assert model.owners == model.owners[iocg := model.owners[iocg]];
        return Some(owners[iocg]);
      }
      if identity.None? || ownerRet != 0 {
        Fail();
        return None;
      }
      RowKeeps(model, iocg, identity.value, 0);
      owners := owners[iocg := identity.value];
      model := model.(owners := owners);
      return identity;
    }

    /** `iocost_ensure_aggregate` */
    method EnsureAggregate(iocg: nat, key: Key, rowRet: int) returns (ok: bool)
      requires Valid() && iocg in owners && owners[iocg] == key.identity
      modifies this`failure, this`counters, this`model
      ensures Valid() && (ok <==> key in old(counters) || rowRet == 0)
      ensures model == if ok then old(model).(rows := EnsureRow(old(model).rows, key)) else IoCost.Fail(old(model))
    {
      hide Good, LinkedPending, LinkedFrames, LinkedCounters, Inv;
      CounterKeys(counters, model.rows);
      if key in counters {
        return true;
      }
      if rowRet != 0 {
        Fail();
        return false;
      }
      EnsureLinks(counters, model.rows, key);
      RowKeeps(model, iocg, key.identity, key.operation);
      assert model.owners[iocg := key.identity] == model.owners;
      counters := counters[key := map[]];
      model := model.(rows := EnsureRow(model.rows, key));
      return true;
    }

    /** Own the sample, then publish the frame: a nonzero bio means that the frame
        owns it. */
    method Claim(cpu: nat, bio: nat)
      requires Valid() && cpu < frames.Length && cpu !in model.l.frames && bio in pending
      requires frames[cpu].bio == 0 && frames[cpu].pending == pending[bio]
      modifies this`pending, this`model, frames
      ensures Valid() && Inv(old(model).l) && bio in old(model).l.pending
      ensures old(model).l.pending[bio] < |old(model).l.places|
      ensures model == old(model).(l := Claimed(old(model).l, bio, cpu, old(frames[cpu].end), old(frames[cpu].key)))
    {
      hide Good, LinkedPending, LinkedFrames, LinkedCounters, Inv;
      ghost var s, f := model, frames[cpu];
      GoodInv(s);
      SampleAt(pending, s.l, bio);
      PendingLogged(s.l, bio);
      ClaimLinks(pending, frames[..], s.l, bio, cpu, f.end, f.key);
      ClaimedGood(s, bio, cpu, f.end, f.key);
      ghost var before := frames[..];
      pending := pending - {bio};
      frames[cpu] := frames[cpu].(bio := bio);
      assert frames[..] == before[cpu := f.(bio := bio)];
      model := s.(l := Claimed(s.l, bio, cpu, f.end, f.key));
    }

    /** `kprobe_iocg_wake_fn` */
    method WakeEntry(cpu: nat, bio: nat, iocg: nat, now: nat, identity: Option<Identity>,
                     ownerRet: int, rowRet: int, deleteRet: int)
      requires Valid() && cpu < frames.Length
      modifies this, frames
      ensures Valid() && Inv(old(model).l)
      ensures model == Step(old(model), Event.WakeEntry(cpu, bio, iocg, now, identity,
                                                        ownerRet == 0, rowRet == 0, deleteRet == 0))
    {
      hide Good, LinkedPending, LinkedFrames, LinkedCounters, Inv, ClaimStep, OwnerOf;
      ghost var e := Event.WakeEntry(cpu, bio, iocg, now, identity, ownerRet == 0, rowRet == 0, deleteRet == 0);
      ClearFrame(cpu, MissedReturn);
      ghost var s := model;
      GoodInv(s);
      ClaimStepCases(s, e);
      SameKeys(pending, s.l);
      if failure != 0 {
        return;
      }
      if bio == 0 {
        Fail();
        return;
      }
      if bio !in pending {
        return;
      }
      SampleAt(pending, s.l, bio);
      var sample := pending[bio];
      if sample.start == 0 {
        Fail();
        return;
      }
      Prepare(cpu, Frame(0, now, sample, frames[cpu].key));
      var owner := EnsureOwner(iocg, identity, ownerRet);
      if owner.None? {
        return;
      }
      Prepare(cpu, Frame(0, now, sample, Key(owner.value, sample.operation)));
      CounterKeys(counters, s.rows);
      var ok := EnsureAggregate(iocg, frames[cpu].key, rowRet);
      if !ok {
        return;
      }
      if deleteRet != 0 {
        Fail();
        return;
      }
      Claim(cpu, bio);
    }

    /** `kretprobe_iocg_wake_fn` */
    method WakeReturn(cpu: nat, ret: int, updateRet: int)
      requires Valid() && cpu < frames.Length
      modifies this, frames
      ensures Valid() && Inv(old(model).l)
      ensures model == Step(old(model), Event.WakeReturn(cpu, ret, updateRet == 0))
    {
      hide Good, LinkedPending, LinkedFrames, LinkedCounters, Inv, WakeReturnStep;
      ghost var s := model;
      GoodInv(s);
      FrameAt(frames[..], s.l, cpu);
      ReturnCases(s, cpu, ret, updateRet == 0);
      SameKeys(pending, s.l);
      CounterKeys(counters, s.rows);
      var frame := frames[cpu];
      if frame.bio == 0 {
        return;
      }
      if ret == -1 {
        if frame.bio in pending || updateRet != 0 {
          Fail();
          ClearFrame(cpu, Faulted);
        } else {
          Restore(cpu);
        }
      } else if ret != 0 {
        Fail();
        ClearFrame(cpu, Faulted);
      } else if frame.key !in counters {
        ClearFrame(cpu, RowGone);
      } else if frame.end < frame.pending.start {
        Fail();
        ClearFrame(cpu, Faulted);
      } else {
        Count(cpu);
      }
    }

    method Restore(cpu: nat)
      requires Valid() && cpu < frames.Length && cpu in model.l.frames && frames[cpu].bio !in pending
      modifies this`pending, this`model, frames
      ensures Valid() && Inv(old(model).l)
      ensures old(model).l.frames[cpu].id < |old(model).l.places| == |old(model).l.log|
      ensures model == old(model).(l := Restored(old(model).l, cpu))
    {
      hide Good, LinkedPending, LinkedFrames, LinkedCounters, Inv;
      GoodInv(model);
      FrameLogged(model.l, cpu);
      FrameAt(frames[..], model.l, cpu);
      SameKeys(pending, model.l);
      RestoreLinks(pending, frames[..], model.l, cpu);
      RestoredGood(model, cpu);
      ghost var before := frames[..];
      pending := pending[frames[cpu].bio := frames[cpu].pending];
      frames[cpu] := frames[cpu].(bio := 0);
      assert frames[..] == before[cpu := before[cpu].(bio := 0)];
      model := model.(l := Restored(model.l, cpu));
    }

    /** The successful return: one packed store, then the frame is idle. */
    method Count(cpu: nat)
      requires Valid() && cpu < frames.Length && cpu in model.l.frames
      requires frames[cpu].key in counters && frames[cpu].end >= frames[cpu].pending.start
      modifies this`counters, this`model, frames
      ensures Valid() && Inv(old(model).l) && old(model).l.frames[cpu].key in old(model).rows
      ensures old(model).l.frames[cpu].end >= old(model).l.log[old(model).l.frames[cpu].id].start
      ensures model == Settles(old(model), cpu)
    {
      hide Good, LinkedPending, LinkedFrames, LinkedCounters, Inv;
      GoodInv(model);
      FrameLogged(model.l, cpu);
      FrameAt(frames[..], model.l, cpu);
      CounterKeys(counters, model.rows);
      SettleLinks(pending, frames[..], model.l, cpu);
      SettlesKeeps(model, cpu);
      var key, wait := frames[cpu].key, frames[cpu].end - frames[cpu].pending.start;
      CountLinks(counters, model.rows, key, cpu, wait);
      counters := Counted(counters, key, cpu, WaitAdd(CounterOf(counters, key, cpu), wait));
      ghost var before := frames[..];
      frames[cpu] := frames[cpu].(bio := 0);
      assert frames[..] == before[cpu := before[cpu].(bio := 0)];
      model := Settles(model, cpu);
    }

    /** The map operations of the free probe. */
    method FreeOwner(iocg: nat, retireRet: int, deleteRet: int)
      requires iocg in owners
      modifies this`failure, this`owners, this`retired
      ensures var unknown := old(owners)[iocg] !in old(retired);
              && retired == old(retired) + (if unknown && retireRet == 0 then {old(owners)[iocg]} else {})
              && owners == (if deleteRet == 0 then old(owners) - {iocg} else old(owners))
              && failure == if (unknown && retireRet != 0) || deleteRet != 0 then FAILURE else old(failure)
    {
      var owner := owners[iocg];
      if owner !in retired {
        if retireRet == 0 {
          retired := retired + {owner};
        } else {
          failure := FAILURE;
        }
      }
      if deleteRet == 0 {
        owners := owners - {iocg};
      } else {
        failure := FAILURE;
      }
    }

    /** `kprobe_ioc_pd_free` */
    method PdFree(iocg: nat, retireRet: int, deleteRet: int)
      requires Valid()
      modifies this`failure, this`owners, this`retired, this`model
      ensures Valid() && Inv(old(model).l)
      ensures model == Step(old(model), Event.PdFree(iocg, retireRet == 0, deleteRet == 0))
    {
      hide Linked, Inv, Step;
      LinkedFree(failure, pending, frames[..], owners, retired, counters, model, iocg, retireRet == 0, deleteRet == 0);
      if iocg in owners {
        FreeOwner(iocg, retireRet, deleteRet);
      }
      model := Step(model, Event.PdFree(iocg, retireRet == 0, deleteRet == 0));
    }
  }

  /** The maps and the failure word are those of the model. */
  ghost predicate Linked(failure: nat, pending: map<nat, Sample>, frames: seq<Frame>, owners: map<nat, Identity>,
                         retired: set<Identity>, counters: Counters, model: State)
  {
    && Good(model)
    && (failure == 0 <==> model.l.healthy)
    && LinkedPending(pending, model.l)
    && LinkedFrames(frames, model.l)
    && owners == model.owners && retired == model.retired
    && LinkedCounters(counters, model.rows)
  }

  /** What the free probe leaves in its maps is what its step leaves. */
  lemma LinkedFree(failure: nat, pending: map<nat, Sample>, frames: seq<Frame>, owners: map<nat, Identity>,
                   retired: set<Identity>, counters: Counters, model: State,
                   iocg: nat, retireOk: bool, deleteOk: bool)
    requires Linked(failure, pending, frames, owners, retired, counters, model)
    ensures Inv(model.l)
    ensures var t := Step(model, Event.PdFree(iocg, retireOk, deleteOk));
            if iocg !in owners then Linked(failure, pending, frames, owners, retired, counters, t)
            else
              var unknown := owners[iocg] !in retired;
              Linked(if (unknown && !retireOk) || !deleteOk then FAILURE else failure, pending, frames,
                     if deleteOk then owners - {iocg} else owners,
                     retired + if unknown && retireOk then {owners[iocg]} else {}, counters, t)
  {
    hide Good, LinkedPending, LinkedFrames, LinkedCounters, Inv, RowsExact, Step;
    GoodInv(model);
    StepKeeps(model, Event.PdFree(iocg, retireOk, deleteOk));
    PdFreeEffect(model, iocg, retireOk, deleteOk);
    UnhealthyLinks(pending, frames, model.l);
  }

  lemma UnhealthyLinks(pending: map<nat, Sample>, frames: seq<Frame>, l: Ledger)
    requires LinkedPending(pending, l) && LinkedFrames(frames, l)
    ensures LinkedPending(pending, Unhealthy(l)) && LinkedFrames(frames, Unhealthy(l))
  {
    forall c | 0 <= c < |frames|
      ensures FrameOf(frames[c], Unhealthy(l), c)
    {
      assert FrameOf(frames[c], l, c);
    }
    forall b | b in l.pending
      ensures b != 0 && SampleOf(Unhealthy(l), l.pending[b], pending[b])
    {
      assert SampleOf(l, l.pending[b], pending[b]);
    }
  }

  lemma PdFreeEffect(s: State, iocg: nat, retireOk: bool, deleteOk: bool)
    requires Inv(s.l)
    ensures var t := Step(s, Event.PdFree(iocg, retireOk, deleteOk));
            && t.rows == s.rows
            && (iocg !in s.owners ==> t == s)
            && (iocg in s.owners ==>
                  var unknown := s.owners[iocg] !in s.retired;
                  && t.retired == s.retired + (if unknown && retireOk then {s.owners[iocg]} else {})
                  && t.owners == (if deleteOk then s.owners - {iocg} else s.owners)
                  && t.l == if (unknown && !retireOk) || !deleteOk then Unhealthy(s.l) else s.l)
  {
    hide Inv;
  }

  lemma AdmitStepEffect(s: State, bio: nat, now: nat, operation: nat, insertOk: bool)
    requires Inv(s.l)
    ensures var t := Step(s, Admit(bio, now, operation, insertOk));
            && (s.l.healthy && bio != 0 && insertOk ==> t == s.(l := Admitted(s.l, Admission(bio, now, operation))))
            && (s.l.healthy && (bio == 0 || !insertOk) ==> t == Fail(s))
            && (!s.l.healthy ==> t == s)
  {
  }

  lemma ClearedGood(s: State, cpu: nat, reason: Reason)
    requires Good(s) && (reason == Faulted ==> !s.l.healthy)
    ensures Inv(s.l) && Good(s.(l := Cleared(s.l, cpu, reason)))
  {
    ClearedKeeps(s.l, cpu, reason);
    hide Inv, RowsExact;
  }

  lemma RestoredGood(s: State, cpu: nat)
    requires Good(s) && cpu in s.l.frames && s.l.log[s.l.frames[cpu].id].bio !in s.l.pending
    ensures Inv(s.l) && Good(s.(l := Restored(s.l, cpu)))
  {
    RestoredKeeps(s.l, cpu);
    hide Inv, RowsExact;
  }

  lemma SameKeys(pending: map<nat, Sample>, l: Ledger)
    requires LinkedPending(pending, l)
    ensures pending.Keys == l.pending.Keys
  {
  }

  lemma SampleAt(pending: map<nat, Sample>, l: Ledger, bio: nat)
    requires LinkedPending(pending, l) && (bio in pending || bio in l.pending)
    ensures bio != 0 && bio in l.pending && SampleOf(l, l.pending[bio], pending[bio])
  {
  }

  lemma CounterKeys(counters: Counters, rows: Rows)
    requires LinkedCounters(counters, rows)
    ensures counters.Keys == rows.Keys
  {
  }

  lemma FrameAt(frames: seq<Frame>, l: Ledger, cpu: nat)
    requires LinkedFrames(frames, l) && cpu < |frames|
    ensures FrameOf(frames[cpu], l, cpu)
  {
  }

  /** An idle frame may hold anything else. */
  lemma IdleFrame(frames: seq<Frame>, l: Ledger, cpu: nat, f: Frame)
    requires LinkedFrames(frames, l) && cpu < |frames| && cpu !in l.frames && f.bio == 0
    ensures LinkedFrames(frames[cpu := f], l)
  {
    var after := frames[cpu := f];
    forall c | 0 <= c < |after|
      ensures FrameOf(after[c], l, c)
    {
      assert FrameOf(frames[c], l, c);
    }
  }

  lemma ClaimStepCases(s: State, e: Event)
    requires Inv(s.l) && e.WakeEntry?
    ensures !s.l.healthy ==> ClaimStep(s, e) == s
    ensures s.l.healthy && e.bio == 0 ==> ClaimStep(s, e) == Fail(s)
    ensures s.l.healthy && e.bio != 0 && e.bio !in s.l.pending ==> ClaimStep(s, e) == s
    ensures s.l.healthy && e.bio != 0 && e.bio in s.l.pending ==> ClaimCases(s, e)
  {
    hide Inv;
    if e.bio in s.l.pending {
      PendingLogged(s.l, e.bio);
    }
  }

  ghost predicate ClaimCases(s: State, e: Event)
    requires Inv(s.l) && e.WakeEntry? && e.bio in s.l.pending
  {
    var t := ClaimStep(s, e);
    var id := s.l.pending[e.bio];
    var owner := OwnerOf(s, e.iocg, e.identity, e.ownerOk);
    && id < |s.l.log| == |s.l.places|
    && (s.l.log[id].start == 0 || owner.None? ==> t == Fail(s))
    && (s.l.log[id].start != 0 && owner.Some? ==>
          var s1 := s.(owners := s.owners[e.iocg := owner.value]);
          var key := Key(owner.value, s.l.log[id].operation);
          var s2 := s1.(rows := EnsureRow(s.rows, key));
          && (key !in s.rows && !e.rowOk ==> t == Fail(s1))
          && (key in s.rows || e.rowOk ==>
                t == if e.deleteOk then s2.(l := Claimed(s.l, e.bio, e.cpu, e.now, key)) else Fail(s2)))
  }

  lemma ReturnCases(s: State, cpu: nat, ret: int, restoreOk: bool)
    requires Inv(s.l)
    ensures cpu !in s.l.frames ==> WakeReturnStep(s, cpu, ret, restoreOk) == s
    ensures cpu in s.l.frames ==> ReturnTable(s, cpu, ret, restoreOk)
  {
    hide Inv;
    if cpu in s.l.frames {
      FrameLogged(s.l, cpu);
    }
  }

  ghost predicate ReturnTable(s: State, cpu: nat, ret: int, restoreOk: bool)
    requires Inv(s.l) && cpu in s.l.frames
  {
    var t := WakeReturnStep(s, cpu, ret, restoreOk);
    var held := s.l.frames[cpu];
    var faulted := s.(l := Cleared(Unhealthy(s.l), cpu, Faulted));
    && held.id < |s.l.log| == |s.l.places|
    && (ret == -1 ==>
          t == if s.l.log[held.id].bio in s.l.pending || !restoreOk then faulted else s.(l := Restored(s.l, cpu)))
    && (ret != -1 && ret != 0 ==> t == faulted)
    && (ret == 0 && held.key !in s.rows ==> t == s.(l := Cleared(s.l, cpu, RowGone)))
    && (ret == 0 && held.key in s.rows && held.end < s.l.log[held.id].start ==> t == faulted)
    && (ret == 0 && held.key in s.rows && held.end >= s.l.log[held.id].start ==> t == Settles(s, cpu))
  }
}
