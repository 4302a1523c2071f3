/** blk-throttle wait accounting: an admission is recorded when a bio is queued and
    settled by the final pop, with the same ledger and counters as IOCOST.  There is
    no frame between claim and settlement, so a healthy session loses nothing. */
module BlkThrottle {
  import opened Options
  import opened WaitWord
  import I = IoCost
  import opened IoCostTracer

  datatype Caller = Tracked | Ignored | Unknown

  /** The shared state plus the threads inside a final pop. */
  datatype Throttle = Throttle(s: I.State, calls: set<nat>)

  const INITIAL := Throttle(I.INITIAL, {})

  /** One probe.  A zero `bio` is null, an `operation` of None is a bio that is not a
      read or write with data, and a zero `blkg` could not be read. */
  datatype Event =
    | Add(caller: Caller, bio: nat, now: nat, operation: Option<nat>, insertOk: bool)
    | PopEntry(thread: nat, final: bool, updateOk: bool)
    | PopReturn(thread: nat, cpu: nat, bio: nat, operation: Option<nat>, now: nat, blkg: nat,
                identity: Option<I.Identity>, ownerOk: bool, rowOk: bool, callOk: bool, deleteOk: bool)
    | PdFree(blkg: nat, retireOk: bool, deleteOk: bool)
    | Reclaim(consumed: I.Identity)
    | Fault

  function Failed(t: Throttle): Throttle {
    t.(s := I.Fail(t.s))
  }

  function AddStep(t: Throttle, e: Event): Throttle
    requires e.Add? && I.Inv(t.s.l)
  {
    if e.caller == Ignored then t
    else if e.caller == Unknown then Failed(t)
    else if !t.s.l.healthy || e.bio == 0 || e.operation.None? then t
    else if e.bio in t.s.l.pending || !e.insertOk then Failed(t)
    else t.(s := t.s.(l := I.Admitted(t.s.l, I.Admission(e.bio, e.now, e.operation.value))))
  }

  function EntryStep(t: Throttle, e: Event): Throttle
    requires e.PopEntry?
  {
    if !e.final then t
    else if e.thread in t.calls || !e.updateOk then Failed(t)
    else t.(calls := t.calls + {e.thread})
  }

  const NO_KEY := I.Key(I.Identity(0, 0, 0, 0), 0)

  /** The pop of a bio that cannot be counted: the sample goes, the session is over. */
  function Dropped(s: I.State, bio: nat): I.State
    requires I.Inv(s.l) && bio in s.l.pending
  {
    s.(l := I.Cleared(I.Claimed(I.Unhealthy(s.l), bio, 0, 0, NO_KEY), 0, I.Faulted))
  }

  /** The pop that counts: claim and settlement in one step. */
  function Popped(s: I.State, e: Event): I.State
    requires I.Inv(s.l) && e.PopReturn? && e.bio in s.l.pending && e.operation.Some?
    requires e.now >= s.l.log[s.l.pending[e.bio]].start
  {
    var owner := I.OwnerOf(s, e.blkg, e.identity, e.ownerOk);
    if owner.None? then Dropped(s, e.bio)
    else
      var key := I.Key(owner.value, e.operation.value);
      var s1 := s.(owners := s.owners[e.blkg := owner.value]);
      if key !in s.rows && !e.rowOk then Dropped(s1, e.bio)
      else
        var s2 := s1.(l := SettledNow(s.l, e, key),
                      rows := I.AppendWait(I.EnsureRow(s.rows, key), key, e.cpu,
                                           e.now - s.l.log[s.l.pending[e.bio]].start));
        if e.deleteOk then s2 else I.Fail(s2)
  }

  function SettledNow(l: I.Ledger, e: Event, key: I.Key): I.Ledger
    requires I.Inv(l) && e.PopReturn? && e.bio in l.pending && e.now >= l.log[l.pending[e.bio]].start
  {
    I.Settle(I.Claimed(l, e.bio, e.cpu, e.now, key), e.cpu)
  }

  function ReturnStep(t: Throttle, e: Event): Throttle
    requires e.PopReturn? && I.Inv(t.s.l)
  {
    if e.thread !in t.calls then t
    else if !e.callOk then Failed(t)
    else
      var t1 := t.(calls := t.calls - {e.thread});
      if e.bio == 0 || e.operation.None? || e.bio !in t.s.l.pending then t1
      else if !t.s.l.healthy || e.now < t.s.l.log[t.s.l.pending[e.bio]].start || e.blkg == 0
      then t1.(s := Dropped(t.s, e.bio))
      else t1.(s := Popped(t.s, e))
  }

  function Step(t: Throttle, e: Event): Throttle
    requires I.Inv(t.s.l)
  {
    match e
    case Add(_, _, _, _, _) => AddStep(t, e)
    case PopEntry(_, _, _) => EntryStep(t, e)
    case PopReturn(_, _, _, _, _, _, _, _, _, _, _) => ReturnStep(t, e)
    case PdFree(blkg, retireOk, deleteOk) => t.(s := I.PdFreeStep(t.s, blkg, retireOk, deleteOk))
    case Reclaim(consumed) => t.(s := I.ReclaimStep(t.s, consumed))
    case Fault => Failed(t)
  }

  // -------------------------------------------------------------- invariant

  /** Nothing is held between probes, and nothing was given up but by a fault. */
  ghost predicate Direct(l: I.Ledger) {
    l.frames == map[] && forall p :: p in l.places && p.Discarded? ==> p.reason == I.Faulted
  }

  ghost predicate Good(t: Throttle) {
    I.Good(t.s) && Direct(t.s.l)
  }

  lemma FailGood(t: Throttle)
    requires Good(t)
    ensures Good(Failed(t))
  {
    hide I.Good;
    I.GoodInv(t.s);
    I.FailKeeps(t.s);
  }

  lemma AddGood(t: Throttle, e: Event)
    requires Good(t) && e.Add?
    ensures I.Inv(t.s.l) && Good(AddStep(t, e))
  {
    hide I.Good, I.Inv;
    I.GoodInv(t.s);
    FailGood(t);
    if e.bio !in t.s.l.pending && e.operation.Some? {
      AdmitGood(t.s, I.Admission(e.bio, e.now, e.operation.value));
    }
  }

  lemma AdmitGood(s: I.State, a: I.Admission)
    requires I.Good(s) && Direct(s.l) && a.bio !in s.l.pending
    ensures I.Inv(s.l) && I.Good(s.(l := I.Admitted(s.l, a))) && Direct(I.Admitted(s.l, a))
  {
    I.AdmittedKeeps(s.l, a);
    hide I.Inv, I.RowsExact;
  }

  lemma ClaimGood(s: I.State, bio: nat, cpu: nat, end: nat, key: I.Key)
    requires I.Good(s) && Direct(s.l) && bio in s.l.pending
    ensures I.Inv(s.l) && s.l.pending[bio] < |s.l.log| == |s.l.places|
    ensures I.Good(s.(l := I.Claimed(s.l, bio, cpu, end, key)))
  {
    hide I.Good, I.Inv;
    I.GoodInv(s);
    I.PendingLogged(s.l, bio);
    I.ClaimedGood(s, bio, cpu, end, key);
  }

  lemma DroppedGood(s: I.State, bio: nat)
    requires I.Good(s) && Direct(s.l) && bio in s.l.pending
    ensures I.Inv(s.l) && I.Good(Dropped(s, bio)) && Direct(Dropped(s, bio).l)
  {
    hide I.Good, I.Inv, Direct;
    I.GoodInv(s);
    I.FailKeeps(s);
    UnhealthyDirect(s.l);
    ClaimGood(I.Fail(s), bio, 0, 0, NO_KEY);
    ClearedGood(s.(l := I.Claimed(I.Unhealthy(s.l), bio, 0, 0, NO_KEY)), 0, I.Faulted);
    DroppedDirect(s.l, bio);
  }

  lemma UnhealthyDirect(l: I.Ledger)
    requires Direct(l)
    ensures Direct(I.Unhealthy(l))
  {
  }

  lemma DroppedDirect(l: I.Ledger, bio: nat)
    requires Direct(l) && bio in l.pending && l.pending[bio] < |l.places|
    ensures Direct(I.Cleared(I.Claimed(I.Unhealthy(l), bio, 0, 0, NO_KEY), 0, I.Faulted))
  {
    var m := I.Cleared(I.Claimed(I.Unhealthy(l), bio, 0, 0, NO_KEY), 0, I.Faulted);
    assert m.frames == map[];
    forall p | p in m.places && p.Discarded?
      ensures p.reason == I.Faulted
    {
      var k :| 0 <= k < |m.places| && m.places[k] == p;
      assert k != l.pending[bio] ==> p == l.places[k];
    }
  }

  lemma SettledDirect(l: I.Ledger, e: Event, key: I.Key)
    requires I.Inv(l) && Direct(l) && e.PopReturn? && e.bio in l.pending
    requires e.now >= l.log[l.pending[e.bio]].start
    ensures Direct(SettledNow(l, e, key))
  {
    I.PendingLogged(l, e.bio);
    hide I.Inv;
    var m := SettledNow(l, e, key);
    assert m.frames == map[];
    forall p | p in m.places && p.Discarded?
      ensures p.reason == I.Faulted
    {
      var k :| 0 <= k < |m.places| && m.places[k] == p;
      assert k != l.pending[e.bio] ==> p == l.places[k];
    }
  }

  lemma SettledGood(s: I.State, e: Event, key: I.Key)
    requires I.Good(s) && Direct(s.l) && e.PopReturn? && e.bio in s.l.pending && key in s.rows
    requires I.Inv(s.l) && e.now >= s.l.log[s.l.pending[e.bio]].start
    ensures I.Good(s.(l := SettledNow(s.l, e, key),
                      rows := I.AppendWait(s.rows, key, e.cpu, e.now - s.l.log[s.l.pending[e.bio]].start)))
  {
    hide I.Good, I.Inv;
    ClaimGood(s, e.bio, e.cpu, e.now, key);
    var c := s.(l := I.Claimed(s.l, e.bio, e.cpu, e.now, key));
    I.GoodInv(c);
    I.SettlesKeeps(c, e.cpu);
  }

  /** What a pop with a known owner does. */
  lemma PoppedCases(s: I.State, e: Event, owner: I.Identity)
    requires I.Inv(s.l) && e.PopReturn? && e.bio in s.l.pending && e.operation.Some?
    requires s.l.pending[e.bio] < |s.l.log| && e.now >= s.l.log[s.l.pending[e.bio]].start
    requires I.OwnerOf(s, e.blkg, e.identity, e.ownerOk) == Some(owner)
    ensures var key := I.Key(owner, e.operation.value);
            && key in I.EnsureRow(s.rows, key)
            && var o, wait := s.owners[e.blkg := owner], e.now - s.l.log[s.l.pending[e.bio]].start;
               var l := SettledNow(s.l, e, key);
               Popped(s, e) == if key !in s.rows && !e.rowOk then Dropped(s.(owners := o), e.bio)
                               else s.(owners := o, l := if e.deleteOk then l else I.Unhealthy(l),
                                       rows := I.AppendWait(I.EnsureRow(s.rows, key), key, e.cpu, wait))
  {
    hide I.Inv, Dropped, SettledNow, I.AppendWait;
  }

  lemma CountedGood(s: I.State, e: Event)
    requires I.Good(s) && Direct(s.l) && e.PopReturn? && e.bio in s.l.pending && e.operation.Some?
    requires I.Inv(s.l) && e.now >= s.l.log[s.l.pending[e.bio]].start
    ensures I.Good(Popped(s, e)) && Direct(Popped(s, e).l)
  {
    hide I.Good, I.Inv, Direct, Popped, Dropped, SettledNow, I.AppendWait, I.EnsureRow, I.OwnerOf;
    DroppedGood(s, e.bio);
    I.PendingLogged(s.l, e.bio);
    var owner := I.OwnerOf(s, e.blkg, e.identity, e.ownerOk);
    if owner.None? {
      CountedNone(s, e);
    } else {
      OwnerIsCached(s, e);
      PoppedCases(s, e, owner.value);
      I.RowKeeps(s, e.blkg, owner.value, e.operation.value);
      var key := I.Key(owner.value, e.operation.value);
      var s1 := s.(owners := s.owners[e.blkg := owner.value]);
      DroppedGood(s1, e.bio);
      var s2 := s1.(rows := I.EnsureRow(s.rows, key));
      SettledGood(s2, e, key);
      SettledDirect(s.l, e, key);
      var s3 := s2.(l := SettledNow(s.l, e, key),
                    rows := I.AppendWait(s2.rows, key, e.cpu, e.now - s.l.log[s.l.pending[e.bio]].start));
      I.GoodInv(s3);
      I.FailKeeps(s3);
      UnhealthyDirect(s3.l);
    }
  }

  lemma EnsuredRow(rows: I.Rows, key: I.Key)
    ensures key in I.EnsureRow(rows, key)
  {
  }

  lemma OwnerIsCached(s: I.State, e: Event)
    requires e.PopReturn? && I.OwnerOf(s, e.blkg, e.identity, e.ownerOk).Some?
    ensures e.blkg in s.owners ==> s.owners[e.blkg] == I.OwnerOf(s, e.blkg, e.identity, e.ownerOk).value
  {
  }

  lemma CountedNone(s: I.State, e: Event)
    requires I.Inv(s.l) && e.PopReturn? && e.bio in s.l.pending && e.operation.Some?
    requires e.now >= s.l.log[s.l.pending[e.bio]].start && I.OwnerOf(s, e.blkg, e.identity, e.ownerOk).None?
    ensures Popped(s, e) == Dropped(s, e.bio)
  {
  }

  lemma StepGood(t: Throttle, e: Event)
    requires Good(t)
    ensures I.Inv(t.s.l) && Good(Step(t, e))
  {
    hide I.Good, I.Inv, Direct, Dropped, Popped;
    I.GoodInv(t.s);
    FailGood(t);
    match e
    case Add(_, _, _, _, _) => AddGood(t, e);
    case PopReturn(_, _, bio, operation, now, _, _, _, _, _, _) =>
      if bio in t.s.l.pending {
        I.PendingLogged(t.s.l, bio);
        DroppedGood(t.s, bio);
        if operation.Some? && now >= t.s.l.log[t.s.l.pending[bio]].start {
          CountedGood(t.s, e);
        }
      }
    case PdFree(blkg, retireOk, deleteOk) =>
      I.PdFreeKeeps(t.s, blkg, retireOk, deleteOk);
      UnhealthyDirect(t.s.l);
    case Reclaim(consumed) => I.ReclaimKeeps(t.s, consumed);
    case _ =>
  }

  // ------------------------------------------------------------------- runs

  function Run(events: seq<Event>): (t: Throttle)
    ensures Good(t)
  {
    if events == [] then InitialGood(); INITIAL
    else
      var before := Run(events[..|events| - 1]);
      StepGood(before, events[|events| - 1]);
      Step(before, events[|events| - 1])
  }

  lemma InitialGood()
    ensures Good(INITIAL)
  {
    I.InitialGood();
  }

  lemma {:induction false} NoneDropped(places: seq<I.Place>)
    requires forall p :: p in places ==> !p.Discarded?
    ensures I.Dropped(places) == 0
  {
    if places != [] {
      NoneDropped(places[..|places| - 1]);
    }
  }

  lemma HealthyKeepsAll(l: I.Ledger)
    requires I.Inv(l) && Direct(l) && l.healthy
    ensures |l.log| == |l.settled| + |l.pending|
  {
    forall p | p in l.places
      ensures !p.Discarded?
    {
      var id: nat :| id < |l.places| && l.places[id] == p;
      assert I.Located(l, id);
    }
    NoneDropped(l.places);
  }

  /** Settlement `i` waited from the start of its own admission to its end. */
  ghost predicate OwnWait(l: I.Ledger, i: nat)
    requires i < |l.settled|
  {
    var x := l.settled[i];
    x.id < |l.log| && x.end >= l.log[x.id].start && x.wait == x.end - l.log[x.id].start
  }

  /** A settlement carries its own wait, and its admission settles nowhere else. */
  lemma SettledOnce(l: I.Ledger, i: nat)
    requires I.Inv(l) && i < |l.settled|
    ensures OwnWait(l, i)
    ensures forall j :: 0 <= j < |l.settled| && j != i ==> l.settled[j].id != l.settled[i].id
  {
    assert l.places[l.settled[i].id] == I.Settled(i);
    forall j | 0 <= j < |l.settled| && j != i
      ensures l.settled[j].id != l.settled[i].id
    {
      assert l.places[l.settled[j].id] == I.Settled(j);
    }
  }

  /** In every interleaving no admission settles twice and each settles with its own
      end minus start; while the session is healthy, admitted = settled + pending. */
  lemma RunConserves(events: seq<Event>)
    ensures var l := Run(events).s.l;
            && (forall i, j :: 0 <= i < j < |l.settled| ==> l.settled[i].id != l.settled[j].id)
            && (forall i :: 0 <= i < |l.settled| ==> OwnWait(l, i))
            && (l.healthy ==> |l.log| == |l.settled| + |l.pending|)
  {
    hide I.Good, I.Inv, Direct, OwnWait;
    var t := Run(events);
    I.GoodInv(t.s);
    if t.s.l.healthy {
      HealthyKeepsAll(t.s.l);
    }
    forall i | 0 <= i < |t.s.l.settled|
      ensures OwnWait(t.s.l, i)
      ensures forall j :: 0 <= j < |t.s.l.settled| && j != i ==> t.s.l.settled[j].id != t.s.l.settled[i].id
    {
      SettledOnce(t.s.l, i);
    }
  }

  /** The counters that user space has not reclaimed hold exactly the settlements. */
  lemma RunCounters(events: seq<Event>, key: I.Key, cpu: nat)
    ensures var s := Run(events).s;
            var waits := I.Waits(s.l.settled, key, cpu);
            key.identity !in s.reclaimed ==>
              && Count(Fold(0, I.RowOf(s.rows, key, cpu))) == |waits| % COUNT_MODULUS
              && Wait10us(Fold(0, I.RowOf(s.rows, key, cpu))) == Units(waits) % WAIT_MODULUS
  {
    hide I.Good, I.Inv, Direct;
    var s := Run(events).s;
    I.GoodInv(s);
    if key.identity !in s.reclaimed {
      I.RowFields(s.rows, s.reclaimed, s.l.settled, key, cpu);
    }
  }

  /** The row that a pop is counted in: the cgroup and disk known for the blkg, or else
      those that the probe read, and the operation of the popped bio. */
  function PopKey(s: I.State, e: Event): I.Key
    requires e.PopReturn? && e.operation.Some? && (e.blkg in s.owners || e.identity.Some?)
  {
    I.Key(if e.blkg in s.owners then s.owners[e.blkg] else e.identity.value, e.operation.value)
  }

  /** The pop return is of a final pop, of a pending bio, and everything it needs is
      there. */
  predicate Counts(t: Throttle, e: Event) {
    && e.PopReturn? && e.thread in t.calls && e.callOk && t.s.l.healthy
    && e.bio != 0 && e.operation.Some? && e.blkg != 0
    && e.bio in t.s.l.pending && t.s.l.pending[e.bio] < |t.s.l.log|
    && e.now >= t.s.l.log[t.s.l.pending[e.bio]].start
    && (e.blkg in t.s.owners || (e.ownerOk && e.identity.Some?))
    && (PopKey(t.s, e) in t.s.rows || e.rowOk)
  }

  function SettledBy(t: Throttle, e: Event): I.Settlement
    requires Counts(t, e)
  {
    var id := t.s.l.pending[e.bio];
    I.Settlement(id, e.cpu, PopKey(t.s, e), e.now, e.now - t.s.l.log[id].start)
  }

  /** The final pop of a pending bio counts its own wait and releases the bio. */
  lemma PopSettles(t: Throttle, e: Event)
    requires Good(t) && I.Inv(t.s.l) && Counts(t, e)
    ensures var r := Step(t, e);
            && r.calls == t.calls - {e.thread} && (e.deleteOk ==> r.s.l.healthy)
            && r.s.l.pending == t.s.l.pending - {e.bio}
            && r.s.l.settled == t.s.l.settled + [SettledBy(t, e)]
  {
    hide I.Good, I.Inv, Direct, Popped;
    PoppedSettles(t.s, e);
  }

  lemma PoppedSettles(s: I.State, e: Event)
    requires I.Inv(s.l) && e.PopReturn? && e.bio in s.l.pending && e.operation.Some?
    requires e.now >= s.l.log[s.l.pending[e.bio]].start
    requires (e.blkg in s.owners || (e.ownerOk && e.identity.Some?)) && (PopKey(s, e) in s.rows || e.rowOk)
    ensures var l := Popped(s, e).l;
            var id := s.l.pending[e.bio];
            && l.healthy == (s.l.healthy && e.deleteOk) && l.pending == s.l.pending - {e.bio}
            && l.settled == s.l.settled
                 + [I.Settlement(id, e.cpu, PopKey(s, e), e.now, e.now - s.l.log[id].start)]
  {
    hide I.Inv, SettledNow, Dropped, I.AppendWait, I.EnsureRow;
    SettledEffect(s.l, e, PopKey(s, e));
  }

  // -------------------------------------------------------------- provenance

  lemma RunNext(events: seq<Event>)
    requires events != []
    ensures I.Inv(Run(events[..|events| - 1]).s.l)
    ensures Run(events) == Step(Run(events[..|events| - 1]), events[|events| - 1])
  {
    hide I.Good, I.Inv, Step;
    I.GoodInv(Run(events[..|events| - 1]).s);
  }

  /** A tracked add of a read or write that found the session healthy, its bio not
      pending and room in the map. */
  predicate Admits(t: Throttle, e: Event) {
    && e.Add? && e.caller == Tracked && t.s.l.healthy
    && e.bio != 0 && e.operation.Some? && e.bio !in t.s.l.pending && e.insertOk
  }

  /** The pops that lose their sample or count it: nothing but the pending map, the
      settlements and the health of the ledger changes. */
  lemma DroppedEffect(s: I.State, bio: nat)
    requires I.Inv(s.l) && bio in s.l.pending
    ensures var d := Dropped(s, bio);
            d.l.log == s.l.log && d.l.settled == s.l.settled && d.owners == s.owners && d.rows == s.rows
  {
    I.PendingLogged(s.l, bio);
    hide I.Inv;
  }

  lemma PoppedEffect(s: I.State, e: Event)
    requires I.Inv(s.l) && e.PopReturn? && e.bio in s.l.pending && e.operation.Some?
    requires e.now >= s.l.log[s.l.pending[e.bio]].start
    ensures var p := Popped(s, e);
            var found := e.blkg in s.owners || (e.ownerOk && e.identity.Some?);
            && p.l.log == s.l.log
            && p.owners == (if found then s.owners[e.blkg := PopKey(s, e).identity] else s.owners)
            && (!found || (PopKey(s, e) !in s.rows && !e.rowOk) ==> p.l.settled == s.l.settled)
  {
    hide I.Inv, SettledNow, Dropped, I.AppendWait, I.EnsureRow;
    DroppedEffect(s, e.bio);
    if e.blkg in s.owners || (e.ownerOk && e.identity.Some?) {
      DroppedEffect(s.(owners := s.owners[e.blkg := PopKey(s, e).identity]), e.bio);
      SettledEffect(s.l, e, PopKey(s, e));
    }
  }

  lemma StepLog(t: Throttle, e: Event)
    requires I.Inv(t.s.l)
    ensures Step(t, e).s.l.log
         == t.s.l.log + if Admits(t, e) then [I.Admission(e.bio, e.now, e.operation.value)] else []
  {
    hide I.Inv, Popped, Dropped;
    match e
    case Add(_, bio, _, _, _) => I.SupersedingKeeps(t.s.l, bio);
    case PopReturn(_, _, bio, operation, now, _, _, _, _, _, _) =>
      if bio in t.s.l.pending {
        I.PendingLogged(t.s.l, bio);
        DroppedEffect(t.s, bio);
        if operation.Some? && now >= t.s.l.log[t.s.l.pending[bio]].start {
          PoppedEffect(t.s, e);
        }
      }
    case _ =>
  }

  lemma StepSettles(t: Throttle, e: Event)
    requires I.Inv(t.s.l)
    ensures Step(t, e).s.l.settled == t.s.l.settled + if Counts(t, e) then [SettledBy(t, e)] else []
  {
    hide I.Inv, Popped, Dropped;
    match e
    case Add(_, bio, _, _, _) => I.SupersedingKeeps(t.s.l, bio);
    case PopReturn(_, _, bio, operation, now, _, _, _, _, _, _) =>
      if bio in t.s.l.pending {
        I.PendingLogged(t.s.l, bio);
        DroppedEffect(t.s, bio);
        if operation.Some? && now >= t.s.l.log[t.s.l.pending[bio]].start {
          PoppedEffect(t.s, e);
          if Counts(t, e) {
            PoppedSettles(t.s, e);
          }
        }
      }
    case _ =>
  }

  /** The admissions and the settlements of a run, told from its events. */
  ghost function Admissions(events: seq<Event>): seq<I.Admission> {
    if events == [] then []
    else
      var n := |events| - 1;
      var e := events[n];
      Admissions(events[..n])
      + if Admits(Run(events[..n]), e) then [I.Admission(e.bio, e.now, e.operation.value)] else []
  }

  ghost function Settlements(events: seq<Event>): seq<I.Settlement> {
    if events == [] then []
    else
      var n := |events| - 1;
      Settlements(events[..n])
      + if Counts(Run(events[..n]), events[n]) then [SettledBy(Run(events[..n]), events[n])] else []
  }

  /** The log is exactly the admissions of the run, with the bio, the time and the
      operation of their adds, and the settlements are exactly its counted pops, with
      the time of the pop, in order. */
  lemma {:induction false} LogIsExact(events: seq<Event>)
    ensures Run(events).s.l.log == Admissions(events) && Run(events).s.l.settled == Settlements(events)
    decreases |events|
  {
    hide I.Good, I.Inv, Step, Admits, Counts, SettledBy;
    if events != [] {
      RunNext(events);
      LogIsExact(events[..|events| - 1]);
      StepLog(Run(events[..|events| - 1]), events[|events| - 1]);
      StepSettles(Run(events[..|events| - 1]), events[|events| - 1]);
    }
  }

  predicate Frees(e: Event, blkg: nat) {
    e.PdFree? && e.blkg == blkg && e.deleteOk
  }

  /** A pop return of this blkg read this identity, and the blkg was not freed since. */
  ghost predicate ReadAt(events: seq<Event>, i: nat, blkg: nat, identity: I.Identity)
    requires i < |events|
  {
    && events[i].PopReturn? && events[i].blkg == blkg && events[i].identity == Some(identity)
    && forall j :: i < j < |events| ==> !Frees(events[j], blkg)
  }

  lemma StepOwner(t: Throttle, e: Event, blkg: nat)
    requires I.Inv(t.s.l) && blkg in Step(t, e).s.owners
    ensures var owner := Step(t, e).s.owners[blkg];
            || (blkg in t.s.owners && t.s.owners[blkg] == owner && !Frees(e, blkg))
            || (e.PopReturn? && e.blkg == blkg && e.identity == Some(owner))
  {
    hide I.Inv, Popped, Dropped;
    match e
    case PopReturn(_, _, bio, operation, now, _, _, _, _, _, _) =>
      if bio in t.s.l.pending {
        I.PendingLogged(t.s.l, bio);
        DroppedEffect(t.s, bio);
        if operation.Some? && now >= t.s.l.log[t.s.l.pending[bio]].start {
          PoppedEffect(t.s, e);
        }
      }
    case _ =>
  }

  /** Every cached owner of a reachable state is the cgroup and disk that some pop of
      that blkg read, with no free of the blkg since. */
  lemma {:induction false} OwnersAreRead(events: seq<Event>, blkg: nat)
    requires blkg in Run(events).s.owners
    ensures exists i :: 0 <= i < |events| && ReadAt(events, i, blkg, Run(events).s.owners[blkg])
    decreases |events|
  {
    hide I.Good, I.Inv, Step, Frees;
    if events != [] {
      var n := |events| - 1;
      RunNext(events);
      StepOwner(Run(events[..n]), events[n], blkg);
      var owner := Run(events).s.owners[blkg];
      if events[n].PopReturn? && events[n].blkg == blkg && events[n].identity == Some(owner) {
        assert ReadAt(events, n, blkg, owner);
      } else {
        OwnersAreRead(events[..n], blkg);
        var i :| 0 <= i < n && ReadAt(events[..n], i, blkg, owner);
        ReadStays(events, i, blkg, owner);
      }
    }
  }

  lemma ReadStays(events: seq<Event>, i: nat, blkg: nat, owner: I.Identity)
    requires i < |events| - 1 && ReadAt(events[..|events| - 1], i, blkg, owner)
    requires !Frees(events[|events| - 1], blkg)
    ensures ReadAt(events, i, blkg, owner)
  {
    forall j | i < j < |events|
      ensures !Frees(events[j], blkg)
    {
      assert j < |events| - 1 ==> events[..|events| - 1][j] == events[j];
    }
  }

  /** The thread entered a final pop whose return was not seen yet. */
  function InFinalPop(events: seq<Event>, thread: nat): bool {
    if events == [] then false
    else
      var n := |events| - 1;
      var e, before := events[n], InFinalPop(events[..n], thread);
      if e.PopEntry? && e.thread == thread then before || (e.final && e.updateOk)
      else if e.PopReturn? && e.thread == thread then before && !e.callOk
      else before
  }

  /** A pop return counts as final exactly for threads inside a final pop. */
  lemma {:induction false} CallsAreFinalPops(events: seq<Event>, thread: nat)
    ensures thread in Run(events).calls <==> InFinalPop(events, thread)
    decreases |events|
  {
    hide I.Good, I.Inv, Popped, Dropped, I.PdFreeStep, I.ReclaimStep;
    if events != [] {
      RunNext(events);
      CallsAreFinalPops(events[..|events| - 1], thread);
    }
  }

  // ------------------------------------------------------------- the probes

  /** The pending map holds the start of every pending admission; a failed session
      may also hold what it could not delete. */
  ghost predicate LinkedStarts(pending: map<nat, nat>, l: I.Ledger) {
    && (forall b :: b in l.pending ==>
          b in pending && l.pending[b] < |l.log| && pending[b] == l.log[l.pending[b]].start)
    && (l.healthy ==> pending.Keys == l.pending.Keys)
  }

  lemma FailLinks(pending: map<nat, nat>, l: I.Ledger)
    requires LinkedStarts(pending, l)
    ensures LinkedStarts(pending, I.Unhealthy(l))
  {
  }

  lemma AdmitStarts(pending: map<nat, nat>, l: I.Ledger, a: I.Admission)
    requires LinkedStarts(pending, l) && a.bio !in l.pending && l.healthy
    ensures LinkedStarts(pending[a.bio := a.start], I.Admitted(l, a))
  {
  }

  lemma DropStarts(pending: map<nat, nat>, after: map<nat, nat>, l: I.Ledger, bio: nat)
    requires LinkedStarts(pending, l) && bio in l.pending && l.pending[bio] < |l.places|
    requires after == pending || after == pending - {bio}
    ensures LinkedStarts(after, I.Cleared(I.Claimed(I.Unhealthy(l), bio, 0, 0, NO_KEY), 0, I.Faulted))
  {
  }

  lemma SettleStarts(pending: map<nat, nat>, l: I.Ledger, e: Event, key: I.Key)
    requires I.Inv(l) && LinkedStarts(pending, l) && e.PopReturn? && e.bio in l.pending
    requires e.now >= l.log[l.pending[e.bio]].start
    ensures LinkedStarts(pending - {e.bio}, SettledNow(l, e, key))
    ensures LinkedStarts(pending, I.Unhealthy(SettledNow(l, e, key)))
  {
    hide I.Inv, SettledNow;
    SettledEffect(l, e, key);
  }

  lemma SettledEffect(l: I.Ledger, e: Event, key: I.Key)
    requires I.Inv(l) && e.PopReturn? && e.bio in l.pending && e.now >= l.log[l.pending[e.bio]].start
    ensures var m := SettledNow(l, e, key);
            var id := l.pending[e.bio];
            && m.pending == l.pending - {e.bio} && m.log == l.log && m.healthy == l.healthy
            && m.settled == l.settled + [I.Settlement(id, e.cpu, key, e.now, e.now - l.log[id].start)]
  {
    I.PendingLogged(l, e.bio);
    hide I.Inv;
  }

  lemma StartAt(pending: map<nat, nat>, l: I.Ledger, bio: nat)
    requires LinkedStarts(pending, l)
    ensures bio in l.pending ==>
              bio in pending && l.pending[bio] < |l.log| && pending[bio] == l.log[l.pending[bio]].start
    ensures l.healthy ==> (bio in pending <==> bio in l.pending)
  {
  }

  class BlkTracer {
    var failure: nat
    var pending: map<nat, nat>
    var calls: set<nat>
    var owners: map<nat, I.Identity>
    var retired: set<I.Identity>
    var counters: Counters
    ghost var model: Throttle

    constructor ()
      ensures Valid() && model == INITIAL
    {
      failure, pending, calls, owners, retired, counters := 0, map[], {}, map[], {}, map[];
      model := INITIAL;
      new;
      InitialGood();
    }

    ghost predicate Valid()
      reads this
    {
      && Good(model)
      && (failure == 0 <==> model.s.l.healthy)
      && LinkedStarts(pending, model.s.l)
      && calls == model.calls && owners == model.s.owners && retired == model.s.retired
      && LinkedCounters(counters, model.s.rows)
    }

    /** `kprobe_blk_throtl_add_bio_tg` */
    method AddBio(e: Event)
      requires Valid() && e.Add?
      modifies this`failure, this`pending, this`model
      ensures Valid() && I.Inv(old(model).s.l) && model == Step(old(model), e)
    {
      hide Good, I.Inv, LinkedStarts, LinkedCounters;
      StepGood(model, e);
      FailLinks(pending, model.s.l);
      StartAt(pending, model.s.l, e.bio);
      if e.caller != Ignored {
        if e.caller == Unknown {
          failure := FAILURE;
        } else if failure == 0 && e.bio != 0 && e.operation.Some? {
          if e.bio in pending || !e.insertOk {
            failure := FAILURE;
          } else {
            AdmitStarts(pending, model.s.l, I.Admission(e.bio, e.now, e.operation.value));
            pending := pending[e.bio := e.now];
          }
        }
      }
      model := Step(model, e);
    }

    /** `kprobe_blk_throtl_pop_queued` */
    method PopEntry(e: Event)
      requires Valid() && e.PopEntry?
      modifies this`failure, this`calls, this`model
      ensures Valid() && I.Inv(old(model).s.l) && model == Step(old(model), e)
    {
      hide Good, I.Inv, LinkedStarts, LinkedCounters;
      StepGood(model, e);
      FailLinks(pending, model.s.l);
      if e.final {
        if e.thread in calls || !e.updateOk {
          failure := FAILURE;
        } else {
          calls := calls + {e.thread};
        }
      }
      model := Step(model, e);
    }

    /** `kretprobe_blk_throtl_pop_queued` */
    method PopReturn(e: Event)
      requires Valid() && e.PopReturn?
      modifies this
      ensures Valid() && I.Inv(old(model).s.l) && model == Step(old(model), e)
    {
      hide Good, I.Inv, LinkedStarts, LinkedCounters, Popped, Dropped;
      StepGood(model, e);
      FailLinks(pending, model.s.l);
      StartAt(pending, model.s.l, e.bio);
      ghost var t := model;
      model := Step(model, e);
      if e.thread !in calls {
        return;
      }
      if !e.callOk {
        failure := FAILURE;
        return;
      }
      calls := calls - {e.thread};
      if e.bio == 0 || e.operation.None? || e.bio !in pending {
        return;
      }
      var start := pending[e.bio];
      if e.bio in t.s.l.pending {
        DroppedParts(t.s, e.bio, owners);
      }
      assert !t.s.l.healthy ==> I.Unhealthy(t.s.l) == t.s.l;
      if failure != 0 || e.now < start || e.blkg == 0 {
        // Nothing is counted any more; the sample still goes.
        Drop(e, t);
      } else {
        AccountWait(e, start, t);
      }
    }

    /** The `out` label after a fault. */
    method Drop(e: Event, ghost t: Throttle)
      requires e.PopReturn? && e.bio in pending && LinkedStarts(pending, t.s.l) && Good(t)
      modifies this`failure, this`pending
      ensures failure != 0
      ensures I.Inv(t.s.l)
      ensures LinkedStarts(pending, if e.bio in t.s.l.pending then Dropped(t.s, e.bio).l else I.Unhealthy(t.s.l))
    {
      hide Good, I.Inv, LinkedStarts;
      GoodParts(t);
      StartAt(pending, t.s.l, e.bio);
      failure := FAILURE;
      ghost var before := pending;
      if e.deleteOk {
        pending := pending - {e.bio};
      }
      if e.bio in t.s.l.pending {
        I.PendingLogged(t.s.l, e.bio);
        DropStarts(before, pending, t.s.l, e.bio);
      } else {
        StrayStarts(before, pending, t.s.l, e.bio);
      }
    }

    /** `blk_throtl_lookup_or_create_owner` */
    method FindOwner(e: Event, ghost t: Throttle) returns (owner: Option<I.Identity>)
      requires e.PopReturn? && owners == t.s.owners
      modifies this`owners
      ensures owner == I.OwnerOf(t.s, e.blkg, e.identity, e.ownerOk)
      ensures owners == if owner.Some? then t.s.owners[e.blkg := owner.value] else t.s.owners
    {
      if e.blkg in owners {
        assert owners[e.blkg := owners[e.blkg]] == owners;
        return Some(owners[e.blkg]);
      }
      if e.identity.Some? && e.ownerOk {
        owners := owners[e.blkg := e.identity.value];
        return e.identity;
      }
      return None;
    }

    /** `blk_throtl_account_wait` */
    method CountWait(key: I.Key, cpu: nat, wait: nat, rowOk: bool, ghost rows: I.Rows) returns (ok: bool)
      requires LinkedCounters(counters, rows)
      modifies this`counters
      ensures ok <==> key in rows || rowOk
      ensures key in I.EnsureRow(rows, key)
      ensures LinkedCounters(counters, if ok then I.AppendWait(I.EnsureRow(rows, key), key, cpu, wait) else rows)
    {
      hide LinkedCounters, WaitAdd, I.AppendWait;
      CounterKeys(counters, rows);
      EnsureLinks(counters, rows, key);
      EnsuredRow(rows, key);
      if key !in counters {
        if !rowOk {
          return false;
        }
        counters := counters[key := map[]];
      }
      CountLinks(counters, I.EnsureRow(rows, key), key, cpu, wait);
      CounterKeys(counters, I.EnsureRow(rows, key));
      counters := Counted(counters, key, cpu, WaitAdd(CounterOf(counters, key, cpu), wait));
      return true;
    }

    /** The maps follow this state of the model. */
    ghost predicate Follows(s: I.State)
      reads this
    {
      && LinkedStarts(pending, s.l) && (failure == 0 <==> s.l.healthy)
      && owners == s.owners && retired == s.retired && LinkedCounters(counters, s.rows)
    }

    /** Owner, row and counter, then the sample goes. */
    method AccountWait(e: Event, start: nat, ghost t: Throttle)
      requires e.PopReturn? && e.operation.Some? && Good(t) && t.s.l.healthy && Follows(t.s)
      requires e.bio in t.s.l.pending && e.bio in pending
      requires I.Inv(t.s.l) && start == t.s.l.log[t.s.l.pending[e.bio]].start && e.now >= start
      modifies this`failure, this`pending, this`owners, this`counters
      ensures Follows(Popped(t.s, e))
    {
      hide Good, I.Inv, LinkedStarts, LinkedCounters, SettledNow, Dropped, Popped, I.OwnerOf, I.AppendWait, I.EnsureRow;
      I.PendingLogged(t.s.l, e.bio);
      var owner := FindOwner(e, t);
      if owner.None? {
        DroppedParts(t.s, e.bio, owners);
        CountedNone(t.s, e);
        Drop(e, t);
      } else {
        CountAndRelease(e, start, owner.value, t);
      }
    }

    method CountAndRelease(e: Event, start: nat, owner: I.Identity, ghost t: Throttle)
      requires e.PopReturn? && e.operation.Some? && Good(t) && t.s.l.healthy
      requires I.OwnerOf(t.s, e.blkg, e.identity, e.ownerOk) == Some(owner)
      requires Follows(t.s.(owners := t.s.owners[e.blkg := owner]))
      requires e.bio in t.s.l.pending && e.bio in pending
      requires I.Inv(t.s.l) && start == t.s.l.log[t.s.l.pending[e.bio]].start && e.now >= start
      modifies this`failure, this`pending, this`counters
      ensures Follows(Popped(t.s, e))
    {
      hide Good, I.Inv, LinkedStarts, LinkedCounters, SettledNow, Dropped, Popped, I.OwnerOf, I.AppendWait, I.EnsureRow;
      I.PendingLogged(t.s.l, e.bio);
      PoppedCases(t.s, e, owner);
      var key := I.Key(owner, e.operation.value);
      var ok := CountWait(key, e.cpu, e.now - start, e.rowOk, t.s.rows);
      if !ok {
        DroppedParts(t.s, e.bio, owners);
        Drop(e, t);
      } else {
        SettleStarts(pending, t.s.l, e, key);
        SettledEffect(t.s.l, e, key);
        if e.deleteOk {
          pending := pending - {e.bio};
        } else {
          failure := FAILURE;
        }
      }
    }

    /** `kprobe_blk_throtl_pd_free` */
    method PdFree(e: Event)
      requires Valid() && e.PdFree?
      modifies this`failure, this`owners, this`retired, this`model
      ensures Valid() && I.Inv(old(model).s.l) && model == Step(old(model), e)
    {
      hide Good, I.Inv, LinkedStarts, LinkedCounters;
      StepGood(model, e);
      FailLinks(pending, model.s.l);
      if e.blkg in owners {
        var owner := owners[e.blkg];
        if owner !in retired {
          if e.retireOk {
            retired := retired + {owner};
          } else {
            failure := FAILURE;
          }
        }
        if e.deleteOk {
          owners := owners - {e.blkg};
        } else {
          failure := FAILURE;
        }
      }
      model := Step(model, e);
    }
  }

  lemma GoodParts(t: Throttle)
    requires Good(t)
    ensures I.Inv(t.s.l)
  {
  }

  lemma StrayStarts(pending: map<nat, nat>, after: map<nat, nat>, l: I.Ledger, bio: nat)
    requires LinkedStarts(pending, l) && bio !in l.pending && (after == pending || after == pending - {bio})
    ensures LinkedStarts(after, I.Unhealthy(l))
  {
  }

  /** Dropping a sample touches the ledger only, and does so whatever the owners. */
  lemma DroppedParts(s: I.State, bio: nat, owners: map<nat, I.Identity>)
    requires I.Inv(s.l) && bio in s.l.pending
    ensures var d := Dropped(s.(owners := owners), bio);
            && d.owners == owners && d.rows == s.rows && d.retired == s.retired
            && d.l == Dropped(s, bio).l && !d.l.healthy
    ensures Dropped(s, bio) == s.(l := Dropped(s, bio).l)
  {
  }
}
