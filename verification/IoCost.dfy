/** IOCOST wait accounting: admissions, wake entries and wake returns interleave
    freely across CPUs, each probe being one atomic step.

    The specification numbers the admissions.  The ledger's `log` remembers every
    admission ever made and `places` says where each of them currently is, so
    "settles at most once" and "nothing is lost" are statements about one
    function. */
module IoCost {
  import opened Options
  import opened WaitWord

  /** `iocost_owner_state`: the identity of one cgroup on one disk. */
  datatype Identity = Identity(css: nat, serial: nat, major: nat, minor: nat)
  datatype Key = Key(identity: Identity, operation: nat)

  datatype Admission = Admission(bio: nat, start: nat, operation: nat)
  datatype Reason = Superseded | MissedReturn | RowGone | Faulted
  datatype Place = Pending(bio: nat) | InFrame(cpu: nat) | Settled(index: nat) | Discarded(reason: Reason)
  datatype Held = Held(id: nat, end: nat, key: Key)
  datatype Settlement = Settlement(id: nat, cpu: nat, key: Key, end: nat, wait: nat)

  // ---------------------------------------------------------------- ledger

  datatype Ledger = Ledger(
    healthy: bool,
    log: seq<Admission>,
    places: seq<Place>,
    pending: map<nat, nat>,
    frames: map<nat, Held>,
    settled: seq<Settlement>)

  const EMPTY := Ledger(true, [], [], map[], map[], [])

  /** Every admission is in exactly one place, and that place knows it. */
  ghost predicate Placed(l: Ledger) {
    && |l.places| == |l.log|
    && (forall b :: b in l.pending ==>
          && l.pending[b] < |l.log|
          && l.places[l.pending[b]] == Pending(b)
          && l.log[l.pending[b]].bio == b)
    && (forall c :: c in l.frames ==> l.frames[c].id < |l.log| && l.places[l.frames[c].id] == InFrame(c))
    && (forall k :: 0 <= k < |l.settled| ==>
          && l.settled[k].id < |l.log|
          && l.places[l.settled[k].id] == Settled(k)
          && l.settled[k].wait == l.settled[k].end - l.log[l.settled[k].id].start)
    && (forall id :: 0 <= id < |l.log| ==> Located(l, id))
  }

  /** Admitted = settled + pending + held in frames + explicitly discarded. */
  ghost predicate Tally(l: Ledger) {
    |l.log| == |l.settled| + |l.pending| + |l.frames| + Dropped(l.places)
  }

  ghost predicate Inv(l: Ledger) {
    Placed(l) && Tally(l)
  }

  ghost predicate Located(l: Ledger, id: nat)
    requires id < |l.places|
  {
    match l.places[id]
    case Pending(b) => b in l.pending && l.pending[b] == id
    case InFrame(c) => c in l.frames && l.frames[c].id == id
    case Settled(k) => k < |l.settled| && l.settled[k].id == id
    case Discarded(reason) => reason == Faulted ==> !l.healthy
  }

  /** Admissions explicitly given up. */
  function Dropped(places: seq<Place>): nat {
    if places == [] then 0
    else Dropped(places[..|places| - 1]) + if places[|places| - 1].Discarded? then 1 else 0
  }

  lemma {:induction false} DroppedUpdate(places: seq<Place>, id: nat, p: Place)
    requires id < |places|
    ensures Dropped(places[id := p]) + (if places[id].Discarded? then 1 else 0)
         == Dropped(places) + if p.Discarded? then 1 else 0
    decreases |places|
  {
    var n := |places| - 1;
    var after := places[id := p];
    if id < n {
      DroppedUpdate(places[..n], id, p);
      assert after[..n] == places[..n][id := p];
    } else {
      assert after[..n] == places[..n];
    }
  }

  function Unhealthy(l: Ledger): Ledger {
    l.(healthy := false)
  }

  /** Missed-wake residue of a bio that is admitted again. */
  function Superseding(l: Ledger, bio: nat): Ledger
    requires bio in l.pending ==> l.pending[bio] < |l.places|
  {
    if bio !in l.pending then l
    else l.(places := l.places[l.pending[bio] := Discarded(Superseded)], pending := l.pending - {bio})
  }

  function Fresh(l: Ledger, a: Admission): Ledger {
    l.(log := l.log + [a], places := l.places + [Pending(a.bio)], pending := l.pending[a.bio := |l.log|])
  }

  /** The update-any insert of `kprobe_iocg_kick_waitq`: the new admission owns the
      bio whatever was recorded for it before. */
  function Admitted(l: Ledger, a: Admission): (m: Ledger)
    requires a.bio in l.pending ==> l.pending[a.bio] < |l.places|
    ensures m.pending == l.pending[a.bio := |l.log|]
  {
    Fresh(Superseding(l, a.bio), a)
  }

  /** Give up what the CPU's frame holds. */
  function Cleared(l: Ledger, cpu: nat, reason: Reason): Ledger
    requires cpu in l.frames ==> l.frames[cpu].id < |l.places|
  {
    if cpu !in l.frames then l
    else l.(places := l.places[l.frames[cpu].id := Discarded(reason)], frames := l.frames - {cpu})
  }

  function Claimed(l: Ledger, bio: nat, cpu: nat, end: nat, key: Key): Ledger
    requires bio in l.pending && l.pending[bio] < |l.places|
  {
    var id := l.pending[bio];
    l.(places := l.places[id := InFrame(cpu)], pending := l.pending - {bio},
       frames := l.frames[cpu := Held(id, end, key)])
  }

  function Restored(l: Ledger, cpu: nat): Ledger
    requires cpu in l.frames && l.frames[cpu].id < |l.places| == |l.log|
  {
    var id := l.frames[cpu].id;
    var bio := l.log[id].bio;
    l.(places := l.places[id := Pending(bio)], pending := l.pending[bio := id], frames := l.frames - {cpu})
  }

  function Settle(l: Ledger, cpu: nat): Ledger
    requires cpu in l.frames && l.frames[cpu].id < |l.places| == |l.log|
    requires l.frames[cpu].end >= l.log[l.frames[cpu].id].start
  {
    var held := l.frames[cpu];
    var wait := held.end - l.log[held.id].start;
    l.(places := l.places[held.id := Settled(|l.settled|)], frames := l.frames - {cpu},
       settled := l.settled + [Settlement(held.id, cpu, held.key, held.end, wait)])
  }

  lemma UnhealthyPlaces(l: Ledger)
    requires Placed(l)
    ensures Placed(Unhealthy(l))
  {
    var m := Unhealthy(l);
    forall id | 0 <= id < |m.log|
      ensures Located(m, id)
    {
      assert Located(l, id);
    }
  }

  lemma SupersedingPlaces(l: Ledger, bio: nat)
    requires Placed(l)
    ensures Placed(Superseding(l, bio))
  {
    var m := Superseding(l, bio);
    forall id | 0 <= id < |m.log|
      ensures Located(m, id)
    {
      assert Located(l, id);
    }
  }

  lemma FreshPlaces(l: Ledger, a: Admission)
    requires Placed(l) && a.bio !in l.pending
    ensures Placed(Fresh(l, a))
  {
    var m := Fresh(l, a);
    forall id | 0 <= id < |m.log|
      ensures Located(m, id)
    {
      assert id < |l.log| ==> Located(l, id);
    }
  }

  lemma ClearedPlaces(l: Ledger, cpu: nat, reason: Reason)
    requires Placed(l) && (reason == Faulted ==> !l.healthy)
    ensures Placed(Cleared(l, cpu, reason))
  {
    var m := Cleared(l, cpu, reason);
    forall id | 0 <= id < |m.log|
      ensures Located(m, id)
    {
      assert Located(l, id);
    }
  }

  lemma ClaimedPlaces(l: Ledger, bio: nat, cpu: nat, end: nat, key: Key)
    requires Placed(l) && bio in l.pending && cpu !in l.frames
    ensures Placed(Claimed(l, bio, cpu, end, key))
  {
    var m := Claimed(l, bio, cpu, end, key);
    forall id | 0 <= id < |m.log|
      ensures Located(m, id)
    {
      assert Located(l, id);
    }
  }

  lemma RestoredPlaces(l: Ledger, cpu: nat)
    requires Placed(l) && cpu in l.frames && l.log[l.frames[cpu].id].bio !in l.pending
    ensures Placed(Restored(l, cpu))
  {
    var m := Restored(l, cpu);
    forall id | 0 <= id < |m.log|
      ensures Located(m, id)
    {
      assert Located(l, id);
    }
  }

  lemma SettlePlaces(l: Ledger, cpu: nat)
    requires Placed(l) && cpu in l.frames && l.frames[cpu].end >= l.log[l.frames[cpu].id].start
    ensures Placed(Settle(l, cpu))
  {
    var m := Settle(l, cpu);
    forall id | 0 <= id < |m.log|
      ensures Located(m, id)
    {
      assert Located(l, id);
    }
  }

  lemma SupersedingKeeps(l: Ledger, bio: nat)
    requires Inv(l)
    ensures bio in l.pending ==> l.pending[bio] < |l.places|
    ensures Inv(Superseding(l, bio)) && bio !in Superseding(l, bio).pending
  {
    SupersedingPlaces(l, bio);
    if bio in l.pending {
      DroppedUpdate(l.places, l.pending[bio], Discarded(Superseded));
    }
  }

  lemma FreshKeeps(l: Ledger, a: Admission)
    requires Inv(l) && a.bio !in l.pending
    ensures Inv(Fresh(l, a))
  {
    FreshPlaces(l, a);
    hide Placed;
    assert (l.places + [Pending(a.bio)])[..|l.places|] == l.places;
  }

  lemma AdmittedKeeps(l: Ledger, a: Admission)
    requires Inv(l)
    ensures a.bio in l.pending ==> l.pending[a.bio] < |l.places|
    ensures Inv(Admitted(l, a))
  {
    hide Inv, Superseding, Fresh;
    SupersedingKeeps(l, a.bio);
    FreshKeeps(Superseding(l, a.bio), a);
  }

  lemma ClearedKeeps(l: Ledger, cpu: nat, reason: Reason)
    requires Inv(l) && (reason == Faulted ==> !l.healthy)
    ensures Inv(Cleared(l, cpu, reason))
  {
    ClearedPlaces(l, cpu, reason);
    if cpu in l.frames {
      DroppedUpdate(l.places, l.frames[cpu].id, Discarded(reason));
    }
  }

  lemma ClaimedKeeps(l: Ledger, bio: nat, cpu: nat, end: nat, key: Key)
    requires Inv(l) && bio in l.pending && cpu !in l.frames
    ensures Inv(Claimed(l, bio, cpu, end, key))
  {
    ClaimedPlaces(l, bio, cpu, end, key);
    DroppedUpdate(l.places, l.pending[bio], InFrame(cpu));
  }

  lemma RestoredKeeps(l: Ledger, cpu: nat)
    requires Inv(l) && cpu in l.frames && l.log[l.frames[cpu].id].bio !in l.pending
    ensures Inv(Restored(l, cpu))
  {
    RestoredPlaces(l, cpu);
    DroppedUpdate(l.places, l.frames[cpu].id, Pending(l.log[l.frames[cpu].id].bio));
  }

  lemma SettleKeeps(l: Ledger, cpu: nat)
    requires Inv(l) && cpu in l.frames && l.frames[cpu].end >= l.log[l.frames[cpu].id].start
    ensures Inv(Settle(l, cpu))
  {
    SettlePlaces(l, cpu);
    DroppedUpdate(l.places, l.frames[cpu].id, Settled(|l.settled|));
  }

  // ---------------------------------------------------------------- probes

  /** Per row and CPU, the waits its counter was fed since the row was created. */
  type Rows = map<Key, map<nat, seq<nat>>>

  datatype State = State(
    l: Ledger,
    owners: map<nat, Identity>,
    retired: set<Identity>,
    rows: Rows,
    reclaimed: set<Identity>)

  const INITIAL := State(EMPTY, map[], {}, map[], {})

  /** One probe.  A zero `bio` is a waiter that could not be read, flags are the
      outcomes of the map helpers, and `identity` is what the kernel structures say
      when the owner is not cached. */
  datatype Event =
    | Admit(bio: nat, now: nat, operation: nat, insertOk: bool)
    | WakeEntry(cpu: nat, bio: nat, iocg: nat, now: nat, identity: Option<Identity>,
                ownerOk: bool, rowOk: bool, deleteOk: bool)
    | WakeReturn(cpu: nat, ret: int, restoreOk: bool)
    | PdFree(iocg: nat, retireOk: bool, deleteOk: bool)
    | Reclaim(consumed: Identity)
    | Fault

  function Fail(s: State): State {
    s.(l := Unhealthy(s.l))
  }

  function AppendWait(rows: Rows, key: Key, cpu: nat, wait: nat): Rows
    requires key in rows
  {
    var row: map<nat, seq<nat>> := rows[key];
    rows[key := row[cpu := RowOf(rows, key, cpu) + [wait]]]
  }

  /** The waits counted for one CPU of a row; a missing row counts nothing. */
  function RowOf(rows: Rows, key: Key, cpu: nat): seq<nat> {
    if key in rows && cpu in rows[key] then rows[key][cpu] else []
  }

  function AdmitStep(s: State, bio: nat, now: nat, operation: nat, insertOk: bool): State
    requires Inv(s.l)
  {
    if !s.l.healthy then s
    else if bio == 0 || !insertOk then Fail(s)
    else s.(l := Admitted(s.l, Admission(bio, now, operation)))
  }

  /** `iocost_ensure_owner` */
  function OwnerOf(s: State, iocg: nat, identity: Option<Identity>, ownerOk: bool): Option<Identity> {
    if iocg in s.owners then Some(s.owners[iocg])
    else if ownerOk then identity
    else None
  }

  /** `iocost_ensure_aggregate` */
  function EnsureRow(rows: Rows, key: Key): Rows {
    if key in rows then rows else rows[key := map[]]
  }

  function WakeEntryStep(s: State, e: Event): State
    requires Inv(s.l) && e.WakeEntry?
  {
    // Whatever the frame still holds never got its return.
    ClearedKeeps(s.l, e.cpu, MissedReturn);
    ClaimStep(s.(l := Cleared(s.l, e.cpu, MissedReturn)), e)
  }

  /** The claim: the sample moves from the pending map into the frame. */
  function ClaimStep(s: State, e: Event): State
    requires Inv(s.l) && e.WakeEntry?
  {
    if !s.l.healthy then s
    else if e.bio == 0 then Fail(s)
    else if e.bio !in s.l.pending then s
    else
      var a := s.l.log[s.l.pending[e.bio]];
      var owner := OwnerOf(s, e.iocg, e.identity, e.ownerOk);
      if a.start == 0 || owner.None? then Fail(s)
      else
        var s1 := s.(owners := s.owners[e.iocg := owner.value]);
        var key := Key(owner.value, a.operation);
        if key !in s.rows && !e.rowOk then Fail(s1)
        else
          var s2 := s1.(rows := EnsureRow(s.rows, key));
          if !e.deleteOk then Fail(s2) else s2.(l := Claimed(s.l, e.bio, e.cpu, e.now, key))
  }

  function WakeReturnStep(s: State, cpu: nat, ret: int, restoreOk: bool): State
    requires Inv(s.l)
  {
    if cpu !in s.l.frames then s
    else
      var held := s.l.frames[cpu];
      var a := s.l.log[held.id];
      var faulted := s.(l := Cleared(Unhealthy(s.l), cpu, Faulted));
      if ret == -1 then
        if a.bio in s.l.pending || !restoreOk then faulted else s.(l := Restored(s.l, cpu))
      else if ret != 0 then faulted
      else if held.key !in s.rows then s.(l := Cleared(s.l, cpu, RowGone))
      else if held.end < a.start then faulted
      else Settles(s, cpu)
  }

  function PdFreeStep(s: State, iocg: nat, retireOk: bool, deleteOk: bool): State {
    if iocg !in s.owners then s
    else
      var owner := s.owners[iocg];
      var s1 := if owner in s.retired then s
                else if retireOk then s.(retired := s.retired + {owner})
                else Fail(s);
      if deleteOk then s1.(owners := s1.owners - {iocg}) else Fail(s1)
  }

  /** User space consumed the final counters of a retired identity. */
  function ReclaimStep(s: State, consumed: Identity): State {
    if consumed !in s.retired then s
    else s.(rows := map k | k in s.rows && k.identity != consumed :: s.rows[k],
            retired := s.retired - {consumed},
            reclaimed := s.reclaimed + {consumed})
  }

  function Step(s: State, e: Event): State
    requires Inv(s.l)
  {
    match e
    case Admit(bio, now, operation, insertOk) => AdmitStep(s, bio, now, operation, insertOk)
    case WakeEntry(_, _, _, _, _, _, _, _) => WakeEntryStep(s, e)
    case WakeReturn(cpu, ret, restoreOk) => WakeReturnStep(s, cpu, ret, restoreOk)
    case PdFree(iocg, retireOk, deleteOk) => PdFreeStep(s, iocg, retireOk, deleteOk)
    case Reclaim(consumed) => ReclaimStep(s, consumed)
    case Fault => Fail(s)
  }

  // ------------------------------------------------------------ invariants

  /** What the settlements fed to one CPU of one row. */
  function Waits(settled: seq<Settlement>, key: Key, cpu: nat): seq<nat> {
    if settled == [] then []
    else
      var x := settled[|settled| - 1];
      Waits(settled[..|settled| - 1], key, cpu) + if x.key == key && x.cpu == cpu then [x.wait] else []
  }

  ghost predicate RowsExact(rows: Rows, reclaimed: set<Identity>, settled: seq<Settlement>) {
    forall key: Key, cpu: nat :: key.identity !in reclaimed ==>
      RowOf(rows, key, cpu) == Waits(settled, key, cpu)
  }

  /** User space can still find the rows of this identity: it is live or retired. */
  ghost predicate Findable(owners: map<nat, Identity>, retired: set<Identity>, identity: Identity) {
    identity in retired || exists g :: g in owners && owners[g] == identity
  }

  ghost predicate AllFindable(s: State) {
    forall key :: key in s.rows ==> Findable(s.owners, s.retired, key.identity)
  }

  ghost predicate Good(s: State) {
    && Inv(s.l)
    && RowsExact(s.rows, s.reclaimed, s.l.settled)
    && (s.l.healthy ==> AllFindable(s))
  }

  lemma FailKeeps(s: State)
    requires Inv(s.l) && RowsExact(s.rows, s.reclaimed, s.l.settled)
    ensures Good(Fail(s))
  {
    UnhealthyPlaces(s.l);
  }

  lemma AdmitKeeps(s: State, bio: nat, now: nat, operation: nat, insertOk: bool)
    requires Good(s)
    ensures Good(AdmitStep(s, bio, now, operation, insertOk))
  {
    FailKeeps(s);
    AdmittedKeeps(s.l, Admission(bio, now, operation));
  }

  lemma OwnerKeeps(owners: map<nat, Identity>, retired: set<Identity>, iocg: nat, owner: Identity, identity: Identity)
    requires iocg in owners ==> owners[iocg] == owner
    requires identity == owner || Findable(owners, retired, identity)
    ensures Findable(owners[iocg := owner], retired, identity)
  {
    var after := owners[iocg := owner];
    if identity == owner {
      assert iocg in after && after[iocg] == identity;
    } else if identity !in retired {
      var g :| g in owners && owners[g] == identity;
      assert g in after && after[g] == identity;
    }
  }

  lemma RowKeeps(s: State, iocg: nat, owner: Identity, operation: nat)
    requires Good(s) && (iocg in s.owners ==> s.owners[iocg] == owner)
    ensures Good(s.(owners := s.owners[iocg := owner]))
    ensures Good(s.(owners := s.owners[iocg := owner], rows := EnsureRow(s.rows, Key(owner, operation))))
  {
    hide Inv, Findable;
    var rows := EnsureRow(s.rows, Key(owner, operation));
    forall key: Key, cpu: nat | key.identity !in s.reclaimed
      ensures RowOf(rows, key, cpu) == Waits(s.l.settled, key, cpu)
    {
      assert RowOf(rows, key, cpu) == RowOf(s.rows, key, cpu);
    }
    if s.l.healthy {
      forall key | key in rows
        ensures Findable(s.owners[iocg := owner], s.retired, key.identity)
      {
        OwnerKeeps(s.owners, s.retired, iocg, owner, key.identity);
      }
    }
  }

  lemma WakeEntryKeeps(s: State, e: Event)
    requires Good(s) && e.WakeEntry?
    ensures Good(WakeEntryStep(s, e))
  {
    ClearedKeeps(s.l, e.cpu, MissedReturn);
    ClaimKeeps(s.(l := Cleared(s.l, e.cpu, MissedReturn)), e);
  }

  lemma ClaimKeeps(s: State, e: Event)
    requires Good(s) && e.WakeEntry? && e.cpu !in s.l.frames
    ensures Good(ClaimStep(s, e))
  {
    hide Inv, RowsExact, AllFindable, Claimed, EnsureRow;
    FailKeeps(s);
    var owner := OwnerOf(s, e.iocg, e.identity, e.ownerOk);
    if s.l.healthy && e.bio in s.l.pending && owner.Some? {
      PendingLogged(s.l, e.bio);
      var a := s.l.log[s.l.pending[e.bio]];
      var key := Key(owner.value, a.operation);
      RowKeeps(s, e.iocg, owner.value, a.operation);
      var s1 := s.(owners := s.owners[e.iocg := owner.value]);
      FailKeeps(s1);
      FailKeeps(s1.(rows := EnsureRow(s.rows, key)));
      ClaimedKeeps(s.l, e.bio, e.cpu, e.now, key);
      ClaimedGood(s1.(rows := EnsureRow(s.rows, key)), e.bio, e.cpu, e.now, key);
    }
  }

  lemma ClaimedGood(s: State, bio: nat, cpu: nat, end: nat, key: Key)
    requires Good(s) && bio in s.l.pending && cpu !in s.l.frames
    ensures Good(s.(l := Claimed(s.l, bio, cpu, end, key)))
  {
    hide RowsExact, AllFindable;
    ClaimedKeeps(s.l, bio, cpu, end, key);
    var t := s.(l := Claimed(s.l, bio, cpu, end, key));
    if s.l.healthy {
      SameRowsFindable(s, t);
    }
  }

  lemma SameRowsFindable(s: State, t: State)
    requires AllFindable(s) && t == s.(l := t.l)
    ensures AllFindable(t)
  {
  }

  lemma BioLogged(l: Ledger, bio: nat)
    requires Inv(l) && bio in l.pending
    ensures l.pending[bio] < |l.log| && l.log[l.pending[bio]].bio == bio
  {
  }

  lemma PendingLogged(l: Ledger, bio: nat)
    requires Inv(l) && bio in l.pending
    ensures l.pending[bio] < |l.log| == |l.places|
  {
  }

  lemma RowAppend(rows: Rows, reclaimed: set<Identity>, settled: seq<Settlement>, x: Settlement)
    requires RowsExact(rows, reclaimed, settled) && x.key in rows
    ensures RowsExact(AppendWait(rows, x.key, x.cpu, x.wait), reclaimed, settled + [x])
  {
    var after := AppendWait(rows, x.key, x.cpu, x.wait);
    assert (settled + [x])[..|settled|] == settled;
    forall key: Key, cpu: nat | key.identity !in reclaimed
      ensures RowOf(after, key, cpu) == Waits(settled + [x], key, cpu)
    {
      assert RowOf(rows, key, cpu) == Waits(settled, key, cpu);
    }
  }

  lemma FrameLogged(l: Ledger, cpu: nat)
    requires Inv(l) && cpu in l.frames
    ensures l.frames[cpu].id < |l.log| == |l.places|
  {
  }

  /** The one return that settles. */
  function Settles(s: State, cpu: nat): State
    requires Inv(s.l) && cpu in s.l.frames && s.l.frames[cpu].key in s.rows
    requires s.l.frames[cpu].end >= s.l.log[s.l.frames[cpu].id].start
  {
    var held := s.l.frames[cpu];
    s.(l := Settle(s.l, cpu), rows := AppendWait(s.rows, held.key, cpu, held.end - s.l.log[held.id].start))
  }

  lemma SettlesRows(s: State, cpu: nat)
    requires Inv(s.l) && RowsExact(s.rows, s.reclaimed, s.l.settled)
    requires cpu in s.l.frames && s.l.frames[cpu].key in s.rows
    requires s.l.frames[cpu].end >= s.l.log[s.l.frames[cpu].id].start
    ensures RowsExact(Settles(s, cpu).rows, s.reclaimed, Settles(s, cpu).l.settled)
  {
    hide Inv, RowsExact, AppendWait;
    FrameLogged(s.l, cpu);
    var held := s.l.frames[cpu];
    var wait := held.end - s.l.log[held.id].start;
    RowAppend(s.rows, s.reclaimed, s.l.settled, Settlement(held.id, cpu, held.key, held.end, wait));
  }

  lemma SettlesKeeps(s: State, cpu: nat)
    requires Good(s) && cpu in s.l.frames && s.l.frames[cpu].key in s.rows
    requires s.l.frames[cpu].end >= s.l.log[s.l.frames[cpu].id].start
    ensures Good(Settles(s, cpu))
  {
    SettlesRows(s, cpu);
    SettleKeeps(s.l, cpu);
    hide Inv, RowsExact, Findable;
  }

  lemma FaultedKeeps(s: State, cpu: nat)
    requires Good(s)
    ensures Good(s.(l := Cleared(Unhealthy(s.l), cpu, Faulted)))
  {
    UnhealthyPlaces(s.l);
    ClearedKeeps(Unhealthy(s.l), cpu, Faulted);
  }

  lemma WakeReturnKeeps(s: State, cpu: nat, ret: int, restoreOk: bool)
    requires Good(s)
    ensures Good(WakeReturnStep(s, cpu, ret, restoreOk))
  {
    if cpu in s.l.frames {
      FaultedKeeps(s, cpu);
      ClearedKeeps(s.l, cpu, RowGone);
      FrameLogged(s.l, cpu);
      hide Inv, RowsExact, Settles;
      var held := s.l.frames[cpu];
      if ret == -1 && s.l.log[held.id].bio !in s.l.pending {
        RestoredKeeps(s.l, cpu);
      } else if ret == 0 && held.key in s.rows && held.end >= s.l.log[held.id].start {
        SettlesKeeps(s, cpu);
      }
    }
  }

  lemma PdFreeKeeps(s: State, iocg: nat, retireOk: bool, deleteOk: bool)
    requires Good(s)
    ensures Good(PdFreeStep(s, iocg, retireOk, deleteOk))
  {
    hide Inv, RowsExact;
    if iocg in s.owners {
      var owner := s.owners[iocg];
      var t := PdFreeStep(s, iocg, retireOk, deleteOk);
      UnhealthyInv(s.l);
      if t.l.healthy {
        forall key | key in t.rows
          ensures Findable(t.owners, t.retired, key.identity)
        {
          assert Findable(s.owners, s.retired, key.identity);
          if key.identity !in t.retired {
            var g :| g in s.owners && s.owners[g] == key.identity;
            assert g in t.owners && t.owners[g] == key.identity;
          }
        }
      }
    }
  }

  lemma UnhealthyInv(l: Ledger)
    requires Inv(l)
    ensures Inv(Unhealthy(l))
  {
    UnhealthyPlaces(l);
  }

  lemma ReclaimKeeps(s: State, consumed: Identity)
    requires Good(s)
    ensures Good(ReclaimStep(s, consumed))
  {
    hide Inv;
    var t := ReclaimStep(s, consumed);
    forall key: Key, cpu: nat | key.identity !in t.reclaimed
      ensures RowOf(t.rows, key, cpu) == Waits(t.l.settled, key, cpu)
    {
      assert RowOf(s.rows, key, cpu) == Waits(s.l.settled, key, cpu);
    }
    if s.l.healthy {
      forall key | key in t.rows
        ensures Findable(t.owners, t.retired, key.identity)
      {
        assert Findable(s.owners, s.retired, key.identity);
      }
    }
  }

  lemma StepKeeps(s: State, e: Event)
    requires Good(s)
    ensures Good(Step(s, e))
  {
    hide Good, Inv;
    GoodInv(s);
    match e
    case Admit(bio, now, operation, insertOk) => AdmitKeeps(s, bio, now, operation, insertOk);
    case WakeEntry(_, _, _, _, _, _, _, _) => WakeEntryKeeps(s, e);
    case WakeReturn(cpu, ret, restoreOk) => WakeReturnKeeps(s, cpu, ret, restoreOk);
    case PdFree(iocg, retireOk, deleteOk) => PdFreeKeeps(s, iocg, retireOk, deleteOk);
    case Reclaim(consumed) => ReclaimKeeps(s, consumed);
    case Fault => FailKeeps(s);
  }

  lemma GoodInv(s: State)
    requires Good(s)
    ensures Inv(s.l) && RowsExact(s.rows, s.reclaimed, s.l.settled)
  {
  }

  // ------------------------------------------------------------------ runs

  function RunFrom(s: State, events: seq<Event>): (t: State)
    requires Good(s)
    ensures Good(t)
  {
    if events == [] then s
    else
      var before := RunFrom(s, events[..|events| - 1]);
      StepKeeps(before, events[|events| - 1]);
      Step(before, events[|events| - 1])
  }

  lemma InitialGood()
    ensures Good(INITIAL)
  {
  }

  /** The state that these probes reach from the start. */
  ghost function Run(events: seq<Event>): (s: State)
    ensures Good(s)
  {
    InitialGood();
    RunFrom(INITIAL, events)
  }

  /** In every interleaving: no admission settles twice, each settlement carries the
      end minus the start of its own admission, everything admitted is settled,
      pending, held by a frame or explicitly discarded, and while the session is
      healthy nothing was discarded by a fault. */
  lemma RunAccounts(events: seq<Event>)
    ensures var l := Run(events).l;
            && (forall i, j :: 0 <= i < j < |l.settled| ==> l.settled[i].id != l.settled[j].id)
            && (forall i :: 0 <= i < |l.settled| ==>
                  && l.settled[i].id < |l.log|
                  && l.settled[i].wait == l.settled[i].end - l.log[l.settled[i].id].start)
            && |l.log| == |l.settled| + |l.pending| + |l.frames| + Dropped(l.places)
            && (l.healthy ==> forall p :: p in l.places ==> p != Discarded(Faulted))
  {
    hide Run, Good, Inv, Dropped;
    GoodInv(Run(events));
    SettledAlone(Run(events).l);
    NoFaults(Run(events).l);
    Tallied(Run(events).l);
  }

  lemma SettledAlone(l: Ledger)
    requires Inv(l)
    ensures forall i, j :: 0 <= i < j < |l.settled| ==> l.settled[i].id != l.settled[j].id
    ensures forall i :: 0 <= i < |l.settled| ==>
              && l.settled[i].id < |l.log|
              && l.settled[i].wait == l.settled[i].end - l.log[l.settled[i].id].start
  {
    forall i, j | 0 <= i < j < |l.settled|
      ensures l.settled[i].id != l.settled[j].id
    {
      assert l.places[l.settled[i].id] == Settled(i) && l.places[l.settled[j].id] == Settled(j);
    }
  }

  lemma NoFaults(l: Ledger)
    requires Inv(l)
    ensures l.healthy ==> forall p :: p in l.places ==> p != Discarded(Faulted)
  {
    if l.healthy {
      forall p | p in l.places
        ensures p != Discarded(Faulted)
      {
        var id: nat :| id < |l.places| && l.places[id] == p;
        assert Located(l, id);
      }
    }
  }

  lemma Tallied(l: Ledger)
    requires Inv(l)
    ensures |l.log| == |l.settled| + |l.pending| + |l.frames| + Dropped(l.places)
  {
  }

  /** Every counter row that user space has not reclaimed holds, modulo its two
      fields, exactly the settlements of its CPU and key. */
  lemma RunCounters(events: seq<Event>, key: Key, cpu: nat)
    ensures var s := Run(events);
            var waits := Waits(s.l.settled, key, cpu);
            key.identity !in s.reclaimed ==>
              && Count(Fold(0, RowOf(s.rows, key, cpu))) == |waits| % COUNT_MODULUS
              && Wait10us(Fold(0, RowOf(s.rows, key, cpu))) == Units(waits) % WAIT_MODULUS
  {
    hide Run, Good, Inv, RowsExact;
    var s := Run(events);
    GoodInv(s);
    if key.identity !in s.reclaimed {
      RowFields(s.rows, s.reclaimed, s.l.settled, key, cpu);
    }
  }

  lemma RowFields(rows: Rows, reclaimed: set<Identity>, settled: seq<Settlement>, key: Key, cpu: nat)
    requires RowsExact(rows, reclaimed, settled) && key.identity !in reclaimed
    ensures var waits := Waits(settled, key, cpu);
            && Count(Fold(0, RowOf(rows, key, cpu))) == |waits| % COUNT_MODULUS
            && Wait10us(Fold(0, RowOf(rows, key, cpu))) == Units(waits) % WAIT_MODULUS
  {
    FoldFields(0, RowOf(rows, key, cpu));
    assert RowOf(rows, key, cpu) == Waits(settled, key, cpu);
  }

  /** Whatever it returns, a wake return empties its own frame, leaves the log and
      the other frames alone, and at most puts its own sample back. */
  lemma ReturnEffect(s: State, c: nat, ret: int, restoreOk: bool)
    requires Inv(s.l) && c in s.l.frames
    ensures var t := WakeReturnStep(s, c, ret, restoreOk);
            var id := s.l.frames[c].id;
            && id < |s.l.log|
            && t.l.log == s.l.log && t.l.frames == s.l.frames - {c} && t.rows.Keys == s.rows.Keys
            && (!s.l.healthy ==> !t.l.healthy)
            && (t.l.pending == s.l.pending || t.l.pending == s.l.pending[s.l.log[id].bio := id])
  {
    hide Inv;
    FrameLogged(s.l, c);
  }

  lemma UnhealthyEntry(s: State, e: Event)
    requires Inv(s.l) && !s.l.healthy && e.WakeEntry?
    ensures !WakeEntryStep(s, e).l.healthy && WakeEntryStep(s, e).l.log == s.l.log
  {
    ClearedKeeps(s.l, e.cpu, MissedReturn);
    hide Inv;
  }

  lemma UnhealthyStep(s: State, e: Event)
    requires Inv(s.l) && !s.l.healthy
    ensures !Step(s, e).l.healthy && Step(s, e).l.log == s.l.log
  {
    hide Inv, WakeReturnStep, WakeEntryStep;
    if e.WakeEntry? {
      UnhealthyEntry(s, e);
    } else if e.WakeReturn? {
      if e.cpu in s.l.frames {
        ReturnEffect(s, e.cpu, e.ret, e.restoreOk);
      } else {
        IdleReturn(s, e.cpu, e.ret, e.restoreOk);
      }
    }
  }

  lemma IdleReturn(s: State, c: nat, ret: int, restoreOk: bool)
    requires Inv(s.l) && c !in s.l.frames
    ensures WakeReturnStep(s, c, ret, restoreOk) == s
  {
  }

  /** A failure is sticky: no probe restores a healthy status. */
  lemma {:induction false} FailureIsSticky(s: State, events: seq<Event>)
    requires Good(s) && !s.l.healthy
    ensures var t := RunFrom(s, events);
            !t.l.healthy && t.l.log == s.l.log
    decreases |events|
  {
    if events != [] {
      FailureIsSticky(s, events[..|events| - 1]);
      GoodInv(RunFrom(s, events[..|events| - 1]));
      hide Good, Inv, Step;
      UnhealthyStep(RunFrom(s, events[..|events| - 1]), events[|events| - 1]);
    }
  }
}
