/** The memory-watch tracker: containers, watch registrations and pending candidates
    are three maps over shared entries that every call must keep consistent. */
module CgroupTracker {
  import opened Options

  /** A container generation and where its memory cgroup is. */
  datatype Ref = Ref(id: string, generation: nat, path: string) {
    predicate SameKey(other: Ref) {
      id == other.id && generation == other.generation
    }
  }

  /** A cgroup directory instance; `directory` identifies the file. */
  datatype Cgroup = Cgroup(path: string, directory: Option<nat>) {
    predicate SameInstance(other: Cgroup) {
      path == other.path && directory.Some? && directory == other.directory
    }
  }

  datatype Error =
    | Canceled | Exhausted | WatchClosed | Overflow | Conflict | Unavailable | OtherError
    | Joined(first: Error, second: Error)

  /** `errors.Is` */
  predicate Is(e: Error, kind: Error) {
    e == kind || (e.Joined? && (Is(e.first, kind) || Is(e.second, kind)))
  }

  /** Errors that end the whole run; the rest skip one container. */
  predicate Fatal(e: Error) {
    Is(e, Canceled) || Is(e, Exhausted) || Is(e, WatchClosed) || Is(e, Overflow) || Is(e, Conflict)
  }

  function Join(a: Option<Error>, b: Error): Error {
    if a.Some? then Joined(a.value, b) else b
  }

  /** One container's binding; a zero registration means no active watch. */
  class WatchState {
    var container: Ref
    var cgroup: Cgroup
    var registration: nat

    constructor (container: Ref, cgroup: Cgroup)
      ensures this.container == container && this.cgroup == cgroup && registration == 0
    {
      this.container, this.cgroup, registration := container, cgroup, 0;
    }
  }

  /** What a registration stands for. */
  datatype Binding = Binding(entry: WatchState, container: Ref)

  /** What can happen to a registration: a retired or rebound one has to be reported. */
  datatype Step =
    | Registers(id: nat, binding: Binding)
    | Retires(id: nat)
    | Rebinds(id: nat, binding: Binding)

  /** A rebinding keeps the entry and moves it to a newer generation. */
  ghost predicate Possible(m: map<nat, Binding>, s: Step) {
    match s
    case Registers(id, _) => id !in m
    case Retires(id) => id in m
    case Rebinds(id, b) =>
      id in m && b.entry == m[id].entry && b.container.generation > m[id].container.generation
  }

  ghost function Taken(m: map<nat, Binding>, s: Step): map<nat, Binding> {
    if s.Retires? then m - {s.id} else m[s.id := s.binding]
  }

  ghost function Play(m: map<nat, Binding>, steps: seq<Step>): map<nat, Binding> {
    if steps == [] then m else Taken(Play(m, steps[..|steps| - 1]), steps[|steps| - 1])
  }

  /** The steps lead from one set of bindings to the other, each of them possible in
      its turn. */
  ghost predicate Leads(base: map<nat, Binding>, steps: seq<Step>, now: map<nat, Binding>) {
    && Play(base, steps) == now
    && forall i :: 0 <= i < |steps| ==> Possible(Play(base, steps[..i]), steps[i])
  }

  ghost function ReportOf(s: Step): seq<nat> {
    if s.Registers? then [] else [s.id]
  }

  /** The registrations that the steps retire or rebind, in order. */
  ghost function Reports(steps: seq<Step>): seq<nat> {
    if steps == [] then [] else Reports(steps[..|steps| - 1]) + ReportOf(steps[|steps| - 1])
  }

  ghost function Retired(steps: seq<Step>): set<nat> {
    set i | 0 <= i < |steps| && steps[i].Retires? :: steps[i].id
  }

  /** The entries that the steps register. */
  ghost function Entered(steps: seq<Step>): set<WatchState> {
    set i | 0 <= i < |steps| && steps[i].Registers? :: steps[i].binding.entry
  }

  ghost function Entries(m: map<nat, Binding>): set<WatchState> {
    set r | r in m :: m[r].entry
  }

  /** The bindings, the candidates and the report of a tracker. */
  datatype View = View(bindings: map<nat, Binding>, pending: map<nat, WatchState>, invalidated: seq<nat>)

  /** The bindings changed by these steps, exactly their retirements and rebindings
      were reported, and exactly the candidates they retired are gone. */
  ghost predicate Moved(a: View, steps: seq<Step>, b: View) {
    && Leads(a.bindings, steps, b.bindings)
    && b.invalidated == a.invalidated + Reports(steps)
    && b.pending == a.pending - Retired(steps)
  }

  lemma MovedNone(a: View)
    ensures Moved(a, [], a)
  {
    assert a.pending - {} == a.pending && Retired([]) == {};
  }

  lemma MovedOne(a: View, s: Step, b: View)
    requires Possible(a.bindings, s) && b.bindings == Taken(a.bindings, s)
    requires b.invalidated == a.invalidated + ReportOf(s)
    requires b.pending == if s.Retires? then a.pending - {s.id} else a.pending
    ensures Moved(a, [s], b)
  {
    assert [s][..0] == [];
    assert Reports([s]) == ReportOf(s);
    assert Retired([s]) == if s.Retires? then {s.id} else {};
    assert a.pending - {} == a.pending;
  }

  lemma {:induction false} PlayJoins(m: map<nat, Binding>, a: seq<Step>, b: seq<Step>)
    ensures Play(m, a + b) == Play(Play(m, a), b)
    decreases |b|
  {
    hide Taken;
    if b == [] {
      assert a + b == a;
    } else {
      var n := |b| - 1;
      PlayJoins(m, a, b[..n]);
      assert (a + b)[..|a + b| - 1] == a + b[..n];
    }
  }

  lemma {:induction false} ReportsJoin(a: seq<Step>, b: seq<Step>)
    ensures Reports(a + b) == Reports(a) + Reports(b)
    decreases |b|
  {
    hide ReportOf;
    if b == [] {
      assert a + b == a;
    } else {
      var n := |b| - 1;
      ReportsJoin(a, b[..n]);
      assert (a + b)[..|a + b| - 1] == a + b[..n];
    }
  }

  lemma LeadsThen(x: map<nat, Binding>, a: seq<Step>, y: map<nat, Binding>, b: seq<Step>, z: map<nat, Binding>)
    requires Leads(x, a, y) && Leads(y, b, z)
    ensures Leads(x, a + b, z)
  {
    hide Possible, Play;
    PlayJoins(x, a, b);
    forall i | 0 <= i < |a + b|
      ensures Possible(Play(x, (a + b)[..i]), (a + b)[i])
    {
      if i < |a| {
        assert (a + b)[..i] == a[..i];
      } else {
        assert (a + b)[..i] == a + b[..i - |a|];
        PlayJoins(x, a, b[..i - |a|]);
      }
    }
  }

  lemma RetiredJoins(a: seq<Step>, b: seq<Step>)
    ensures Retired(a + b) == Retired(a) + Retired(b)
  {
    forall x | x in Retired(a)
      ensures x in Retired(a + b)
    {
      var i :| 0 <= i < |a| && a[i].Retires? && a[i].id == x;
      assert (a + b)[i] == a[i];
    }
    forall x | x in Retired(b)
      ensures x in Retired(a + b)
    {
      var i :| 0 <= i < |b| && b[i].Retires? && b[i].id == x;
      assert (a + b)[|a| + i] == b[i];
    }
  }

  lemma MovedThen(x: View, a: seq<Step>, y: View, b: seq<Step>, z: View)
    requires Moved(x, a, y) && Moved(y, b, z)
    ensures Moved(x, a + b, z)
  {
    hide Leads, Retired, Reports;
    LeadsThen(x.bindings, a, y.bindings, b, z.bindings);
    ReportsJoin(a, b);
    assert z.invalidated == x.invalidated + (Reports(a) + Reports(b));
    RetiredJoins(a, b);
    assert (x.pending - Retired(a)) - Retired(b) == x.pending - (Retired(a) + Retired(b));
  }

  lemma EnteredJoins(a: seq<Step>, b: seq<Step>)
    ensures Entered(a + b) == Entered(a) + Entered(b)
  {
    forall x | x in Entered(a)
      ensures x in Entered(a + b)
    {
      var i :| 0 <= i < |a| && a[i].Registers? && a[i].binding.entry == x;
      assert (a + b)[i] == a[i];
    }
    forall x | x in Entered(b)
      ensures x in Entered(a + b)
    {
      var i :| 0 <= i < |b| && b[i].Registers? && b[i].binding.entry == x;
      assert (a + b)[|a| + i] == b[i];
    }
  }

  lemma NoneEntered()
    ensures Entered([]) == {}
  {
  }

  lemma OneEntered(s: Step)
    ensures Entered([s]) == if s.Registers? then {s.binding.entry} else {}
  {
    assert [s][0] == s;
  }

  ghost predicate Stands(base: map<nat, Binding>, now: map<nat, Binding>, r: nat)
    requires r in base
  {
    r in now && now[r] == base[r]
  }

  /** Of the registrations bound before, exactly those are reported that are now unbound
      or bound differently. */
  ghost predicate Reported(base: map<nat, Binding>, now: map<nat, Binding>, invalidated: seq<nat>) {
    forall r :: r in base ==> (r in invalidated <==> !Stands(base, now, r))
  }

  /** Bound to another entry, or to a newer generation of the same. */
  ghost predicate Newly(was: Binding, now: Binding) {
    now.entry != was.entry || now.container.generation > was.container.generation
  }

  /** What is known of one registration while the steps are played. */
  ghost predicate Follows(base: map<nat, Binding>, now: map<nat, Binding>, r: nat, reported: bool)
    requires r in base
  {
    if reported then r !in now || Newly(base[r], now[r]) else Stands(base, now, r)
  }

  lemma FollowsOne(base: map<nat, Binding>, m: map<nat, Binding>, s: Step, r: nat, reported: bool)
    requires r in base && Possible(m, s) && Follows(base, m, r, reported)
    requires s.Registers? ==> s.binding.entry != base[r].entry
    ensures Follows(base, Taken(m, s), r, reported || r in ReportOf(s))
  {
  }

  lemma {:induction false} FollowsAll(base: map<nat, Binding>, steps: seq<Step>, r: nat)
    requires forall i :: 0 <= i < |steps| ==> Possible(Play(base, steps[..i]), steps[i])
    requires r in base && base[r].entry !in Entered(steps)
    ensures Follows(base, Play(base, steps), r, r in Reports(steps))
    decreases |steps|
  {
    hide Follows, Possible, Taken, ReportOf;
    if steps == [] {
      FollowsNone(base, r);
    } else {
      var n := |steps| - 1;
      forall i | 0 <= i < n
        ensures Possible(Play(base, steps[..n][..i]), steps[..n][i])
      {
        assert steps[..n][..i] == steps[..i];
      }
      assert steps == steps[..n] + [steps[n]];
      EnteredJoins(steps[..n], [steps[n]]);
      OneEntered(steps[n]);
      FollowsAll(base, steps[..n], r);
      FollowsOne(base, Play(base, steps[..n]), steps[n], r, r in Reports(steps[..n]));
    }
  }

  lemma FollowsNone(base: map<nat, Binding>, r: nat)
    requires r in base
    ensures Follows(base, base, r, false)
  {
  }

  /** A registration bound before is reported if and only if it is now unbound or bound
      differently, when no entry of before is registered anew. */
  lemma StepsReport(base: map<nat, Binding>, steps: seq<Step>, now: map<nat, Binding>)
    requires Leads(base, steps, now) && Entered(steps) !! Entries(base)
    ensures Reported(base, now, Reports(steps))
  {
    forall r | r in base
      ensures r in Reports(steps) <==> !Stands(base, now, r)
    {
      assert base[r].entry in Entries(base);
      FollowsAll(base, steps, r);
    }
  }

  /** Whatever is reported was registered and was retired or rebound by the step that
      reports it. */
  lemma {:induction false} ReportsAreSteps(base: map<nat, Binding>, steps: seq<Step>, r: nat)
    requires forall i :: 0 <= i < |steps| ==> Possible(Play(base, steps[..i]), steps[i])
    requires r in Reports(steps)
    ensures exists i :: 0 <= i < |steps| && steps[i].id == r && !steps[i].Registers? && r in Play(base, steps[..i])
    decreases |steps|
  {
    hide Possible, Play, Taken;
    var n := |steps| - 1;
    if r in Reports(steps[..n]) {
      forall i | 0 <= i < n
        ensures Possible(Play(base, steps[..n][..i]), steps[..n][i])
      {
        assert steps[..n][..i] == steps[..i];
      }
      ReportsAreSteps(base, steps[..n], r);
      var i :| 0 <= i < n && steps[..n][i].id == r && !steps[..n][i].Registers? && r in Play(base, steps[..n][..i]);
      assert steps[..n][..i] == steps[..i];
      assert steps[i].id == r && r in Play(base, steps[..i]);
    } else {
      PossibleIsBound(Play(base, steps[..n]), steps[n]);
      assert steps[n].id == r;
    }
  }

  lemma PossibleIsBound(m: map<nat, Binding>, s: Step)
    requires Possible(m, s) && !s.Registers?
    ensures s.id in m
  {
  }

  datatype Observation = Observation(cgroup: Cgroup, registration: nat, container: Ref)

  class Tracker {
    var containers: map<string, WatchState>
    var targets: map<nat, WatchState>
    var pending: map<nat, WatchState>
    var invalidated: seq<nat>
    var closed: bool

    constructor ()
      ensures Valid() && containers == map[] && targets == map[] && pending == map[] && !closed
    {
      containers, targets, pending, invalidated, closed := map[], map[], map[], [], false;
    }

    ghost predicate Valid()
      reads this`containers, this`targets, this`pending
      reads (containers.Values)`container, (containers.Values)`registration
      reads (targets.Values)`container, (targets.Values)`registration
    {
      && (forall id :: id in containers ==> containers[id].container.id == id)
      && (forall id :: id in containers && containers[id].registration != 0 ==>
            containers[id].registration in targets && targets[containers[id].registration] == containers[id])
      && (forall r :: r in targets ==>
            && r != 0 && targets[r].registration == r
            && targets[r].container.id in containers && containers[targets[r].container.id] == targets[r])
      && (forall r :: r in pending ==> r in targets && pending[r] == targets[r])
    }

    ghost function Bindings(): map<nat, Binding>
      reads this`targets, (targets.Values)`container
    {
      map r | r in targets :: Binding(targets[r], targets[r].container)
    }

    /** Which generation every container is bound to. */
    ghost function Refs(): map<string, Ref>
      reads this`containers, (containers.Values)`container
    {
      map id | id in containers :: containers[id].container
    }

    /** No two containers share a registration. */
    lemma RegistrationsAreExclusive(a: string, b: string)
      requires Valid() && a in containers && b in containers && a != b && containers[a].registration != 0
      ensures containers[a].registration != containers[b].registration
    {
    }

    lemma EntryAt(id: string)
      requires Valid() && id in containers
      ensures containers[id].container.id == id && containers[id] in containers.Values
    {
    }

    lemma RefsAt(id: string)
      ensures id in Refs() <==> id in containers
      ensures id in containers ==> Refs()[id] == containers[id].container
    {
    }

    lemma RefsKeys()
      ensures Refs().Keys == containers.Keys && |Refs()| == |containers|
    {
      assert Refs().Keys == containers.Keys;
    }

    lemma EntriesDiffer(id: string)
      requires Valid() && id in containers
      ensures forall other :: other in containers && other != id ==> containers[other] != containers[id]
    {
    }

    lemma TargetAt(r: nat)
      requires Valid() && r in targets
      ensures targets[r].container.id in containers && containers[targets[r].container.id] == targets[r]
      ensures targets[r].registration == r
    {
    }

    ghost function Snap(): View
      reads this`targets, this`pending, this`invalidated, (targets.Values)`container
    {
      View(Bindings(), pending, invalidated)
    }

    method Unregister(e: WatchState) returns (err: Option<Error>, ghost steps: seq<Step>)
      requires Valid() && e.container.id in containers && containers[e.container.id] == e
      modifies this`targets, this`pending, this`invalidated, e`registration
      ensures Valid() && Moved(old(Snap()), steps, Snap()) && Entered(steps) == {}
      ensures steps == if err.None? && old(e.registration) != 0 then [Retires(old(e.registration))] else []
      ensures e.registration == if err.None? then 0 else old(e.registration)
      ensures targets == if err.None? then old(targets) - {old(e.registration)} else old(targets)
    {
      hide Tracker.Valid, Moved;
      MovedNone(Snap());
      NoneEntered();
      OneEntered(Retires(e.registration));
      steps := [];
      var id := e.registration;
      if id == 0 {
        RegistrationsStartAtOne();
        assert targets - {0} == targets;
        return None, steps;
      }
      err := *;
      if err.Some? {
        return err, steps;
      }
      Retire(e);
      err, steps := None, [Retires(id)];
      assert Bindings() == old(Bindings()) - {id};
      MovedOne(old(Snap()), Retires(id), Snap());
    }

    lemma RegistrationsStartAtOne()
      requires Valid()
      ensures 0 !in targets
    {
    }

    method Retire(e: WatchState)
      requires Valid() && e.registration != 0 && e.container.id in containers && containers[e.container.id] == e
      modifies this`targets, this`pending, this`invalidated, e`registration
      ensures Valid() && e.registration == 0
      ensures old(e.registration) in old(targets) && targets == old(targets) - {old(e.registration)}
      ensures pending == old(pending) - {old(e.registration)}
      ensures invalidated == old(invalidated) + [old(e.registration)]
    {
      var id := e.registration;
      targets := targets - {id};
      pending := pending - {id};
      e.registration := 0;
      invalidated := invalidated + [id];
    }

    ghost predicate Holds(key: Ref)
      reads this`containers, (containers.Values)`container
    {
      key.id in containers && containers[key.id].container.SameKey(key)
    }

    method RemoveEntry(id: string) returns (err: Option<Error>, ghost steps: seq<Step>)
      requires Valid() && id in containers
      modifies this`containers, this`targets, this`pending, this`invalidated, {containers[id]}`registration
      ensures Valid() && containers == if err.None? then old(containers) - {id} else old(containers)
      ensures Refs() == if err.None? then old(Refs()) - {id} else old(Refs())
      ensures Moved(old(Snap()), steps, Snap()) && Entered(steps) == {}
    {
      hide Tracker.Valid, Tracker.Snap, Tracker.Refs, Moved;
      EntryAt(id);
      var entry := containers[id];
      err, steps := Unregister(entry);
      if err.None? {
        Drop(id);
      }
    }

    /** An entry without a registration can leave. */
    method Drop(id: string)
      requires Valid() && id in containers && containers[id].registration == 0
      modifies this`containers
      ensures Valid() && containers == old(containers) - {id} && Refs() == old(Refs()) - {id}
    {
      forall r | r in targets
        ensures targets[r].container.id != id
      {
        TargetAt(r);
      }
      containers := containers - {id};
    }

    method Enter(entry: WatchState)
      requires Valid() && entry.container.id !in containers && entry.registration == 0
      modifies this`containers
      ensures Valid() && containers == old(containers)[entry.container.id := entry]
      ensures Refs() == old(Refs())[entry.container.id := entry.container]
    {
      containers := containers[entry.container.id := entry];
    }

    method DeleteContainer(key: Ref) returns (err: Option<Error>, ghost steps: seq<Step>)
      requires Valid()
      modifies this`containers, this`targets, this`pending, this`invalidated, (containers.Values)`registration
      ensures Valid()
      ensures containers == if old(Holds(key)) && err.None? then old(containers) - {key.id} else old(containers)
      ensures Refs() == if err.None? then Without(old(Refs()), key) else old(Refs())
      ensures !old(Holds(key)) ==>
                err.None? && unchanged(this) && forall e :: e in old(containers.Values) ==> unchanged(e)
      ensures containers.Values <= old(containers.Values)
      ensures Moved(old(Snap()), steps, Snap()) && Entered(steps) == {}
    {
      hide Tracker.Valid, Tracker.Snap, Moved;
      if key.id !in containers || !containers[key.id].container.SameKey(key) {
        MovedNone(Snap());
        NoneEntered();
        return None, [];
      }
      err, steps := RemoveEntry(key.id);
    }

    /** An id that already belongs to an entry is a conflict. */
    method Register(e: WatchState) returns (err: Option<Error>, ghost steps: seq<Step>)
      requires Valid() && e.container.id in containers && containers[e.container.id] == e && e.registration == 0
      modifies this`targets, e`registration
      ensures Valid() && Moved(old(Snap()), steps, Snap())
      ensures if err.Some? then steps == [] && targets == old(targets) && e.registration == 0
              else
                && e.registration != 0 && e.registration !in old(targets)
                && targets == old(targets)[e.registration := e]
                && steps == [Registers(e.registration, Binding(e, e.container))]
    {
      hide Tracker.Valid, Moved;
      MovedNone(Snap());
      err, steps := *, [];
      if err.Some? {
        return;
      }
      // Registration ids start at one.
      var id: nat :| id >= 1;
      if id in targets {
        return Some(Conflict), [];
      }
      Assign(e, id);
      err, steps := None, [Registers(id, Binding(e, e.container))];
      assert Bindings() == old(Bindings())[id := Binding(e, e.container)];
      MovedOne(old(Snap()), steps[0], Snap());
    }

    method Assign(e: WatchState, id: nat)
      requires Valid() && e.container.id in containers && containers[e.container.id] == e && e.registration == 0
      requires id != 0 && id !in targets
      modifies this`targets, e`registration
      ensures Valid() && e.registration == id && targets == old(targets)[id := e]
    {
      e.registration := id;
      targets := targets[id := e];
    }

    /** Bind a container to its new generation; `was` is its current entry and `found`
        the file that the path names now.  The entry stays exactly when it already is for
        that file; a failure leaves the old binding, or the new one without a watch. */
    method BindContainer(ref: Ref, was: WatchState?)
      returns (err: Option<Error>, ghost steps: seq<Step>, ghost found: Option<nat>)
      requires Valid()
      requires if ref.id in containers then was == containers[ref.id] else was == null
      requires was != null ==> was.container.generation < ref.generation
      modifies this`containers, this`targets, this`pending, this`invalidated, containers.Values
      ensures Valid()
      ensures containers.Keys <= old(containers.Keys) + {ref.id}
      ensures fresh(containers.Values - old(containers.Values))
      ensures err.None? ==> Refs() == old(Refs())[ref.id := ref]
      ensures err.Some? ==>
                || Refs() == old(Refs())
                || (&& Refs() == old(Refs())[ref.id := ref]
                    && ref.id in containers && containers[ref.id].registration == 0)
      ensures err.None? && ref.id in containers && containers[ref.id] != was && ref.path != "" ==>
                containers[ref.id].registration != 0
      ensures err.None? ==> ref.id in containers && containers[ref.id].cgroup == Cgroup(ref.path, found)
      ensures err.None? ==>
                (was == containers[ref.id] <==>
                   was != null && found.Some? && old(was.cgroup) == Cgroup(ref.path, found))
      ensures Moved(old(Snap()), steps, Snap()) && fresh(Entered(steps))
    {
      hide Tracker.Valid, Tracker.Snap, Tracker.Refs, Moved, Entered, Is;
      MovedNone(Snap());
      NoneEntered();
      steps, found := [], None;
      if was != null {
        EntryAt(ref.id);
      }
      RefsAt(ref.id);
      Replaced(Refs(), ref.id, ref);
      var canceled: bool := *;
      if canceled {
        return Some(Canceled), steps, found;
      }
      var directory: Option<nat>, failure: Option<Error> := None, None;
      if ref.path != "" {
        directory, failure := *, *;
      }
      found := directory;
      // A directory that is not available yet can be tried again later.
      if failure.Some? && Is(failure.value, Unavailable) {
        return failure, steps, found;
      }
      var entry := new WatchState(ref, Cgroup(ref.path, directory));
      if was != null && failure.None? && was.cgroup.SameInstance(entry.cgroup) {
        steps := Rebind(was, ref);
        return None, steps, found;
      }
      if was != null {
        err, steps := DeleteContainer(was.container);
        if err.Some? {
          return Some(Join(failure, err.value)), steps, found;
        }
      }
      ghost var mid, more := Snap(), [];
      err, more := Admit(entry, failure);
      MovedThen(old(Snap()), steps, mid, more, Snap());
      EnteredJoins(steps, more);
      steps := steps + more;
    }

    /** Enter a new binding and watch it, unless its directory could not be read. */
    method Admit(entry: WatchState, failure: Option<Error>) returns (err: Option<Error>, ghost steps: seq<Step>)
      requires Valid() && entry.container.id !in containers && entry.registration == 0
      requires entry !in containers.Values
      modifies this`containers, this`targets, entry`registration
      ensures Valid() && containers == old(containers)[entry.container.id := entry]
      ensures Moved(old(Snap()), steps, Snap()) && Entered(steps) <= {entry}
      ensures Refs() == old(Refs())[entry.container.id := entry.container]
      ensures failure.Some? ==> err == failure
      ensures entry.registration != 0 <==> err.None? && entry.cgroup.path != ""
    {
      hide Tracker.Valid, Tracker.Snap, Tracker.Refs, Moved;
      MovedNone(Snap());
      NoneEntered();
      Enter(entry);
      if failure.Some? || entry.cgroup.path == "" {
        return failure, [];
      }
      err, steps := Register(entry);
      if err.None? {
        OneEntered(steps[0]);
      }
    }

    /** The same directory: the watch stays, what was captured for it is stale. */
    method Rebind(was: WatchState, ref: Ref) returns (ghost steps: seq<Step>)
      requires Valid() && ref.id in containers && was == containers[ref.id]
      requires was.container.generation < ref.generation
      modifies this`invalidated, was`container
      ensures Valid() && Refs() == old(Refs())[ref.id := ref]
      ensures steps == if was.registration != 0 then [Rebinds(was.registration, Binding(was, ref))] else []
      ensures Moved(old(Snap()), steps, Snap()) && Entered(steps) == {}
    {
      hide Tracker.Valid, Tracker.Bindings, Tracker.Refs, Moved, Possible, Taken;
      MovedNone(Snap());
      NoneEntered();
      steps := [];
      SetContainer(was, ref);
      if was.registration != 0 {
        invalidated := invalidated + [was.registration];
        steps := [Rebinds(was.registration, Binding(was, ref))];
        OneEntered(steps[0]);
        MovedOne(old(Snap()), steps[0], Snap());
      }
    }

    method SetContainer(was: WatchState, ref: Ref)
      requires Valid() && ref.id in containers && was == containers[ref.id]
      requires was.container.generation < ref.generation
      modifies was`container
      ensures Valid() && Refs() == old(Refs())[ref.id := ref]
      ensures was.registration == 0 ==> Bindings() == old(Bindings())
      ensures was.registration != 0 ==>
                var step := Rebinds(was.registration, Binding(was, ref));
                Possible(old(Bindings()), step) && Bindings() == Taken(old(Bindings()), step)
    {
      EntryAt(ref.id);
      EntriesDiffer(ref.id);
      was.container := ref;
    }

    /** Only a newer generation is bound; only fatal errors are returned, others skip
        the container, unless the context has ended.  A skipped container keeps its
        binding, or has the new one without a watch. */
    method CreateContainer(ref: Ref)
      returns (err: Option<Error>, ghost skipped: bool, ghost ended: bool, ghost steps: seq<Step>)
      requires Valid()
      modifies this`containers, this`targets, this`pending, this`invalidated, containers.Values
      ensures Valid()
      ensures err.Some? && !ended ==>
                || Is(err.value, Canceled) || Is(err.value, Exhausted) || Is(err.value, WatchClosed)
                || Is(err.value, Overflow) || Is(err.value, Conflict)
      ensures containers.Keys <= old(containers.Keys) + {ref.id}
      ensures err.None? && !skipped ==> Refs() == Newer(old(Refs()), ref)
      ensures err.Some? || skipped ==>
                || Refs() == old(Refs())
                || (&& Refs() == old(Refs())[ref.id := ref]
                    && ref.id in containers && containers[ref.id].registration == 0)
      ensures fresh(containers.Values - old(containers.Values))
      ensures Moved(old(Snap()), steps, Snap()) && fresh(Entered(steps))
      ensures ref.id in old(containers) && old(containers[ref.id].container.generation) >= ref.generation ==>
                err.None? && !skipped && unchanged(this) && forall e :: e in old(containers.Values) ==> unchanged(e)
    {
      hide Tracker.Snap, Moved;
      MovedNone(Snap());
      NoneEntered();
      var was: WatchState? := null;
      if ref.id in containers {
        was := containers[ref.id];
        if was.container.generation >= ref.generation {
          return None, false, false, [];
        }
      }
      skipped, ended := false, false;
      ghost var found;
      err, steps, found := BindContainer(ref, was);
      var canceled: bool := *;
      // Once the context is canceled any error is final.
      if err.Some? && canceled {
        return err, false, true, steps;
      }
      if err.Some? && !Fatal(err.value) {
        return None, true, false, steps;
      }
    }

    /** Release what departed before admitting replacements. */
    method DeleteDeparted(desired: set<string>) returns (err: Option<Error>, ghost steps: seq<Step>)
      requires Valid()
      modifies this`containers, this`targets, this`pending, this`invalidated, (containers.Values)`registration
      ensures Valid() && containers.Keys <= old(containers.Keys) && containers.Values <= old(containers.Values)
      ensures err.None? ==> containers.Keys <= desired && Refs() == Only(old(Refs()), desired)
      ensures Moved(old(Snap()), steps, Snap()) && Entered(steps) == {}
      ensures old(containers).Keys <= desired ==>
                err.None? && unchanged(this) && forall e :: e in old(containers.Values) ==> unchanged(e)
    {
      hide Tracker.Valid, Tracker.Snap, Tracker.Refs, Moved, Entered, Only;
      RefsKeys();
      OnlyAll(Refs(), desired, containers.Keys);
      ghost var base := Snap();
      MovedNone(base);
      NoneEntered();
      steps := [];
      var left := containers.Keys;
      while left != {}
        invariant Valid() && left <= old(containers.Keys)
        invariant containers.Keys <= old(containers.Keys) && containers.Values <= old(containers.Values)
        invariant forall id :: id in containers ==> id in left || id in desired
        invariant Refs() == Only(old(Refs()), desired + left)
        invariant Moved(base, steps, Snap()) && Entered(steps) == {}
        invariant old(containers).Keys <= desired ==>
          unchanged(this) && forall e :: e in old(containers.Values) ==> unchanged(e)
        decreases |left|
      {
        var id :| id in left;
        OnlyDrop(old(Refs()), desired, left, id);
        RefsAt(id);
        left := left - {id};
        if id in containers && id !in desired {
          EntryAt(id);
          ghost var mid, more := Snap(), [];
          err, more := DeleteContainer(containers[id].container);
          MovedThen(base, steps, mid, more, Snap());
          EnteredJoins(steps, more);
          steps := steps + more;
          if err.Some? {
            return;
          }
        }
      }
      err := None;
    }

    method CreateAll(view: seq<Ref>) returns (err: Option<Error>, ghost skipped: bool, ghost steps: seq<Step>)
      requires Valid()
      modifies this`containers, this`targets, this`pending, this`invalidated, containers.Values
      ensures Valid() && containers.Keys <= old(containers.Keys) + Ids(view)
      ensures err.None? && !skipped ==> Refs() == NewerAll(old(Refs()), view)
      ensures fresh(containers.Values - old(containers.Values))
      ensures Moved(old(Snap()), steps, Snap()) && fresh(Entered(steps))
      ensures old(Known(view)) ==>
                err.None? && unchanged(this) && forall e :: e in old(containers.Values) ==> unchanged(e)
    {
      hide Tracker.Valid, Tracker.Snap, Tracker.Refs, Newer, Moved, Entered, Ids;
      ghost var base := Snap();
      MovedNone(base);
      NoneEntered();
      skipped, steps := false, [];
      var i := 0;
      while i < |view|
        invariant i <= |view| && Valid()
        invariant !skipped ==> Refs() == NewerAll(old(Refs()), view[..i])
        invariant containers.Keys <= old(containers.Keys) + Ids(view[..i])
        invariant fresh(containers.Values - old(containers.Values))
        invariant Moved(base, steps, Snap()) && fresh(Entered(steps))
        invariant old(Known(view)) ==> unchanged(this) && forall e :: e in old(containers.Values) ==> unchanged(e)
      {
        ghost var mid, skip, ended, more := Snap(), false, false, [];
        err, skip, ended, more := CreateContainer(view[i]);
        skipped := skipped || skip;
        MovedThen(base, steps, mid, more, Snap());
        EnteredJoins(steps, more);
        steps := steps + more;
        IdsNext(view, i);
        assert view[..i + 1][..i] == view[..i];
        if err.Some? {
          return;
        }
        i := i + 1;
      }
      assert view[..i] == view;
      err := None;
    }

    /** The full reconcile.  When every listed container is known and none departed
        it changes nothing; when it succeeds, only listed containers are left. */
    method Reconcile(view: seq<Ref>) returns (err: Option<Error>, ghost skipped: bool, ghost steps: seq<Step>)
      requires Valid()
      modifies this`containers, this`targets, this`pending, this`invalidated, containers.Values
      ensures Valid() && (err.None? ==> containers.Keys <= Ids(view))
      ensures err.None? && !skipped ==> Refs() == Reconciled(old(Refs()), view)
      ensures Moved(old(Snap()), steps, Snap()) && fresh(Entered(steps))
      ensures old(Known(view)) && old(containers).Keys <= Ids(view) ==>
                err.None? && unchanged(this) && forall e :: e in old(containers.Values) ==> unchanged(e)
    {
      hide Tracker.Valid, Tracker.Snap, Moved, Entered, Ids;
      var desired := Ids(view);
      skipped := false;
      err, steps := DeleteDeparted(desired);
      if err.Some? {
        return;
      }
      ghost var mid, more := Snap(), [];
      err, skipped, more := CreateAll(view);
      MovedThen(old(Snap()), steps, mid, more, Snap());
      EnteredJoins(steps, more);
      steps := steps + more;
    }

    /** A full view names exactly the generations that are bound. */
    method Unchanged(view: seq<Ref>) returns (same: bool)
      requires Valid()
      ensures same <==> Shortcut(Refs(), view)
    {
      RefsKeys();
      if |view| != |containers| {
        return false;
      }
      var i := 0;
      while i < |view|
        invariant i <= |view|
        invariant forall k :: 0 <= k < i ==> view[k].id in Refs() && Refs()[view[k].id].SameKey(view[k])
      {
        RefsAt(view[i].id);
        if view[i].id !in containers || !containers[view[i].id].container.SameKey(view[i]) {
          return false;
        }
        i := i + 1;
      }
      return true;
    }

    method ApplyChanges(changes: seq<Change>)
      returns (err: Option<Error>, ghost skipped: bool, ghost steps: seq<Step>)
      requires Valid()
      modifies this`containers, this`targets, this`pending, this`invalidated, containers.Values
      ensures Valid() && fresh(containers.Values - old(containers.Values))
      ensures err.None? && !skipped ==> Refs() == AppliedAll(old(Refs()), changes)
      ensures Moved(old(Snap()), steps, Snap()) && fresh(Entered(steps))
    {
      hide Tracker.Valid, Tracker.Snap, Tracker.Refs, Newer, Without, Moved, Entered;
      ghost var base := Snap();
      MovedNone(base);
      NoneEntered();
      skipped, steps := false, [];
      var i := 0;
      while i < |changes|
        invariant i <= |changes| && Valid() && fresh(containers.Values - old(containers.Values))
        invariant !skipped ==> Refs() == AppliedAll(old(Refs()), changes[..i])
        invariant Moved(base, steps, Snap()) && fresh(Entered(steps))
      {
        ghost var mid, skip, ended, more := Snap(), false, false, [];
        match changes[i] {
          case Created(ref) =>
            err, skip, ended, more := CreateContainer(ref);
          case Deleted(ref) =>
            err, more := DeleteContainer(ref);
        }
        skipped := skipped || skip;
        MovedThen(base, steps, mid, more, Snap());
        EnteredJoins(steps, more);
        steps := steps + more;
        if err.Some? {
          return;
        }
        assert changes[..i + 1][..i] == changes[..i];
        i := i + 1;
      }
      assert changes[..i] == changes;
      err := None;
    }

    /** What an update does once the call is admitted. */
    method ApplyUpdate(update: Update) returns (err: Option<Error>, ghost skipped: bool, ghost steps: seq<Step>)
      requires Valid()
      modifies this`containers, this`targets, this`pending, this`invalidated, containers.Values
      ensures Valid() && Moved(old(Snap()), steps, Snap()) && fresh(Entered(steps))
      ensures err.None? && !skipped ==> Refs() == Updated(old(Refs()), update)
    {
      hide Tracker.Valid, Tracker.Snap, Tracker.Refs, Moved, Entered, Ids, Reconciled, AppliedAll, Shortcut;
      MovedNone(Snap());
      NoneEntered();
      err, skipped, steps := None, false, [];
      match update {
        case Full(view) =>
          var same := Unchanged(view);
          if !same {
            err, skipped, steps := Reconcile(view);
          }
        case Incremental(changes) =>
          err, skipped, steps := ApplyChanges(changes);
      }
    }

    /** The reported registrations are exactly those that the call retired or rebound,
        in order, and no candidate appears or goes but with its registration. */
    method ProcessContainerEvents(update: Update)
      returns (err: Option<Error>, ghost skipped: bool, ghost steps: seq<Step>)
      requires Valid()
      modifies this`containers, this`targets, this`pending, this`invalidated, containers.Values
      ensures Valid()
      ensures closed ==> err.Some? && unchanged(this)
      ensures Leads(old(Bindings()), steps, Bindings()) && pending == old(pending) - Retired(steps)
      ensures err.None? ==> invalidated == Reports(steps) && Reported(old(Bindings()), Bindings(), invalidated)
      ensures err.None? && !skipped ==> Refs() == Updated(old(Refs()), update)
    {
      hide Tracker.Valid, Tracker.Bindings, Tracker.Refs, Moved, Updated;
      hide Leads, Retired, Reports, Reported, Entered, Entries;
      skipped, steps := false, [];
      NoSteps(Snap());
      if closed {
        return Some(OtherError), false, [];
      }
      var canceled: bool := *;
      if canceled {
        return Some(Canceled), false, [];
      }
      invalidated := [];
      ghost var base, was := Snap(), targets.Values;
      EntriesAreTargets();
      err, skipped, steps := ApplyUpdate(update);
      StepsOf(base, steps, Snap());
      assert Entered(steps) !! was;
      StepsReport(old(Bindings()), steps, Bindings());
    }

    /** Observations are admitted for live registrations only; a lost target is
        retired and reported, and nothing else is. */
    method ProcessMemoryEvents(events: seq<MemoryEvent>, acceptPending: bool)
      returns (err: Option<Error>, ghost steps: seq<Step>)
      requires Valid()
      modifies this`targets, this`pending, this`invalidated, (containers.Values)`registration
      ensures Valid()
      ensures closed ==> err.Some? && unchanged(this)
      ensures Leads(old(Bindings()), steps, Bindings())
      ensures err.None? ==> invalidated == Reports(steps) && Reported(old(Bindings()), Bindings(), invalidated)
      ensures forall k :: 0 <= k < |steps| ==> steps[k].Retires?
      ensures pending.Keys <= Candidates(targets.Keys, old(pending.Keys), acceptPending, events)
      ensures err.None? ==> pending.Keys == Candidates(targets.Keys, old(pending.Keys), acceptPending, events)
    {
      hide Tracker.Valid, Tracker.Bindings, Leads, Reports, Reported, Candidates;
      steps := [];
      NoSteps(Snap());
      PendingIsLive();
      NoEvents(targets.Keys, pending.Keys, acceptPending, events);
      if closed {
        return Some(OtherError), [];
      }
      var canceled: bool := *;
      if canceled {
        return Some(Canceled), [];
      }
      invalidated := [];
      ghost var base, was := Bindings(), pending.Keys;
      var i := 0;
      while i < |events|
        invariant i <= |events| && Valid() && Leads(base, steps, Bindings()) && invalidated == Reports(steps)
        invariant forall k :: 0 <= k < |steps| ==> steps[k].Retires?
        invariant pending.Keys == Candidates(targets.Keys, was, acceptPending, events[..i])
      {
        ghost var live := targets.Keys;
        if events[i].target in targets {
          ghost var mid, before, more := Bindings(), steps, [];
          err, more := HandleEvent(events[i], acceptPending);
          LeadsThen(base, before, mid, more, Bindings());
          ReportsJoin(before, more);
          steps := before + more;
          OneMoreEvent(live, Retired(more), was, acceptPending, events, i);
          if err.Some? {
            FewerEvents(targets.Keys, was, acceptPending, events, i + 1);
            return;
          }
        } else {
          IgnoredEvent(live, was, acceptPending, events, i);
        }
        i := i + 1;
      }
      assert events[..i] == events;
      NothingEntered(steps);
      StepsReport(base, steps, Bindings());
      err := None;
    }

    lemma EntriesAreTargets()
      ensures Entries(Bindings()) == targets.Values
    {
      forall e | e in targets.Values
        ensures e in Entries(Bindings())
      {
        var r :| r in targets && targets[r] == e;
        assert Bindings()[r].entry == e;
      }
    }

    lemma PendingIsLive()
      requires Valid()
      ensures forall r :: r in pending ==> r in targets
    {
    }

    method Admits(target: nat)
      requires Valid() && target in targets
      modifies this`pending
      ensures Valid() && pending == old(pending)[target := targets[target]]
    {
      pending := pending[target := targets[target]];
    }

    /** An observation makes its own target a candidate, a loss retires its own. */
    method HandleEvent(event: MemoryEvent, acceptPending: bool) returns (err: Option<Error>, ghost steps: seq<Step>)
      requires Valid() && event.target in targets
      modifies this`targets, this`pending, this`invalidated, (containers.Values)`registration
      ensures Valid() && Leads(old(Bindings()), steps, Bindings())
      ensures invalidated == old(invalidated) + Reports(steps)
      ensures steps == [] || steps == [Retires(event.target)]
      ensures targets.Keys == old(targets.Keys) - Retired(steps)
      ensures pending.Keys
           == old(pending.Keys) - Retired(steps) + if event.Observed? && acceptPending then {event.target} else {}
      ensures event.Observed? ==> err.None? && steps == []
      ensures event.Gone? && (Is(event.reason, Exhausted) || Is(event.reason, Overflow)) ==>
                err == Some(event.reason) && steps == []
      ensures event.Gone? && !Is(event.reason, Exhausted) && !Is(event.reason, Overflow) ==>
                if Is(event.reason, Unavailable) then err.None? && steps == []
                else steps == if err.None? then [Retires(event.target)] else []
    {
      hide Tracker.Valid, Leads, Reports, Is;
      NoSteps(Snap());
      NoneRetired();
      TargetAt(event.target);
      match event {
        case Observed(target) =>
          if acceptPending {
            Admits(target);
          }
          return None, [];
        case Gone(target, reason) =>
          if Is(reason, Exhausted) || Is(reason, Overflow) {
            return Some(reason), [];
          }
          if Is(reason, Unavailable) {
            // Only the limit cannot be read; the target itself stays.
            return None, [];
          }
          err, steps := Lose(target);
      }
    }

    method Lose(target: nat) returns (err: Option<Error>, ghost steps: seq<Step>)
      requires Valid() && target in targets
      modifies this`targets, this`pending, this`invalidated, {targets[target]}`registration
      ensures Valid() && Leads(old(Bindings()), steps, Bindings())
      ensures invalidated == old(invalidated) + Reports(steps)
      ensures steps == if err.None? then [Retires(target)] else []
      ensures targets.Keys == old(targets.Keys) - Retired(steps)
      ensures pending.Keys == old(pending.Keys) - Retired(steps)
    {
      hide Tracker.Valid, Leads, Reports;
      TargetAt(target);
      NoneRetired();
      OneRetired(Retires(target));
      RegistrationsStartAtOne();
      ghost var base := Snap();
      err, steps := Unregister(targets[target]);
      StepsOf(base, steps, Snap());
    }

    method ClearPending()
      requires Valid()
      modifies this`pending
      ensures Valid() && pending == map[]
    {
      pending := map[];
    }

    /** Hands every candidate to the caller, once each. */
    method DrainPending() returns (observations: seq<Observation>)
      requires Valid()
      modifies this`pending
      ensures Valid() && pending == map[]
      ensures |observations| == |old(pending)|
      ensures forall k :: 0 <= k < |observations| ==>
                var o := observations[k];
                && o.registration in old(pending)
                && o.container == old(pending[o.registration].container)
                && o.cgroup == old(pending[o.registration].cgroup)
      ensures forall j, k :: 0 <= j < k < |observations| ==>
                observations[j].registration != observations[k].registration
    {
      observations := [];
      var left := pending.Keys;
      while left != {}
        invariant left <= pending.Keys && |observations| + |left| == |pending|
        invariant forall k :: 0 <= k < |observations| ==>
          var o := observations[k];
          && o.registration in pending && o.registration !in left
          && o.container == pending[o.registration].container && o.cgroup == pending[o.registration].cgroup
        invariant forall j, k :: 0 <= j < k < |observations| ==>
          observations[j].registration != observations[k].registration
        decreases |left|
      {
        var id :| id in left;
        observations := observations + [Observation(pending[id].cgroup, id, pending[id].container)];
        left := left - {id};
      }
      ClearPending();
    }

    method Close()
      requires Valid()
      modifies this`containers, this`targets, this`pending, this`closed
      ensures Valid() && closed && containers == map[] && targets == map[] && pending == map[]
    {
      closed := true;
      ClearPending();
      containers, targets := map[], map[];
    }

    /** Every listed container is already bound to its listed generation. */
    ghost predicate Known(view: seq<Ref>)
      reads this`containers, (containers.Values)`container
    {
      forall i :: 0 <= i < |view| ==> view[i].id in containers && containers[view[i].id].container.SameKey(view[i])
    }
  }

  /** The candidates after some events: live, and either candidates before or
      observed while candidates are admitted. */
  ghost function Candidates(live: set<nat>, was: set<nat>, acceptPending: bool, events: seq<MemoryEvent>): set<nat> {
    set r | r in live && (r in was || (acceptPending && Observed(r) in events))
  }

  lemma NoEvents(live: set<nat>, was: set<nat>, acceptPending: bool, events: seq<MemoryEvent>)
    requires was <= live
    ensures Candidates(live, was, acceptPending, events[..0]) == was
    ensures was <= Candidates(live, was, acceptPending, events)
  {
  }

  lemma FewerEvents(live: set<nat>, was: set<nat>, acceptPending: bool, events: seq<MemoryEvent>, n: nat)
    requires n <= |events|
    ensures Candidates(live, was, acceptPending, events[..n]) <= Candidates(live, was, acceptPending, events)
  {
  }

  lemma IgnoredEvent(live: set<nat>, was: set<nat>, acceptPending: bool, events: seq<MemoryEvent>, i: nat)
    requires i < |events| && events[i].target !in live
    ensures Candidates(live, was, acceptPending, events[..i + 1]) == Candidates(live, was, acceptPending, events[..i])
  {
    assert events[..i + 1] == events[..i] + [events[i]];
  }

  lemma OneMoreEvent(live: set<nat>, gone: set<nat>, was: set<nat>, acceptPending: bool,
                     events: seq<MemoryEvent>, i: nat)
    requires i < |events| && events[i].target in live && (events[i].Observed? ==> gone == {})
    ensures Candidates(live - gone, was, acceptPending, events[..i + 1])
         == Candidates(live, was, acceptPending, events[..i]) - gone
            + if events[i].Observed? && acceptPending then {events[i].target} else {}
  {
    assert events[..i + 1] == events[..i] + [events[i]];
  }

  lemma NothingEntered(steps: seq<Step>)
    requires forall k :: 0 <= k < |steps| ==> steps[k].Retires?
    ensures Entered(steps) == {}
  {
  }

  lemma NoSteps(a: View)
    ensures Leads(a.bindings, [], a.bindings) && Reports([]) == [] && a.pending - Retired([]) == a.pending
  {
  }

  lemma NoneRetired()
    ensures Retired([]) == {}
  {
  }

  lemma OneRetired(s: Step)
    ensures Retired([s]) == if s.Retires? then {s.id} else {}
  {
    assert [s][0] == s;
  }

  lemma StepsOf(a: View, steps: seq<Step>, b: View)
    requires Moved(a, steps, b)
    ensures Leads(a.bindings, steps, b.bindings) && b.pending == a.pending - Retired(steps)
    ensures b.invalidated == a.invalidated + Reports(steps)
  {
  }

  function Ids(view: seq<Ref>): set<string> {
    set i | 0 <= i < |view| :: view[i].id
  }

  lemma IdsNext(view: seq<Ref>, i: nat)
    requires i < |view|
    ensures Ids(view[..i + 1]) == Ids(view[..i]) + {view[i].id} && Ids(view[..i + 1]) <= Ids(view)
  {
    var a, b := view[..i + 1], view[..i];
    assert a[i] == view[i];
    forall x | x in Ids(a)
      ensures x in Ids(b) + {view[i].id}
    {
      var k :| 0 <= k < |a| && a[k].id == x;
      assert k < i ==> b[k] == a[k];
    }
    forall x | x in Ids(b)
      ensures x in Ids(a)
    {
      var k :| 0 <= k < |b| && b[k].id == x;
      assert a[k] == b[k];
    }
    forall x | x in Ids(a)
      ensures x in Ids(view)
    {
      var k :| 0 <= k < |a| && a[k].id == x;
      assert view[k] == a[k];
    }
  }

  datatype Change = Created(ref: Ref) | Deleted(ref: Ref)
  datatype Update = Full(view: seq<Ref>) | Incremental(changes: seq<Change>)

  /** A notification of the watcher; a `Gone` with reason Unavailable is a limit that
      cannot be read. */
  datatype MemoryEvent = Observed(target: nat) | Gone(target: nat, reason: Error)

  // ------------------------------------------- the container map as a value

  type Bound = map<string, Ref>

  function Without(m: Bound, key: Ref): Bound {
    if key.id in m && m[key.id].SameKey(key) then m - {key.id} else m
  }

  /** A generation is replaced by a newer one only. */
  function Newer(m: Bound, ref: Ref): Bound {
    if ref.id in m && m[ref.id].generation >= ref.generation then m else m[ref.id := ref]
  }

  lemma Replaced(m: Bound, id: string, ref: Ref)
    ensures m[id := ref] - {id} == m - {id}
    ensures (m - {id})[id := ref] == m[id := ref]
    ensures m - {id} - {id} == m - {id}
  {
  }

  function NewerAll(m: Bound, view: seq<Ref>): Bound {
    if view == [] then m else Newer(NewerAll(m, view[..|view| - 1]), view[|view| - 1])
  }

  function Only(m: Bound, ids: set<string>): Bound {
    map id | id in m && id in ids :: m[id]
  }

  lemma OnlyAll(m: Bound, desired: set<string>, all: set<string>)
    requires m.Keys <= all
    ensures Only(m, desired + all) == m && Only(m, desired + {}) == Only(m, desired)
    ensures all <= desired ==> Only(m, desired) == m
  {
    assert desired + {} == desired;
  }

  /** Taking one id off the list of ids still to be looked at. */
  lemma OnlyDrop(m: Bound, desired: set<string>, left: set<string>, id: string)
    requires id in left
    ensures var before, after := Only(m, desired + left), Only(m, desired + (left - {id}));
            && (id !in desired ==> after == before - {id})
            && (id in desired || id !in before ==> after == before)
  {
    var before, after := Only(m, desired + left), Only(m, desired + (left - {id}));
    if id in desired || id !in before {
      assert after == before;
    }
  }

  function Reconciled(m: Bound, view: seq<Ref>): Bound {
    NewerAll(Only(m, Ids(view)), view)
  }

  function AppliedAll(m: Bound, changes: seq<Change>): Bound {
    if changes == [] then m
    else
      var before := AppliedAll(m, changes[..|changes| - 1]);
      match changes[|changes| - 1]
      case Created(ref) => Newer(before, ref)
      case Deleted(ref) => Without(before, ref)
  }

  /** Every view entry is bound to its generation, and there are as many of them. */
  predicate Shortcut(m: Bound, view: seq<Ref>) {
    |view| == |m| && forall i :: 0 <= i < |view| ==> view[i].id in m && m[view[i].id].SameKey(view[i])
  }

  function Updated(m: Bound, update: Update): Bound {
    match update
    case Full(view) => if Shortcut(m, view) then m else Reconciled(m, view)
    case Incremental(changes) => AppliedAll(m, changes)
  }

  /** A reconciled container has the newest generation that it was bound to or that the
      view lists, and its binding is one of these. */
  lemma ReconciledIsNewest(m: Bound, view: seq<Ref>, id: string)
    requires id in Ids(view)
    ensures var r := Reconciled(m, view);
            && id in r
            && (forall i :: 0 <= i < |view| && view[i].id == id ==> view[i].generation <= r[id].generation)
            && (id in m ==> m[id].generation <= r[id].generation)
            && ((id in m && r[id] == m[id]) || exists i :: 0 <= i < |view| && view[i].id == id && view[i] == r[id])
  {
    hide NewerAll;
    NewestOf(Only(m, Ids(view)), view, id);
  }

  lemma {:induction false} NewestOf(m: Bound, view: seq<Ref>, id: string)
    requires id in m || id in Ids(view)
    ensures var r := NewerAll(m, view);
            && id in r
            && (forall i :: 0 <= i < |view| && view[i].id == id ==> view[i].generation <= r[id].generation)
            && (id in m ==> m[id].generation <= r[id].generation)
            && ((id in m && r[id] == m[id]) || exists i :: 0 <= i < |view| && view[i].id == id && view[i] == r[id])
  {
    if view != [] {
      var n := |view| - 1;
      IdsNext(view, n);
      assert view[..n + 1] == view;
      var before, r := NewerAll(m, view[..n]), NewerAll(m, view);
      if id in m || id in Ids(view[..n]) {
        NewestOf(m, view[..n], id);
        forall i | 0 <= i < |view| && view[i].id == id
          ensures view[i].generation <= r[id].generation
        {
          assert i < n ==> view[..n][i] == view[i];
        }
        if r[id] == before[id] && !(id in m && r[id] == m[id]) {
          var i :| 0 <= i < n && view[..n][i].id == id && view[..n][i] == r[id];
          assert view[i].id == id && view[i] == r[id];
        }
      } else {
        NewerAllKeys(m, view[..n]);
        forall i | 0 <= i < n
          ensures view[i].id != id
        {
          assert view[..n][i].id in Ids(view[..n]);
        }
      }
    }
  }

  /** No deletion of the container follows the change at `i`. */
  ghost predicate NotDeletedSince(changes: seq<Change>, i: nat, id: string) {
    forall j :: i < j < |changes| && changes[j].Deleted? ==> changes[j].ref.id != id
  }

  /** A container created by a batch of changes and not deleted after it is bound, to
      that generation or a newer one. */
  lemma {:induction false} CreatedIsBound(m: Bound, changes: seq<Change>, i: nat)
    requires i < |changes| && changes[i].Created? && NotDeletedSince(changes, i, changes[i].ref.id)
    ensures var ref, r := changes[i].ref, AppliedAll(m, changes);
            ref.id in r && r[ref.id].generation >= ref.generation
    decreases |changes|
  {
    var n := |changes| - 1;
    if i < n {
      assert changes[..n][i] == changes[i];
      CreatedIsBound(m, changes[..n], i);
    }
  }

  /** What a batch of changes binds was bound before or is created by it, and its own
      deletion does not follow; an id that no change names keeps its binding. */
  lemma {:induction false} BoundIsCreated(m: Bound, changes: seq<Change>, id: string)
    requires id in m ==> m[id].id == id
    ensures var r := AppliedAll(m, changes);
            && (id in r ==> r[id].id == id)
            && (id in r ==>
                  || (id in m && r[id] == m[id] && forall c :: c in changes && c.Deleted? ==> !c.ref.SameKey(m[id]))
                  || exists i :: 0 <= i < |changes| && Creates(changes, i, r[id]))
            && ((forall c :: c in changes ==> c.ref.id != id) ==>
                  (id in r <==> id in m) && (id in r ==> r[id] == m[id]))
    decreases |changes|
  {
    if changes != [] {
      var n := |changes| - 1;
      BoundIsCreated(m, changes[..n], id);
      var before, r := AppliedAll(m, changes[..n]), AppliedAll(m, changes);
      assert changes == changes[..n] + [changes[n]];
      if id in r {
        if id in before && r[id] == before[id] && !(changes[n] == Created(r[id])) {
          if i :| 0 <= i < n && Creates(changes[..n], i, r[id]) {
            CreatesStays(changes, i, r[id]);
          }
        } else {
          assert Creates(changes, n, r[id]);
        }
      }
    }
  }

  /** The change at `i` creates the generation, and no later one deletes it. */
  ghost predicate Creates(changes: seq<Change>, i: nat, ref: Ref)
    requires i < |changes|
  {
    changes[i] == Created(ref)
    && forall j :: i < j < |changes| && changes[j].Deleted? ==> !changes[j].ref.SameKey(ref)
  }

  lemma CreatesStays(changes: seq<Change>, i: nat, ref: Ref)
    requires i < |changes| - 1 && Creates(changes[..|changes| - 1], i, ref)
    requires changes[|changes| - 1].Deleted? ==> !changes[|changes| - 1].ref.SameKey(ref)
    ensures Creates(changes, i, ref)
  {
    var n := |changes| - 1;
    forall j | i < j < n
      ensures changes[j] == changes[..n][j]
    {
    }
  }

  // ------------------------------------------------- the unchanged shortcut

  ghost predicate DistinctIds(view: seq<Ref>) {
    forall i, j :: 0 <= i < j < |view| ==> view[i].id != view[j].id
  }

  lemma {:induction false} DistinctCount(view: seq<Ref>)
    ensures |Ids(view)| <= |view| && (|Ids(view)| == |view| <==> DistinctIds(view))
  {
    if view != [] {
      var n := |view| - 1;
      DistinctCount(view[..n]);
      IdsNext(view, n);
      assert view[..n + 1] == view;
      if view[n].id in Ids(view[..n]) {
        var k :| 0 <= k < n && view[..n][k].id == view[n].id;
        assert Ids(view) == Ids(view[..n]);
        assert view[k].id == view[n].id;
      } else {
        assert |Ids(view)| == |Ids(view[..n])| + 1;
        IdsAt(view, n);
      }
    }
  }

  lemma IdsAt(view: seq<Ref>, n: nat)
    requires n == |view| - 1 && view[n].id !in Ids(view[..n])
    ensures DistinctIds(view) <==> DistinctIds(view[..n])
  {
    forall i | 0 <= i < n
      ensures view[i].id != view[n].id
    {
      assert view[..n][i] == view[i];
    }
  }

  lemma {:induction false} NewerAllSame(m: Bound, view: seq<Ref>)
    requires forall i :: 0 <= i < |view| ==> view[i].id in m && m[view[i].id].SameKey(view[i])
    ensures NewerAll(m, view) == m
  {
    if view != [] {
      NewerAllSame(m, view[..|view| - 1]);
    }
  }

  lemma {:induction false} NewerAllKeys(m: Bound, view: seq<Ref>)
    ensures NewerAll(m, view).Keys == m.Keys + Ids(view)
  {
    if view != [] {
      var n := |view| - 1;
      NewerAllKeys(m, view[..n]);
      IdsNext(view, n);
      assert view[..n + 1] == view;
    }
  }

  /** A full view that is reconciled leaves exactly the listed containers. */
  lemma ReconciledKeys(m: Bound, view: seq<Ref>)
    ensures Reconciled(m, view).Keys == Ids(view)
  {
    hide NewerAll, Ids;
    NewerAllKeys(Only(m, Ids(view)), view);
  }

  lemma ShortcutCovers(m: Bound, view: seq<Ref>)
    requires Shortcut(m, view)
    ensures Ids(view) <= m.Keys && |view| == |m.Keys|
  {
  }

  lemma ShortcutKeeps(m: Bound, view: seq<Ref>)
    requires Shortcut(m, view) && Ids(view) == m.Keys
    ensures Reconciled(m, view) == m
  {
    hide NewerAll, Ids;
    assert Only(m, Ids(view)) == m;
    NewerAllSame(m, view);
  }

  /** For a view that takes the shortcut, skipping the reconcile changes nothing
      exactly when the ids of the view are distinct. */
  lemma ShortcutIsReconcileIff(m: Bound, view: seq<Ref>)
    requires Shortcut(m, view)
    ensures Reconciled(m, view) == m <==> DistinctIds(view)
  {
    hide Reconciled, DistinctIds, Ids, Shortcut;
    ShortcutCovers(m, view);
    DistinctCount(view);
    ReconciledKeys(m, view);
    if DistinctIds(view) {
      SameSize(Ids(view), m.Keys);
      ShortcutKeeps(m, view);
    }
  }

  /** Two bound containers and a view that names one of them twice: the shortcut keeps
      the other one, the reconcile would delete it. */
  lemma RepeatedIdMisleads(a: Ref, b: Ref)
    requires a.id != b.id
    ensures Shortcut(map[a.id := a, b.id := b], [a, a])
    ensures Reconciled(map[a.id := a, b.id := b], [a, a]) != map[a.id := a, b.id := b]
  {
    hide Reconciled;
    var m := map[a.id := a, b.id := b];
    assert m.Keys == {a.id, b.id};
    assert [a, a][0] == [a, a][1];
    ShortcutIsReconcileIff(m, [a, a]);
  }

  lemma SameSize(a: set<string>, b: set<string>)
    requires a <= b && |a| == |b|
    ensures a == b
  {
    assert |b - a| == |b| - |a|;
  }
}
