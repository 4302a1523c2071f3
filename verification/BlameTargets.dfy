/** The slots of the scheduler-blame target array and the map that is published from
    them. */
module BlameTargets {
  /** A slot of the target array and what is known about its cgroup's css id. */
  datatype Target = Target(container: string, cgid: nat, cssId: nat, cssKnown: bool) {
    predicate Active() {
      cgid != 0 && container != ""
    }

    predicate SameOwner(other: Target) {
      if !Active() || !other.Active() then !Active() && !other.Active()
      else container == other.container && cgid == other.cgid
    }
  }

  const NO_TARGET := Target("", 0, 0, false)

  /** The map the publisher writes: later slots overwrite earlier ones. */
  function MapOf(targets: seq<Target>): map<nat, nat> {
    if targets == [] then map[]
    else
      var n := |targets| - 1;
      if targets[n].Active() then MapOf(targets[..n])[targets[n].cgid := n] else MapOf(targets[..n])
  }

  /** Building the items of `publishSchedBlameTargets`. */
  method PublishItems(targets: array<Target>) returns (items: map<nat, nat>)
    ensures items == MapOf(targets[..])
  {
    items := map[];
    var i := 0;
    while i < targets.Length
      invariant i <= targets.Length && items == MapOf(targets[..i])
    {
      assert targets[..i + 1][..i] == targets[..i];
      if targets[i].Active() {
        items := items[targets[i].cgid := i];
      }
      i := i + 1;
    }
    assert targets[..] == targets[..i];
  }

  /** A published dense id is the slot of an active target with that cgroup, so no
      two cgroups share one; with distinct cgroups every active slot is published. */
  lemma {:induction false} MapOfIsSlots(targets: seq<Target>)
    ensures forall cgid :: cgid in MapOf(targets) ==>
              var d := MapOf(targets)[cgid];
              d < |targets| && targets[d].Active() && targets[d].cgid == cgid
    ensures forall t :: 0 <= t < |targets| && targets[t].Active() ==> targets[t].cgid in MapOf(targets)
  {
    if targets != [] {
      MapOfIsSlots(targets[..|targets| - 1]);
    }
  }

  lemma DistinctSlotsArePublished(targets: seq<Target>, t: nat)
    requires t < |targets| && targets[t].Active()
    requires forall u :: 0 <= u < |targets| && targets[u].Active() && targets[u].cgid == targets[t].cgid ==> u == t
    ensures targets[t].cgid in MapOf(targets) && MapOf(targets)[targets[t].cgid] == t
  {
    MapOfIsSlots(targets);
  }
}
