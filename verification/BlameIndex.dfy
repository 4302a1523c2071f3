/** The index from css ids to target slots: kept up to date by identity records,
    rebuilt from scratch when the targets change. */
module BlameIndex {
  import opened PackedSlices
  import opened BlameTargets

  /** What is known about one css id; `dense` is its target slot or NON_TARGET. */
  datatype Entry = Entry(known: bool, cgid: nat, dense: nat)

  const UNKNOWN := Entry(false, 0, NON_TARGET)

  /** The slot found by the linear scan of `handleIdentity`. */
  function First(targets: seq<Target>, cgid: nat, from: nat := 0): (t: nat)
    requires from <= |targets| <= MAX_TARGETS
    ensures t == NON_TARGET || (from <= t < |targets| && targets[t].Active() && targets[t].cgid == cgid)
    ensures forall u :: from <= u < |targets| && targets[u].Active() && targets[u].cgid == cgid ==> t <= u
    decreases |targets| - from
  {
    if from == |targets| then NON_TARGET
    else if targets[from].Active() && targets[from].cgid == cgid then from
    else First(targets, cgid, from + 1)
  }

  /** The slot found through the map that the rebuild makes. */
  function Mapped(targets: seq<Target>, cgid: nat): nat {
    if cgid in MapOf(targets) then MapOf(targets)[cgid] else NON_TARGET
  }

  predicate Matches(targets: seq<Target>, t: nat, cgid: nat) {
    t < |targets| && targets[t].Active() && targets[t].cgid == cgid
  }

  /** At most one active target has this cgroup. */
  ghost predicate Unshared(targets: seq<Target>, cgid: nat) {
    forall t, u :: Matches(targets, t, cgid) && Matches(targets, u, cgid) ==> t == u
  }

  ghost predicate DistinctCgroups(targets: seq<Target>) {
    forall cgid: nat :: Unshared(targets, cgid)
  }

  lemma MappedMatches(targets: seq<Target>, cgid: nat)
    requires |targets| <= MAX_TARGETS
    ensures Mapped(targets, cgid) == NON_TARGET || Matches(targets, Mapped(targets, cgid), cgid)
    ensures forall u :: Matches(targets, u, cgid) ==> Mapped(targets, cgid) != NON_TARGET
  {
    MapOfIsSlots(targets);
  }

  lemma {:induction false} MappedIsLast(targets: seq<Target>, cgid: nat, u: nat)
    requires |targets| <= MAX_TARGETS && Matches(targets, u, cgid)
    ensures u <= Mapped(targets, cgid)
    decreases |targets|
  {
    var n := |targets| - 1;
    if u < n {
      assert Matches(targets[..n], u, cgid);
      MappedIsLast(targets[..n], cgid, u);
      MapOfIsSlots(targets[..n]);
    }
  }

  /** The scan and the rebuild agree on a cgroup exactly when no two active targets
      share it. */
  lemma ScanIsRebuildIff(targets: seq<Target>, cgid: nat)
    requires |targets| <= MAX_TARGETS
    ensures First(targets, cgid) == Mapped(targets, cgid) <==> Unshared(targets, cgid)
  {
    MappedMatches(targets, cgid);
    var first, last := First(targets, cgid), Mapped(targets, cgid);
    if first == last {
      forall t, u | Matches(targets, t, cgid) && Matches(targets, u, cgid)
        ensures t == u
      {
        MappedIsLast(targets, cgid, t);
        MappedIsLast(targets, cgid, u);
      }
    } else if first != NON_TARGET {
      assert Matches(targets, first, cgid);
    }
  }

  // -------------------------------------------------------------- invariant

  ghost predicate EntryOk(e: Entry, targets: seq<Target>) {
    && (e.known ==> e.cgid != 0)
    && if e.dense == NON_TARGET then e.known ==> forall t :: !Matches(targets, t, e.cgid)
       else e.known && Matches(targets, e.dense, e.cgid)
  }

  /** A slot that claims to know its css id is the slot that this css id points to. */
  ghost predicate BackLink(css: seq<Entry>, targets: seq<Target>, t: nat)
    requires t < |targets|
  {
    targets[t].cssKnown ==> targets[t].cssId < |css| && css[targets[t].cssId].dense == t
  }

  ghost predicate IndexInv(css: seq<Entry>, targets: seq<Target>) {
    && |css| == MAX_CSS_IDS && |targets| == MAX_TARGETS
    && (forall c :: 0 <= c < |css| ==> EntryOk(css[c], targets))
    && (forall t :: 0 <= t < |targets| ==> BackLink(css, targets, t))
  }

  /** The dense ids that a rebuild would compute. */
  function Rebuilt(css: seq<Entry>, targets: seq<Target>): (r: seq<nat>)
    ensures |r| == |css|
  {
    seq(|css|, c requires 0 <= c < |css| => if css[c].known then Mapped(targets, css[c].cgid) else NON_TARGET)
  }

  lemma IndexIsRebuild(css: seq<Entry>, targets: seq<Target>, c: nat)
    requires IndexInv(css, targets) && DistinctCgroups(targets) && c < |css|
    ensures css[c].dense == Rebuilt(css, targets)[c]
  {
    assert EntryOk(css[c], targets) && Unshared(targets, css[c].cgid);
    MappedMatches(targets, css[c].cgid);
  }

  // ------------------------------------------------------------- identities

  predicate ValidIdentity(id: nat, cgid: nat) {
    id < MAX_CSS_IDS && cgid != 0
  }

  function IdentityCss(css: seq<Entry>, targets: seq<Target>, id: nat, cgid: nat): seq<Entry>
    requires id < |css| && |targets| <= MAX_TARGETS
  {
    css[id := Entry(true, cgid, First(targets, cgid))]
  }

  /** The old slot forgets this css id; it may have moved to another cgroup. */
  function Forgotten(css: seq<Entry>, targets: seq<Target>, id: nat): seq<Target>
    requires id < |css|
  {
    var old' := css[id].dense;
    if old' < |targets| && targets[old'].cssKnown && targets[old'].cssId == id
    then targets[old' := targets[old'].(cssKnown := false)]
    else targets
  }

  function IdentityTargets(css: seq<Entry>, targets: seq<Target>, id: nat, cgid: nat): seq<Target>
    requires id < |css| && |targets| <= MAX_TARGETS
  {
    var left, t := Forgotten(css, targets, id), First(targets, cgid);
    if t < |left| then left[t := left[t].(cssId := id, cssKnown := true)] else left
  }

  /** Only the css metadata of slots changes, never who owns them. */
  ghost predicate SameSlots(a: seq<Target>, b: seq<Target>) {
    |a| == |b| && forall t :: 0 <= t < |a| ==> a[t].container == b[t].container && a[t].cgid == b[t].cgid
  }

  lemma IdentityKeeps(css: seq<Entry>, targets: seq<Target>, id: nat, cgid: nat)
    requires IndexInv(css, targets) && ValidIdentity(id, cgid)
    ensures IndexInv(IdentityCss(css, targets, id, cgid), IdentityTargets(css, targets, id, cgid))
    ensures SameSlots(IdentityTargets(css, targets, id, cgid), targets)
  {
    var css', targets' := IdentityCss(css, targets, id, cgid), IdentityTargets(css, targets, id, cgid);
    assert SameSlots(targets', targets);
    forall c | 0 <= c < |css'|
      ensures EntryOk(css'[c], targets')
    {
      assert EntryOk(css[c], targets);
      assert forall t: nat, g: nat :: Matches(targets', t, g) <==> Matches(targets, t, g);
    }
    forall t | 0 <= t < |targets'|
      ensures BackLink(css', targets', t)
    {
      assert BackLink(css, targets, t);
    }
  }

  // ---------------------------------------------------------------- rebuild

  function Unlinked(targets: seq<Target>): seq<Target> {
    seq(|targets|, t requires 0 <= t < |targets| => targets[t].(cssKnown := false))
  }

  /** The slots after the rebuild has linked the first `n` css ids. */
  function Linked(css: seq<Entry>, targets: seq<Target>, n: nat): (r: seq<Target>)
    requires n <= |css|
    ensures SameSlots(r, targets)
  {
    if n == 0 then Unlinked(targets)
    else
      var r := Linked(css, targets, n - 1);
      var t := if css[n - 1].known then Mapped(targets, css[n - 1].cgid) else NON_TARGET;
      if t < |r| then r[t := r[t].(cssId := n - 1, cssKnown := true)] else r
  }

  function RebuiltCss(css: seq<Entry>, targets: seq<Target>): seq<Entry> {
    seq(|css|, c requires 0 <= c < |css| => css[c].(dense := Rebuilt(css, targets)[c]))
  }

  lemma {:induction false} LinkedBack(css: seq<Entry>, targets: seq<Target>, n: nat, t: nat)
    requires n <= |css| && t < |targets| <= MAX_TARGETS
    ensures Linked(css, targets, n)[t].cssKnown ==>
              Linked(css, targets, n)[t].cssId < n && Rebuilt(css, targets)[Linked(css, targets, n)[t].cssId] == t
  {
    if n > 0 {
      LinkedBack(css, targets, n - 1, t);
    }
  }

  /** Whatever the index was, the rebuild establishes it for the new targets. */
  lemma RebuildEstablishes(css: seq<Entry>, targets: seq<Target>)
    requires |css| == MAX_CSS_IDS && |targets| == MAX_TARGETS
    requires forall c :: 0 <= c < |css| ==> (css[c].known ==> css[c].cgid != 0)
    ensures IndexInv(RebuiltCss(css, targets), Linked(css, targets, MAX_CSS_IDS))
  {
    var css', targets' := RebuiltCss(css, targets), Linked(css, targets, MAX_CSS_IDS);
    assert forall t: nat, g: nat :: Matches(targets', t, g) <==> Matches(targets, t, g);
    forall c | 0 <= c < |css'|
      ensures EntryOk(css'[c], targets')
    {
      MappedMatches(targets, css[c].cgid);
    }
    forall t | 0 <= t < |targets'|
      ensures BackLink(css', targets', t)
    {
      LinkedBack(css, targets, MAX_CSS_IDS, t);
    }
  }

  /** Two containers of one cgroup: the rebuild points its css id to the later slot,
      an identity record to the earlier one. */
  lemma SharedCgroupDiverges(cgid: nat)
    requires cgid != 0
    ensures var targets := [Target("a", cgid, 0, false), Target("b", cgid, 0, false)];
            First(targets, cgid) == 0 && Mapped(targets, cgid) == 1
  {
    var targets := [Target("a", cgid, 0, false), Target("b", cgid, 0, false)];
    MappedIsLast(targets, cgid, 1);
    MappedMatches(targets, cgid);
  }
}
