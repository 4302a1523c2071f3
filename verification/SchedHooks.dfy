/** The scheduler hooks over their per-CPU arrays and their dense-id cache, between
    two publications. */
module SchedHooks {
  import opened Options
  import opened Words
  import opened PackedSlices
  import opened SchedWaiting
  import opened BlameTargets

  const DENSE_MASK: nat := 0xff

  /** `pack_dense_id_cache`: the epoch above bit 32, the dense id in the low byte. */
  function PackCache(epoch: nat, dense: nat): nat {
    Or(epoch * U32, dense)
  }

  function CacheEpoch(cached: nat): nat {
    cached / U32
  }

  function CacheDense(cached: nat): nat {
    And(cached, DENSE_MASK)
  }

  lemma CacheRoundTrip(epoch: nat, dense: nat)
    requires dense <= DENSE_MASK
    ensures CacheEpoch(PackCache(epoch, dense)) == epoch
    ensures CacheDense(PackCache(epoch, dense)) == dense
  {
    Pow2Values();
    PowerOfByte();
    OrFields(epoch, dense, 32);
    DivModUnique(epoch * U32 + dense, U32, epoch, dense);
    AndLowMask(epoch * U32 + dense, 8);
    DivModUnique(epoch * U32 + dense, 256, epoch * 0x100_0000, dense);
  }

  lemma PowerOfByte()
    ensures Pow2(8) == 256
  {
    assert Pow2(4) == 16;
  }

  /** The direct map lookup that the cache stands for. */
  function Lookup(targets: map<nat, nat>, cgid: nat): nat {
    if cgid in targets && targets[cgid] < MAX_TARGETS then targets[cgid] else NON_TARGET
  }

  /** A publication as the machine of runqueues and hooks sees it. */
  ghost function PublishedAs(owner: nat -> nat, epoch: nat, targets: map<nat, nat>): Targets {
    Targets(epoch, map css | 0 <= css < MAX_CSS_IDS && owner(css) in targets :: targets[owner(css)])
  }

  /** A task group as the hooks read it. */
  datatype Group = Group(css: nat, cgid: nat)

  class Hooks {
    const cpus: array<Bpf>
    const cache: array<nat>
    const owner: nat -> nat
    var targets: map<nat, nat>
    var epoch: nat
    var invalidTargets: nat
    var invalidRunnable: nat
    var cssOverflows: nat

    /** The arrays are zeroed; the first publication precedes every hook. */
    constructor (owner: nat -> nat, targets: map<nat, nat>)
      ensures Valid() && fresh(cpus) && fresh(cache) && this.owner == owner
      ensures this.targets == targets && epoch == 1
      ensures forall c :: 0 <= c < MAX_CPUS ==> cpus[c] == ZEROED
    {
      this.owner, this.targets, this.epoch := owner, targets, 1;
      cpus := new Bpf[MAX_CPUS](_ => ZEROED);
      cache := new nat[MAX_CSS_IDS](_ => 0);
      invalidTargets, invalidRunnable, cssOverflows := 0, 0, 0;
    }

    /** While a css id names one cgroup, a cache entry of the current epoch holds
        what the map says. */
    ghost predicate Valid()
      reads this, cache
    {
      && cpus.Length == MAX_CPUS && cache.Length == MAX_CSS_IDS
      && epoch >= 1
      && forall css :: 0 <= css < MAX_CSS_IDS && CacheEpoch(cache[css]) == epoch
           ==> CacheDense(cache[css]) == Lookup(targets, owner(css))
    }

    ghost predicate Names(g: Group) {
      g.css < MAX_CSS_IDS ==> g.cgid == owner(g.css)
    }

    ghost function Published(): Targets
      reads this
    {
      PublishedAs(owner, epoch, targets)
    }

    /** `ensure_waiting_bitmap_epoch` */
    method EnsureEpoch(c: nat)
      requires Valid() && c < MAX_CPUS
      modifies cpus
      ensures Valid() && cpus[..] == old(cpus[..])[c := Ensured(old(cpus[c]), epoch)]
    {
      ghost var before := cpus[..];
      if cpus[c].epoch != epoch {
        cpus[c] := cpus[c].(bits := EMPTY_BITMAP, epoch := epoch);
      }
      assert cpus[..] == before[c := Ensured(before[c], epoch)];
    }

    /** `resolve_target_dense_id`: the cache changes, the answer does not depend on
        it. */
    method ResolveDense(g: Group) returns (dense: nat)
      requires Valid() && g.css < MAX_CSS_IDS && Names(g)
      modifies cache, this`invalidTargets
      ensures Valid() && dense == Lookup(targets, g.cgid) == Resolve(Published(), g.css)
    {
      var cached := cache[g.css];
      if CacheEpoch(cached) == epoch {
        return CacheDense(cached);
      }
      if g.cgid !in targets {
        dense := NON_TARGET;
      } else if targets[g.cgid] >= MAX_TARGETS {
        invalidTargets := invalidTargets + 1;
        dense := NON_TARGET;
      } else {
        dense := targets[g.cgid];
      }
      CacheRoundTrip(epoch, dense);
      hide PackCache, CacheEpoch, CacheDense;
      cache[g.css] := PackCache(epoch, dense);
    }

    /** `set_waiting` */
    method SetWaiting(c: nat, dense: nat, waiting: bool, throttled: bool)
      requires Valid() && c < MAX_CPUS
      modifies cpus, this`invalidTargets
      ensures Valid() && invalidTargets == old(invalidTargets) + if dense >= MAX_TARGETS then 1 else 0
      ensures var bits := SetBit(old(cpus[c]).bits, dense, waiting && !throttled);
              cpus[..] == old(cpus[..])[c := old(cpus[c]).(bits := bits)]
    {
      ghost var before := cpus[..];
      if dense >= MAX_TARGETS {
        invalidTargets := invalidTargets + 1;
      } else {
        var on := waiting && !throttled;
        var b := cpus[c].bits;
        if dense < BASE_BITMAP_BITS {
          if on {
            cpus[c] := cpus[c].(bits := b.(base := Or(b.base, Pow2(dense))));
          } else {
            cpus[c] := cpus[c].(bits := b.(base := And(b.base, Mask(dense, 32))));
          }
        } else {
          var k := dense - BASE_BITMAP_BITS;
          if on {
            cpus[c] := cpus[c].(bits := b.(extra := Or(b.extra, Pow2(k))));
          } else {
            cpus[c] := cpus[c].(bits := b.(extra := And(b.extra, Mask(k, 64))));
          }
        }
      }
      assert cpus[..] == before[c := before[c].(bits := SetBit(before[c].bits, dense, waiting && !throttled))];
    }

    /** Resolve, then mark a target. */
    method MarkGroup(c: nat, g: Group, waiting: bool, throttled: bool)
      requires Valid() && c < MAX_CPUS && g.css < MAX_CSS_IDS && Names(g)
      modifies cpus, cache, this`invalidTargets
      ensures Valid()
      ensures cpus[..] == old(cpus[..])[c := Mark(old(cpus[c]), Published(), g.css, waiting, throttled)]
    {
      hide SetBit, Resolve, Lookup;
      var dense := ResolveDense(g);
      if dense != NON_TARGET {
        SetWaiting(c, dense, waiting, throttled);
      }
    }

    /** `on_sched_switch` */
    method OnSwitch(c: nat, now: nat, keep: bool, prev: Option<Group>, prevNr: nat, prevThrottled: bool,
                    next: Option<Group>, nextNr: nat) returns (slice: Option<Packed>)
      requires Valid() && c < MAX_CPUS
      requires (prev.Some? ==> Names(prev.value)) && (next.Some? ==> Names(next.value))
      modifies cpus, cache, this`invalidTargets, this`cssOverflows
      ensures Valid() && slice == SwitchSlice(old(cpus[c]), Published(), now, Css(prev), keep)
      ensures cpus[..] == old(cpus[..])[c := SwitchHook(old(cpus[c]), Published(), now,
                                                        Css(prev), prevNr, prevThrottled, Css(next), nextNr)]
    {
      hide Mark, PackSlice;
      ghost var before := cpus[..];
      EnsureEpoch(c);
      var start := cpus[c].previous;
      cpus[c] := cpus[c].(previous := now);
      if prev.Some? && prev.value.css >= MAX_CSS_IDS {
        cssOverflows := cssOverflows + 1;
      }
      if next.Some? && next.value.css >= MAX_CSS_IDS {
        cssOverflows := cssOverflows + 1;
      }
      slice := None;
      if start != 0 && prev.Some? && prev.value.css < MAX_CSS_IDS && keep {
        slice := Some(PackSlice((now + U64 - start % U64) % U64, cpus[c].bits, prev.value.css));
      }
      if prev.Some? && prev.value.css < MAX_CSS_IDS {
        MarkGroup(c, prev.value, prevNr >= 1, prevThrottled);
      }
      cpus[c] := cpus[c].(running := 0);
      if next.Some? && next.value.css < MAX_CSS_IDS {
        MarkGroup(c, next.value, nextNr >= 2, false);
        cpus[c] := cpus[c].(running := next.value.css + 1);
      }
    }

    /** `update_wakeup_waiting` past its early returns; `c` is the destination CPU. */
    method OnWakeup(c: nat, g: Group, nr: nat, throttled: bool)
      requires Valid() && c < MAX_CPUS && Names(g) && nr < U32
      modifies cpus, cache, this`invalidTargets, this`invalidRunnable, this`cssOverflows
      ensures Valid()
      ensures cpus[..] == old(cpus[..])[c := WakeupHook(old(cpus[c]), Published(), g.css, nr, throttled)]
    {
      hide Lookup, SetBit;
      ghost var before := cpus[..];
      if g.css >= MAX_CSS_IDS {
        cssOverflows := cssOverflows + 1;
        assert cpus[..] == before[c := before[c]];
        return;
      }
      EnsureEpoch(c);
      var dense := ResolveDense(g);
      if dense == NON_TARGET {
        return;
      }
      if nr == 0 {
        invalidRunnable := invalidRunnable + 1;
        return;
      }
      var waiting := if cpus[c].running == g.css + 1 then (nr + U32 - 1) % U32 else nr;
      SetWaiting(c, dense, waiting >= 1, throttled);
    }

    /** `on_sched_migrate_task` past its early returns; `c` is the source CPU. */
    method OnMigrate(c: nat, g: Group, nr: nat, throttled: bool)
      requires Valid() && c < MAX_CPUS && Names(g) && nr < U32
      modifies cpus, cache, this`invalidTargets, this`cssOverflows
      ensures Valid()
      ensures cpus[..] == old(cpus[..])[c := MigrateHook(old(cpus[c]), Published(), g.css, nr, throttled)]
    {
      hide Lookup, SetBit;
      ghost var before := cpus[..];
      if g.css >= MAX_CSS_IDS {
        cssOverflows := cssOverflows + 1;
        assert cpus[..] == before[c := before[c]];
        return;
      }
      EnsureEpoch(c);
      var dense := ResolveDense(g);
      if dense == NON_TARGET {
        return;
      }
      var waiting := if cpus[c].running == g.css + 1 then (nr + U32 - 1) % U32 else nr;
      SetWaiting(c, dense, waiting >= 1, throttled);
    }

    /** `on_unthrottle_cfs_rq_return` past its early returns. */
    method OnUnthrottle(c: nat, g: Group, nr: nat)
      requires Valid() && c < MAX_CPUS && Names(g)
      modifies cpus, cache, this`invalidTargets, this`cssOverflows
      ensures Valid()
      ensures cpus[..] == old(cpus[..])[c := UnthrottleHook(old(cpus[c]), Published(), g.css, nr)]
    {
      ghost var before := cpus[..];
      if g.css >= MAX_CSS_IDS {
        cssOverflows := cssOverflows + 1;
        assert cpus[..] == before[c := before[c]];
        return;
      }
      EnsureEpoch(c);
      MarkGroup(c, g, nr >= 1, false);
    }
  }

  function Css(g: Option<Group>): Option<nat> {
    if g.Some? then Some(g.value.css) else None
  }

  /** What the target array publishes gives each dense id one cgroup, so it is a
      publication of the runqueue machine. */
  lemma SlotsHaveOneOwner(owner: nat -> nat, slots: seq<Target>)
    requires forall a, b :: 0 <= a < MAX_CSS_IDS && 0 <= b < MAX_CSS_IDS && owner(a) == owner(b) ==> a == b
    ensures OneOwner(map css | 0 <= css < MAX_CSS_IDS && owner(css) in MapOf(slots) :: MapOf(slots)[owner(css)])
  {
    MapOfIsSlots(slots);
  }
}
