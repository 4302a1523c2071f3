/** The byte-driven walk over a request's bios at completion: chunked as the verifier
    demands, against one simple walk; and what several partial completions of one
    request account together. */
module IoCompletion {
  datatype Bio = Bio(id: nat, size: nat)

  const CHUNK: nat := 32
  const CHUNKS: nat := 16
  const BUDGET: nat := 512

  ghost predicate Positive(chain: seq<Bio>) {
    forall i :: 0 <= i < |chain| ==> chain[i].size > 0
  }

  /** `__data_len` of a request with these bios left. */
  function Total(chain: seq<Bio>): nat {
    if chain == [] then 0 else chain[0].size + Total(chain[1..])
  }

  function Min(a: nat, b: nat): nat {
    if a <= b then a else b
  }

  // ------------------------------------------------------------- one event

  /** The simple walk: how many whole bios `bytes` complete, looking at no more than
      `budget` of them. */
  function Completed(chain: seq<Bio>, bytes: nat, budget: nat): (n: nat)
    ensures n <= |chain| && n <= budget
    decreases budget
  {
    if budget == 0 || chain == [] || chain[0].size > bytes then 0
    else if chain[0].size == bytes then 1
    else 1 + Completed(chain[1..], bytes - chain[0].size, budget - 1)
  }

  /** The budget ran out with bytes and a further bio left. */
  predicate Overflows(chain: seq<Bio>, bytes: nat, budget: nat)
    decreases budget
  {
    if chain == [] then false
    else if budget == 0 then true
    else chain[0].size < bytes && Overflows(chain[1..], bytes - chain[0].size, budget - 1)
  }

  lemma {:induction false} TotalSplit(chain: seq<Bio>, k: nat)
    requires k <= |chain|
    ensures Total(chain) == Total(chain[..k]) + Total(chain[k..])
    decreases k
  {
    if k == 0 {
      assert chain[..0] == [] && chain[0..] == chain;
    } else {
      TotalSplit(chain[1..], k - 1);
      assert chain[..k][1..] == chain[1..][..k - 1];
      assert chain[k..] == chain[1..][k - 1..];
    }
  }

  /** An overflow is exactly: after `budget` whole bios, bytes and a bio remain. */
  lemma {:induction false} OverflowsIff(chain: seq<Bio>, bytes: nat, budget: nat)
    requires bytes > 0 && Positive(chain)
    ensures Overflows(chain, bytes, budget) <==> |chain| > budget && Total(chain[..budget]) < bytes
    decreases budget
  {
    if chain == [] || budget == 0 {
      assert |chain| > 0 ==> chain[..0] == [];
    } else if chain[0].size < bytes {
      OverflowsIff(chain[1..], bytes - chain[0].size, budget - 1);
      if |chain| > budget {
        assert chain[..budget][1..] == chain[1..][..budget - 1];
      }
    } else if |chain| > budget {
      TotalSplit(chain[..budget], 1);
    }
  }

  /** The budget cuts the unbounded walk and changes nothing else. */
  lemma {:induction false} BudgetCuts(chain: seq<Bio>, bytes: nat, budget: nat)
    ensures Completed(chain, bytes, budget) == Min(Completed(chain, bytes, |chain|), budget)
    decreases budget
  {
    if budget > 0 && chain != [] && chain[0].size < bytes {
      BudgetCuts(chain[1..], bytes - chain[0].size, budget - 1);
    }
  }

  /** What one accounted bio carries; only one bio owns the issued size. */
  datatype Sample = Sample(id: nat, issued: nat)

  /** Walking on from a middle: the walk from `k` on is the rest of the walk. */
  lemma WalkNext(chain: seq<Bio>, k: nat, bytes: nat, budget: nat)
    requires k < |chain| && budget > 0
    ensures chain[k..][0] == chain[k] && chain[k..][1..] == chain[k + 1..]
    ensures chain[k].size < bytes ==>
              var left := bytes - chain[k].size;
              && Completed(chain[k..], bytes, budget) == 1 + Completed(chain[k + 1..], left, budget - 1)
              && Overflows(chain[k..], bytes, budget) == Overflows(chain[k + 1..], left, budget - 1)
    ensures chain[k].size == bytes ==>
              Completed(chain[k..], bytes, budget) == 1 && !Overflows(chain[k..], bytes, budget)
    ensures chain[k].size > bytes ==> Completed(chain[k..], bytes, budget) == 0 && !Overflows(chain[k..], bytes, budget)
  {
  }

  function Samples(bios: seq<Bio>, issued: nat): seq<Sample> {
    seq(|bios|, i requires 0 <= i < |bios| => Sample(bios[i].id, if i == 0 then issued else 0))
  }

  class Completions {
    var log: seq<Sample>
    var queued: seq<nat>
    var overflow: bool

    constructor ()
      ensures log == [] && queued == [] && !overflow
    {
      log, queued, overflow := [], [], false;
    }

    /** `queue_remapped_bios`: one chunk, from bio `from` on. */
    method QueueChunk(chain: seq<Bio>, from: nat) returns (next: nat)
      requires from <= |chain|
      modifies this`queued
      ensures next == Min(from + CHUNK, |chain|) && queued == old(queued) + Ids(chain[from..next])
    {
      next := from;
      var i := 0;
      while i < CHUNK && next < |chain|
        invariant i <= CHUNK && next == from + i <= |chain|
        invariant queued == old(queued) + Ids(chain[from..next])
      {
        queued := queued + [chain[next].id];
        assert Ids(chain[from..next + 1]) == Ids(chain[from..next]) + [chain[next].id];
        next, i := next + 1, i + 1;
      }
    }

    /** `trace_request_remap` on a tracked request: the first 512 bios, in order. */
    method QueueRemapped(chain: seq<Bio>)
      modifies this`queued, this`overflow
      ensures queued == old(queued) + Ids(chain[..Min(|chain|, BUDGET)])
      ensures overflow == (old(overflow) || |chain| > BUDGET)
    {
      var bio, i := 0, 0;
      while i < BUDGET / CHUNK && bio < |chain|
        invariant i <= BUDGET / CHUNK && bio == Min(CHUNK * i, |chain|)
        invariant overflow == old(overflow) && queued == old(queued) + Ids(chain[..bio])
      {
        var next := QueueChunk(chain, bio);
        assert Ids(chain[..next]) == Ids(chain[..bio]) + Ids(chain[bio..next]);
        bio, i := next, i + 1;
      }
      if bio < |chain| {
        overflow := true;
      }
    }

    /** `complete_bio_chunk`; `from` and `remaining` are the cursor.  Within any
        budget that covers the chunk, walking the chunk and then the rest is one
        walk. */
    method CompleteChunk(chain: seq<Bio>, from: nat, remaining: nat, limit: nat, ghost budget: nat)
      returns (go: bool, next: nat, left: nat)
      requires from <= |chain| && remaining > 0 && limit <= budget
      modifies this`log
      ensures from <= next <= |chain| && next <= from + limit
      ensures log == old(log) + Samples(chain[from..next], 0)
      ensures go ==> left > 0 && (next < |chain| ==> next == from + limit)
      ensures Completed(chain[from..], remaining, budget)
           == next - from + if go then Completed(chain[next..], left, budget - (next - from)) else 0
      ensures Overflows(chain[from..], remaining, budget)
           == (go && Overflows(chain[next..], left, budget - (next - from)))
    {
      hide Completed, Overflows;
      var bio, bytes, i: nat := from, remaining, 0;
      while i < limit && bio < |chain|
        invariant i <= limit && bio == from + i && bio <= |chain| && bytes > 0
        invariant log == old(log) + Samples(chain[from..bio], 0)
        invariant Completed(chain[from..], remaining, budget) == i + Completed(chain[bio..], bytes, budget - i)
        invariant Overflows(chain[from..], remaining, budget) == Overflows(chain[bio..], bytes, budget - i)
      {
        WalkNext(chain, bio, bytes, budget - i);
        if chain[bio].size > bytes {
          return false, bio, bytes;
        }
        log := log + [Sample(chain[bio].id, 0)];
        SamplesNext(chain, from, bio);
        if chain[bio].size == bytes {
          return false, bio + 1, 0;
        }
        bytes := bytes - chain[bio].size;
        bio := bio + 1;
        i := i + 1;
      }
      return true, bio, bytes;
    }

    /** `trace_request_complete` on a tracked read or write: `sectors` is what a SCSI
        request recorded at issue, `tailKnown` whether the tail bio could be read. */
    method Complete(chain: seq<Bio>, requestBytes: nat, bytes: nat, tailKnown: bool, issueNs: nat, scsi: bool,
                    sectors: nat)
      requires requestBytes == Total(chain)
      modifies this`log, this`overflow
      ensures bytes == 0 ==> log == old(log) && overflow == old(overflow)
      ensures bytes > 0 ==>
                && log == old(log) + Samples(chain[..Completed(chain, bytes, BUDGET)],
                                             Issued(chain, bytes, issueNs, scsi, sectors))
                && overflow == (old(overflow) || Overflows(chain, bytes, BUDGET))
    {
      hide Completed, Overflows, Samples, Total;
      if bytes == 0 {
        return;
      }
      if |chain| == 0 {
        EmptyWalk(bytes, Issued(chain, bytes, issueNs, scsi, sectors));
        return;
      }
      var issued := if bytes >= requestBytes && issueNs != 0 then (if scsi then sectors * 512 else bytes) else 0;
      WalkNext(chain, 0, bytes, BUDGET);
      assert chain[0..] == chain;
      if tailKnown && bytes == requestBytes && |chain| == 1 {
        SingleTotal(chain);
        FirstSample(chain, 1, issued);
        log := log + [Sample(chain[0].id, issued)];
        return;
      }
      if chain[0].size > bytes {
        FirstSample(chain, 0, issued);
        return;
      }
      log := log + [Sample(chain[0].id, issued)];
      FirstSample(chain, Completed(chain, bytes, BUDGET), issued);
      if chain[0].size < bytes {
        CompleteRest(chain, bytes - chain[0].size);
      }
    }

    /** The first bio counts toward the budget: 15 full chunks and one of 31. */
    method CompleteRest(chain: seq<Bio>, remaining: nat)
      requires |chain| > 0 && remaining > 0
      modifies this`log, this`overflow
      ensures log == old(log) + Samples(chain[1..1 + Completed(chain[1..], remaining, BUDGET - 1)], 0)
      ensures overflow == (old(overflow) || Overflows(chain[1..], remaining, BUDGET - 1))
    {
      hide Completed, Overflows, Samples;
      var bio, left, i: nat := 1, remaining, 0;
      NoSamples(chain);
      while i < CHUNKS && bio < |chain|
        invariant i <= CHUNKS && 1 <= bio <= |chain| && bio <= BUDGET && left > 0
        invariant bio < |chain| ==> bio == if i < CHUNKS then 1 + CHUNK * i else BUDGET
        invariant overflow == old(overflow) && log == old(log) + Samples(chain[1..bio], 0)
        invariant Completed(chain[1..], remaining, BUDGET - 1) == bio - 1 + Completed(chain[bio..], left, BUDGET - bio)
        invariant Overflows(chain[1..], remaining, BUDGET - 1) == Overflows(chain[bio..], left, BUDGET - bio)
      {
        var limit := if i == CHUNKS - 1 then BUDGET - 1 - (CHUNKS - 1) * CHUNK else CHUNK;
        var go, next, rest := CompleteChunk(chain, bio, left, limit, BUDGET - bio);
        JoinSamples(chain, bio, next);
        if !go {
          assert 1 + Completed(chain[1..], remaining, BUDGET - 1) == next;
          return;
        }
        bio, left, i := next, rest, i + 1;
      }
      WalkEnds(chain, bio, left);
      if bio < |chain| {
        overflow := true;
      }
    }
  }

  /** A bio that the budget keeps from being accounted is never lost silently. */
  lemma {:induction false} LossIsFlagged(chain: seq<Bio>, bytes: nat, budget: nat)
    requires Positive(chain) && bytes > 0 && Completed(chain, bytes, |chain|) > budget
    ensures Overflows(chain, bytes, budget)
    decreases budget
  {
    if budget > 0 && chain[0].size < bytes {
      LossIsFlagged(chain[1..], bytes - chain[0].size, budget - 1);
    }
  }

  lemma EmptyWalk(bytes: nat, issued: nat)
    ensures Completed([], bytes, BUDGET) == 0 && !Overflows([], bytes, BUDGET)
    ensures Samples([][..Completed([], bytes, BUDGET)], issued) == []
  {
  }

  lemma NoSamples(chain: seq<Bio>)
    requires |chain| > 0
    ensures Samples(chain[1..1], 0) == []
  {
  }

  lemma JoinSamples(chain: seq<Bio>, bio: nat, next: nat)
    requires 1 <= bio <= next <= |chain|
    ensures Samples(chain[1..bio], 0) + Samples(chain[bio..next], 0) == Samples(chain[1..next], 0)
  {
  }

  lemma FirstSample(chain: seq<Bio>, n: nat, issued: nat)
    requires |chain| > 0 && n <= |chain|
    ensures Samples(chain[..n], issued)
         == if n == 0 then [] else [Sample(chain[0].id, issued)] + Samples(chain[1..n], 0)
    ensures n == 1 ==> Samples(chain[..n], issued) == [Sample(chain[0].id, issued)]
  {
    if n > 0 {
      var a, b := Samples(chain[..n], issued), [Sample(chain[0].id, issued)] + Samples(chain[1..n], 0);
      assert |a| == |b| && forall i :: 0 <= i < n ==> a[i] == b[i];
    }
  }

  lemma WalkEnds(chain: seq<Bio>, bio: nat, left: nat)
    requires bio <= |chain| && bio <= BUDGET && left > 0 && (bio < |chain| ==> bio == BUDGET)
    ensures Completed(chain[bio..], left, BUDGET - bio) == 0
    ensures Overflows(chain[bio..], left, BUDGET - bio) <==> bio < |chain|
  {
  }

  lemma SamplesNext(chain: seq<Bio>, from: nat, bio: nat)
    requires from <= bio < |chain|
    ensures Samples(chain[from..bio + 1], 0) == Samples(chain[from..bio], 0) + [Sample(chain[bio].id, 0)]
  {
  }

  lemma SingleTotal(chain: seq<Bio>)
    requires |chain| == 1
    ensures Total(chain) == chain[0].size
  {
  }

  /** The issued size belongs to the completion that finishes the request. */
  function Issued(chain: seq<Bio>, bytes: nat, issueNs: nat, scsi: bool, sectors: nat): nat {
    if bytes >= Total(chain) && issueNs != 0 then (if scsi then sectors * 512 else bytes) else 0
  }

  // --------------------------------------------------------- several events

  /** What the kernel leaves of the bios after completing some bytes. */
  function Advance(chain: seq<Bio>, bytes: nat): seq<Bio> {
    if chain == [] then []
    else if chain[0].size <= bytes then Advance(chain[1..], bytes - chain[0].size)
    else [chain[0].(size := chain[0].size - bytes)] + chain[1..]
  }

  /** The bios whose last byte is among the first `bytes`. */
  function Done(chain: seq<Bio>, bytes: nat): (n: nat)
    ensures n <= |chain|
  {
    if chain == [] || chain[0].size > bytes then 0 else 1 + Done(chain[1..], bytes - chain[0].size)
  }

  lemma {:induction false} DoneIff(chain: seq<Bio>, bytes: nat, j: nat)
    requires j < |chain|
    ensures j < Done(chain, bytes) <==> Total(chain[..j + 1]) <= bytes
  {
    if chain[0].size <= bytes {
      if j == 0 {
        SingleTotal(chain[..1]);
      } else {
        DoneIff(chain[1..], bytes - chain[0].size, j - 1);
        assert chain[..j + 1][1..] == chain[1..][..j];
      }
    }
  }

  lemma {:induction false} NothingDone(chain: seq<Bio>)
    requires Positive(chain)
    ensures Done(chain, 0) == 0 && Advance(chain, 0) == chain
  {
    if chain != [] {
      assert chain == [chain[0]] + chain[1..];
    }
  }

  /** The unbounded walk accounts exactly the bios that these bytes finish. */
  lemma {:induction false} CompletedIsDone(chain: seq<Bio>, bytes: nat)
    requires Positive(chain) && bytes > 0
    ensures Completed(chain, bytes, |chain|) == Done(chain, bytes)
  {
    if chain != [] && chain[0].size <= bytes {
      if chain[0].size < bytes {
        CompletedIsDone(chain[1..], bytes - chain[0].size);
      } else {
        NothingDone(chain[1..]);
      }
    }
  }

  /** Finished bios leave, a partial one shrinks and keeps its place. */
  lemma {:induction false} AdvanceKeeps(chain: seq<Bio>, bytes: nat)
    requires Positive(chain) && bytes <= Total(chain)
    ensures Positive(Advance(chain, bytes)) && Total(Advance(chain, bytes)) == Total(chain) - bytes
    ensures |Advance(chain, bytes)| == |chain| - Done(chain, bytes)
    ensures Ids(Advance(chain, bytes)) == Ids(chain)[Done(chain, bytes)..]
  {
    if chain != [] {
      if chain[0].size <= bytes {
        AdvanceKeeps(chain[1..], bytes - chain[0].size);
        assert Ids(chain)[1..] == Ids(chain[1..]);
      } else {
        var r := Advance(chain, bytes);
        assert r[1..] == chain[1..];
        assert Ids(r) == Ids(chain);
      }
    }
  }

  function Ids(chain: seq<Bio>): (r: seq<nat>)
    ensures |r| == |chain|
  {
    seq(|chain|, i requires 0 <= i < |chain| => chain[i].id)
  }

  /** Bytes completed in two steps finish the same bios as in one. */
  lemma {:induction false} DoneInSteps(chain: seq<Bio>, first: nat, bytes: nat)
    requires Positive(chain) && first + bytes <= Total(chain)
    ensures Done(chain, first + bytes) == Done(chain, first) + Done(Advance(chain, first), bytes)
  {
    if chain != [] {
      if chain[0].size <= first {
        DoneInSteps(chain[1..], first - chain[0].size, bytes);
      } else {
        var r := Advance(chain, first);
        assert r[1..] == chain[1..];
      }
    }
  }

  // ------------------------------------------------------------------- runs

  function Sum(events: seq<nat>): nat {
    if events == [] then 0 else events[0] + Sum(events[1..])
  }

  function After(chain: seq<Bio>, events: seq<nat>): seq<Bio>
    decreases |events|
  {
    if events == [] then chain else After(Advance(chain, events[0]), events[1..])
  }

  /** What one event of `bytes` accounts when `chain` is left. */
  function Accounted(chain: seq<Bio>, bytes: nat, issueNs: nat, scsi: bool, sectors: nat): seq<Sample> {
    Samples(chain[..Completed(chain, bytes, BUDGET)], Issued(chain, bytes, issueNs, scsi, sectors))
  }

  function Run(chain: seq<Bio>, events: seq<nat>, issueNs: nat, scsi: bool, sectors: nat): seq<Sample>
    decreases |events|
  {
    if events == [] then []
    else Accounted(chain, events[0], issueNs, scsi, sectors)
         + Run(Advance(chain, events[0]), events[1..], issueNs, scsi, sectors)
  }

  /** Every event is nonzero and stays within the budget. */
  ghost predicate Ordinary(chain: seq<Bio>, events: seq<nat>)
    decreases |events|
  {
    events == [] ||
    (&& 0 < events[0] <= Total(chain) && Completed(chain, events[0], |chain|) <= BUDGET
     && Ordinary(Advance(chain, events[0]), events[1..]))
  }

  function SampleIds(samples: seq<Sample>): (r: seq<nat>)
    ensures |r| == |samples|
  {
    seq(|samples|, i requires 0 <= i < |samples| => samples[i].id)
  }

  lemma OrdinaryEvent(chain: seq<Bio>, bytes: nat, issueNs: nat, scsi: bool, sectors: nat)
    requires Positive(chain) && 0 < bytes && Completed(chain, bytes, |chain|) <= BUDGET
    ensures SampleIds(Accounted(chain, bytes, issueNs, scsi, sectors)) == Ids(chain)[..Done(chain, bytes)]
  {
    BudgetCuts(chain, bytes, BUDGET);
    CompletedIsDone(chain, bytes);
  }

  lemma SampleIdsJoin(a: seq<Sample>, b: seq<Sample>)
    ensures SampleIds(a + b) == SampleIds(a) + SampleIds(b)
  {
  }

  /** What was accounted and what is left make up the chain, at every point. */
  lemma {:induction false} RunAccountsPrefix(chain: seq<Bio>, events: seq<nat>, issueNs: nat, scsi: bool, sectors: nat)
    requires Positive(chain) && Ordinary(chain, events)
    ensures SampleIds(Run(chain, events, issueNs, scsi, sectors)) + Ids(After(chain, events)) == Ids(chain)
    ensures Positive(After(chain, events)) && Sum(events) + Total(After(chain, events)) == Total(chain)
    decreases |events|
  {
    hide Accounted, Advance, Done, Ids, SampleIds, Completed, Total, Samples;
    if events == [] {
      NoSampleIds(chain);
    } else {
      var next, d := Advance(chain, events[0]), Done(chain, events[0]);
      OrdinaryEvent(chain, events[0], issueNs, scsi, sectors);
      AdvanceKeeps(chain, events[0]);
      RunAccountsPrefix(next, events[1..], issueNs, scsi, sectors);
      var now, later := Accounted(chain, events[0], issueNs, scsi, sectors),
                        Run(next, events[1..], issueNs, scsi, sectors);
      SampleIdsJoin(now, later);
      Assoc(SampleIds(now), SampleIds(later), Ids(After(next, events[1..])));
      assert Ids(chain) == Ids(chain)[..d] + Ids(chain)[d..];
    }
  }

  lemma NoSampleIds(chain: seq<Bio>)
    ensures SampleIds([]) + Ids(chain) == Ids(chain)
  {
  }

  lemma Assoc(a: seq<nat>, b: seq<nat>, c: seq<nat>)
    ensures (a + b) + c == a + (b + c)
  {
  }

  /** However a request's bytes are split into completions, each of its bios is
      accounted exactly once and in order. */
  lemma RunAccountsEachBio(chain: seq<Bio>, events: seq<nat>, issueNs: nat, scsi: bool, sectors: nat)
    requires Positive(chain) && Ordinary(chain, events) && Sum(events) == Total(chain)
    ensures SampleIds(Run(chain, events, issueNs, scsi, sectors)) == Ids(chain)
  {
    RunAccountsPrefix(chain, events, issueNs, scsi, sectors);
    NoBytesLeft(After(chain, events));
  }

  lemma NoBytesLeft(chain: seq<Bio>)
    requires Positive(chain) && Total(chain) == 0
    ensures chain == []
  {
  }

  /** Every event is nonzero and the request has those bytes left. */
  ghost predicate Split(chain: seq<Bio>, events: seq<nat>) {
    Sum(events) == Total(chain) && forall i :: 0 <= i < |events| ==> events[i] > 0
  }

  /** The bios that the budget keeps an event from accounting. */
  function Skipped(chain: seq<Bio>, bytes: nat): nat {
    if Done(chain, bytes) > BUDGET then Done(chain, bytes) - BUDGET else 0
  }

  function Lost(chain: seq<Bio>, events: seq<nat>): nat
    decreases |events|
  {
    if events == [] then 0 else Skipped(chain, events[0]) + Lost(Advance(chain, events[0]), events[1..])
  }

  /** Accounted plus lost is the whole chain, however the bytes are split. */
  lemma {:induction false} RunAccountsOrLoses(chain: seq<Bio>, events: seq<nat>, issueNs: nat, scsi: bool, sectors: nat)
    requires Positive(chain) && Split(chain, events)
    ensures |Run(chain, events, issueNs, scsi, sectors)| + Lost(chain, events) == |chain|
    decreases |events|
  {
    hide Advance, Done, Completed, Samples, Total;
    if events == [] {
      NoBytesLeft(chain);
    } else {
      AdvanceKeeps(chain, events[0]);
      BudgetCuts(chain, events[0], BUDGET);
      CompletedIsDone(chain, events[0]);
      AccountedCount(chain, events[0], issueNs, scsi, sectors);
      RunAccountsOrLoses(Advance(chain, events[0]), events[1..], issueNs, scsi, sectors);
    }
  }

  lemma AccountedCount(chain: seq<Bio>, bytes: nat, issueNs: nat, scsi: bool, sectors: nat)
    ensures |Accounted(chain, bytes, issueNs, scsi, sectors)| == Completed(chain, bytes, BUDGET)
  {
  }

  lemma {:induction false} OrdinaryIffNothingLost(chain: seq<Bio>, events: seq<nat>)
    requires Positive(chain) && Split(chain, events)
    ensures Ordinary(chain, events) <==> Lost(chain, events) == 0
    decreases |events|
  {
    hide Advance, Done, Completed, Total;
    if events != [] {
      AdvanceKeeps(chain, events[0]);
      CompletedIsDone(chain, events[0]);
      OrdinaryIffNothingLost(Advance(chain, events[0]), events[1..]);
    }
  }

  /** A split of the bytes accounts every bio if and only if no completion finishes
      more bios than the budget covers. */
  lemma RunAccountsIff(chain: seq<Bio>, events: seq<nat>, issueNs: nat, scsi: bool, sectors: nat)
    requires Positive(chain) && Split(chain, events)
    ensures SampleIds(Run(chain, events, issueNs, scsi, sectors)) == Ids(chain) <==> Ordinary(chain, events)
  {
    OrdinaryIffNothingLost(chain, events);
    RunAccountsOrLoses(chain, events, issueNs, scsi, sectors);
    if Ordinary(chain, events) {
      RunAccountsEachBio(chain, events, issueNs, scsi, sectors);
    } else {
      assert |SampleIds(Run(chain, events, issueNs, scsi, sectors))| < |Ids(chain)|;
    }
  }

  lemma {:induction false} AfterIsAdvance(chain: seq<Bio>, events: seq<nat>, bytes: nat)
    requires Positive(chain) && Sum(events) + bytes <= Total(chain)
    ensures Ids(After(chain, events)) == Ids(chain)[Done(chain, Sum(events))..]
    ensures Positive(After(chain, events)) && Total(After(chain, events)) == Total(chain) - Sum(events)
    ensures Done(chain, Sum(events) + bytes) == Done(chain, Sum(events)) + Done(After(chain, events), bytes)
    decreases |events|
  {
    hide Advance, Done, Ids, Total;
    if events == [] {
      NothingDone(chain);
    } else {
      AdvanceKeeps(chain, events[0]);
      AfterIsAdvance(Advance(chain, events[0]), events[1..], bytes);
      DoneInSteps(chain, events[0], Sum(events[1..]));
      DoneInSteps(chain, events[0], Sum(events[1..]) + bytes);
    }
  }

  /** The event after `before` accounts exactly the bios whose last byte it completes:
      bio `j` of the original chain ends inside it. */
  lemma EventAccountsItsBios(chain: seq<Bio>, before: seq<nat>, bytes: nat, j: nat)
    requires Positive(chain) && bytes > 0 && Sum(before) + bytes <= Total(chain) && j < |chain|
    requires Completed(After(chain, before), bytes, |After(chain, before)|) <= BUDGET
    ensures var from := Done(chain, Sum(before));
            var n := Completed(After(chain, before), bytes, BUDGET);
            && Ids(After(chain, before)) == Ids(chain)[from..]
            && (from <= j < from + n <==> Sum(before) < Total(chain[..j + 1]) <= Sum(before) + bytes)
  {
    hide Advance, Done, Ids, Total, Completed, After, Sum, Positive;
    var rest := After(chain, before);
    AfterIsAdvance(chain, before, bytes);
    BudgetCuts(rest, bytes, BUDGET);
    CompletedIsDone(rest, bytes);
    DoneIff(chain, Sum(before), j);
    DoneIff(chain, Sum(before) + bytes, j);
  }

  /** A completion that leaves bytes behind samples no issued size, the last one of a
      request samples it with its first bio. */
  lemma EventIssues(chain: seq<Bio>, bytes: nat, issueNs: nat, scsi: bool, sectors: nat)
    requires Positive(chain) && chain != [] && 0 < bytes <= Total(chain)
    ensures var now := Accounted(chain, bytes, issueNs, scsi, sectors);
            && (bytes == Total(chain) && issueNs != 0 ==>
                  now != [] && now[0].issued == if scsi then sectors * 512 else bytes)
            && (bytes < Total(chain) || issueNs == 0 ==> forall i :: 0 <= i < |now| ==> now[i].issued == 0)
            && forall i :: 0 < i < |now| ==> now[i].issued == 0
  {
    assert bytes == Total(chain) ==> Completed(chain, bytes, BUDGET) >= 1;
  }

  /** The sample at `at` has the issued size, all the others have zero. */
  ghost predicate OnlyAt(samples: seq<Sample>, at: nat, size: nat) {
    && at < |samples| && samples[at].issued == size
    && forall i :: 0 <= i < |samples| && i != at ==> samples[i].issued == 0
  }

  lemma OnlyAtLater(now: seq<Sample>, rest: seq<Sample>, at: nat, size: nat)
    requires OnlyAt(rest, at, size) && forall i :: 0 <= i < |now| ==> now[i].issued == 0
    ensures OnlyAt(now + rest, |now| + at, size) && (now + rest)[|now| + at..] == rest[at..]
  {
  }

  /** Exactly one sample of a finished request has the issued size, however its bytes
      were split: the first one that the last completion takes. */
  lemma {:induction false} IssuedOnce(chain: seq<Bio>, events: seq<nat>, issueNs: nat, scsi: bool, sectors: nat)
    requires Positive(chain) && chain != [] && Split(chain, events) && issueNs != 0
    ensures events != []
    ensures var n := |events| - 1;
            var all := Run(chain, events, issueNs, scsi, sectors);
            var first := |Run(chain, events[..n], issueNs, scsi, sectors)|;
            && OnlyAt(all, first, if scsi then sectors * 512 else events[n])
            && all[first..] == Accounted(After(chain, events[..n]), events[n], issueNs, scsi, sectors)
    decreases |events|
  {
    hide Accounted, Advance, Positive, OnlyAt;
    SomeBytes(chain);
    var n, now := |events| - 1, Accounted(chain, events[0], issueNs, scsi, sectors);
    EventIssues(chain, events[0], issueNs, scsi, sectors);
    if n == 0 {
      assert events[1..] == [] && Sum(events[1..]) == 0;
      LastIssues(chain, events, issueNs, scsi, sectors);
    } else {
      var next := Advance(chain, events[0]);
      AdvanceKeeps(chain, events[0]);
      SplitRest(chain, events);
      IssuedOnce(next, events[1..], issueNs, scsi, sectors);
      assert events[..n][1..] == events[1..][..n - 1];
      OnlyAtLater(now, Run(next, events[1..], issueNs, scsi, sectors),
                  |Run(next, events[1..][..n - 1], issueNs, scsi, sectors)|,
                  if scsi then sectors * 512 else events[n]);
    }
  }

  lemma LastIssues(chain: seq<Bio>, events: seq<nat>, issueNs: nat, scsi: bool, sectors: nat)
    requires Positive(chain) && chain != [] && |events| == 1 && events[0] == Total(chain) && issueNs != 0
    ensures Run(chain, events[..0], issueNs, scsi, sectors) == []
    ensures var all := Run(chain, events, issueNs, scsi, sectors);
            && OnlyAt(all, 0, if scsi then sectors * 512 else events[0])
            && all[0..] == Accounted(After(chain, events[..0]), events[0], issueNs, scsi, sectors)
  {
    hide Accounted, Advance;
    SomeBytes(chain);
    EventIssues(chain, events[0], issueNs, scsi, sectors);
    assert events[..0] == [] && events[1..] == [];
    assert Run(chain, events, issueNs, scsi, sectors) == Accounted(chain, events[0], issueNs, scsi, sectors) + [];
  }

  lemma SplitRest(chain: seq<Bio>, events: seq<nat>)
    requires Positive(chain) && Split(chain, events) && |events| > 1
    ensures events[0] < Total(chain) && Split(Advance(chain, events[0]), events[1..])
    ensures Advance(chain, events[0]) != []
  {
    hide Advance, Positive;
    assert events[1] > 0 && Sum(events[1..]) >= events[1];
    AdvanceKeeps(chain, events[0]);
    assert Total([]) == 0;
  }

  lemma SomeBytes(chain: seq<Bio>)
    requires Positive(chain) && chain != []
    ensures Total(chain) > 0
  {
  }

  /** Without an issue time no sample has an issued size. */
  lemma {:induction false} NothingIssued(chain: seq<Bio>, events: seq<nat>, scsi: bool, sectors: nat, i: nat)
    requires i < |Run(chain, events, 0, scsi, sectors)|
    ensures Run(chain, events, 0, scsi, sectors)[i].issued == 0
    decreases |events|
  {
    var now := Accounted(chain, events[0], 0, scsi, sectors);
    if i >= |now| {
      NothingIssued(Advance(chain, events[0]), events[1..], scsi, sectors, i - |now|);
    }
  }

  // ----------------------------------------------------------- past the budget

  lemma {:induction false} UnitTotal(chain: seq<Bio>)
    requires forall i :: 0 <= i < |chain| ==> chain[i].size == 1
    ensures Total(chain) == Done(chain, |chain|) == |chain|
  {
    if chain != [] {
      UnitTotal(chain[1..]);
    }
  }

  /** A request of more than 512 one-byte bios that completes at once loses the rest. */
  lemma BudgetLoses(n: nat, issueNs: nat, scsi: bool, sectors: nat)
    requires n > BUDGET
    ensures var chain := seq(n, i requires 0 <= i < n => Bio(i, 1));
            && Positive(chain) && Split(chain, [n]) && Lost(chain, [n]) == n - BUDGET
            && SampleIds(Run(chain, [n], issueNs, scsi, sectors)) != Ids(chain)
  {
    hide Done, Total, Run;
    var chain := seq(n, i requires 0 <= i < n => Bio(i, 1));
    UnitTotal(chain);
    assert [n][1..] == [] && Sum([n]) == n;
    assert Lost(Advance(chain, n), []) == 0;
    RunAccountsOrLoses(chain, [n], issueNs, scsi, sectors);
  }
}
