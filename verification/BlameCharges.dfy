/** The competitor-by-target charge matrix and the per-target times, as values. */
module BlameCharges {
  import opened PackedSlices

  const PAIRS: nat := 344064

  function ChargeIndex(css: nat, target: nat): (i: nat)
    requires css < MAX_CSS_IDS && target < MAX_TARGETS
    ensures i < PAIRS && i / MAX_TARGETS == css && i % MAX_TARGETS == target
  {
    css * MAX_TARGETS + target
  }

  datatype Times = Times(runtime: nat, internal: nat, external: nat, throttled: nat)

  const NO_TIME := Times(0, 0, 0, 0)

  datatype Ledger = Ledger(matrix: seq<nat>, times: seq<Times>) {
    ghost predicate Fits() {
      |matrix| == PAIRS && |times| == MAX_TARGETS
    }
  }

  /** What the first `n` competitors are charged for a target. */
  function Column(matrix: seq<nat>, target: nat, n: nat): nat
    requires |matrix| == PAIRS && target < MAX_TARGETS && n <= MAX_CSS_IDS
  {
    if n == 0 then 0 else Column(matrix, target, n - 1) + matrix[ChargeIndex(n - 1, target)]
  }

  /** External time is the sum of the target's column; internal is part of runtime. */
  ghost predicate Balanced(l: Ledger) {
    && l.Fits()
    && forall t :: 0 <= t < MAX_TARGETS ==>
         && l.times[t].external == Column(l.matrix, t, MAX_CSS_IDS)
         && l.times[t].internal <= l.times[t].runtime
  }

  // --------------------------------------------------------------- charging

  function ChargeOne(l: Ledger, css: nat, target: nat, amount: nat): Ledger
    requires l.Fits() && css < MAX_CSS_IDS && target < MAX_TARGETS
  {
    var i := ChargeIndex(css, target);
    Ledger(l.matrix[i := l.matrix[i] + amount],
           l.times[target := l.times[target].(external := l.times[target].external + amount)])
  }

  /** Charge one competitor for every target in a set. */
  function Charged(l: Ledger, css: nat, targets: set<nat>, amount: nat): Ledger
    requires l.Fits()
  {
    Ledger(seq(PAIRS, i requires 0 <= i < PAIRS =>
                 l.matrix[i] + if i / MAX_TARGETS == css && i % MAX_TARGETS in targets then amount else 0),
           seq(MAX_TARGETS, t requires 0 <= t < MAX_TARGETS =>
                 l.times[t].(external := l.times[t].external + if t in targets then amount else 0)))
  }

  lemma ChargedNone(l: Ledger, css: nat, amount: nat)
    requires l.Fits()
    ensures Charged(l, css, {}, amount) == l
  {
    var r := Charged(l, css, {}, amount);
    assert r.matrix == l.matrix && r.times == l.times;
  }

  lemma ChargedNext(l: Ledger, css: nat, targets: set<nat>, target: nat, amount: nat)
    requires l.Fits() && css < MAX_CSS_IDS && target < MAX_TARGETS && target !in targets
    ensures ChargeOne(Charged(l, css, targets, amount), css, target, amount)
         == Charged(l, css, targets + {target}, amount)
  {
    var a, b := ChargeOne(Charged(l, css, targets, amount), css, target, amount),
                Charged(l, css, targets + {target}, amount);
    var k := ChargeIndex(css, target);
    forall i | 0 <= i < PAIRS
      ensures a.matrix[i] == b.matrix[i]
    {
      assert i != k ==> i / MAX_TARGETS != css || i % MAX_TARGETS != target;
    }
    assert a.matrix == b.matrix && a.times == b.times;
  }

  lemma {:induction false} ColumnCharged(l: Ledger, css: nat, targets: set<nat>, amount: nat, t: nat, n: nat)
    requires l.Fits() && t < MAX_TARGETS && n <= MAX_CSS_IDS
    ensures Column(Charged(l, css, targets, amount).matrix, t, n)
         == Column(l.matrix, t, n) + if css < n && t in targets then amount else 0
  {
    if n > 0 {
      ColumnCharged(l, css, targets, amount, t, n - 1);
    }
  }

  /** The running target's own time; it is internal contention when it also waits. */
  function Ran(l: Ledger, own: nat, waits: bool, amount: nat): Ledger
    requires l.Fits() && own < MAX_TARGETS
  {
    var time := l.times[own];
    l.(times := l.times[own := time.(runtime := time.runtime + amount,
                                     internal := time.internal + if waits then amount else 0)])
  }

  /** Everything one slice adds: `own` is the target that ran, if it is one. */
  function SliceCharged(l: Ledger, css: nat, own: nat, waiting: set<nat>, active: set<nat>, amount: nat): Ledger
    requires l.Fits()
  {
    var ran := if own < MAX_TARGETS then Ran(l, own, own in waiting, amount) else l;
    Charged(ran, css, waiting * active - {own}, amount)
  }

  lemma ChargedBalanced(l: Ledger, css: nat, targets: set<nat>, amount: nat)
    requires Balanced(l) && css < MAX_CSS_IDS
    ensures Balanced(Charged(l, css, targets, amount))
  {
    forall t | 0 <= t < MAX_TARGETS
      ensures Charged(l, css, targets, amount).times[t].external
           == Column(Charged(l, css, targets, amount).matrix, t, MAX_CSS_IDS)
    {
      ColumnCharged(l, css, targets, amount, t, MAX_CSS_IDS);
    }
  }

  lemma SliceBalanced(l: Ledger, css: nat, own: nat, waiting: set<nat>, active: set<nat>, amount: nat)
    requires Balanced(l) && css < MAX_CSS_IDS
    ensures Balanced(SliceCharged(l, css, own, waiting, active, amount))
  {
    var ran := if own < MAX_TARGETS then Ran(l, own, own in waiting, amount) else l;
    ChargedBalanced(ran, css, waiting * active - {own}, amount);
  }

  // --------------------------------------------------------------- clearing

  function SlotCleared(l: Ledger, target: nat): Ledger
    requires l.Fits() && target < MAX_TARGETS
  {
    Ledger(seq(PAIRS, i requires 0 <= i < PAIRS => if i % MAX_TARGETS == target then 0 else l.matrix[i]),
           l.times[target := NO_TIME])
  }

  lemma {:induction false} ColumnCleared(l: Ledger, target: nat, t: nat, n: nat)
    requires l.Fits() && target < MAX_TARGETS && t < MAX_TARGETS && n <= MAX_CSS_IDS
    ensures Column(SlotCleared(l, target).matrix, t, n) == if t == target then 0 else Column(l.matrix, t, n)
  {
    if n > 0 {
      ColumnCleared(l, target, t, n - 1);
    }
  }

  lemma SlotClearedBalanced(l: Ledger, target: nat)
    requires Balanced(l) && target < MAX_TARGETS
    ensures Balanced(SlotCleared(l, target))
  {
    forall t | 0 <= t < MAX_TARGETS
      ensures SlotCleared(l, target).times[t].external == Column(SlotCleared(l, target).matrix, t, MAX_CSS_IDS)
    {
      ColumnCleared(l, target, t, MAX_CSS_IDS);
    }
  }

  const BLANK := Ledger(seq(PAIRS, _ => 0), seq(MAX_TARGETS, _ => NO_TIME))

  lemma {:induction false} ColumnBlank(t: nat, n: nat)
    requires t < MAX_TARGETS && n <= MAX_CSS_IDS
    ensures Column(BLANK.matrix, t, n) == 0
  {
    if n > 0 {
      ColumnBlank(t, n - 1);
    }
  }

  lemma BlankBalanced()
    ensures Balanced(BLANK)
  {
    forall t | 0 <= t < MAX_TARGETS
      ensures Column(BLANK.matrix, t, MAX_CSS_IDS) == 0
    {
      ColumnBlank(t, MAX_CSS_IDS);
    }
  }

  /** Throttled time never enters the balance. */
  function Throttled(l: Ledger, target: nat, duration: nat): Ledger
    requires l.Fits() && target < MAX_TARGETS
  {
    l.(times := l.times[target := l.times[target].(throttled := l.times[target].throttled + duration)])
  }
}
