/** Highest response ratio next: the scheduler's scan of the process table
    (kernel/proc.c), its 32-bit cross products, and exactly when they pick the
    process the policy is named for. */
module Hrrn {
  import opened Common

  type int32 = x: int | -0x8000_0000 <= x < 0x8000_0000

  /** A table entry as the scan reads it, at tick `now`: the timer may tick between
      one entry and the next. */
  datatype Proc = Proc(runnable: bool, arrival: int32, lastRuntime: int32, now: uint32)

  function Service(p: Proc): (r: int32)
    ensures r > 0
  {
    if p.lastRuntime > 0 then p.lastRuntime else 1
  }

  function Response(p: Proc): int { p.now - p.arrival + Service(p) }

  /** The exact response ratio, (wait + service) / service, at that tick. */
  function Ratio(p: Proc): real { Response(p) as real / Service(p) as real }

  /** A process that has never run has its waiting time plus one for a ratio, one
      that has run its waiting time in units of its last run, plus one. */
  lemma RatioOf(p: Proc)
    ensures p.lastRuntime <= 0 ==> Ratio(p) == (p.now - p.arrival + 1) as real
    ensures p.lastRuntime > 0 ==> Ratio(p) == (p.now - p.arrival) as real / p.lastRuntime as real + 1.0
  {
    if p.lastRuntime > 0 {
      var w, d := (p.now - p.arrival) as real, p.lastRuntime as real;
      assert Response(p) as real == w + d && w / d * d == w;
      SameQuotient(Ratio(p), w / d + 1.0, d);
    }
  }

  lemma SameQuotient(x: real, y: real, d: real)
    requires d > 0.0 && x * d == y * d
    ensures x == y
  {
    if x > y { Scaled(x, y, d); } else if y > x { Scaled(y, x, d); }
  }

  // ---------------------------------------------------- comparing two processes

  /** The numerator as the kernel computes it. */
  function Num(p: Proc): int { Int32(Int32(p.now - p.arrival) + Service(p)) }

  /** The 32-bit test by which p takes over from c. */
  predicate Better(p: Proc, c: Proc) {
    Int32(Num(p) * Service(c)) > Int32(Num(c) * Service(p))
  }

  /** The test orders p and c by their ratios. */
  ghost predicate Agrees(p: Proc, c: Proc) {
    Better(p, c) <==> Ratio(p) > Ratio(c)
  }

  /** Cross products compare ratios. */
  lemma CrossRatio(a: int, b: int, c: int, d: int)
    requires b > 0 && d > 0
    ensures a * d > c * b <==> a as real / b as real > c as real / d as real
  {
    var x, y := a as real / b as real, c as real / d as real;
    var bd := b as real * d as real;
    assert x * bd == a as real * d as real == (a * d) as real;
    assert y * bd == c as real * b as real == (c * b) as real;
    if x > y { Scaled(x, y, bd); }
    if y > x { Scaled(y, x, bd); }
  }

  lemma Scaled(x: real, y: real, k: real)
    requires x > y && k > 0.0
    ensures x * k > y * k
  {
  }

  /** How many times 2^32 a product loses in an int. */
  function Wraps(x: int): int { (x + 0x8000_0000) / 0x1_0000_0000 }

  lemma WrapsBy(x: int)
    ensures x == Int32(x) + 0x1_0000_0000 * Wraps(x)
  {
  }

  /** Two products keep their order in an int: they lose equally much, or the
      one that loses more is still the larger. */
  predicate OrderKept(x: int, y: int) {
    Wraps(x) == Wraps(y) || (Wraps(x) > Wraps(y) <==> Int32(x) > Int32(y))
  }

  lemma OrderKeptExactly(x: int, y: int)
    ensures OrderKept(x, y) <==> (Int32(x) > Int32(y) <==> x > y)
  {
    WrapsBy(x);
    WrapsBy(y);
  }

  lemma Int32Shift(x: int, k: int)
    ensures Int32(x + 0x1_0000_0000 * k) == Int32(x)
  {
    WrapsBy(x);
    WrapsBy(x + 0x1_0000_0000 * k);
  }

  /** What a numerator loses makes no difference to its product. */
  lemma NumProduct(p: Proc, d: int)
    ensures Int32(Num(p) * d) == Int32(Response(p) * d)
  {
    var w := p.now - p.arrival;
    var k := Wraps(w) + Wraps(Int32(w) + Service(p));
    WrapsBy(w);
    WrapsBy(Int32(w) + Service(p));
    Shifted(Num(p), Response(p), k, d);
    Int32Shift(Num(p) * d, k * d);
  }

  lemma Shifted(a: int, b: int, k: int, d: int)
    requires b == a + 0x1_0000_0000 * k
    ensures b * d == a * d + 0x1_0000_0000 * (k * d)
  {
  }

  /** The cross products of p and c keep their order. */
  predicate Judged(p: Proc, c: Proc) {
    OrderKept(Response(p) * Service(c), Response(c) * Service(p))
  }

  /** The test is right if and only if the cross products keep their order. */
  lemma AgreesExactly(p: Proc, c: Proc)
    ensures Agrees(p, c) <==> Judged(p, c)
  {
    CrossRatio(Response(p), Service(p), Response(c), Service(c));
    NumProduct(p, Service(c));
    NumProduct(c, Service(p));
    OrderKeptExactly(Response(p) * Service(c), Response(c) * Service(p));
  }

  /** For products from 0 up to 2^32: right if and only if both fit or neither. */
  lemma AgreesIfBothFit(p: Proc, c: Proc)
    requires 0 <= Response(p) * Service(c) < 0x1_0000_0000
    requires 0 <= Response(c) * Service(p) < 0x1_0000_0000
    ensures Agrees(p, c) <==>
      (Response(p) * Service(c) < 0x8000_0000 <==> Response(c) * Service(p) < 0x8000_0000)
  {
    AgreesExactly(p, c);
    WrapsOnce(Response(p) * Service(c));
    WrapsOnce(Response(c) * Service(p));
  }

  lemma WrapsOnce(x: int)
    requires 0 <= x < 0x1_0000_0000
    ensures if x < 0x8000_0000 then Wraps(x) == 0 && Int32(x) >= 0 else Wraps(x) == 1 && Int32(x) < 0
  {
    WrapsBy(x);
  }

  // --------------------------------------------------------------- the scan

  /** The process chosen among the first n, or -1. */
  function Scan(procs: seq<Proc>, n: nat): (r: int)
    requires n <= |procs|
    ensures -1 <= r < n && (r != -1 ==> procs[r].runnable)
  {
    if n == 0 then -1
    else
      var c := Scan(procs, n - 1);
      if procs[n - 1].runnable && (c == -1 || Better(procs[n - 1], procs[c])) then n - 1 else c
  }

  /** The scan chooses no one exactly when no one is runnable. */
  lemma {:induction false} ScanNone(procs: seq<Proc>, n: nat)
    requires n <= |procs|
    ensures Scan(procs, n) == -1 <==> forall j | 0 <= j < n :: !procs[j].runnable
  {
    if n > 0 { ScanNone(procs, n - 1); }
  }

  /** c is at least as good as j, and better if j comes first. */
  ghost predicate Beats(procs: seq<Proc>, c: nat, j: nat) {
    && c < |procs| && j < |procs|
    && (procs[j].runnable ==>
          && Ratio(procs[j]) <= Ratio(procs[c])
          && (j < c ==> Ratio(procs[j]) < Ratio(procs[c])))
  }

  /** c is the first runnable process of the highest response ratio. */
  ghost predicate Best(procs: seq<Proc>, c: nat) {
    && c < |procs| && procs[c].runnable
    && forall j: nat {:trigger Beats(procs, c, j)} | j < |procs| :: Beats(procs, c, j)
  }

  /** The products of m keep their order with those of the choice so far when the
      scan reaches m, and with those of every runnable process after m. */
  ghost predicate Undisturbed(procs: seq<Proc>, m: nat)
    requires m < |procs|
  {
    && (var c := Scan(procs, m); c == -1 || Judged(procs[m], procs[c]))
    && forall p: nat {:trigger procs[p]} | m < p < |procs| && procs[p].runnable :: Judged(procs[p], procs[m])
  }

  /** The scan chooses the process of the highest ratio if and only if the
      products it is compared by keep their order. */
  lemma SelectsBestExactly(procs: seq<Proc>, m: nat)
    requires Best(procs, m)
    ensures Scan(procs, |procs|) == m <==> Undisturbed(procs, m)
  {
    var c := Scan(procs, m);
    if c != -1 {
      assert Beats(procs, m, c);
      AgreesExactly(procs[m], procs[c]);
    }
    KeptExactly(procs, m, |procs|);
  }

  lemma {:induction false} KeptExactly(procs: seq<Proc>, m: nat, n: nat)
    requires Best(procs, m) && m < n <= |procs|
    ensures Scan(procs, n) == m <==>
      Scan(procs, m + 1) == m && forall p: nat | m < p < n && procs[p].runnable ::
        Judged(procs[p], procs[m])
    decreases n
  {
    if n > m + 1 {
      KeptExactly(procs, m, n - 1);
      assert Beats(procs, m, n - 1);
      AgreesExactly(procs[n - 1], procs[m]);
    }
  }

  /** There is at most one best process. */
  lemma BestUnique(procs: seq<Proc>, a: nat, b: nat)
    requires Best(procs, a) && Best(procs, b)
    ensures a == b
  {
    assert Beats(procs, a, b) && Beats(procs, b, a);
  }

  lemma {:induction false} BestExists(procs: seq<Proc>, k: nat, n: nat) returns (m: nat)
    requires k < n <= |procs| && procs[k].runnable
    ensures m < n && procs[m].runnable && forall j: nat | j < n :: Beats(procs, m, j)
    decreases n
  {
    if exists i: nat :: i < n - 1 && procs[i].runnable {
      var i: nat :| i < n - 1 && procs[i].runnable;
      m := BestExists(procs, i, n - 1);
      if procs[n - 1].runnable && Ratio(procs[n - 1]) > Ratio(procs[m]) {
        var c := m;
        m := n - 1;
        forall j: nat | j < n ensures Beats(procs, m, j) { assert j < n - 1 ==> Beats(procs, c, j); }
      }
    } else {
      m := k;
    }
  }

  /** The cross products of every two runnable processes lose equally much. */
  ghost predicate PairsFit(procs: seq<Proc>) {
    forall i, j | 0 <= i < |procs| && 0 <= j < |procs| && i != j && procs[i].runnable && procs[j].runnable ::
      Wraps(Response(procs[i]) * Service(procs[j])) == Wraps(Response(procs[j]) * Service(procs[i]))
  }

  /** Then the scan chooses the process of the highest response ratio. */
  lemma PairsFitSelectBest(procs: seq<Proc>)
    requires PairsFit(procs) && exists k: nat :: k < |procs| && procs[k].runnable
    ensures Scan(procs, |procs|) >= 0 && Best(procs, Scan(procs, |procs|))
  {
    var k: nat :| k < |procs| && procs[k].runnable;
    var m := BestExists(procs, k, |procs|);
    assert Undisturbed(procs, m);
    SelectsBestExactly(procs, m);
  }

  /** The scan of the table: its choice, with that lock and no other held; the
      best process if all pairs of products lose equally much. */
  method Select(procs: seq<Proc>) returns (chosen: int, held: set<int>)
    ensures chosen == Scan(procs, |procs|) && held == if chosen == -1 then {} else {chosen}
    ensures chosen == -1 <==> forall j | 0 <= j < |procs| :: !procs[j].runnable
    ensures chosen != -1 && PairsFit(procs) ==> Best(procs, chosen)
  {
    chosen, held := -1, {};
    var num, den := -1, 1;
    var p := 0;
    while p < |procs|
      invariant p <= |procs| && chosen == Scan(procs, p) && held == if chosen == -1 then {} else {chosen}
      invariant chosen != -1 ==> num == Num(procs[chosen]) && den == Service(procs[chosen])
    {
      held := held + {p};
      if procs[p].runnable {
        var rrNum, rrDen := Num(procs[p]), Service(procs[p]);
        if chosen == -1 || Int32(rrNum * den) > Int32(num * rrDen) {
          if chosen != -1 {
            held := held - {chosen};
          }
          chosen, num, den := p, rrNum, rrDen;
        } else {
          held := held - {p};
        }
      } else {
        held := held - {p};
      }
      p := p + 1;
    }
    ScanNone(procs, |procs|);
    if chosen != -1 && PairsFit(procs) { PairsFitSelectBest(procs); }
  }

  /** Of two runnable processes the scan chooses the best if and only if their
      products keep their order. */
  lemma TwoProcs(a: Proc, b: Proc)
    requires a.runnable && b.runnable
    ensures var c := Scan([a, b], 2); c >= 0 && (Best([a, b], c) <==> Judged(b, a))
  {
    var procs := [a, b];
    var m := BestExists(procs, 0, 2);
    assert Best(procs, m);
    assert Scan(procs, 0) == -1 && Scan(procs, 1) == 0;
    SelectsBestExactly(procs, m);
    var c := Scan(procs, 2);
    if Best(procs, c) { BestUnique(procs, m, c); }
  }

  /** b has the higher ratio, and only its product does not fit. */
  ghost predicate Misjudged(a: Proc, b: Proc) {
    && a.runnable && b.runnable
    && 0 <= Response(a) * Service(b) < 0x8000_0000 <= Response(b) * Service(a) < 0x1_0000_0000
  }

  /** Then the scan of [a, b] chooses a. */
  lemma OverflowMisleads(a: Proc, b: Proc)
    requires Misjudged(a, b)
    ensures Ratio(b) > Ratio(a) && Scan([a, b], 2) == 0 && !Best([a, b], 0)
  {
    AgreesIfBothFit(b, a);
    AgreesExactly(b, a);
    CrossRatio(Response(b), Service(b), Response(a), Service(a));
    var procs := [a, b];
    assert Scan(procs, 0) == -1 && Scan(procs, 1) == 0;
    TwoProcs(a, b);
  }

  /** For example ratio 1 against 2^30 + 1, compared as 2 - 2^31 > 2. */
  lemma MisjudgedExample(a: Proc, b: Proc)
    requires a == Proc(true, 0x4000_0000, 2, 0x4000_0000) && b == Proc(true, 0, 1, 0x4000_0000)
    ensures Misjudged(a, b) && Scan([a, b], 2) == 0 && !Best([a, b], 0)
  {
    assert Response(a) == 2 && Response(b) == 0x4000_0001;
    OverflowMisleads(a, b);
  }
}
