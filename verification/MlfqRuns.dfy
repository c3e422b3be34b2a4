/** What the steps of the multilevel feedback queue mean for one process over a
    run: its states, its ticks, and its turn in the queue. */
module MlfqRuns {
  import opened Common
  import opened Mlfq

  // -------------------------------------------------------------- dispatching

  /** What a refill does to a process: a runnable one has its slice afresh. */
  ghost predicate Refreshed(x: Proc, y: Proc) { y == if x.state == RUNNABLE then x.(slice := 0) else x }

  lemma {:induction false} RefillProcs(s: Sched, p: nat, x: nat)
    requires Shaped(s) && p <= NPROC && x < NPROC
    ensures |Refill(s, p).procs| == NPROC
    ensures var t := Refill(s, p);
      if x < p then t.procs[x] == s.procs[x] else Refreshed(s.procs[x], t.procs[x])
    decreases NPROC - p
  {
    if p < NPROC {
      var s2 := s;
      if s.procs[p].state == RUNNABLE {
        var s1 := Enqueue(s, p);
        s2 := s1.(procs := s1.procs[p := s1.procs[p].(slice := 0)]);
      }
      RefillProcs(s2, p + 1, x);
    }
  }

  lemma {:induction false} FirstRunnableIs(procs: seq<Proc>, q: seq<nat>, i: nat)
    requires i <= |q|
    ensures var k := FirstRunnable(procs, q, i);
      && i <= k <= |q| && (k < |q| ==> q[k] < |procs| && procs[q[k]].state == RUNNABLE)
      && forall m | i <= m < k && q[m] < |procs| :: procs[q[m]].state != RUNNABLE
    decreases |q| - i
  {
    if !(i == |q| || (q[i] < |procs| && procs[q[i]].state == RUNNABLE)) { FirstRunnableIs(procs, q, i + 1); }
  }

  lemma {:induction false} ScanProcs(s: Sched, l: nat, x: nat)
    requires Shaped(s) && l <= QUEUE_LEVELS && x < NPROC
    ensures |Scan(s, l).procs| == NPROC
    ensures var y := Scan(s, l).procs[x];
      y == s.procs[x] || (s.procs[x].state == RUNNABLE && y == s.procs[x].(state := RUNNING))
    decreases QUEUE_LEVELS - l
  {
    if l < QUEUE_LEVELS {
      FirstRunnableIs(s.procs, s.queue[l], 0);
      ScanProcs(s, l + 1, x);
    }
  }

  /** The dispatcher leaves a process as it is, but for a runnable one, which may
      have its slice afresh and may be run. */
  lemma DispatchProcs(s: Sched, x: nat)
    requires Shaped(s) && x < NPROC
    ensures |Dispatched(s).procs| == NPROC
    ensures var x0, y := s.procs[x], Dispatched(s).procs[x];
      if x0.state != RUNNABLE then y == x0
      else y == x0.(state := y.state, slice := y.slice) && y.state in {RUNNABLE, RUNNING} && y.slice in {0, x0.slice}
  {
    RefillShaped(s, 0);
    RefillProcs(s, 0, x);
    ScanProcs(if Empty(s) then Refill(s, 0) else s, 0, x);
  }

  // -------------------------------------------------------------- life cycle

  /** By which events a process enters and leaves each state. */
  lemma LifeCycle(s: Sched, e: Event, p: nat)
    requires Shaped(s) && Enabled(s, e) && p < NPROC
    ensures |Step(s, e).procs| == NPROC
    ensures var a, b := s.procs[p].state, Step(s, e).procs[p].state;
      && (a != SLEEPING && b == SLEEPING <==> e == Sleep(p))
      && (a == SLEEPING && b != SLEEPING <==> e == Wake(p) || (e == Kill(p) && a == SLEEPING))
      && (a != ZOMBIE && b == ZOMBIE <==> e == Exit(p))
      && (a != UNUSED && b == UNUSED <==> e == Abort(p) || e == Free(p))
      && (a != USED && b == USED <==> e == Alloc(p))
      && (a != RUNNING && b == RUNNING ==> a == RUNNABLE && (e == Dispatch || e == DispatchOther(p)))
      && (a == RUNNABLE && b != RUNNABLE ==> b == RUNNING)
      && (b == RUNNABLE && a != RUNNABLE ==>
            e in {Start(p), UserTick(p), KernelTick(p), Wake(p), Kill(p)})
      && (e == Start(p) || e == Wake(p) || (e == Kill(p) && a == SLEEPING) ==> b == RUNNABLE)
      && (e == DispatchOther(p) ==> b == RUNNING)
  {
    if e.Dispatch? { DispatchProcs(s, p); }
  }

  /** The five policies, and no other value, can be set, at any time. */
  lemma PolicySet(s: Sched, m: int)
    requires Shaped(s)
    ensures Enabled(s, SetPolicy(m)) <==> m in {0, 1, 2, 3, 4}
    ensures Enabled(s, SetPolicy(m)) ==> Step(s, SetPolicy(m)) == s.(policy := m)
  {
  }

  // -------------------------------------------------------------------- ticks

  /** The totals at which a slice is used up: five ticks at level 0, ten at level
      1, twenty each time after that. */
  ghost predicate EndsSlice(total: nat) { total == 5 || total == 15 || (total >= 35 && (total - 15) % 20 == 0) }

  /** A timer tick in user space: the process gives up the CPU if and only if the
      policy is round robin, or this one and its total of ticks ends a slice; under
      this policy it then is the last of its level.  Otherwise it runs on, and
      nothing else changes. */
  lemma TickYields(s: Sched, p: nat)
    requires Exact(s) || (WellFormed(s) && s.policy != SCHED_MLFQ)
    requires Enabled(s, UserTick(p)) && (s.policy == SCHED_MLFQ ==> Accounted(s.procs[p]))
    ensures var t := Step(s, UserTick(p));
      var x, mine := t.procs[p], s.policy == SCHED_MLFQ;
      var gives := s.policy == SCHED_RR || (mine && EndsSlice(s.procs[p].total + 1));
      && x.total == s.procs[p].total + 1 && x.state == (if gives then RUNNABLE else RUNNING)
      && (mine ==> Accounted(x)) && t == s.(procs := s.procs[p := x], queue := t.queue)
      && t.queue == if mine && gives then s.queue[x.level := s.queue[x.level] + [p]] else s.queue
  {
    if s.policy == SCHED_MLFQ {
      TotalEnds(s.procs[p]);
      TickAccounted(s, p);
      Unqueued(s, p);
      forall l: nat | l < QUEUE_LEVELS ensures Removed(s.queue[l], p) == s.queue[l] { NotThere(s.queue[l], p); }
    }
  }

  lemma TotalEnds(x: Proc)
    requires Accounted(x)
    ensures x.slice + 1 >= MaxTicks(x.level) <==> EndsSlice(x.total + 1)
  {
  }

  lemma {:induction false} NotThere(q: seq<nat>, p: nat)
    requires p !in q
    ensures Removed(q, p) == q
  {
    if q != [] { NotThere(q[1..], p); }
  }

  /** A tick in the kernel gives up the CPU under round robin and this policy, and
      is charged to no one. */
  lemma KernelTickYields(s: Sched, p: nat)
    requires Exact(s) || (WellFormed(s) && s.policy != SCHED_MLFQ)
    requires Enabled(s, KernelTick(p))
    ensures var t, x := Step(s, KernelTick(p)), s.procs[p];
      var gives := s.policy == SCHED_RR || s.policy == SCHED_MLFQ;
      && t.procs == s.procs[p := if gives then x.(state := RUNNABLE) else x] && t.policy == s.policy
      && t.queue == if s.policy == SCHED_MLFQ then s.queue[x.level := s.queue[x.level] + [p]] else s.queue
  {
    if s.policy == SCHED_MLFQ { Unqueued(s, p); NotThere(s.queue[s.procs[p].level], p); }
  }

  /** e makes the runnable process p run. */
  ghost predicate Picks(s: Sched, e: Event, p: nat)
    requires Shaped(s) && Enabled(s, e)
  {
    p < NPROC && s.procs[p].state == RUNNABLE &&
    p < |Step(s, e).procs| && Step(s, e).procs[p].state == RUNNING
  }

  ghost predicate NeverPicked(s: Sched, es: seq<Event>, p: nat)
    decreases |es|
  {
    es != [] && Shaped(s) && Enabled(s, es[0]) ==> !Picks(s, es[0], p) && NeverPicked(Step(s, es[0]), es[1..], p)
  }

  /** The ticks process p is charged under this policy. */
  ghost function Charged(s: Sched, es: seq<Event>, p: nat): nat
    decreases |es|
  {
    if es == [] || !Shaped(s) || !Enabled(s, es[0]) then 0
    else (if es[0] == UserTick(p) && s.policy == SCHED_MLFQ then 1 else 0) + Charged(Step(s, es[0]), es[1..], p)
  }

  ghost predicate Fits(x: Proc) { x.state == RUNNING ==> x.slice < MaxTicks(x.level) }

  ghost function Left(x: Proc): int { if x.state == RUNNING then MaxTicks(x.level) - x.slice else 0 }

  lemma StepLeft(s: Sched, e: Event, p: nat)
    requires Shaped(s) && Enabled(s, e) && p < NPROC && !Picks(s, e, p) && Fits(s.procs[p])
    ensures Shaped(Step(s, e)) && Fits(Step(s, e).procs[p])
    ensures var c := if e == UserTick(p) && s.policy == SCHED_MLFQ then 1 else 0;
      c + Left(Step(s, e).procs[p]) <= Left(s.procs[p])
  {
    StepShaped(s, e);
    if e.Dispatch? { DispatchProcs(s, p); }
  }

  lemma StepShaped(s: Sched, e: Event)
    requires Shaped(s) && Enabled(s, e)
    ensures Shaped(Step(s, e))
  {
    if e.Dispatch? {
      RefillShaped(s, 0);
      var s1 := if Empty(s) then Refill(s, 0) else s;
      forall x: nat | x < NPROC ensures Scan(s1, 0).procs[x].level < QUEUE_LEVELS { ScanProcs(s1, 0, x); }
      ScanShape(s1, 0);
    }
  }

  lemma {:induction false} ScanShape(s: Sched, l: nat)
    requires Shaped(s) && l <= QUEUE_LEVELS
    ensures |Scan(s, l).procs| == NPROC && |Scan(s, l).queue| == QUEUE_LEVELS
    decreases QUEUE_LEVELS - l
  {
    if l < QUEUE_LEVELS { ScanShape(s, l + 1); }
  }

  /** In every run, whatever the kills and policy changes, a process is charged no
      more ticks than its slice has left before it is dispatched again; one that
      is not running is charged none. */
  lemma {:induction false} SliceBound(s: Sched, es: seq<Event>, t: Sched, p: nat)
    requires Shaped(s) && Runs(s, es, t) && p < NPROC && Fits(s.procs[p]) && NeverPicked(s, es, p)
    ensures Charged(s, es, p) <= Left(s.procs[p]) <= MaxTicks(s.procs[p].level)
    decreases |es|
  {
    if es != [] {
      StepLeft(s, es[0], p);
      SliceBound(Step(s, es[0]), es[1..], t, p);
    }
  }

  // ------------------------------------------------------------ first come first

  /** p is ahead of q. */
  ghost predicate Ahead(queue: seq<nat>, p: nat, q: nat) {
    exists i, j :: 0 <= i < j < |queue| && queue[i] == p && queue[j] == q
  }

  lemma AheadAppend(queue: seq<nat>, p: nat, q: nat, r: nat)
    requires Ahead(queue, p, q)
    ensures Ahead(queue + [r], p, q)
  {
    var i, j :| 0 <= i < j < |queue| && queue[i] == p && queue[j] == q;
    assert (queue + [r])[i] == p && (queue + [r])[j] == q;
  }

  lemma AheadDrop(queue: seq<nat>, p: nat, q: nat)
    requires Ahead(queue, p, q) && Distinct(queue) && queue[0] != p
    ensures queue[0] != q && Ahead(queue[1..], p, q)
  {
    var i, j :| 0 <= i < j < |queue| && queue[i] == p && queue[j] == q;
    assert queue[1..][i - 1] == p && queue[1..][j - 1] == q;
  }

  /** A process that becomes runnable goes to the end of its level. */
  lemma GoesLast(s: Sched, p: nat)
    requires Exact(s) && p < NPROC && s.procs[p].state != RUNNABLE
    ensures var l := s.procs[p].level; MakeRunnable(s, p).queue == s.queue[l := s.queue[l] + [p]]
  {
    Unqueued(s, p);
    NotThere(s.queue[s.procs[p].level], p);
  }

  /** A new process starts at the end of the top level, with no ticks. */
  lemma StartsFresh(s: Sched, p: nat)
    requires Exact(s) && Enabled(s, Start(p))
    ensures Step(s, Start(p)) ==
      s.(procs := s.procs[p := Proc(RUNNABLE, 0, 0, 0)], queue := s.queue[0 := s.queue[0] + [p]])
  {
    Unqueued(s, p);
    NotThere(s.queue[0], p);
  }

  lemma DispatchOrder(s: Sched, l: nat, p: nat, q: nat)
    requires Exact(s) && l < QUEUE_LEVELS && Ahead(s.queue[l], p, q) && !Picks(s, Dispatch, p)
    ensures !Picks(s, Dispatch, q) && |Dispatched(s).queue| == QUEUE_LEVELS && Ahead(Dispatched(s).queue[l], p, q)
  {
    assert p in s.queue[l] && q in s.queue[l] && EntryOk(s, l, p) && EntryOk(s, l, q);
    DispatchHead(s);
    var m := Lowest(s);
    assert EntryOk(s, m, s.queue[m][0]);
    if m == l {
      AheadDrop(s.queue[l], p, q);
      assert s.queue[l][..0] + s.queue[l][1..] == s.queue[l][1..];
    }
  }

  lemma KeepsOrder(s: Sched, e: Event, l: nat, p: nat, q: nat)
    requires Exact(s) && Enabled(s, e) && (e.SetPolicy? ==> e.mode == SCHED_MLFQ)
    requires l < QUEUE_LEVELS && Ahead(s.queue[l], p, q) && !Picks(s, e, p)
    ensures !Picks(s, e, q) && |Step(s, e).queue| == QUEUE_LEVELS && Ahead(Step(s, e).queue[l], p, q)
  {
    assert p in s.queue[l] && q in s.queue[l] && EntryOk(s, l, p) && EntryOk(s, l, q);
    match e
    case Dispatch => DispatchOrder(s, l, p, q);
    case UserTick(r) =>
      Unqueued(s, r);
      var x := Ticked(s, r).0;
      NotThere(s.queue[x.level], r);
      AheadAppend(s.queue[l], p, q, r);
    case KernelTick(r) => GoesLast(s, r); AheadAppend(s.queue[l], p, q, r);
    case Wake(r) => GoesLast(s, r); AheadAppend(s.queue[l], p, q, r);
    case Start(r) =>
      StartsFresh(s, r);
      AheadAppend(s.queue[l], p, q, r);
    case _ =>
  }

  /** In every run under this policy, of two processes queued at one level the one
      that was queued first is dispatched first. */
  lemma {:induction false} QueueOrder(s: Sched, es: seq<Event>, t: Sched, l: nat, p: nat, q: nat)
    requires Exact(s) && Runs(s, es, t) && (forall i | 0 <= i < |es| && es[i].SetPolicy? :: es[i].mode == SCHED_MLFQ)
    requires l < QUEUE_LEVELS && Ahead(s.queue[l], p, q) && NeverPicked(s, es, p)
    ensures NeverPicked(s, es, q) && Exact(t) && Ahead(t.queue[l], p, q)
    decreases |es|
  {
    if es != [] {
      StepExact(s, es[0]);
      KeepsOrder(s, es[0], l, p, q);
      QueueOrder(Step(s, es[0]), es[1..], t, l, p, q);
    }
  }

  // ------------------------------------------------------------------ refills

  ghost predicate Ascends(queue: seq<nat>, p: nat) {
    (forall x | x in queue :: x < p) && forall i, j | 0 <= i < j < |queue| :: queue[i] < queue[j]
  }

  lemma AscendsNext(queue: seq<nat>, p: nat)
    requires Ascends(queue, p)
    ensures p !in queue && Ascends(queue, p + 1) && Ascends(queue + [p], p + 1)
  {
    var more := queue + [p];
    forall i, j | 0 <= i < j < |more| ensures more[i] < more[j] { assert more[i] == queue[i] && queue[i] in queue; }
  }

  /** A refill of empty queues puts every runnable process at its level, in the
      order of the table. */
  lemma {:induction false} RefillAscends(s: Sched, p: nat)
    requires Shaped(s) && p <= NPROC && forall l | 0 <= l < QUEUE_LEVELS :: Ascends(s.queue[l], p)
    ensures |Refill(s, p).queue| == QUEUE_LEVELS
    ensures forall l | 0 <= l < QUEUE_LEVELS :: Ascends(Refill(s, p).queue[l], NPROC)
    decreases NPROC - p
  {
    if p < NPROC {
      var s2 := s;
      if s.procs[p].state == RUNNABLE {
        var s1 := Enqueue(s, p);
        AscendsNext(s.queue[s.procs[p].level], p);
        NotThere(s.queue[s.procs[p].level], p);
        s2 := s1.(procs := s1.procs[p := s1.procs[p].(slice := 0)]);
      }
      forall l | 0 <= l < QUEUE_LEVELS ensures Ascends(s2.queue[l], p + 1) { AscendsNext(s.queue[l], p); }
      RefillAscends(s2, p + 1);
    }
  }
}
