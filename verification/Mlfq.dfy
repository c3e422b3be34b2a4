/** The multilevel feedback queue as a transition system: every way the kernel
    changes a process's state or the queues (kernel/proc.c, kernel/trap.c). */
module Mlfq {
  import opened Common

  const NPROC := 2000
  const QUEUE_LEVELS := 3
  const SCHED_RR := 0
  const SCHED_MLFQ := 4

  datatype PState = UNUSED | USED | SLEEPING | RUNNABLE | RUNNING | ZOMBIE
  datatype Proc = Proc(state: PState, level: nat, slice: nat, total: nat)
  datatype Sched = Sched(procs: seq<Proc>, queue: seq<seq<nat>>, policy: int)

  function MaxTicks(level: nat): nat { if level == 0 then 5 else if level == 1 then 10 else 20 }

  // ---------------------------------------------------------------- queues

  /** enqueue_to_mlfq's removal: the first occurrence goes. */
  function Removed(q: seq<nat>, p: nat): seq<nat> {
    if q == [] then [] else if q[0] == p then q[1..] else [q[0]] + Removed(q[1..], p)
  }

  predicate Shaped(s: Sched) {
    && |s.procs| == NPROC && |s.queue| == QUEUE_LEVELS
    && forall i | 0 <= i < NPROC :: s.procs[i].level < QUEUE_LEVELS
  }

  function Enqueue(s: Sched, p: nat): Sched
    requires Shaped(s) && p < NPROC
  {
    var l := s.procs[p].level;
    s.(queue := s.queue[l := Removed(s.queue[l], p) + [p]])
  }

  function SetState(s: Sched, p: nat, st: PState): Sched
    requires p < |s.procs|
  {
    s.(procs := s.procs[p := s.procs[p].(state := st)])
  }

  /** Becoming runnable queues the process under this policy only. */
  function MakeRunnable(s: Sched, p: nat): Sched
    requires Shaped(s) && p < NPROC
  {
    var s1 := SetState(s, p, RUNNABLE);
    if s.policy == SCHED_MLFQ then Enqueue(s1, p) else s1
  }

  /** The dispatcher's refill from process p on. */
  function Refill(s: Sched, p: nat): Sched
    requires Shaped(s) && p <= NPROC
    decreases NPROC - p
  {
    if p == NPROC then s
    else if s.procs[p].state == RUNNABLE then
      var s1 := Enqueue(s, p);
      Refill(s1.(procs := s1.procs[p := s1.procs[p].(slice := 0)]), p + 1)
    else Refill(s, p + 1)
  }

  /** The first runnable entry of a queue from index i on, or its length. */
  function FirstRunnable(procs: seq<Proc>, q: seq<nat>, i: nat): nat
    requires i <= |q|
    decreases |q| - i
  {
    if i == |q| || (q[i] < |procs| && procs[q[i]].state == RUNNABLE) then i else FirstRunnable(procs, q, i + 1)
  }

  predicate Empty(s: Sched)
    requires |s.queue| == QUEUE_LEVELS
  {
    |s.queue[0]| + |s.queue[1]| + |s.queue[2]| == 0
  }

  function RunFrom(s: Sched, l: nat, i: nat): Sched
    requires Shaped(s) && l < QUEUE_LEVELS && i < |s.queue[l]| && s.queue[l][i] < NPROC
  {
    var q := s.queue[l];
    SetState(s, q[i], RUNNING).(queue := s.queue[l := q[..i] + q[i + 1..]])
  }

  /** One pass of the scheduler's scan, from level l on. */
  function Scan(s: Sched, l: nat): Sched
    requires Shaped(s) && l <= QUEUE_LEVELS
    decreases QUEUE_LEVELS - l
  {
    if l == QUEUE_LEVELS then s
    else
      var i := FirstRunnable(s.procs, s.queue[l], 0);
      if i < |s.queue[l]| && s.queue[l][i] < NPROC then RunFrom(s, l, i) else Scan(s, l + 1)
  }

  lemma {:induction false} RefillShaped(s: Sched, p: nat)
    requires Shaped(s) && p <= NPROC
    ensures Shaped(Refill(s, p)) && Refill(s, p).policy == s.policy
    decreases NPROC - p
  {
    if p < NPROC {
      if s.procs[p].state == RUNNABLE {
        var s1 := Enqueue(s, p);
        RefillShaped(s1.(procs := s1.procs[p := s1.procs[p].(slice := 0)]), p + 1);
      } else {
        RefillShaped(s, p + 1);
      }
    }
  }

  function Dispatched(s: Sched): Sched
    requires Shaped(s)
  {
    RefillShaped(s, 0);
    Scan(if Empty(s) then Refill(s, 0) else s, 0)
  }

  // ---------------------------------------------------------------- events

  datatype Event =
    | Alloc(p: nat) | Abort(p: nat) | Start(p: nat)  // allocproc, fork's failure, fork's end
    | UserTick(p: nat) | KernelTick(p: nat)          // timer interrupts in usertrap and kerneltrap
    | Sleep(p: nat) | Wake(p: nat) | Kill(p: nat)
    | Exit(p: nat) | Free(p: nat)
    | Dispatch | DispatchOther(p: nat)               // this policy's scheduler, any other policy's
    | SetPolicy(mode: int)

  predicate Enabled(s: Sched, e: Event) {
    match e
    case Dispatch => s.policy == SCHED_MLFQ
    case SetPolicy(m) => 0 <= m <= 4
    case DispatchOther(p) => p < |s.procs| && s.policy != SCHED_MLFQ && s.procs[p].state == RUNNABLE
    case Alloc(p) => p < |s.procs| && s.procs[p].state == UNUSED
    case Abort(p) => p < |s.procs| && s.procs[p].state == USED
    case Start(p) => p < |s.procs| && s.procs[p].state == USED
    case UserTick(p) => p < |s.procs| && s.procs[p].state == RUNNING
    case KernelTick(p) => p < |s.procs| && s.procs[p].state == RUNNING
    case Sleep(p) => p < |s.procs| && s.procs[p].state == RUNNING
    case Wake(p) => p < |s.procs| && s.procs[p].state == SLEEPING
    case Kill(p) => p < |s.procs|
    case Exit(p) => p < |s.procs| && s.procs[p].state == RUNNING
    case Free(p) => p < |s.procs| && s.procs[p].state == ZOMBIE
  }

  /** usertrap's accounting of one tick, and whether it ends in yield. */
  function Ticked(s: Sched, p: nat): (Proc, bool)
    requires p < |s.procs|
  {
    var x := s.procs[p].(total := s.procs[p].total + 1);
    if s.policy == SCHED_RR then (x, true)
    else if s.policy != SCHED_MLFQ then (x, false)
    else if x.slice + 1 >= MaxTicks(x.level) then
      (x.(level := if x.level < QUEUE_LEVELS - 1 then x.level + 1 else x.level, slice := 0), true)
    else (x.(slice := x.slice + 1), false)
  }

  function Step(s: Sched, e: Event): Sched
    requires Shaped(s) && Enabled(s, e)
  {
    match e
    case Alloc(p) => s.(procs := s.procs[p := Proc(USED, 0, 0, 0)])
    case Abort(p) => SetState(s, p, UNUSED)
    case Start(p) => MakeRunnable(s.(procs := s.procs[p := Proc(USED, 0, 0, 0)]), p)
    case UserTick(p) =>
      var (x, gives) := Ticked(s, p);
      var s1 := s.(procs := s.procs[p := x]);
      if gives then MakeRunnable(s1, p) else s1
    case KernelTick(p) => if s.policy == SCHED_RR || s.policy == SCHED_MLFQ then MakeRunnable(s, p) else s
    case Sleep(p) => SetState(s, p, SLEEPING)
    case Wake(p) => MakeRunnable(s, p)
    case Kill(p) => if s.procs[p].state == SLEEPING then SetState(s, p, RUNNABLE) else s
    case Exit(p) => SetState(s, p, ZOMBIE)
    case Free(p) => SetState(s, p, UNUSED)
    case Dispatch => Dispatched(s)
    case DispatchOther(p) => SetState(s, p, RUNNING)
    case SetPolicy(m) => s.(policy := m)
  }

  /** The states a run goes through; an event that is not enabled ends it. */
  ghost predicate Runs(s: Sched, es: seq<Event>, t: Sched)
    decreases |es|
  {
    if es == [] then t == s
    else Shaped(s) && Enabled(s, es[0]) && Runs(Step(s, es[0]), es[1..], t)
  }

  // ------------------------------------------------- no process twice, ever

  ghost predicate QueueOk(q: seq<nat>) { Distinct(q) && forall x | x in q :: x < NPROC }

  ghost predicate WellFormed(s: Sched) {
    Shaped(s) && QueueOk(s.queue[0]) && QueueOk(s.queue[1]) && QueueOk(s.queue[2])
  }

  lemma {:induction false} RemovedIs(q: seq<nat>, p: nat)
    requires Distinct(q)
    ensures Distinct(Removed(q, p)) && forall x :: x in Removed(q, p) <==> x in q && x != p
  {
    if q != [] && q[0] != p {
      RemovedIs(q[1..], p);
      assert ([q[0]] + Removed(q[1..], p))[1..] == Removed(q[1..], p);
    }
  }

  lemma Requeued(q: seq<nat>, p: nat)
    requires QueueOk(q) && p < NPROC
    ensures QueueOk(Removed(q, p) + [p]) && forall x :: x in Removed(q, p) + [p] <==> x in q || x == p
  {
    RemovedIs(q, p);
    DistinctJoin(Removed(q, p), [p]);
  }

  lemma DroppedIs(q: seq<nat>, i: nat)
    requires QueueOk(q) && i < |q|
    ensures QueueOk(q[..i] + q[i + 1..]) && forall x :: x in q[..i] + q[i + 1..] <==> x in q && x != q[i]
  {
    assert q == q[..i] + [q[i]] + q[i + 1..];
    DistinctParts(q[..i], q[i], q[i + 1..]);
    assert forall x | x in q[..i] + q[i + 1..] :: x in q;
  }

  /** A queue never outgrows its array; with one process taken out there is room
      for it, so "queue full" cannot happen. */
  lemma QueueFits(q: seq<nat>, p: nat)
    requires QueueOk(q) && p < NPROC
    ensures |q| <= NPROC && |Removed(q, p)| < NPROC
  {
    DistinctBelow(q, NPROC);
    Requeued(q, p);
    DistinctBelow(Removed(q, p) + [p], NPROC);
  }

  lemma {:induction false} RefillWellFormed(s: Sched, p: nat)
    requires WellFormed(s) && p <= NPROC
    ensures WellFormed(Refill(s, p))
    decreases NPROC - p
  {
    if p < NPROC {
      if s.procs[p].state == RUNNABLE {
        Requeued(s.queue[s.procs[p].level], p);
        var s1 := Enqueue(s, p);
        RefillWellFormed(s1.(procs := s1.procs[p := s1.procs[p].(slice := 0)]), p + 1);
      } else {
        RefillWellFormed(s, p + 1);
      }
    }
  }

  lemma {:induction false} ScanWellFormed(s: Sched, l: nat)
    requires WellFormed(s) && l <= QUEUE_LEVELS
    ensures WellFormed(Scan(s, l))
    decreases QUEUE_LEVELS - l
  {
    if l < QUEUE_LEVELS {
      var i := FirstRunnable(s.procs, s.queue[l], 0);
      if i < |s.queue[l]| && s.queue[l][i] < NPROC { DroppedIs(s.queue[l], i); } else { ScanWellFormed(s, l + 1); }
    }
  }

  lemma StepWellFormed(s: Sched, e: Event)
    requires WellFormed(s) && Enabled(s, e)
    ensures WellFormed(Step(s, e))
  {
    match e
    case Dispatch =>
      RefillWellFormed(s, 0);
      ScanWellFormed(if Empty(s) then Refill(s, 0) else s, 0);
    case Start(p) => Requeued(s.queue[0], p);
    case UserTick(p) => Requeued(s.queue[Ticked(s, p).0.level], p);
    case KernelTick(p) => Requeued(s.queue[s.procs[p].level], p);
    case Wake(p) => Requeued(s.queue[s.procs[p].level], p);
    case _ =>
  }

  /** Under every run, whatever the policy changes and kills, each level holds a
      process at most once and fits its array. */
  lemma {:induction false} RunWellFormed(s: Sched, es: seq<Event>, t: Sched)
    requires WellFormed(s) && Runs(s, es, t)
    ensures WellFormed(t) && forall l | 0 <= l < QUEUE_LEVELS :: |t.queue[l]| <= NPROC
    decreases |es|
  {
    if es == [] {
      forall l | 0 <= l < QUEUE_LEVELS ensures |t.queue[l]| <= NPROC { QueueFits(t.queue[l], 0); }
    } else {
      StepWellFormed(s, es[0]);
      RunWellFormed(Step(s, es[0]), es[1..], t);
    }
  }

  // --------------------------------------- queued exactly when runnable

  ghost predicate EntryOk(s: Sched, l: nat, x: nat) {
    x < |s.procs| && s.procs[x].state == RUNNABLE && s.procs[x].level == l
  }

  /** Every queue entry is a runnable process at its own level, so no process is
      queued twice. */
  ghost predicate Exact(s: Sched) {
    && WellFormed(s) && s.policy == SCHED_MLFQ
    && forall l: nat, x: nat {:trigger EntryOk(s, l, x)} | l < QUEUE_LEVELS && x in s.queue[l] :: EntryOk(s, l, x)
  }

  ghost predicate Queued(s: Sched, p: nat)
    requires Shaped(s) && p < NPROC
  {
    p in s.queue[s.procs[p].level]
  }

  ghost predicate Waiting(s: Sched, p: nat)
    requires Shaped(s) && p < NPROC
  {
    s.procs[p].state == RUNNABLE ==> Queued(s, p)
  }

  /** Every runnable process is queued. */
  ghost predicate NoStray(s: Sched)
    requires Shaped(s)
  {
    forall p: nat {:trigger Waiting(s, p)} | p < NPROC :: Waiting(s, p)
  }

  /** Replacing the record of a process that is not queued. */
  lemma PutKeeps(s: Sched, p: nat, x: Proc)
    requires Exact(s) && p < NPROC && x.level < QUEUE_LEVELS && forall l: nat | l < QUEUE_LEVELS :: p !in s.queue[l]
    ensures var t := s.(procs := s.procs[p := x]);
      Exact(t) && (forall r: nat {:trigger Waiting(t, r)} | r < NPROC && r != p && Waiting(s, r) :: Waiting(t, r))
  {
    var t := s.(procs := s.procs[p := x]);
    forall l: nat, y: nat | l < QUEUE_LEVELS && y in t.queue[l] ensures EntryOk(t, l, y) { assert EntryOk(s, l, y); }
  }

  lemma Unqueued(s: Sched, p: nat)
    requires Exact(s) && p < NPROC && s.procs[p].state != RUNNABLE
    ensures forall l: nat | l < QUEUE_LEVELS :: p !in s.queue[l]
  {
    forall l: nat, x: nat | l < QUEUE_LEVELS && x in s.queue[l] ensures x != p { assert EntryOk(s, l, x); }
  }

  lemma EnqueueKeeps(s: Sched, p: nat, slice: nat)
    requires Exact(s) && p < NPROC && s.procs[p].state == RUNNABLE
    ensures var s1 := Enqueue(s, p);
      var t := s1.(procs := s1.procs[p := s1.procs[p].(slice := slice)]);
      Exact(t) && Waiting(t, p) && (forall r: nat {:trigger Waiting(t, r)} | r < NPROC && Waiting(s, r) ::
        Waiting(t, r))
  {
    var m := s.procs[p].level;
    Requeued(s.queue[m], p);
    var s1 := Enqueue(s, p);
    var t := s1.(procs := s1.procs[p := s1.procs[p].(slice := slice)]);
    forall l: nat, y: nat | l < QUEUE_LEVELS && y in t.queue[l] ensures EntryOk(t, l, y) {
      if l != m || y != p { assert y in s.queue[l] && EntryOk(s, l, y); }
    }
  }

  lemma MakeRunnableKeeps(s: Sched, p: nat)
    requires Exact(s) && p < NPROC && s.procs[p].state != RUNNABLE
    ensures var t := MakeRunnable(s, p);
      Exact(t) && Waiting(t, p) && (forall r: nat {:trigger Waiting(t, r)} | r < NPROC && Waiting(s, r) ::
        Waiting(t, r))
  {
    Unqueued(s, p);
    var s1 := SetState(s, p, RUNNABLE);
    PutKeeps(s, p, s.procs[p].(state := RUNNABLE));
    EnqueueKeeps(s1, p, s.procs[p].slice);
    var s2 := Enqueue(s1, p);
    assert s2.procs[p := s2.procs[p].(slice := s.procs[p].slice)] == s2.procs;
    var t := MakeRunnable(s, p);
    forall r: nat | r < NPROC && Waiting(s, r) ensures Waiting(t, r) {
      if r != p { assert Waiting(s1, r); }
    }
  }

  lemma RunFromKeeps(s: Sched, l: nat)
    requires Exact(s) && l < QUEUE_LEVELS && s.queue[l] != []
    ensures s.queue[l][0] < NPROC && Exact(RunFrom(s, l, 0)) && (NoStray(s) ==> NoStray(RunFrom(s, l, 0)))
  {
    var p := s.queue[l][0];
    assert p in s.queue[l] && EntryOk(s, l, p);
    DroppedIs(s.queue[l], 0);
    var t := RunFrom(s, l, 0);
    forall m: nat, y: nat | m < QUEUE_LEVELS && y in t.queue[m] ensures EntryOk(t, m, y) {
      assert y in s.queue[m] && EntryOk(s, m, y);
    }
    if NoStray(s) {
      forall r: nat | r < NPROC ensures Waiting(t, r) { assert Waiting(s, r); }
    }
  }

  lemma {:induction false} RefillKeeps(s: Sched, p: nat)
    requires Exact(s) && p <= NPROC
    ensures Exact(Refill(s, p))
    ensures forall r: nat {:trigger Waiting(Refill(s, p), r)} | r < NPROC && (p <= r || Waiting(s, r)) ::
      Waiting(Refill(s, p), r)
    decreases NPROC - p
  {
    if p < NPROC {
      var s2 := s;
      if s.procs[p].state == RUNNABLE {
        EnqueueKeeps(s, p, 0);
        var s1 := Enqueue(s, p);
        s2 := s1.(procs := s1.procs[p := s1.procs[p].(slice := 0)]);
      }
      RefillKeeps(s2, p + 1);
      assert Refill(s, p) == Refill(s2, p + 1);
      forall r: nat | r < NPROC && (p <= r || Waiting(s, r)) ensures Waiting(Refill(s, p), r) {
        assert Waiting(s2, p) && (Waiting(s, r) ==> Waiting(s2, r)) && Waiting(Refill(s2, p + 1), r);
      }
    }
  }

  lemma {:induction false} RefillNothing(s: Sched, p: nat)
    requires Exact(s) && NoStray(s) && Empty(s) && p <= NPROC
    ensures Refill(s, p) == s
    decreases NPROC - p
  {
    if p < NPROC {
      assert Waiting(s, p);
      RefillNothing(s, p + 1);
    }
  }

  /** The level the dispatcher serves. */
  function Lowest(s: Sched): nat
    requires |s.queue| == QUEUE_LEVELS
  {
    if s.queue[0] != [] then 0 else if s.queue[1] != [] then 1 else 2
  }

  lemma ScanHead(s: Sched)
    requires Exact(s)
    ensures if Empty(s) then Scan(s, 0) == s
            else s.queue[Lowest(s)][0] < NPROC && Scan(s, 0) == RunFrom(s, Lowest(s), 0)
  {
    forall l: nat | l < QUEUE_LEVELS && s.queue[l] != [] ensures EntryOk(s, l, s.queue[l][0]) {
      assert s.queue[l][0] in s.queue[l];
    }
    assert Scan(s, 3) == s;
    assert s.queue[2] == [] ==> Scan(s, 2) == s;
    assert s.queue[1] == [] ==> Scan(s, 1) == Scan(s, 2);
    assert s.queue[0] == [] ==> Scan(s, 0) == Scan(s, 1);
  }

  /** The dispatcher runs the head of the lowest non-empty level, after refilling
      empty queues with every runnable process. */
  lemma DispatchHead(s: Sched)
    requires Exact(s)
    ensures var t := if Empty(s) then Refill(s, 0) else s;
      && Exact(t) && (Empty(s) ==> NoStray(t))
      && if Empty(t) then Dispatched(s) == t
         else t.queue[Lowest(t)][0] < NPROC && Dispatched(s) == RunFrom(t, Lowest(t), 0)
  {
    RefillKeeps(s, 0);
    var t := if Empty(s) then Refill(s, 0) else s;
    ScanHead(t);
    if Empty(s) {
      forall r: nat | r < NPROC ensures Waiting(t, r) { }
    }
  }

  lemma DispatchKeeps(s: Sched)
    requires Exact(s)
    ensures Exact(Dispatched(s)) && (NoStray(s) ==> NoStray(Dispatched(s)))
  {
    DispatchHead(s);
    RefillKeeps(s, 0);
    var t := if Empty(s) then Refill(s, 0) else s;
    if !Empty(t) { RunFromKeeps(t, Lowest(t)); }
  }

  /** One event under this policy: the queues stay exact, and "runnable if and
      only if queued" survives exactly when the event is not the killing of a
      sleeping process. */
  lemma StepExact(s: Sched, e: Event)
    requires Exact(s) && Enabled(s, e) && (e.SetPolicy? ==> e.mode == SCHED_MLFQ)
    ensures Exact(Step(s, e))
    ensures NoStray(s) ==> (NoStray(Step(s, e)) <==> !(e.Kill? && s.procs[e.p].state == SLEEPING))
  {
    var t := Step(s, e);
    match e
    case Dispatch => DispatchKeeps(s);
    case DispatchOther(_) =>
    case SetPolicy(_) => assert t == s;
    case Wake(p) => MakeRunnableKeeps(s, p); Everyone(s, t);
    case KernelTick(p) => MakeRunnableKeeps(s, p); Everyone(s, t);
    case UserTick(p) =>
      Unqueued(s, p);
      var (x, gives) := Ticked(s, p);
      PutKeeps(s, p, x);
      var s1 := s.(procs := s.procs[p := x]);
      Everyone(s, s1);
      if gives { MakeRunnableKeeps(s1, p); Everyone(s1, t); }
    case Start(p) =>
      Unqueued(s, p);
      PutKeeps(s, p, Proc(USED, 0, 0, 0));
      var s1 := s.(procs := s.procs[p := Proc(USED, 0, 0, 0)]);
      Everyone(s, s1);
      MakeRunnableKeeps(s1, p);
      Everyone(s1, t);
    case Alloc(p) => Unqueued(s, p); PutKeeps(s, p, t.procs[p]); Everyone(s, t);
    case Abort(p) => Unqueued(s, p); PutKeeps(s, p, t.procs[p]); Everyone(s, t);
    case Sleep(p) => Unqueued(s, p); PutKeeps(s, p, t.procs[p]); Everyone(s, t);
    case Exit(p) => Unqueued(s, p); PutKeeps(s, p, t.procs[p]); Everyone(s, t);
    case Free(p) => Unqueued(s, p); PutKeeps(s, p, t.procs[p]); Everyone(s, t);
    case Kill(p) =>
      if s.procs[p].state == SLEEPING {
        Unqueued(s, p);
        PutKeeps(s, p, t.procs[p]);
        assert !Waiting(t, p);
      }
  }

  lemma Everyone(s: Sched, t: Sched)
    requires Shaped(s) && Shaped(t)
    requires forall r: nat {:trigger Waiting(t, r)} | r < NPROC && Waiting(s, r) :: Waiting(t, r)
    ensures NoStray(s) ==> NoStray(t)
  {
    if NoStray(s) {
      forall r: nat | r < NPROC ensures Waiting(t, r) { assert Waiting(s, r); }
    }
  }

  /** No event of the run kills a sleeper or leaves the policy. */
  ghost predicate Undisturbed(s: Sched, es: seq<Event>)
    decreases |es|
  {
    es != [] && Shaped(s) && Enabled(s, es[0]) ==>
      && !(es[0].SetPolicy? && es[0].mode != SCHED_MLFQ)
      && !(es[0].Kill? && s.procs[es[0].p].state == SLEEPING)
      && Undisturbed(Step(s, es[0]), es[1..])
  }

  // ------------------------------------------------------- tick accounting

  function LevelAfter(t: nat): nat { if t < 5 then 0 else if t < 15 then 1 else 2 }

  function SliceAfter(t: nat): nat { if t < 5 then t else if t < 15 then t - 5 else (t - 15) % 20 }

  /** Level and slice are what the process's total of ticks says: five ticks at
      level 0, ten at level 1, then slices of twenty. */
  ghost predicate Accounted(x: Proc) { x.level == LevelAfter(x.total) && x.slice == SliceAfter(x.total) }

  ghost predicate AllAccounted(s: Sched) { forall p | 0 <= p < |s.procs| :: Accounted(s.procs[p]) }

  lemma TickAccounted(s: Sched, p: nat)
    requires p < |s.procs| && s.policy == SCHED_MLFQ && Accounted(s.procs[p])
    ensures Accounted(Ticked(s, p).0)
  {
  }

  lemma StepAccounted(s: Sched, e: Event)
    requires Exact(s) && NoStray(s) && AllAccounted(s) && Enabled(s, e) && (e.SetPolicy? ==> e.mode == SCHED_MLFQ)
    ensures AllAccounted(Step(s, e))
  {
    if e.UserTick? { TickAccounted(s, e.p); }
    if e.Dispatch? {
      DispatchHead(s);
      if Empty(s) { RefillNothing(s, 0); }
    }
  }

  /** Every undisturbed run under this policy: a process is queued, once and at
      its own level, exactly when it is runnable, and has been charged exactly. */
  lemma {:induction false} RunExact(s: Sched, es: seq<Event>, t: Sched)
    requires Exact(s) && NoStray(s) && Runs(s, es, t) && Undisturbed(s, es)
    ensures Exact(t) && NoStray(t) && (AllAccounted(s) ==> AllAccounted(t))
    ensures forall p: nat, l: nat | p < NPROC && l < QUEUE_LEVELS ::
      p in t.queue[l] <==> t.procs[p].state == RUNNABLE && t.procs[p].level == l
    decreases |es|
  {
    if es == [] {
      forall p: nat, l: nat | p < NPROC && l < QUEUE_LEVELS
        ensures p in t.queue[l] <==> t.procs[p].state == RUNNABLE && t.procs[p].level == l
      {
        assert Waiting(t, p) && (p in t.queue[l] ==> EntryOk(t, l, p));
      }
    } else {
      StepExact(s, es[0]);
      if AllAccounted(s) { StepAccounted(s, es[0]); }
      RunExact(Step(s, es[0]), es[1..], t);
    }
  }

  // -------------------------------------------------------------- strays

  ghost predicate Stray(s: Sched, p: nat) {
    Shaped(s) && p < NPROC && s.procs[p].state == RUNNABLE && !Queued(s, p)
  }

  /** The killing of a sleeper makes a stray. */
  lemma KillStrays(s: Sched, p: nat)
    requires Exact(s) && p < NPROC && s.procs[p].state == SLEEPING
    ensures Stray(Step(s, Kill(p)), p)
  {
    Unqueued(s, p);
  }

  lemma StrayWaits(s: Sched, e: Event, p: nat)
    requires Exact(s) && Stray(s, p) && Enabled(s, e) && !e.SetPolicy? && (e.Dispatch? ==> !Empty(s))
    ensures Stray(Step(s, e), p) && Step(s, e).procs[p] == s.procs[p]
  {
    var m := s.procs[p].level;
    if e.Dispatch? {
      DispatchHead(s);
      assert EntryOk(s, Lowest(s), s.queue[Lowest(s)][0]);
      DroppedIs(s.queue[Lowest(s)], 0);
    } else if e.Start? {
      Requeued(s.queue[0], e.p);
    } else if e.UserTick? {
      Requeued(s.queue[Ticked(s, e.p).0.level], e.p);
    } else if e.KernelTick? || e.Wake? {
      Requeued(s.queue[s.procs[e.p].level], e.p);
    }
  }

  /** The queues hold something whenever the dispatcher runs. */
  ghost predicate Busy(s: Sched, es: seq<Event>)
    decreases |es|
  {
    es != [] && Shaped(s) && Enabled(s, es[0]) ==>
      !es[0].SetPolicy? && (es[0].Dispatch? ==> !Empty(s)) && Busy(Step(s, es[0]), es[1..])
  }

  /** A stray never runs, however long the run, while the queues do not drain. */
  lemma {:induction false} StrayStarves(s: Sched, es: seq<Event>, t: Sched, p: nat)
    requires Exact(s) && Stray(s, p) && Runs(s, es, t) && Busy(s, es)
    ensures Stray(t, p) && t.procs[p] == s.procs[p]
    decreases |es|
  {
    if es != [] {
      StepExact(s, es[0]);
      StrayWaits(s, es[0], p);
      StrayStarves(Step(s, es[0]), es[1..], t, p);
    }
  }

  /** Once they drain, the next dispatch leaves no stray behind. */
  lemma DrainRescues(s: Sched)
    requires Exact(s) && Empty(s)
    ensures Exact(Dispatched(s)) && NoStray(Dispatched(s))
  {
    DispatchHead(s);
    var t := Refill(s, 0);
    if !Empty(t) { RunFromKeeps(t, Lowest(t)); }
  }
}
