/** The queue arrays themselves and the loops over them, each tied to the
    transitions of module Mlfq (kernel/proc.c, kernel/trap.c). */
module MlfqQueues {
  import opened Mlfq

  /** A null entry. */
  const NONE: nat := NPROC

  lemma {:induction false} RemovedAt(q: seq<nat>, p: nat, i: nat)
    requires i < |q| && q[i] == p && p !in q[..i]
    ensures Removed(q, p) == q[..i] + q[i + 1..]
  {
    if i > 0 {
      assert q[0] == q[..i][0] && q[1..][..i - 1] == q[..i][1..] && q[1..][i..] == q[i + 1..];
      RemovedAt(q[1..], p, i - 1);
      assert q[..i] == [q[0]] + q[..i][1..];
    }
  }

  lemma {:induction false} RemovedNone(q: seq<nat>, p: nat)
    requires p !in q
    ensures Removed(q, p) == q
  {
    if q != [] { RemovedNone(q[1..], p); }
  }

  /** The entries that are not null. */
  function Kept(q: seq<nat>): seq<nat> {
    if q == [] then [] else Kept(q[..|q| - 1]) + if q[|q| - 1] != NONE then [q[|q| - 1]] else []
  }

  lemma {:induction false} KeptAll(q: seq<nat>)
    requires NONE !in q
    ensures Kept(q) == q
  {
    if q != [] { KeptAll(q[..|q| - 1]); }
  }

  lemma {:induction false} KeptOne(l: seq<nat>, r: seq<nat>)
    requires NONE !in l && NONE !in r
    ensures Kept(l + [NONE] + r) == l + r
  {
    var q := l + [NONE] + r;
    if r == [] {
      assert q[..|q| - 1] == l && l + r == l;
      KeptAll(l);
    } else {
      var r1 := r[..|r| - 1];
      assert q[..|q| - 1] == l + [NONE] + r1 && q[|q| - 1] == r[|r| - 1];
      KeptOne(l, r1);
      assert l + r == (l + r1) + [r[|r| - 1]];
    }
  }

  lemma KeptDrop(q: seq<nat>, i: nat)
    requires QueueOk(q) && i < |q|
    ensures Kept(q[i := NONE]) == q[..i] + q[i + 1..]
  {
    var l, r := q[..i], q[i + 1..];
    assert q[i := NONE] == l + [NONE] + r;
    forall x | x in l + r ensures x != NONE { assert x in q; }
    assert NONE !in l + r;
    KeptOne(l, r);
  }

  /** The shift that closes the gap at i. */
  method ShiftDown(a: array<nat>, i: nat, n: nat)
    requires i < n <= a.Length
    modifies a
    ensures a[..n - 1] == old(a[..i]) + old(a[i + 1..n])
  {
    var j := i;
    while j < n - 1
      invariant i <= j <= n - 1
      invariant forall k | 0 <= k < i :: a[k] == old(a[k])
      invariant forall k | i <= k < j :: a[k] == old(a[k + 1])
      invariant forall k | j <= k < n :: a[k] == old(a[k])
    {
      a[j] := a[j + 1];
      j := j + 1;
    }
  }

  /** The removal loops of enqueue_to_mlfq on one level. */
  method RemoveFirst(a: array<nat>, n: nat, p: nat) returns (m: nat)
    requires n <= a.Length
    modifies a
    ensures m <= n && a[..m] == Removed(old(a[..n]), p)
  {
    ghost var q := a[..n];
    m := n;
    var i := 0;
    while i < n
      invariant i <= n == m && a[..n] == q && p !in q[..i]
    {
      if a[i] == p {
        RemovedAt(q, p, i);
        assert a[..i] == q[..i] && a[i + 1..n] == q[i + 1..];
        ShiftDown(a, i, n);
        m := n - 1;
        return;
      }
      assert q[..i + 1] == q[..i] + [a[i]];
      i := i + 1;
    }
    assert q[..n] == q;
    RemovedNone(q, p);
  }

  /** compact_queue on one level. */
  method Compact(a: array<nat>, n: nat) returns (j: nat)
    requires n <= a.Length
    modifies a
    ensures j <= n && a[..j] == Kept(old(a[..n]))
  {
    ghost var q := a[..n];
    j := 0;
    var i := 0;
    while i < n
      invariant j <= i <= n && a[..j] == Kept(q[..i])
      invariant forall k | i <= k < n :: a[k] == q[k]
    {
      assert q[..i + 1][..i] == q[..i];
      if a[i] != NONE {
        a[j] := a[i];
        j := j + 1;
        assert a[..j] == Kept(q[..i]) + [q[i]];
      }
      i := i + 1;
    }
    assert q[..n] == q;
  }

  class Scheduler {
    const q0: array<nat>
    const q1: array<nat>
    const q2: array<nat>
    var qsize: seq<nat>
    var procs: seq<Proc>
    var policy: int

    ghost predicate Sized()
      reads this
    {
      && q0.Length == q1.Length == q2.Length == NPROC && q0 != q1 && q0 != q2 && q1 != q2
      && |qsize| == QUEUE_LEVELS && qsize[0] <= NPROC && qsize[1] <= NPROC && qsize[2] <= NPROC
    }

    ghost function View(): Sched
      reads this, q0, q1, q2
      requires Sized()
    {
      Sched(procs, [q0[..qsize[0]], q1[..qsize[1]], q2[..qsize[2]]], policy)
    }

    ghost predicate Valid()
      reads this, q0, q1, q2
    {
      Sized() && WellFormed(View())
    }

    /** procinit and mlfq_init: no process, empty queues, round robin. */
    constructor ()
      ensures Valid() && fresh(q0) && fresh(q1) && fresh(q2) && policy == SCHED_RR
      ensures View().queue == [[], [], []] && forall i | 0 <= i < NPROC :: procs[i] == Proc(UNUSED, 0, 0, 0)
    {
      q0, q1, q2 := new nat[NPROC], new nat[NPROC], new nat[NPROC];
      qsize, policy := [0, 0, 0], SCHED_RR;
      procs := seq(NPROC, _ => Proc(UNUSED, 0, 0, 0));
    }

    function Queue(l: nat): array<nat> { if l == 0 then q0 else if l == 1 then q1 else q2 }

    /** enqueue_to_mlfq: the "queue full" panic never happens. */
    method Enqueue(p: nat)
      requires Valid() && p < NPROC
      modifies this`qsize, q0, q1, q2
      ensures Valid() && View() == Mlfq.Enqueue(old(View()), p)
    {
      var level := procs[p].level;
      var a := Queue(level);
      ghost var v := View();
      Requeued(v.queue[level], p);
      QueueFits(v.queue[level], p);
      var m := RemoveFirst(a, qsize[level], p);
      qsize := qsize[level := m];
      if qsize[level] < NPROC {
        a[qsize[level]] := p;
        qsize := qsize[level := qsize[level] + 1];
        assert a[..m + 1] == Removed(v.queue[level], p) + [p];
      } else {
        assert false;
      }
    }

    /** Becoming runnable: the end of fork, yield and wakeup. */
    method MakeRunnable(p: nat)
      requires Valid() && p < NPROC
      modifies this`procs, this`qsize, q0, q1, q2
      ensures Valid() && View() == Mlfq.MakeRunnable(old(View()), p)
    {
      procs := procs[p := procs[p].(state := RUNNABLE)];
      if policy == SCHED_MLFQ {
        Enqueue(p);
      }
    }

    /** usertrap on a timer interrupt. */
    method UserTick(p: nat)
      requires Valid() && Enabled(View(), Event.UserTick(p))
      modifies this`procs, this`qsize, q0, q1, q2
      ensures Valid() && View() == Step(old(View()), Event.UserTick(p))
      ensures procs[p].state == RUNNABLE <==>
        policy == SCHED_RR || (policy == SCHED_MLFQ && old(procs)[p].slice + 1 >= MaxTicks(old(procs)[p].level))
      ensures procs[p].state == RUNNABLE || procs[p].state == RUNNING
    {
      var x := procs[p];
      x := x.(total := x.total + 1);
      if policy == SCHED_RR {
        procs := procs[p := x];
        MakeRunnable(p);
      } else if policy == SCHED_MLFQ {
        x := x.(slice := x.slice + 1);
        if x.slice >= MaxTicks(x.level) {
          if x.level < QUEUE_LEVELS - 1 {
            x := x.(level := x.level + 1);
          }
          x := x.(slice := 0);
          procs := procs[p := x];
          MakeRunnable(p);
        } else {
          procs := procs[p := x];
        }
      } else {
        procs := procs[p := x];
      }
    }

    /** The refill of empty queues. */
    method RefillAll()
      requires Valid()
      modifies this`procs, this`qsize, q0, q1, q2
      ensures Valid() && View() == Refill(old(View()), 0)
    {
      var q := 0;
      while q < NPROC
        invariant q <= NPROC && Valid() && Refill(View(), q) == Refill(old(View()), 0)
      {
        if procs[q].state == RUNNABLE {
          Enqueue(q);
          procs := procs[q := procs[q].(slice := 0)];
        }
        q := q + 1;
      }
    }

    /** Taking entry i of a level and running it. */
    method RunEntry(level: nat, i: nat)
      requires Valid() && level < QUEUE_LEVELS && i < qsize[level] && Queue(level)[i] < NPROC
      modifies this`procs, this`qsize, q0, q1, q2
      ensures Valid() && View() == RunFrom(old(View()), level, i)
    {
      var a := Queue(level);
      ghost var q := View().queue[level];
      DroppedIs(q, i);
      KeptDrop(q, i);
      var p := a[i];
      procs := procs[p := procs[p].(state := RUNNING)];
      a[i] := NONE;
      assert a[..qsize[level]] == q[i := NONE];
      var m := Compact(a, qsize[level]);
      qsize := qsize[level := m];
    }

    /** The scan for the first runnable entry. */
    method FindRunnable() returns (level: nat, i: nat)
      requires Valid()
      ensures level <= QUEUE_LEVELS && Scan(View(), level) == Scan(View(), 0)
      ensures level < QUEUE_LEVELS ==> i < qsize[level] && i == FirstRunnable(procs, View().queue[level], 0)
    {
      ghost var v := View();
      level, i := 0, 0;
      while level < QUEUE_LEVELS
        invariant level <= QUEUE_LEVELS && Scan(v, level) == Scan(v, 0)
      {
        var a := Queue(level);
        ghost var q := v.queue[level];
        i := 0;
        while i < qsize[level]
          invariant i <= qsize[level] == |q| && FirstRunnable(procs, q, i) == FirstRunnable(procs, q, 0)
        {
          assert a[i] == q[i] && q[i] in q;
          if procs[a[i]].state == RUNNABLE {
            return;
          }
          i := i + 1;
        }
        level := level + 1;
      }
    }

    /** The scheduler's body under this policy, up to the switch. */
    method Dispatch()
      requires Valid() && policy == SCHED_MLFQ
      modifies this`procs, this`qsize, q0, q1, q2
      ensures Valid() && View() == Dispatched(old(View()))
    {
      if qsize[0] + qsize[1] + qsize[2] == 0 {
        RefillAll();
      }
      var level, i := FindRunnable();
      if level == QUEUE_LEVELS {
        return;
      }
      assert View().queue[level][i] in View().queue[level];
      RunEntry(level, i);
    }
  }
}
