/** sleep and wakeup as every interleaving of their steps (kernel/proc.c).  A
    process is a thread of steps; locks are taken and given up one at a time. */
module SleepWakeup {
  datatype PState = RUNNING | RUNNABLE | SLEEPING

  /** One call of sleep. */
  datatype Call = Call(id: nat, proc: nat, chan: int, lk: nat)

  /** Where a process is.  In sleep: Entered (about to take p->lock), Locked
      (about to release lk), Released (about to set chan), Marked (about to set
      the state), Parking (in sched), Switched (its scheduler about to release
      p->lock), Asleep, Awake (switched back in), Tidied (chan cleared), Leaving
      (about to take lk again).  In wakeup at table entry k: Looking (about to take
      its lock), Looked (holding it), Told (about to release it). */
  datatype Pc =
    | Run
    | Entered | Locked | Released | Marked | Parking | Switched | Asleep | Awake | Tidied | Leaving
    | Looking(chan: int, k: nat) | Looked(chan: int, k: nat) | Told(chan: int, k: nat)

  const FREE := -1

  datatype Sys = Sys(
    pc: seq<Pc>, st: seq<PState>, chan: seq<int>,
    plock: seq<int>,                     // owner of each p->lock, or FREE
    lock: map<nat, int>,                 // owner of each other lock; absent is free
    cur: seq<Call>, nextId: nat,         // each process's latest call of sleep
    seen: seq<map<nat, set<Call>>>)      // calls under way when it last took each lock

  function Owner(s: Sys, l: nat): int { if l in s.lock then s.lock[l] else FREE }

  predicate Shaped(s: Sys) { |s.pc| == |s.st| == |s.chan| == |s.plock| == |s.cur| == |s.seen| }

  predicate InSleep(pc: Pc) { !pc.Run? && !pc.Looking? && !pc.Looked? && !pc.Told? && !pc.Leaving? }

  /** Between calls, where a timer interrupt may take the CPU away. */
  predicate Preemptible(pc: Pc) { pc.Run? || pc.Leaving? || pc.Looking? }

  ghost function UnderWay(s: Sys, l: nat): set<Call>
    requires Shaped(s)
  {
    set i | 0 <= i < |s.pc| && InSleep(s.pc[i]) && s.cur[i].lk == l :: s.cur[i]
  }

  datatype Event =
    | Acquire(i: nat, l: nat) | Release(i: nat, l: nat)
    | CallSleep(i: nat, ch: int, l: nat) | SleepStep(i: nat)
    | CallWakeup(i: nat, ch: int) | WakeStep(i: nat)
    | Kill(i: nat) | Preempt(i: nat) | Resume(i: nat)

  predicate Enabled(s: Sys, e: Event)
    requires Shaped(s)
  {
    e.i < |s.pc| &&
    match e
    case Acquire(i, l) => s.pc[i].Run? && s.st[i] == RUNNING && Owner(s, l) == FREE
    case Release(i, l) => s.pc[i].Run? && s.st[i] == RUNNING && Owner(s, l) == i
    case CallSleep(i, ch, l) => s.pc[i].Run? && s.st[i] == RUNNING && Owner(s, l) == i
    case SleepStep(i) =>
      (match s.pc[i]
       case Entered => s.plock[i] == FREE
       case Asleep => s.st[i] == RUNNABLE && s.plock[i] == FREE
       case Leaving => s.st[i] == RUNNING && Owner(s, s.cur[i].lk) == FREE
       case pc => InSleep(pc))
    case CallWakeup(i, ch) => s.pc[i].Run? && s.st[i] == RUNNING
    case WakeStep(i) =>
      s.st[i] == RUNNING &&
      (match s.pc[i]
       case Looking(_, k) => k >= |s.pc| || k == i || s.plock[k] == FREE
       case Looked(_, _) => true
       case Told(_, _) => true
       case _ => false)
    case Kill(i) => s.plock[i] == FREE
    case Preempt(i) => Preemptible(s.pc[i]) && s.st[i] == RUNNING
    case Resume(i) => Preemptible(s.pc[i]) && s.st[i] == RUNNABLE
  }

  function At(s: Sys, i: nat, pc: Pc): Sys
    requires i < |s.pc|
  {
    s.(pc := s.pc[i := pc])
  }

  function SleepNext(s: Sys, i: nat): Sys
    requires Shaped(s) && i < |s.pc|
  {
    match s.pc[i]
    case Entered => At(s, i, Locked).(plock := s.plock[i := i])
    case Locked => At(s, i, Released).(lock := s.lock[s.cur[i].lk := FREE])
    case Released => At(s, i, Marked).(chan := s.chan[i := s.cur[i].chan])
    case Marked => At(s, i, Parking).(st := s.st[i := SLEEPING])
    case Parking => At(s, i, Switched)
    case Switched => At(s, i, Asleep).(plock := s.plock[i := FREE])
    case Asleep => At(s, i, Awake).(plock := s.plock[i := i], st := s.st[i := RUNNING])
    case Awake => At(s, i, Tidied).(chan := s.chan[i := 0])
    case Tidied => At(s, i, Leaving).(plock := s.plock[i := FREE])
    case Leaving => At(s, i, Run).(lock := s.lock[s.cur[i].lk := i])
    case _ => s
  }

  function WakeNext(s: Sys, i: nat): Sys
    requires Shaped(s) && i < |s.pc|
  {
    match s.pc[i]
    case Looking(c, k) =>
      if k >= |s.pc| then At(s, i, Run)
      else if k == i then At(s, i, Looking(c, k + 1))
      else At(s, i, Looked(c, k)).(plock := s.plock[k := i])
    case Looked(c, k) =>
      if k < |s.pc| && s.st[k] == SLEEPING && s.chan[k] == c then At(s, i, Told(c, k)).(st := s.st[k := RUNNABLE])
      else At(s, i, Told(c, k))
    case Told(c, k) =>
      if k < |s.pc| then At(s, i, Looking(c, k + 1)).(plock := s.plock[k := FREE]) else s
    case _ => s
  }

  ghost function Noted(m: map<nat, set<Call>>, l: nat, calls: set<Call>): map<nat, set<Call>> { m[l := calls] }

  ghost function Step(s: Sys, e: Event): Sys
    requires Shaped(s) && Enabled(s, e)
  {
    match e
    case Acquire(i, l) => s.(lock := s.lock[l := i], seen := s.seen[i := Noted(s.seen[i], l, UnderWay(s, l))])
    case Release(i, l) => s.(lock := s.lock[l := FREE])
    case CallSleep(i, ch, l) => At(s, i, Entered).(cur := s.cur[i := Call(s.nextId, i, ch, l)], nextId := s.nextId + 1)
    case SleepStep(i) => SleepNext(s, i)
    case CallWakeup(i, ch) => At(s, i, Looking(ch, 0))
    case WakeStep(i) => WakeNext(s, i)
    case Kill(i) => if s.st[i] == SLEEPING then s.(st := s.st[i := RUNNABLE]) else s
    case Preempt(i) => s.(st := s.st[i := RUNNABLE])
    case Resume(i) => s.(st := s.st[i := RUNNING])
  }

  ghost predicate Runs(s: Sys, es: seq<Event>, t: Sys)
    decreases |es|
  {
    if es == [] then t == s else Shaped(s) && Enabled(s, es[0]) && Runs(Step(s, es[0]), es[1..], t)
  }

  // ------------------------------------------------------------- invariant

  /** The process is past the call, or no longer sleeping in it. */
  ghost predicate Over(s: Sys, c: Call)
    requires Shaped(s)
  {
    c.proc < |s.pc| &&
    var pc := s.pc[c.proc];
    s.cur[c.proc] == c ==> s.st[c.proc] != SLEEPING && (pc.Asleep? || pc.Awake? || pc.Tidied? || !InSleep(pc))
  }

  ghost predicate ProcOk(s: Sys, i: nat)
    requires Shaped(s) && i < |s.pc|
  {
    var pc := s.pc[i];
    && (InSleep(pc) ==> s.cur[i].proc == i && s.cur[i].id < s.nextId)
    && (pc.Entered? || pc.Locked? ==> Owner(s, s.cur[i].lk) == i)
    && (pc.Locked? || pc.Released? || pc.Marked? || pc.Parking? || pc.Switched? || pc.Awake? || pc.Tidied? ==>
          s.plock[i] == i)
    && (s.st[i] == SLEEPING ==> pc.Parking? || pc.Switched? || pc.Asleep?)
    && (s.st[i] == RUNNABLE ==> pc.Asleep? || Preemptible(pc)) && (pc.Asleep? ==> s.st[i] != RUNNING)
    && (pc.Parking? || pc.Switched? ==> s.st[i] == SLEEPING)
    && (pc.Marked? || pc.Parking? || pc.Switched? || pc.Asleep? ==> s.chan[i] == s.cur[i].chan)
    && (s.chan[i] != 0 ==> pc.Marked? || pc.Parking? || pc.Switched? || pc.Asleep? || pc.Awake?)
    && (pc.Looked? || pc.Told? ==> pc.k < |s.pc| && pc.k != i && s.plock[pc.k] == i)
  }

  /** The call's process has been passed by this wakeup. */
  ghost predicate Passed(pc: Pc, c: Call) {
    || ((pc.Looking? || pc.Looked?) && pc.chan == c.chan && c.proc < pc.k)
    || (pc.Told? && pc.chan == c.chan && c.proc <= pc.k)
  }

  /** A call under way when w took lock l has released l, and is over once w's
      wakeup has passed it. */
  ghost predicate SeenOk(s: Sys, w: nat, l: nat, c: Call)
    requires Shaped(s) && w < |s.pc|
  {
    && c.proc < |s.pc| && c.proc != w && c.lk == l && c.id < s.nextId
    && (s.cur[c.proc] == c ==> !s.pc[c.proc].Entered? && !s.pc[c.proc].Locked?)
    && (Passed(s.pc[w], c) ==> Over(s, c))
  }

  /** Process i has its own lock. */
  ghost predicate InCall(pc: Pc) { InSleep(pc) && !pc.Entered? && !pc.Asleep? }

  /** The lock of process k is free, or held by itself in sleep or by a wakeup that
      has come to it. */
  ghost predicate HeldOk(s: Sys, k: nat)
    requires Shaped(s) && k < |s.pc|
  {
    s.plock[k] == FREE ||
    (0 <= s.plock[k] < |s.pc| &&
     var pc := s.pc[s.plock[k]];
     if pc.Looked? || pc.Told? then pc.k == k else s.plock[k] == k && InCall(pc))
  }

  ghost predicate Inv(s: Sys) {
    && Shaped(s)
    && (forall i: nat {:trigger ProcOk(s, i)} | i < |s.pc| :: ProcOk(s, i))
    && (forall k: nat {:trigger HeldOk(s, k)} | k < |s.pc| :: HeldOk(s, k))
    && (forall w: nat, l: nat, c: Call {:trigger SeenOk(s, w, l, c)}
          | w < |s.pc| && l in s.seen[w] && c in s.seen[w][l] :: SeenOk(s, w, l, c))
  }

  /** Before anything has happened: everyone running, every lock free. */
  ghost predicate Init(s: Sys) {
    && Shaped(s) && s.lock == map[]
    && forall i | 0 <= i < |s.pc| ::
      s.pc[i] == Run && s.st[i] == RUNNING && s.chan[i] == 0 && s.plock[i] == FREE && s.seen[i] == map[]
  }

  lemma SleepSelf(s: Sys, i: nat)
    requires Shaped(s) && i < |s.pc| && ProcOk(s, i) && Enabled(s, SleepStep(i))
    ensures Shaped(SleepNext(s, i)) && ProcOk(SleepNext(s, i), i)
  {
  }

  /** A step from s to t that leaves process j's own fields and its locks alone. */
  ghost predicate Untouched(s: Sys, t: Sys, j: nat) {
    && Shaped(s) && Shaped(t) && |t.pc| == |s.pc| && j < |s.pc| && t.nextId == s.nextId
    && t.pc[j] == s.pc[j] && t.st[j] == s.st[j] && t.chan[j] == s.chan[j] && t.cur[j] == s.cur[j]
    && (forall l: nat {:trigger Owner(t, l)} | Owner(s, l) == j :: Owner(t, l) == j)
    && (forall k | 0 <= k < |s.pc| && s.plock[k] == j :: t.plock[k] == j)
  }

  lemma UntouchedKeeps(s: Sys, t: Sys, j: nat)
    requires Untouched(s, t, j) && ProcOk(s, j)
    ensures ProcOk(t, j)
  {
  }

  lemma SleepOther(s: Sys, i: nat, j: nat)
    requires Shaped(s) && i < |s.pc| && j < |s.pc| && i != j && ProcOk(s, i) && Enabled(s, SleepStep(i))
    ensures Untouched(s, SleepNext(s, i), j)
  {
  }

  lemma SleepProc(s: Sys, i: nat, j: nat)
    requires Inv(s) && i < |s.pc| && Enabled(s, SleepStep(i)) && j < |s.pc|
    ensures Shaped(SleepNext(s, i)) && ProcOk(SleepNext(s, i), j)
  {
    assert ProcOk(s, j) && ProcOk(s, i);
    if i == j {
      SleepSelf(s, i);
    } else {
      SleepOther(s, i, j);
      UntouchedKeeps(s, SleepNext(s, i), j);
    }
  }

  lemma WakeSelf(s: Sys, i: nat)
    requires Shaped(s) && i < |s.pc| && ProcOk(s, i) && Enabled(s, WakeStep(i))
    ensures Shaped(WakeNext(s, i)) && ProcOk(WakeNext(s, i), i)
  {
  }

  /** A wakeup touches another process only to make it runnable, holding its
      lock. */
  lemma WakeOther(s: Sys, i: nat, j: nat)
    requires Shaped(s) && i < |s.pc| && j < |s.pc| && i != j && ProcOk(s, i) && Enabled(s, WakeStep(i))
    ensures var t := WakeNext(s, i);
      || Untouched(s, t, j)
      || (s.plock[j] == i && t == At(s, i, t.pc[i]).(st := s.st[j := RUNNABLE]))
  {
  }

  lemma WakeProc(s: Sys, i: nat, j: nat)
    requires Inv(s) && i < |s.pc| && Enabled(s, WakeStep(i)) && j < |s.pc|
    ensures Shaped(WakeNext(s, i)) && ProcOk(WakeNext(s, i), j)
  {
    assert ProcOk(s, j) && ProcOk(s, i);
    if i == j {
      WakeSelf(s, i);
    } else {
      WakeOther(s, i, j);
      var t := WakeNext(s, i);
      if Untouched(s, t, j) { UntouchedKeeps(s, t, j); }
    }
  }

  lemma StepProc(s: Sys, e: Event, j: nat)
    requires Inv(s) && Enabled(s, e) && j < |s.pc|
    ensures Shaped(Step(s, e)) && ProcOk(Step(s, e), j)
  {
    assert ProcOk(s, j) && ProcOk(s, e.i);
    match e
    case SleepStep(i) => SleepProc(s, i, j);
    case WakeStep(i) => WakeProc(s, i, j);
    case _ =>
  }

  /** Whatever is over stays over. */
  lemma StaysOver(s: Sys, e: Event, c: Call)
    requires Inv(s) && Enabled(s, e) && Over(s, c) && c.id < s.nextId
    ensures Shaped(Step(s, e)) && Over(Step(s, e), c)
  {
    assert ProcOk(s, c.proc) && ProcOk(s, e.i);
  }

  /** The one step that can tell a sleeper: at entry k, w holds its lock, so a call
      it has seen is asleep or over. */
  lemma Tells(s: Sys, w: nat, l: nat, c: Call)
    requires Inv(s) && w < |s.pc| && s.pc[w].Looked? && s.pc[w].chan == c.chan && s.pc[w].k == c.proc
    requires l in s.seen[w] && c in s.seen[w][l]
    ensures Shaped(WakeNext(s, w)) && Over(WakeNext(s, w), c)
  {
    assert SeenOk(s, w, l, c) && ProcOk(s, w) && ProcOk(s, c.proc);
  }

  lemma StaysReleased(s: Sys, e: Event, c: Call)
    requires Inv(s) && Enabled(s, e) && c.proc < |s.pc| && c.id < s.nextId
    requires s.cur[c.proc] == c ==> !s.pc[c.proc].Entered? && !s.pc[c.proc].Locked?
    ensures var t := Step(s, e);
      && Shaped(t) && |t.pc| == |s.pc| && t.nextId >= s.nextId
      && (t.cur[c.proc] == c ==> !t.pc[c.proc].Entered? && !t.pc[c.proc].Locked?)
  {
  }

  lemma AcquireSeen(s: Sys, w: nat, l: nat, c: Call)
    requires Inv(s) && Enabled(s, Acquire(w, l)) && c in UnderWay(s, l)
    ensures SeenOk(Step(s, Acquire(w, l)), w, l, c)
  {
    var i: nat :| i < |s.pc| && InSleep(s.pc[i]) && s.cur[i].lk == l && s.cur[i] == c;
    assert ProcOk(s, i);
  }

  /** Only w's own steps move its wakeup on. */
  lemma NewlyPassed(s: Sys, e: Event, w: nat, c: Call)
    requires Inv(s) && Enabled(s, e) && w < |s.pc| && c.proc != w && !Passed(s.pc[w], c) && Passed(Step(s, e).pc[w], c)
    ensures e == WakeStep(w) && s.pc[w].Looked? && s.pc[w].chan == c.chan && s.pc[w].k == c.proc
  {
  }

  lemma StepSeen(s: Sys, e: Event, w: nat, l: nat, c: Call)
    requires Inv(s) && Enabled(s, e) && w < |s.pc|
    requires var t := Step(s, e); l in t.seen[w] && c in t.seen[w][l]
    ensures Shaped(Step(s, e)) && SeenOk(Step(s, e), w, l, c)
  {
    if e == Acquire(w, l) {
      AcquireSeen(s, w, l, c);
    } else {
      assert l in s.seen[w] && c in s.seen[w][l];
      assert SeenOk(s, w, l, c);
      StaysReleased(s, e, c);
      if Passed(s.pc[w], c) {
        StaysOver(s, e, c);
      } else if Passed(Step(s, e).pc[w], c) {
        NewlyPassed(s, e, w, c);
        Tells(s, w, l, c);
      }
    }
  }

  lemma SleepHeld(s: Sys, i: nat, k: nat)
    requires Shaped(s) && i < |s.pc| && k < |s.pc| && Enabled(s, SleepStep(i)) && ProcOk(s, i) && HeldOk(s, k)
    ensures Shaped(SleepNext(s, i)) && |SleepNext(s, i).pc| == |s.pc| && HeldOk(SleepNext(s, i), k)
  {
  }

  lemma WakeHeld(s: Sys, i: nat, k: nat)
    requires Shaped(s) && i < |s.pc| && k < |s.pc| && Enabled(s, WakeStep(i)) && ProcOk(s, i) && HeldOk(s, k)
    ensures Shaped(WakeNext(s, i)) && |WakeNext(s, i).pc| == |s.pc| && HeldOk(WakeNext(s, i), k)
  {
  }

  lemma StepHeld(s: Sys, e: Event, k: nat)
    requires Inv(s) && Enabled(s, e) && k < |s.pc|
    ensures Shaped(Step(s, e)) && |Step(s, e).pc| == |s.pc| && HeldOk(Step(s, e), k)
  {
    assert ProcOk(s, e.i) && HeldOk(s, k);
    match e
    case SleepStep(i) => SleepHeld(s, i, k);
    case WakeStep(i) => WakeHeld(s, i, k);
    case _ =>
  }

  lemma StepInv(s: Sys, e: Event)
    requires Inv(s) && Enabled(s, e)
    ensures Inv(Step(s, e))
  {
    var t := Step(s, e);
    forall j: nat | j < |t.pc| ensures ProcOk(t, j) { StepProc(s, e, j); }
    forall k: nat | k < |t.pc| ensures HeldOk(t, k) { StepHeld(s, e, k); }
    forall w: nat, l: nat, c: Call | w < |t.pc| && l in t.seen[w] && c in t.seen[w][l] ensures SeenOk(t, w, l, c) {
      StepSeen(s, e, w, l, c);
    }
  }

  lemma {:induction false} RunInv(s: Sys, es: seq<Event>, t: Sys)
    requires Inv(s) && Runs(s, es, t)
    ensures Inv(t)
    decreases |es|
  {
    if es != [] {
      StepInv(s, es[0]);
      RunInv(Step(s, es[0]), es[1..], t);
    }
  }

  lemma {:induction false} SeenStays(s: Sys, es: seq<Event>, t: Sys, w: nat, l: nat, c: Call)
    requires Shaped(s) && Runs(s, es, t) && w < |s.pc| && l in s.seen[w] && c in s.seen[w][l] && Acquire(w, l) !in es
    ensures Shaped(t) && |t.pc| == |s.pc| && l in t.seen[w] && c in t.seen[w][l]
    decreases |es|
  {
    if es != [] {
      assert es[0] in es && forall e | e in es[1..] :: e in es;
      SeenStep(s, es[0], w, l, c);
      SeenStays(Step(s, es[0]), es[1..], t, w, l, c);
    }
  }

  lemma SeenStep(s: Sys, e: Event, w: nat, l: nat, c: Call)
    requires Shaped(s) && Enabled(s, e) && w < |s.pc| && l in s.seen[w] && c in s.seen[w][l] && e != Acquire(w, l)
    ensures var t := Step(s, e); Shaped(t) && |t.pc| == |s.pc| && l in t.seen[w] && c in t.seen[w][l]
  {
  }

  /** No lost wakeup: in every run from an initial state, if process i was in
      sleep(chan, lk) when w took lk, then when a later wakeup(chan) by w returns,
      i is no longer sleeping in that call. */
  lemma NoLostWakeup(s0: Sys, es0: seq<Event>, s: Sys, w: nat, l: nat, es: seq<Event>, t: Sys, i: nat)
    requires Init(s0) && Runs(s0, es0, s) && Shaped(s) && Enabled(s, Acquire(w, l)) && i < |s.pc|
    requires InSleep(s.pc[i]) && s.cur[i].lk == l
    requires Runs(Step(s, Acquire(w, l)), es, t) && Acquire(w, l) !in es
    requires Shaped(t) && w < |t.pc| && t.pc[w].Looking? && t.pc[w].chan == s.cur[i].chan
    requires Enabled(t, WakeStep(w)) && Step(t, WakeStep(w)).pc[w] == Run
    ensures Over(t, s.cur[i]) && Over(Step(t, WakeStep(w)), s.cur[i])
  {
    var c, s1 := s.cur[i], Step(s, Acquire(w, l));
    RunInv(s0, es0, s);
    assert ProcOk(s, i);
    assert c in UnderWay(s, l);
    StepInv(s, Acquire(w, l));
    RunInv(s1, es, t);
    SeenStays(s1, es, t, w, l, c);
    assert SeenOk(t, w, l, c);
    StaysOver(t, WakeStep(w), c);
  }

  // ------------------------------------------------------ no other wakeups

  /** Event e wakes process j: a kill, or a wakeup of the channel of j's call that
      holds j's lock. */
  ghost predicate Wakes(s: Sys, e: Event, j: nat)
    requires Shaped(s) && j < |s.pc|
  {
    e == Kill(j) || (e.WakeStep? && e.i < |s.pc| && s.pc[e.i] == Looked(s.cur[j].chan, j))
  }

  /** A sleeping process becomes runnable by exactly these events, and by all others
      it sleeps on in the same call. */
  lemma LeavesSleep(s: Sys, e: Event, j: nat)
    requires Inv(s) && Enabled(s, e) && j < |s.pc| && s.st[j] == SLEEPING
    ensures var t := Step(s, e);
      && Shaped(t) && |t.pc| == |s.pc| && t.cur[j] == s.cur[j]
      && t.st[j] == if Wakes(s, e, j) then RUNNABLE else SLEEPING
  {
    assert ProcOk(s, j) && ProcOk(s, e.i);
  }

  /** No event touches the state of another process in any other way; and a kill
      none but a sleeper's. */
  lemma OthersKeepState(s: Sys, e: Event, j: nat)
    requires Inv(s) && Enabled(s, e) && j < |s.pc| && (e.i != j || e.Kill?) && s.st[j] != SLEEPING
    ensures Shaped(Step(s, e)) && Step(s, e).st[j] == s.st[j]
  {
    assert ProcOk(s, e.i);
  }

  /** In every run, a process that no longer sleeps in a call it slept in was woken,
      at some step, by a kill or by a wakeup of that call's channel. */
  lemma {:induction false} WokenBy(s: Sys, es: seq<Event>, t: Sys, j: nat) returns (k: nat, u: Sys)
    requires Inv(s) && Runs(s, es, t) && j < |s.pc| && s.st[j] == SLEEPING
    requires Shaped(t) && |t.pc| == |s.pc| && !(t.st[j] == SLEEPING && t.cur[j] == s.cur[j])
    ensures k < |es| && Runs(s, es[..k], u) && Inv(u) && |u.pc| == |s.pc| && Enabled(u, es[k])
    ensures u.st[j] == SLEEPING && u.cur[j] == s.cur[j] && Wakes(u, es[k], j)
    decreases |es|
  {
    if Wakes(s, es[0], j) {
      return 0, s;
    }
    LeavesSleep(s, es[0], j);
    StepInv(s, es[0]);
    k, u := WokenBy(Step(s, es[0]), es[1..], t, j);
    assert es[1..][..k] == es[..k + 1][1..] && es[1..][k] == es[k + 1];
    k := k + 1;
  }

  /** A lock passes only from free to who takes it, or from its owner to free:
      acquire and release, and in sleep, which gives lk up and has it again when it
      returns. */
  lemma LockPasses(s: Sys, e: Event, l: nat)
    requires Inv(s) && Enabled(s, e)
    ensures var t := Step(s, e);
      var gives := e == Release(e.i, l) || (e.SleepStep? && s.pc[e.i].Locked? && s.cur[e.i].lk == l);
      var takes := e == Acquire(e.i, l) || (e.SleepStep? && s.pc[e.i].Leaving? && s.cur[e.i].lk == l);
      && (gives ==> Owner(s, l) == e.i) && (takes ==> Owner(s, l) == FREE)
      && Owner(t, l) == if gives then FREE else if takes then e.i else Owner(s, l)
  {
    assert ProcOk(s, e.i);
  }

  // ----------------------------------------------------------------- progress

  /** Only a running process takes steps of its own; the last steps into sleep are
      its scheduler's, and the first out of it is taken once it is runnable. */
  lemma OnlyRunning(s: Sys, e: Event)
    requires Inv(s) && Enabled(s, e) && !e.Kill? && !e.Resume?
    ensures s.st[e.i] == RUNNING ||
      (e.SleepStep? && (s.pc[e.i].Parking? || s.pc[e.i].Switched? || (s.pc[e.i].Asleep? && s.st[e.i] == RUNNABLE)))
  {
    assert ProcOk(s, e.i);
  }

  /** A running process that is in neither call may take any free lock, give up or
      sleep with any lock it has, and call wakeup. */
  lemma FreeToAct(s: Sys, i: nat, l: nat, ch: int)
    requires Shaped(s) && i < |s.pc| && s.pc[i].Run? && s.st[i] == RUNNING
    ensures (Owner(s, l) == FREE ==> Enabled(s, Acquire(i, l))) && Enabled(s, CallWakeup(i, ch))
    ensures Owner(s, l) == i ==> Enabled(s, Release(i, l)) && Enabled(s, CallSleep(i, ch, l))
  {
  }

  /** A runnable process can be run, one that sleep has parked once its lock is free;
      and then it runs. */
  lemma RunnableMoves(s: Sys, i: nat)
    requires Inv(s) && i < |s.pc| && s.st[i] == RUNNABLE
    ensures s.pc[i].Asleep? || (Enabled(s, Resume(i)) && Step(s, Resume(i)).st[i] == RUNNING)
    ensures s.pc[i].Asleep? && s.plock[i] == FREE ==>
      Enabled(s, SleepStep(i)) && Step(s, SleepStep(i)).st[i] == RUNNING
  {
    assert ProcOk(s, i);
  }

  /** The next step of a process in sleep or wakeup. */
  ghost function NextStep(s: Sys, i: nat): Event
    requires Shaped(s) && i < |s.pc|
  {
    if s.pc[i].Looking? || s.pc[i].Looked? || s.pc[i].Told? then WakeStep(i) else SleepStep(i)
  }

  /** Who holds a process lock does not wait for anything, so it will be free again. */
  lemma HolderMoves(s: Sys, k: nat)
    requires Inv(s) && k < |s.pc| && s.plock[k] != FREE
    ensures 0 <= s.plock[k] < |s.pc| && Enabled(s, NextStep(s, s.plock[k]))
  {
    assert HeldOk(s, k) && ProcOk(s, s.plock[k]);
  }

  /** How many steps of its own a call may still take. */
  ghost function StepsLeft(s: Sys, i: nat): int
    requires Shaped(s) && i < |s.pc|
  {
    match s.pc[i]
    case Run => 0
    case Leaving => 1
    case Tidied => 2
    case Awake => 3
    case Asleep => 4
    case Switched => 5
    case Parking => 6
    case Marked => 7
    case Released => 8
    case Locked => 9
    case Entered => 10
    case Looking(_, k) => if k >= |s.pc| then 1 else 3 * (|s.pc| - k) + 1
    case Looked(_, k) => 3 * (|s.pc| - k)
    case Told(_, k) => 3 * (|s.pc| - k) - 1
  }

  /** Every step of a call brings it closer to its end: sleep takes ten, and wakeup
      at most three for each process and one more. */
  lemma StepsCount(s: Sys, i: nat)
    requires Inv(s) && i < |s.pc| && !s.pc[i].Run? && Enabled(s, NextStep(s, i))
    ensures var t := Step(s, NextStep(s, i)); Shaped(t) && |t.pc| == |s.pc| && 0 <= StepsLeft(t, i) < StepsLeft(s, i)
    ensures InSleep(s.pc[i]) ==> StepsLeft(Step(s, NextStep(s, i)), i) == StepsLeft(s, i) - 1
  {
    assert ProcOk(s, i);
    if NextStep(s, i).SleepStep? { SleepCount(s, i); } else { WakeCount(s, i); }
  }

  lemma SleepCount(s: Sys, i: nat)
    requires Shaped(s) && i < |s.pc| && (InSleep(s.pc[i]) || s.pc[i].Leaving?)
    ensures var t := SleepNext(s, i); Shaped(t) && |t.pc| == |s.pc| && StepsLeft(t, i) == StepsLeft(s, i) - 1
  {
  }

  lemma WakeCount(s: Sys, i: nat)
    requires Shaped(s) && i < |s.pc| && (s.pc[i].Looking? || ((s.pc[i].Looked? || s.pc[i].Told?) && s.pc[i].k < |s.pc|))
    ensures var t := WakeNext(s, i); Shaped(t) && |t.pc| == |s.pc| && 0 <= StepsLeft(t, i) < StepsLeft(s, i)
  {
  }

  lemma CallSteps(s: Sys, i: nat, ch: int, l: nat)
    requires Shaped(s) && i < |s.pc|
    ensures Enabled(s, CallSleep(i, ch, l)) ==> StepsLeft(Step(s, CallSleep(i, ch, l)), i) == 10
    ensures Enabled(s, CallWakeup(i, ch)) ==> StepsLeft(Step(s, CallWakeup(i, ch)), i) == 3 * |s.pc| + 1
  {
  }
}
