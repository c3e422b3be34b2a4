/** begin_op's reservation and log_write's guard (kernel/log.c): what every
    interleaving of operations may still append. */
module LogBudget {
  import opened Common
  import opened Blocks
  import opened Wal
  import opened LogRun

  // ----------------------------------------------------------- reservation

  ghost function Pick(m: map<OpId, nat>): (op: OpId)
    requires m != map[]
    ensures op in m
  {
    var op :| op in m;
    op
  }

  /** Blocks the outstanding operations may still append. */
  ghost function Unused(m: map<OpId, nat>): nat
    requires forall op | op in m :: m[op] <= MAXOPBLOCKS
    decreases |m|
  {
    if m == map[] then 0
    else
      var op := Pick(m);
      assert (m - {op}).Keys == m.Keys - {op};
      (MAXOPBLOCKS - m[op]) + Unused(m - {op})
  }

  lemma {:induction false} UnusedBound(m: map<OpId, nat>)
    requires forall op | op in m :: m[op] <= MAXOPBLOCKS
    ensures Unused(m) <= |m| * MAXOPBLOCKS
    decreases |m|
  {
    if m != map[] {
      var op := Pick(m);
      assert (m - {op}).Keys == m.Keys - {op} && |m| == |m.Keys|;
      UnusedBound(m - {op});
    }
  }

  lemma {:induction false} UnusedAt(m: map<OpId, nat>, op: OpId)
    requires op in m
    requires forall o | o in m :: m[o] <= MAXOPBLOCKS
    ensures Unused(m) == (MAXOPBLOCKS - m[op]) + Unused(m - {op})
    decreases |m|
  {
    var o := Pick(m);
    if o != op {
      assert (m - {o}).Keys == m.Keys - {o};
      assert (m - {op}).Keys == m.Keys - {op};
      UnusedAt(m - {o}, op);
      UnusedAt(m - {op}, o);
      assert m - {o} - {op} == m - {op} - {o};
    }
  }

  /** What begin_op's test promises: the blocks logged so far and the unused
      budgets of all outstanding operations fit in the log together. */
  ghost predicate Reserved(s: State) {
    && (forall op | op in s.active :: s.active[op] <= MAXOPBLOCKS)
    && |s.lh| + Unused(s.active) <= LOGSIZE
  }

  lemma UnusedBegin(m: map<OpId, nat>, op: OpId)
    requires op !in m
    requires forall o | o in m :: m[o] <= MAXOPBLOCKS
    ensures Unused(m[op := 0]) == Unused(m) + MAXOPBLOCKS
  {
    UnusedAt(m[op := 0], op);
    assert m[op := 0] - {op} == m;
  }

  lemma UnusedAppend(m: map<OpId, nat>, op: OpId)
    requires op in m && m[op] < MAXOPBLOCKS
    requires forall o | o in m :: m[o] <= MAXOPBLOCKS
    ensures Unused(m[op := m[op] + 1]) == Unused(m) - 1
  {
    var n := m[op := m[op] + 1];
    UnusedAt(m, op);
    UnusedAt(n, op);
    assert n - {op} == m - {op};
  }

  lemma WriteReserved(s: State, op: OpId, b: uint32, data: Block)
    requires Reserved(s) && op in s.active
    requires b !in s.lh ==> s.active[op] < MAXOPBLOCKS
    ensures Reserved(Written(s, op, b, data))
  {
    if b !in s.lh { UnusedAppend(s.active, op); }
  }

  lemma StepReserved(a: Area, s: State, e: Event)
    requires Inv(a, s) && Reserved(s) && Enabled(a, s, e)
    ensures Reserved(Step(a, s, e))
  {
    match e
    case Begin(op) =>
      UnusedBegin(s.active, op);
      UnusedBound(s.active);
    case LogWrite(op, b, data) => WriteReserved(s, op, b, data);
    case End(op) => UnusedAt(s.active, op);
    case Commit =>
    case Crash(_, _) =>
  }

  /** The reservation holds after every interleaving. */
  lemma {:induction false} RunReserved(a: Area, s: State, es: seq<Event>)
    requires Inv(a, s) && Fresh(a, s) && Exec(a, s, es).Some?
    ensures Reserved(Exec(a, s, es).value)
    decreases |es|
  {
    if es != [] {
      RunReserved(a, s, es[..|es| - 1]);
      StepReserved(a, Exec(a, s, es[..|es| - 1]).value, es[|es| - 1]);
    }
  }

  // -------------------------------------------------------- begin_op's test

  /** Operations begun and not ended since the last crash. */
  ghost function Running(es: seq<Event>): set<OpId> {
    if es == [] then {}
    else
      var r := Running(es[..|es| - 1]);
      match es[|es| - 1]
      case Begin(op) => r + {op}
      case End(op) => r - {op}
      case Crash(_, _) => {}
      case _ => r
  }

  /** The blocks passed to log_write since the last commit or crash. */
  ghost function Unwritten(es: seq<Event>): set<nat> {
    if es == [] then {}
    else
      var w := Unwritten(es[..|es| - 1]);
      match es[|es| - 1]
      case LogWrite(_, b, _) => w + {b as nat}
      case Commit => {}
      case Crash(_, _) => {}
      case _ => w
  }

  /** The last running operation has just ended, and its commit is to come. */
  ghost predicate Due(es: seq<Event>) { es != [] && es[|es| - 1].End? && Running(es) == {} }

  ghost predicate Tracks(t: State, es: seq<Event>) {
    t.active.Keys == Running(es) && Named(t.lh) == Unwritten(es) && (t.committing <==> Due(es))
  }

  lemma StepTracks(a: Area, t: State, p: seq<Event>, e: Event, es: seq<Event>)
    requires Enabled(a, t, e) && Tracks(t, p) && |es| == |p| + 1 && es[..|p|] == p && es[|p|] == e
    ensures Tracks(Step(a, t, e), es)
  {
    match e
    case Begin(op) => KeysAdd(t.active, op);
    case LogWrite(op, b, data) =>
      NamedAppend(t.lh, b);
      assert op in Running(p) && Step(a, t, e).active.Keys == t.active.Keys;
    case End(op) =>
      assert (t.active - {op}).Keys == t.active.Keys - {op};
      assert t.active - {op} == map[] <==> (t.active - {op}).Keys == {};
    case Commit =>
    case Crash(_, _) =>
  }

  lemma {:induction false} RunTracks(a: Area, s: State, es: seq<Event>)
    requires Inv(a, s) && Fresh(a, s) && Exec(a, s, es).Some?
    ensures Tracks(Exec(a, s, es).value, es)
    decreases |es|
  {
    if es != [] {
      var p, e := es[..|es| - 1], es[|es| - 1];
      RunTracks(a, s, p);
      StepTracks(a, Exec(a, s, p).value, p, e, es);
    }
  }

  /** After every run, crashes included, begin_op admits an operation if and only if
      no commit is due and the blocks logged since the last one fit beside a full
      reservation for each running operation and the new one. */
  lemma BeginAdmittedExactly(a: Area, s: State, es: seq<Event>, op: OpId)
    requires Inv(a, s) && Fresh(a, s) && Exec(a, s, es).Some? && op !in Running(es)
    ensures Enabled(a, Exec(a, s, es).value, Begin(op)) <==>
      !Due(es) && |Unwritten(es)| + |Running(es) + {op}| * MAXOPBLOCKS <= LOGSIZE
  {
    var t := Exec(a, s, es).value;
    ExecInv(a, s, es);
    RunTracks(a, s, es);
    DirtyCount(t.lh);
    assert |t.active| == |t.active.Keys| && |Running(es) + {op}| == |Running(es)| + 1;
  }

  // ------------------------------------------------------ the log_write guard

  ghost predicate Reaches(a: Area, s: State, t: State) {
    exists es: seq<Event> :: Exec(a, s, es) == Some(t)
  }

  lemma ReachesStep(a: Area, s: State, t: State, e: Event, t': State)
    requires Reaches(a, s, t) && Enabled(a, t, e) && t' == Step(a, t, e)
    ensures Reaches(a, s, t')
  {
    var es: seq<Event> :| Exec(a, s, es) == Some(t);
    ExecSnoc(a, s, es, e);
  }

  lemma ExecSnoc(a: Area, s: State, es: seq<Event>, e: Event)
    ensures Exec(a, s, es + [e]) == Then(a, Exec(a, s, es), e)
  {
    var fs := es + [e];
    assert fs[..|fs| - 1] == es;
  }

  /** In every reachable state, an operation within its budget may append:
      this is what begin_op's reservation is for. */
  ghost predicate AppendsAdmitted(a: Area, d: Disk) {
    forall t: State, op: OpId {:trigger Reaches(a, Start(d), t), op in t.active} ::
      Reaches(a, Start(d), t) && op in t.active && t.active[op] < MAXOPBLOCKS ==> !Refuses(a, t)
  }

  function Start(d: Disk): State { State(d, [], map[], map[], false) }

  lemma BudgetLeavesRoom(s: State, op: OpId)
    requires Reserved(s) && op in s.active && s.active[op] < MAXOPBLOCKS
    ensures |s.lh| < LOGSIZE
  {
    UnusedAt(s.active, op);
  }

  /** m blocks from b0 on, listed. */
  ghost function Listing(b0: uint32, m: nat): (lh: seq<uint32>)
    requires b0 + m < U32
    ensures |lh| == m
  {
    if m == 0 then [] else Listing(b0, m - 1) + [b0 + m - 1]
  }

  lemma {:induction false} ListingIs(b0: uint32, m: nat, b: uint32)
    requires b0 + m < U32
    ensures b in Listing(b0, m) <==> b0 <= b < b0 + m
  {
    if m > 0 { ListingIs(b0, m - 1, b); }
  }

  /** What each of three operations has appended when they take turns of
      MAXOPBLOCKS and m blocks are listed. */
  ghost function Quota(m: nat, op: OpId): nat {
    if m <= 10 * op then 0 else if m <= 10 * op + 10 then m - 10 * op else 10
  }

  ghost predicate Quotas(active: map<OpId, nat>, m: nat) {
    forall op: OpId :: (op in active <==> op < 3) && (op < 3 ==> active[op] == Quota(m, op))
  }

  ghost predicate Filling(t: State, d: Disk, b0: uint32, m: nat)
    requires b0 + m < U32
  {
    t.disk == d && t.lh == Listing(b0, m) && !t.committing && Quotas(t.active, m)
  }

  /** The first n operations have begun. */
  ghost predicate Opened(a: Area, t: State, d: Disk, n: nat) {
    && Inv(a, t) && t.disk == d && t.lh == [] && !t.committing && |t.active| == n
    && forall op: OpId :: (op in t.active <==> op < n) && (op < n ==> t.active[op] == 0)
  }

  lemma OpenNext(a: Area, t: State, d: Disk, n: nat)
    requires Opened(a, t, d, n) && n < 3
    ensures Enabled(a, t, Begin(n)) && Opened(a, Step(a, t, Begin(n)), d, n + 1)
  {
    assert |t.lh| + (|t.active| + 1) * MAXOPBLOCKS <= LOGSIZE;
    StepInv(a, t, Begin(n));
  }

  lemma QuotaStep(active: map<OpId, nat>, m: nat, op: OpId)
    requires Quotas(active, m) && m < 30 && op == m / 10
    ensures op in active && active[op] < 10 && Quotas(active[op := active[op] + 1], m + 1)
  {
    var active' := active[op := active[op] + 1];
    forall o: OpId ensures (o in active' <==> o < 3) && (o < 3 ==> active'[o] == Quota(m + 1, o)) {
      assert o in active <==> o < 3;
    }
  }

  lemma FillNext(a: Area, t: State, d: Disk, b0: uint32, data: Block, m: nat, op: OpId, b: uint32)
    requires Inv(a, t) && m < LOGSIZE && m + 1 < a.size && b0 + m + 1 < U32 && op == m / 10 && b == b0 + m
    requires Filling(t, d, b0, m) && a.Home(d, b)
    ensures Enabled(a, t, LogWrite(op, b, data)) && Filling(Step(a, t, LogWrite(op, b, data)), d, b0, m + 1)
  {
    ListingIs(b0, m, b);
    QuotaStep(t.active, m, op);
  }

  /** Three operations can between them list any number of blocks that the
      guard lets through. */
  lemma FillReaches(a: Area, d: Disk, b0: uint32, data: Block, m: nat) returns (t: State)
    requires Clean(a, d) && m <= LOGSIZE && m < a.size && b0 + m < U32
    requires forall b: nat | b0 <= b < b0 + m :: a.Home(d, b)
    ensures Reaches(a, Start(d), t) && Filling(t, d, b0, m)
  {
    t := FillStart(a, d, b0);
    var k := 0;
    while k < m
      invariant k <= m && Reaches(a, Start(d), t) && Inv(a, t) && Filling(t, d, b0, k)
    {
      var op, b: uint32 := k / 10, b0 + k;
      FillNext(a, t, d, b0, data, k, op, b);
      StepInv(a, t, LogWrite(op, b, data));
      ReachesStep(a, Start(d), t, LogWrite(op, b, data), Step(a, t, LogWrite(op, b, data)));
      t := Step(a, t, LogWrite(op, b, data));
      k := k + 1;
    }
  }

  lemma FillStart(a: Area, d: Disk, b0: uint32) returns (t: State)
    requires Clean(a, d)
    ensures Reaches(a, Start(d), t) && Inv(a, t) && Filling(t, d, b0, 0)
  {
    t := Start(d);
    assert Exec(a, t, []) == Some(t);
    var n := 0;
    while n < 3
      invariant n <= 3 && Opened(a, t, d, n) && Reaches(a, Start(d), t)
    {
      OpenNext(a, t, d, n);
      ReachesStep(a, Start(d), t, Begin(n), Step(a, t, Begin(n)));
      t := Step(a, t, Begin(n));
      n := n + 1;
    }
  }

  /** log_write also refuses at log.size - 1, so the reservation of LOGSIZE
      blocks is sound exactly when the log area has LOGSIZE slots besides its
      header.  mkfs makes it one slot short. */
  lemma AppendsAdmittedExactly(a: Area, d: Disk, b0: uint32, data: Block)
    requires Clean(a, d) && b0 + LOGSIZE < U32
    requires forall b: nat | b0 <= b < b0 + LOGSIZE :: a.Home(d, b)
    ensures AppendsAdmitted(a, d) <==> a.size >= LOGSIZE + 1
  {
    if a.size >= LOGSIZE + 1 {
      forall t: State, op: OpId | Reaches(a, Start(d), t) && op in t.active && t.active[op] < MAXOPBLOCKS
        ensures !Refuses(a, t)
      {
        var es: seq<Event> :| Exec(a, Start(d), es) == Some(t);
        RunReserved(a, Start(d), es);
        BudgetLeavesRoom(t, op);
      }
    } else {
      var t := FillReaches(a, d, b0, data, a.size - 1);
      assert 2 in t.active && t.active[2] == Quota(a.size - 1, 2) && Refuses(a, t);
    }
  }

  /** The guard runs before absorption: once the log is full, an operation that
      only rewrites a block it has already logged is refused too. */
  lemma FullLogRefusesAbsorption(a: Area, d: Disk, b0: uint32, data: Block) returns (t: State)
    requires Clean(a, d) && a.size >= LOGSIZE + 1 && b0 + LOGSIZE < U32
    requires forall b: nat | b0 <= b < b0 + LOGSIZE :: a.Home(d, b)
    ensures Reaches(a, Start(d), t) && 2 in t.active && b0 + LOGSIZE - 1 in t.lh && Refuses(a, t)
  {
    t := FillReaches(a, d, b0, data, LOGSIZE);
    ListingIs(b0, LOGSIZE, b0 + LOGSIZE - 1);
  }

  // -------------------------------------------------- transactions admitted

  /** The blocks op has passed to log_write since it began. */
  ghost function OpWrites(es: seq<Event>, op: OpId): set<nat> {
    if es == [] then {}
    else
      var w := OpWrites(es[..|es| - 1], op);
      match es[|es| - 1]
      case LogWrite(o, b, _) => if o == op then w + {b as nat} else w
      case Begin(o) => if o == op then {} else w
      case _ => w
  }

  /** While op is open its blocks stay listed, and it was charged for at most
      one append each. */
  ghost predicate Charged(t: State, op: OpId, w: set<nat>) {
    op in t.active ==> t.active[op] <= |w| && forall b | b in w :: b in t.lh
  }

  lemma StepCharged(a: Area, t: State, op: OpId, w: set<nat>, e: Event, w': set<nat>)
    requires Enabled(a, t, e) && Charged(t, op, w)
    requires w' == match e
      case LogWrite(o, b, _) => (if o == op then w + {b as nat} else w)
      case Begin(o) => (if o == op then {} else w)
      case _ => w
    ensures Charged(Step(a, t, e), op, w')
  {
    if e.LogWrite? && e.op == op && e.bno !in t.lh { assert e.bno as nat !in w; }
    if e.LogWrite? && e.op == op && e.bno as nat in w { assert w' == w; }
  }

  lemma {:induction false} RunCharged(a: Area, s: State, es: seq<Event>, op: OpId)
    requires Fresh(a, s) && Inv(a, s) && Exec(a, s, es).Some?
    ensures Charged(Exec(a, s, es).value, op, OpWrites(es, op))
    decreases |es|
  {
    if es != [] {
      var p, e := es[..|es| - 1], es[|es| - 1];
      RunCharged(a, s, p, op);
      StepCharged(a, Exec(a, s, p).value, op, OpWrites(p, op), e, OpWrites(es, op));
    }
  }

  /** A transaction of at most MAXOPBLOCKS different blocks, in a log with
      LOGSIZE slots: every log_write of a block not yet listed is admitted, and
      one of a listed block exactly if the log is not full. */
  lemma TransactionAdmitted(a: Area, s: State, es: seq<Event>, op: OpId, txn: set<nat>, b: uint32, data: Block)
    requires Fresh(a, s) && Inv(a, s) && Exec(a, s, es).Some? && a.size >= LOGSIZE + 1
    requires op in Exec(a, s, es).value.active && a.Home(s.disk, b)
    requires OpWrites(es, op) + {b as nat} <= txn && |txn| <= MAXOPBLOCKS
    ensures var t := Exec(a, s, es).value;
      Enabled(a, t, LogWrite(op, b, data)) <==> b !in t.lh || |t.lh| < LOGSIZE
  {
    var t, w := Exec(a, s, es).value, OpWrites(es, op);
    ExecInv(a, s, es);
    RunCharged(a, s, es, op);
    RunReserved(a, s, es);
    if b !in t.lh {
      assert b as nat !in w;
      SubsetCard(w + {b as nat}, txn);
      assert |w + {b as nat}| == |w| + 1;
      BudgetLeavesRoom(t, op);
    }
  }
}
