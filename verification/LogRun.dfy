/** Every interleaving of begin_op, log_write, end_op, commit and crashes of
    kernel/log.c, as a step system, and the transactional store it refines.

    The log lock makes each call one step.  While a commit is running no
    operation is open, so its writes only interleave with crashes. */
module LogRun {
  import opened Common
  import opened Blocks
  import opened Wal

  type OpId = nat

  /** `active` maps each outstanding operation to the blocks it has appended;
      `cache` holds the pinned buffers of the blocks in `lh`. */
  datatype State = State(
    disk: Disk, lh: seq<uint32>, cache: map<nat, Block>,
    active: map<OpId, nat>, committing: bool)

  datatype Event =
    | Begin(op: OpId)
    | LogWrite(op: OpId, bno: uint32, data: Block)
    | End(op: OpId)
    | Commit
    | Crash(k: nat, cuts: seq<nat>)

  ghost predicate Inv(a: Area, s: State) {
    && Clean(a, s.disk) && GoodList(a, s.disk, s.lh)
    && (forall b | b in s.lh :: b in s.cache)
    && (forall b | b in s.cache :: b in s.lh)
    && (s.committing ==> s.active == map[])
  }

  ghost predicate Fresh(a: Area, s: State) {
    Clean(a, s.disk) && s == State(s.disk, [], map[], map[], false)
  }

  // ----------------------------------------------------------------- steps

  /** The test at the head of log_write; true means panic. */
  predicate Refuses(a: Area, s: State) {
    |s.lh| >= LOGSIZE || |s.lh| >= a.size - 1
  }

  /** An operation appends at most MAXOPBLOCKS blocks; this is the only thing
      asked of callers beyond what log.c itself checks. */
  ghost predicate Enabled(a: Area, s: State, e: Event) {
    Inv(a, s) &&
    match e
    case Begin(op) => op !in s.active && !s.committing && |s.lh| + (|s.active| + 1) * MAXOPBLOCKS <= LOGSIZE
    case LogWrite(op, b, _) =>
      && op in s.active && a.Home(s.disk, b) && !Refuses(a, s)
      && (b !in s.lh ==> s.active[op] < MAXOPBLOCKS)
    case End(op) => op in s.active
    case Commit => s.committing
    case Crash(k, _) => k <= if s.committing then |CommitWrites(a, s.disk, s.lh, s.cache)| else 0
  }

  /** The disk after a crash k writes into the running commit (if any) and the
      recoveries that follow. */
  ghost function Survivor(a: Area, s: State, k: nat, cuts: seq<nat>): Disk
    requires Inv(a, s) && k <= |CommitWrites(a, s.disk, s.lh, s.cache)|
  {
    Reboot(a, Apply(s.disk, CommitWrites(a, s.disk, s.lh, s.cache)[..k]), cuts)
  }

  /** The disk after a whole commit. */
  ghost function AfterCommit(a: Area, s: State): Disk
    requires Inv(a, s)
  {
    Apply(s.disk, CommitWrites(a, s.disk, s.lh, s.cache))
  }

  /** A crash may come at any moment, and within a commit after any of its writes. */
  lemma CrashAnywhere(a: Area, s: State, k: nat, cuts: seq<nat>)
    requires Inv(a, s) && (k == 0 || (s.committing && k <= |CommitWrites(a, s.disk, s.lh, s.cache)|))
    ensures Enabled(a, s, Crash(k, cuts))
  {
  }

  lemma CommitInstalls(a: Area, d: Disk, lh: seq<uint32>, cache: map<nat, Block>)
    requires GoodList(a, d, lh) && Clean(a, d)
    requires forall b | b in lh :: b in cache
    ensures var e := Apply(d, CommitWrites(a, d, lh, cache));
      && Clean(a, e)
      && forall b: nat | a.Home(d, b) :: e[b] == if b in lh then cache[b] else d[b]
  {
    if lh != [] {
      var ws := CommitWrites(a, d, lh, cache);
      var c := Committed(a, d, lh, cache);
      CommitSplits(a, d, lh, cache, |ws|);
      assert ws[..|ws|] == ws;
      assert RecoverWrites(a, c)[..|lh| + 1] == RecoverWrites(a, c);
      RebootIsRedone(a, c, []);
      RedoneCommitted(a, d, lh, cache, Reboot(a, c, []));
    }
  }

  /** log_write: absorb the block if it is already in the list, else append it. */
  ghost function Written(s: State, op: OpId, b: uint32, data: Block): State
    requires op in s.active
  {
    var w := s.(cache := s.cache[b as nat := data]);
    if b in s.lh then w else w.(lh := s.lh + [b], active := s.active[op := s.active[op] + 1])
  }

  ghost function Step(a: Area, s: State, e: Event): State
    requires Enabled(a, s, e)
  {
    match e
    case Begin(op) => s.(active := s.active[op := 0])
    case LogWrite(op, b, data) => Written(s, op, b, data)
    case End(op) => s.(active := s.active - {op}, committing := s.active - {op} == map[])
    case Commit => State(AfterCommit(a, s), [], map[], s.active, false)
    case Crash(k, cuts) => State(Survivor(a, s, k, cuts), [], map[], map[], false)
  }

  ghost function Then(a: Area, r: Option<State>, e: Event): Option<State> {
    if r.Some? && Enabled(a, r.value, e) then Some(Step(a, r.value, e)) else None
  }

  /** A run from s, or None if some event was not enabled. */
  ghost function Exec(a: Area, s: State, es: seq<Event>): Option<State> {
    if es == [] then Some(s) else Then(a, Exec(a, s, es[..|es| - 1]), es[|es| - 1])
  }

  /** Every step keeps the invariant. */
  lemma StepInv(a: Area, s: State, e: Event)
    requires Enabled(a, s, e)
    ensures Inv(a, Step(a, s, e)) && |Step(a, s, e).disk| == |s.disk|
  {
    match e
    case LogWrite(_, b, _) => if b !in s.lh { DistinctJoin(s.lh, [b]); }
    case Commit => CommitInstalls(a, s.disk, s.lh, s.cache);
    case Crash(k, cuts) => CrashAtomicity(a, s.disk, s.lh, s.cache, k, cuts);
    case _ =>
  }

  /** So does every run: the list stays distinct and names only pinned home
      blocks, and a commit runs only with no operation open. */
  lemma {:induction false} ExecInv(a: Area, s: State, es: seq<Event>)
    requires Inv(a, s) && Exec(a, s, es).Some?
    ensures Inv(a, Exec(a, s, es).value) && |Exec(a, s, es).value.disk| == |s.disk|
    decreases |es|
  {
    if es != [] {
      ExecInv(a, s, es[..|es| - 1]);
      StepInv(a, Exec(a, s, es[..|es| - 1]).value, es[|es| - 1]);
    }
  }

  // ------------------------------------------------- the transactional store

  /** The specification: a store with a durable and a current value.  Writes of
      open operations reach only `current`; a commit makes `current` durable
      when no operation is open; a crash falls back to `durable`, or completes
      the commit it interrupted. */
  datatype Store = Store(
    durable: map<nat, Block>, current: map<nat, Block>,
    open: set<OpId>, dirty: set<nat>, closing: bool)

  ghost function HomeOf(a: Area, d: Disk): map<nat, Block> {
    map b: nat | b < |d| && a.Home(d, b) :: d[b]
  }

  ghost predicate StoreEnabled(st: Store, e: Event) {
    match e
    case Begin(op) => op !in st.open && !st.closing
    case LogWrite(op, b, _) => op in st.open && b in st.current
    case End(op) => op in st.open
    case Commit => st.closing && st.open == {}
    case Crash(_, _) => true
  }

  ghost function StoreStep(st: Store, e: Event): Store {
    match e
    case Begin(op) => st.(open := st.open + {op})
    case LogWrite(op, b, data) => st.(current := st.current[b as nat := data], dirty := st.dirty + {b})
    case End(op) => st.(open := st.open - {op}, closing := st.open - {op} == {})
    case Commit => Store(st.current, st.current, st.open, {}, false)
    case Crash(k, _) =>
      var kept := if st.closing && k > |st.dirty| then st.current else st.durable;
      Store(kept, kept, {}, {}, false)
  }

  ghost function Abs(a: Area, s: State): Store {
    var home := HomeOf(a, s.disk);
    Store(home, home + s.cache, s.active.Keys, Named(s.lh), s.committing)
  }

  ghost function Named(lh: seq<uint32>): set<nat> { set b: nat | b in lh }

  lemma {:induction false} DirtyCount(lh: seq<uint32>)
    requires Distinct(lh)
    ensures |Named(lh)| == |lh|
  {
    if lh != [] {
      DirtyCount(lh[1..]);
      assert Named(lh) == Named(lh[1..]) + {lh[0]};
    }
  }

  lemma NamedAppend(lh: seq<uint32>, b: uint32)
    ensures Named(lh + [b]) == Named(lh) + {b}
    ensures b in lh ==> Named(lh) == Named(lh) + {b}
  {
  }

  lemma WriteRefines(a: Area, s: State, op: OpId, b: uint32, data: Block)
    requires Inv(a, s) && Enabled(a, s, LogWrite(op, b, data))
    ensures Abs(a, Step(a, s, LogWrite(op, b, data))) == StoreStep(Abs(a, s), LogWrite(op, b, data))
  {
    var t := Step(a, s, LogWrite(op, b, data));
    NamedAppend(s.lh, b);
    assert HomeOf(a, s.disk) + t.cache == (HomeOf(a, s.disk) + s.cache)[b as nat := data];
    assert t.active.Keys == s.active.Keys;
  }

  lemma InstallRefines(a: Area, s: State, d: Disk)
    requires Inv(a, s) && |d| == |s.disk|
    requires forall b: nat | a.Home(d, b) :: d[b] == if b in s.lh then s.cache[b] else s.disk[b]
    ensures HomeOf(a, d) == HomeOf(a, s.disk) + s.cache
  {
    forall b | b in s.cache ensures b in HomeOf(a, d) {
      var i :| 0 <= i < |s.lh| && s.lh[i] == b;
    }
  }

  lemma SameHome(a: Area, d: Disk, e: Disk)
    requires |e| == |d| && forall b: nat | a.Home(e, b) :: e[b] == d[b]
    ensures HomeOf(a, e) == HomeOf(a, d)
  {
  }

  lemma SurvivorHome(a: Area, s: State, k: nat, cuts: seq<nat>)
    requires Inv(a, s) && k <= |CommitWrites(a, s.disk, s.lh, s.cache)|
    ensures HomeOf(a, Survivor(a, s, k, cuts)) ==
            if k > |s.lh| then HomeOf(a, s.disk) + s.cache else HomeOf(a, s.disk)
  {
    var d := Survivor(a, s, k, cuts);
    CrashAtomicity(a, s.disk, s.lh, s.cache, k, cuts);
    if k > |s.lh| { InstallRefines(a, s, d); } else { SameHome(a, s.disk, d); }
  }

  lemma NoCache(a: Area, d: Disk, active: map<OpId, nat>)
    ensures Abs(a, State(d, [], map[], active, false)) == Store(HomeOf(a, d), HomeOf(a, d), active.Keys, {}, false)
  {
    assert HomeOf(a, d) + map[] == HomeOf(a, d);
  }

  lemma CrashRefines(a: Area, s: State, k: nat, cuts: seq<nat>)
    requires Inv(a, s) && Enabled(a, s, Crash(k, cuts))
    ensures Abs(a, Step(a, s, Crash(k, cuts))) == StoreStep(Abs(a, s), Crash(k, cuts))
  {
    DirtyCount(s.lh);
    SurvivorHome(a, s, k, cuts);
    NoCache(a, Survivor(a, s, k, cuts), map[]);
  }

  lemma KeysAdd(m: map<OpId, nat>, op: OpId)
    ensures m[op := 0].Keys == m.Keys + {op}
  {
  }

  lemma BeginRefines(a: Area, s: State, op: OpId)
    requires Inv(a, s) && Enabled(a, s, Begin(op))
    ensures Abs(a, Step(a, s, Begin(op))) == StoreStep(Abs(a, s), Begin(op))
  {
    KeysAdd(s.active, op);
  }

  lemma EndRefines(a: Area, s: State, op: OpId)
    requires Inv(a, s) && Enabled(a, s, End(op))
    ensures Abs(a, Step(a, s, End(op))) == StoreStep(Abs(a, s), End(op))
  {
    assert (s.active - {op}).Keys == s.active.Keys - {op};
    assert s.active - {op} == map[] <==> (s.active - {op}).Keys == {};
  }

  lemma CommitRefines(a: Area, s: State)
    requires Inv(a, s) && Enabled(a, s, Commit)
    ensures Abs(a, Step(a, s, Commit)) == StoreStep(Abs(a, s), Commit)
  {
    var d := AfterCommit(a, s);
    CommitInstalls(a, s.disk, s.lh, s.cache);
    InstallRefines(a, s, d);
    NoCache(a, d, s.active);
  }

  /** Simulation: every step of the log is the store's step, for every state
      and every event, crashes at any write included. */
  lemma StepRefines(a: Area, s: State, e: Event)
    requires Inv(a, s) && Enabled(a, s, e)
    ensures StoreEnabled(Abs(a, s), e)
    ensures Abs(a, Step(a, s, e)) == StoreStep(Abs(a, s), e)
  {
    match e
    case Begin(op) => BeginRefines(a, s, op);
    case LogWrite(op, b, data) => WriteRefines(a, s, op, b, data);
    case End(op) => EndRefines(a, s, op);
    case Commit => CommitRefines(a, s);
    case Crash(k, cuts) => CrashRefines(a, s, k, cuts);
  }

  ghost function StoreExec(st: Store, es: seq<Event>): Option<Store> {
    if es == [] then Some(st)
    else
      match StoreExec(st, es[..|es| - 1])
      case None => None
      case Some(t) => if StoreEnabled(t, es[|es| - 1]) then Some(StoreStep(t, es[|es| - 1])) else None
  }

  /** Refinement over whole runs: what a run of the log leaves behind is what
      the store leaves behind on the same events. */
  lemma {:induction false} ExecRefines(a: Area, s: State, es: seq<Event>)
    requires Inv(a, s) && Exec(a, s, es).Some?
    ensures StoreExec(Abs(a, s), es) == Some(Abs(a, Exec(a, s, es).value))
    decreases |es|
  {
    if es != [] {
      var p := es[..|es| - 1];
      ExecRefines(a, s, p);
      StepRefines(a, Exec(a, s, p).value, es[|es| - 1]);
    }
  }

  // ------------------------------------------------------- whole operations

  /** Operations begun and not yet ended. */
  ghost function Open(es: seq<Event>): set<OpId> {
    if es == [] then {}
    else
      var p := Open(es[..|es| - 1]);
      match es[|es| - 1]
      case Begin(op) => p + {op}
      case End(op) => p - {op}
      case _ => p
  }

  /** All the writes of a list of events, in order. */
  ghost function Replay(h: map<nat, Block>, es: seq<Event>): map<nat, Block> {
    if es == [] then h
    else
      var p := Replay(h, es[..|es| - 1]);
      match es[|es| - 1]
      case LogWrite(_, b, data) => p[b as nat := data]
      case _ => p
  }

  /** Where the last commit ends. */
  ghost function LastCommit(es: seq<Event>): (n: nat)
    ensures n <= |es|
  {
    if es == [] then 0
    else if es[|es| - 1].Commit? then |es|
    else LastCommit(es[..|es| - 1])
  }

  ghost predicate CrashFree(es: seq<Event>) {
    forall i | 0 <= i < |es| :: !es[i].Crash?
  }

  ghost predicate FreshStore(st: Store) {
    st == Store(st.durable, st.durable, {}, {}, false)
  }

  lemma {:induction false} StoreRun(st: Store, es: seq<Event>)
    requires FreshStore(st) && CrashFree(es) && StoreExec(st, es).Some?
    ensures var t := StoreExec(st, es).value;
      && t.open == Open(es)
      && t.current == Replay(st.durable, es)
      && (t.closing ==> t.open == {})
      && Open(es[..LastCommit(es)]) == {}
      && t.durable == Replay(st.durable, es[..LastCommit(es)])
    decreases |es|
  {
    if es != [] {
      var p, e := es[..|es| - 1], es[|es| - 1];
      StoreRun(st, p);
      if e.Commit? {
        assert es[..LastCommit(es)] == es;
      } else {
        assert es[..LastCommit(es)] == p[..LastCommit(p)];
      }
    }
  }

  /** Whole operations survive.  Run any interleaving from a clean disk and
      crash anywhere, any number of times: the recovered disk holds exactly the
      writes of a prefix of the run in which every operation begun has ended,
      and the system is back in a clean state. */
  lemma CrashKeepsWholeOps(a: Area, s: State, es: seq<Event>, k: nat, cuts: seq<nat>)
    requires Inv(a, s) && Fresh(a, s) && CrashFree(es) && Exec(a, s, es).Some?
    requires Enabled(a, Exec(a, s, es).value, Crash(k, cuts))
    ensures var t := Exec(a, s, es).value; var r := Step(a, t, Crash(k, cuts));
      var cut := if t.committing && k > |t.lh| then |es| else LastCommit(es);
      && Fresh(a, r)
      && Open(es[..cut]) == {}
      && HomeOf(a, r.disk) == Replay(HomeOf(a, s.disk), es[..cut])
  {
    var t := Exec(a, s, es).value;
    StepInv(a, t, Crash(k, cuts));
    NoCache(a, s.disk, map[]);
    ExecRefines(a, s, es);
    CrashOutcome(a, Abs(a, s), es, t, k, cuts);
  }

  lemma CrashOutcome(a: Area, st: Store, es: seq<Event>, t: State, k: nat, cuts: seq<nat>)
    requires FreshStore(st) && CrashFree(es) && Inv(a, t) && StoreExec(st, es) == Some(Abs(a, t))
    requires Enabled(a, t, Crash(k, cuts))
    ensures var r := Step(a, t, Crash(k, cuts));
      var cut := if t.committing && k > |t.lh| then |es| else LastCommit(es);
      && Open(es[..cut]) == {}
      && HomeOf(a, r.disk) == Replay(st.durable, es[..cut])
  {
    StoreRun(st, es);
    SurvivorHome(a, t, k, cuts);
    assert es[..|es|] == es;
  }
}
