/** What the transactions of several filewrites log: each stays within the blocks
    begin_op reserved for it, whatever the others do in between. */
module FileBudget {
  import opened Common
  import opened Wal
  import opened LogRun
  import opened LogBudget
  import opened BlockMap
  import opened FileBytes
  import opened FileTxn
  import opened FileCrash
  import opened FileGroup

  /** The state a transaction began in, how many blocks its loop has reached, and
      the data and bitmap blocks it may have logged. */
  datatype Tab = Tab(b: seq<Blk>, i: seq<Inode>, it: nat, data: set<nat>, bms: set<nat>)

  /** All the blocks it may have logged: with those, the indirect block and the
      block of the inode. */
  ghost function Spent(sb: Superblock, t: Tab, i: seq<Inode>, n: nat): set<nat> {
    t.data + t.bms + NonZero(Get(i, n, NDIRECT)) + {sb.Iblock(n)}
  }

  /** Tab t of a transaction that began at off in file n: the blocks reached are
      there, and a bitmap block was needed only for a place it filled. */
  ghost predicate TabPlaces(t: Tab, b: seq<Blk>, i: seq<Inode>, n: nat, off: nat) {
    && Later(t.b, t.i, b, i) && Reached(b, i, n, off / BSIZE, off / BSIZE + t.it)
    && Within(t.data, t.bms, t.it, off, Filled(t.b, t.i, b, i, Ind(n)))
    && (off % BSIZE != 0 ==> AddrAt(t.b, t.i, PlaceOf(n, off / BSIZE)) != 0)
  }

  /** tot of n1 bytes at off take `it` blocks so far. */
  ghost predicate TabCount(off: nat, tot: nat, n1: nat, it: nat) {
    AtBlock(off, tot, n1, it) && n1 <= 3 * BSIZE && it <= 4 && (it == 4 ==> Inside(off) == 1)
  }

  ghost predicate TabHolds(t: Tab, b: seq<Blk>, i: seq<Inode>, j: Job)
    requires j.phase.Writing?
  {
    && j.n < |i| && j.foff + j.i <= i[j.n].size && TabPlaces(t, b, i, j.n, j.foff + j.i)
    && TabCount(j.foff + j.i, j.phase.tot, j.phase.n1, t.it)
  }

  /** Tab t of a job that is in a transaction.  Closed, as with Peek. */
  ghost predicate TabOk(t: Tab, b: seq<Blk>, i: seq<Inode>, j: Job)
    requires j.phase.Writing?
  {
    forall k: nat {:trigger Peek(k)} | Peek(k) :: TabHolds(t, b, i, j)
  }

  lemma TabTen(sb: Superblock, t: Tab, b: seq<Blk>, i: seq<Inode>, j: Job)
    requires j.phase.Writing? && TabOk(t, b, i, j)
    ensures |Spent(sb, t, i, j.n)| <= MAXOPBLOCKS
  {
    assert Peek(0);
    var ind := Filled(t.b, t.i, b, i, Ind(j.n));
    TenBlocks(t.data, t.bms, t.it, j.foff + j.i, ind, Get(i, j.n, NDIRECT), sb.Iblock(j.n));
  }

  lemma TabBegin(b: seq<Blk>, i: seq<Inode>, j: Job)
    requires j.phase.Writing? && j.phase.tot == 0 && j.phase.n1 <= 3 * BSIZE
    requires j.n < |i| && j.foff + j.i <= i[j.n].size && NoHolesAnywhere(b, i)
    ensures TabOk(Tab(b, i, 0, {}, {}), b, i, j)
  {
    assert NoHoles(b, i, j.n);
    if (j.foff + j.i) % BSIZE != 0 { FirstBlockThere(b, i, j.n, j.foff + j.i); }
  }

  ghost function NextTab(t: Tab, addr: nat, bm: set<nat>): Tab {
    Tab(t.b, t.i, if addr == 0 then t.it else t.it + 1, t.data + NonZero(addr), t.bms + bm)
  }

  ghost predicate BmapDoes(b1: seq<Blk>, i1: seq<Inode>, b2: seq<Blk>, i2: seq<Inode>, n: nat, bn: nat, addr: nat,
                           bm: set<nat>)
  {
    var q := PlaceOf(n, bn);
    && Fills(b1, i1, b2, i2, q, Ind(n)) && addr == AddrAt(b2, i2, q)
    && |bm| <= Filled(b1, i1, b2, i2, q) + Filled(b1, i1, b2, i2, Ind(n))
  }

  /** What bmap does for file block bn of inode n: the two places it may fill, and
      the bitmap blocks it touches.  Closed, as with Peek. */
  ghost predicate BmapStep(b1: seq<Blk>, i1: seq<Inode>, b2: seq<Blk>, i2: seq<Inode>, n: nat, bn: nat, addr: nat,
                           bm: set<nat>)
  {
    forall k: nat {:trigger Peek(k)} | Peek(k) :: BmapDoes(b1, i1, b2, i2, n, bn, addr, bm)
  }

  lemma CountTurn(off: nat, tot: nat, n1: nat, it: nat)
    requires TabCount(off, tot, n1, it) && tot < n1
    ensures (off + tot) / BSIZE == off / BSIZE + it
    ensures TabCount(off, tot + Chunk(off + tot, n1 - tot), n1, it + 1)
  {
    NextBlock(off, tot, n1, it);
    AtMostFour(off, tot, n1, it);
  }

  lemma PlacesTurn(t: Tab, b1: seq<Blk>, i1: seq<Inode>, b2: seq<Blk>, i2: seq<Inode>, n: nat, off: nat, addr: nat,
                   bm: set<nat>)
    requires TabPlaces(t, b1, i1, n, off) && BmapStep(b1, i1, b2, i2, n, off / BSIZE + t.it, addr, bm)
    ensures TabPlaces(NextTab(t, addr, bm), b2, i2, n, off) && SameSizes(i1, i2)
  {
    assert Peek(0);
    var q := PlaceOf(n, off / BSIZE + t.it);
    LaterFills(t.b, t.i, b1, i1, b2, i2, q, Ind(n));
    StaysReached(b1, i1, b2, i2, n, q, Ind(n), off / BSIZE, off / BSIZE + t.it);
    Spend(t.b, t.i, b1, i1, b2, i2, n, off, t.it, t.data, t.bms, bm, addr);
    assert addr == 0 ==> t.data + NonZero(addr) == t.data;
  }

  /** A turn of the job's own. */
  lemma TabTurn(t: Tab, b1: seq<Blk>, i1: seq<Inode>, b2: seq<Blk>, i2: seq<Inode>, j: Job, addr: nat, bm: set<nat>)
    requires j.phase.Writing? && TabOk(t, b1, i1, j) && j.phase.tot < j.phase.n1
    requires BmapStep(b1, i1, b2, i2, j.n, (j.foff + j.Tot()) / BSIZE, addr, bm)
    ensures var m := Chunk(j.foff + j.Tot(), j.phase.n1 - j.phase.tot);
      TabOk(NextTab(t, addr, bm), b2, i2, j.Turned(addr == 0, m))
  {
    assert Peek(0);
    var off := j.foff + j.i;
    assert off + j.phase.tot == j.foff + j.Tot();
    CountTurn(off, j.phase.tot, j.phase.n1, t.it);
    PlacesTurn(t, b1, i1, b2, i2, j.n, off, addr, bm);
    assert i2[j.n].size == i1[j.n].size;
  }

  /** What a step on file m leaves alone: the other inodes, and where their blocks
      are. */
  ghost predicate Aside(b1: seq<Blk>, i1: seq<Inode>, b2: seq<Blk>, i2: seq<Inode>, m: nat) {
    && Alone(i1, i2, m) && Later(b1, i1, b2, i2)
    && forall p: Place {:trigger PlaceSame(b1, i1, b2, i2, p)} | p.inum != m && (p.Direct? ==> p.i < NDIRECT) ::
      PlaceSame(b1, i1, b2, i2, p)
  }

  ghost predicate PlaceSame(b1: seq<Blk>, i1: seq<Inode>, b2: seq<Blk>, i2: seq<Inode>, p: Place) {
    AddrAt(b2, i2, p) == AddrAt(b1, i1, p)
  }

  lemma BmapAside(b1: seq<Blk>, i1: seq<Inode>, b2: seq<Blk>, i2: seq<Inode>, n: nat, bn: nat, addr: nat,
                  bm: set<nat>)
    requires BmapStep(b1, i1, b2, i2, n, bn, addr, bm) && Alone(i1, i2, n)
    ensures Aside(b1, i1, b2, i2, n) && SameSizes(i1, i2)
  {
    assert Peek(0);
    var q := PlaceOf(n, bn);
    forall p: Place | p.Direct? ==> p.i < NDIRECT ensures PlaceHeld(b1, i1, b2, i2, p) {
      assert PlaceKept(b1, i1, b2, i2, p, q, Ind(n));
    }
    forall p: Place | p.inum != n && (p.Direct? ==> p.i < NDIRECT) ensures PlaceSame(b1, i1, b2, i2, p) {
      assert PlaceKept(b1, i1, b2, i2, p, q, Ind(n));
    }
  }

  lemma SizeAside(b: seq<Blk>, i1: seq<Inode>, i2: seq<Inode>, n: nat)
    requires n < |i1| == |i2| && i2 == i1[n := Inode(i1[n].addrs, i2[n].size)]
    ensures Aside(b, i1, b, i2, n) && forall p :: PlaceSame(b, i1, b, i2, p)
  {
    forall p: Place ensures PlaceSame(b, i1, b, i2, p) { }
    forall p: Place | p.Direct? ==> p.i < NDIRECT ensures PlaceHeld(b, i1, b, i2, p) {
      assert PlaceSame(b, i1, b, i2, p);
    }
  }

  lemma LaterTrans(b0: seq<Blk>, i0: seq<Inode>, b1: seq<Blk>, i1: seq<Inode>, b2: seq<Blk>, i2: seq<Inode>)
    requires Later(b0, i0, b1, i1) && Later(b1, i1, b2, i2)
    ensures Later(b0, i0, b2, i2)
  {
    forall p: Place | p.Direct? ==> p.i < NDIRECT ensures PlaceHeld(b0, i0, b2, i2, p) {
      assert PlaceHeld(b0, i0, b1, i1, p) && PlaceHeld(b1, i1, b2, i2, p);
    }
  }

  /** A step of another job. */
  lemma TabAside(t: Tab, b1: seq<Blk>, i1: seq<Inode>, b2: seq<Blk>, i2: seq<Inode>, j: Job, m: nat)
    requires j.phase.Writing? && TabOk(t, b1, i1, j) && Aside(b1, i1, b2, i2, m) && j.n != m
    ensures TabOk(t, b2, i2, j) && Get(i2, j.n, NDIRECT) == Get(i1, j.n, NDIRECT)
  {
    assert Peek(0);
    var off := j.foff + j.i;
    LaterTrans(t.b, t.i, b1, i1, b2, i2);
    assert PlaceSame(b1, i1, b2, i2, Ind(j.n));
    forall bn: nat {:trigger PlaceOf(j.n, bn)} | off / BSIZE <= bn < off / BSIZE + t.it
      ensures AddrAt(b2, i2, PlaceOf(j.n, bn)) != 0
    {
      assert PlaceSame(b1, i1, b2, i2, PlaceOf(j.n, bn));
    }
  }

  // --------------------------------------------------------------- the events

  /** Event c, if it is a log_write, is by an operation that is open then, to a home
      block, and not past the blocks reserved for it. */
  ghost predicate EventOk(home: set<nat>, es: seq<Event>, c: nat) {
    c < |es| &&
    (es[c].LogWrite? ==>
      && es[c].op in Open(es[..c]) && es[c].bno as nat in home
      && |OpWrites(es[..c + 1], es[c].op)| <= MAXOPBLOCKS)
  }

  ghost predicate EventsOk(home: set<nat>, es: seq<Event>) {
    forall c: nat {:trigger EventOk(home, es, c)} | c < |es| :: EventOk(home, es, c)
  }

  lemma EventsNext(home: set<nat>, es: seq<Event>, e: Event)
    requires EventsOk(home, es)
    requires e.LogWrite? ==> e.op in Open(es) && e.bno as nat in home && |OpWrites(es + [e], e.op)| <= MAXOPBLOCKS
    ensures EventsOk(home, es + [e])
  {
    var es' := es + [e];
    forall c: nat | c < |es'| ensures EventOk(home, es', c) {
      if c < |es| {
        assert EventOk(home, es, c) && es'[..c] == es[..c] && es'[..c + 1] == es[..c + 1];
      } else {
        assert es'[..c] == es && es'[..c + 1] == es';
      }
    }
  }

  /** log_writes by op, of blocks within its reservation. */
  lemma {:induction false} EventsWrites(home: set<nat>, es: seq<Event>, op: OpId, ws: seq<Event>, spent: set<nat>)
    requires EventsOk(home, es) && op in Open(es) && forall i | 0 <= i < |ws| :: ws[i].LogWrite? && ws[i].op == op
    requires OpWrites(es, op) <= spent && |spent| <= MAXOPBLOCKS && Replay(map[], ws).Keys <= spent * home
    ensures EventsOk(home, es + ws) && OpWrites(es + ws, op) <= spent && Open(es + ws) == Open(es)
    ensures forall o | o != op :: OpWrites(es + ws, o) == OpWrites(es, o)
    decreases |ws|
  {
    if ws == [] {
      assert es + ws == es;
    } else {
      var less, e := ws[..|ws| - 1], ws[|ws| - 1];
      EventsWrites(home, es, op, less, spent);
      assert es + ws == (es + less) + [e] && (es + ws)[..|es + ws| - 1] == es + less;
      assert e.bno as nat in Replay(map[], ws);
      SubsetCard(OpWrites(es + ws, op), spent);
      EventsNext(home, es + less, e);
    }
  }

  // ----------------------------------------------------------------- the tabs

  ghost predicate TabAt(sb: Superblock, tabs: seq<Tab>, b: seq<Blk>, i: seq<Inode>, jobs: seq<Job>, es: seq<Event>,
                        w: nat)
  {
    w < |jobs| == |tabs| &&
    (jobs[w].phase.Writing? ==>
      TabOk(tabs[w], b, i, jobs[w]) && OpWrites(es, jobs[w].phase.op) <= Spent(sb, tabs[w], i, jobs[w].n))
  }

  ghost predicate Tabs(sb: Superblock, tabs: seq<Tab>, b: seq<Blk>, i: seq<Inode>, jobs: seq<Job>, es: seq<Event>) {
    |tabs| == |jobs| &&
    forall w: nat {:trigger TabAt(sb, tabs, b, i, jobs, es, w)} | w < |jobs| :: TabAt(sb, tabs, b, i, jobs, es, w)
  }

  ghost predicate SameWrites(es: seq<Event>, es': seq<Event>, jobs: seq<Job>, w: nat) {
    forall v: nat {:trigger jobs[v]} | v < |jobs| && v != w && jobs[v].phase.Writing? ::
      OpWrites(es', jobs[v].phase.op) == OpWrites(es, jobs[v].phase.op)
  }

  /** A step of job w. */
  lemma TabsStep(sb: Superblock, tabs: seq<Tab>, b1: seq<Blk>, i1: seq<Inode>, jobs: seq<Job>, es: seq<Event>, w: nat,
                 t: Tab, b2: seq<Blk>, i2: seq<Inode>, j: Job, es': seq<Event>)
    requires Tabs(sb, tabs, b1, i1, jobs, es) && Different(jobs) && w < |jobs| && j.n == jobs[w].n
    requires Aside(b1, i1, b2, i2, j.n) && SameWrites(es, es', jobs, w)
    requires j.phase.Writing? ==>
      TabOk(t, b2, i2, j) && OpWrites(es', j.phase.op) <= Spent(sb, t, i2, j.n)
    ensures Tabs(sb, tabs[w := t], b2, i2, jobs[w := j], es')
  {
    var tabs', jobs' := tabs[w := t], jobs[w := j];
    forall v: nat | v < |jobs'| ensures TabAt(sb, tabs', b2, i2, jobs', es', v) {
      if v != w && jobs[v].phase.Writing? {
        assert TabAt(sb, tabs, b1, i1, jobs, es, v);
        TabAside(tabs[v], b1, i1, b2, i2, jobs[v], j.n);
      }
    }
  }

  // ----------------------------------------------------------------- the book

  ghost predicate InBook(sb: Superblock, home: set<nat>, tabs: seq<Tab>, b: seq<Blk>, i: seq<Inode>, jobs: seq<Job>,
                         open: map<OpId, nat>, es: seq<Event>)
  {
    && Tabs(sb, tabs, b, i, jobs, es) && EventsOk(home, es) && NoHolesAnywhere(b, i)
    && Different(jobs) && Opens(open, jobs) && Open(es) == open.Keys
  }

  /** Every open transaction has its tab, every log_write so far was within its
      reservation, and no file has a hole.  Closed, as with Peek. */
  ghost predicate Book(sb: Superblock, home: set<nat>, tabs: seq<Tab>, b: seq<Blk>, i: seq<Inode>, jobs: seq<Job>,
                       open: map<OpId, nat>, es: seq<Event>)
  {
    |tabs| == |jobs| && forall k: nat {:trigger Peek(k)} | Peek(k) :: InBook(sb, home, tabs, b, i, jobs, open, es)
  }

  /** begin_op, or end_op of a job that is done, or a commit. */
  lemma PlainWrites(es: seq<Event>, e: Event, jobs: seq<Job>, open: map<OpId, nat>, w: nat)
    requires !e.LogWrite? && Opens(open, jobs) && (e.Begin? ==> e.op !in open)
    ensures SameWrites(es, es + [e], jobs, w)
  {
    assert (es + [e])[..|es|] == es;
    forall v: nat | v < |jobs| && v != w && jobs[v].phase.Writing?
      ensures OpWrites(es + [e], jobs[v].phase.op) == OpWrites(es, jobs[v].phase.op)
    {
      assert OpenAt(open, jobs, v);
    }
  }

  lemma BookBegin(sb: Superblock, home: set<nat>, tabs: seq<Tab>, b: seq<Blk>, i: seq<Inode>, jobs: seq<Job>,
                  open: map<OpId, nat>, es: seq<Event>, w: nat, j: Job)
    requires Book(sb, home, tabs, b, i, jobs, open, es) && w < |jobs| && !jobs[w].phase.Writing?
    requires j.n == jobs[w].n && j.phase.Writing? && j.phase.tot == 0 && j.phase.n1 <= 3 * BSIZE && j.phase.op !in open
    requires j.n < |i| && j.foff + j.i <= i[j.n].size
    ensures Book(sb, home, tabs[w := Tab(b, i, 0, {}, {})], b, i, jobs[w := j], open[j.phase.op := w],
                 es + [Begin(j.phase.op)])
  {
    assert Peek(0);
    var e := Begin(j.phase.op);
    assert (es + [e])[..|es|] == es;
    TabBegin(b, i, j);
    SizeAside(b, i, i, j.n);
    PlainWrites(es, e, jobs, open, w);
    TabsStep(sb, tabs, b, i, jobs, es, w, Tab(b, i, 0, {}, {}), b, i, j, es + [e]);
    EventsNext(home, es, e);
    OpensStep(open, jobs, w, j, open[j.phase.op := w]);
  }

  lemma NoHolesLater(b1: seq<Blk>, i1: seq<Inode>, b2: seq<Blk>, i2: seq<Inode>)
    requires Later(b1, i1, b2, i2) && SameSizes(i1, i2) && NoHolesAnywhere(b1, i1)
    ensures NoHolesAnywhere(b2, i2)
  {
    forall m: nat | m < |i2| ensures NoHoles(b2, i2, m) {
      assert NoHoles(b1, i1, m);
      HolesStayFilled(b1, i1, b2, i2, m);
    }
  }

  /** log_writes by op. */
  ghost predicate WritesBy(ws: seq<Event>, op: OpId, blocks: set<nat>) {
    Replay(map[], ws).Keys <= blocks && forall i | 0 <= i < |ws| :: ws[i].LogWrite? && ws[i].op == op
  }

  lemma LeavesBy(l: Layout, b0: seq<Blk>, i0: seq<Inode>, s: Snap, ws: seq<Event>, op: OpId, blocks: set<nat>)
    requires Leaves(ws, op, Stores(l, s)) && |s.blocks| == |b0| && s.log.Keys <= blocks
    ensures WritesBy(ws, op, blocks * Image(l, b0, i0).Keys)
  {
    assert Image(l, s.blocks, s.inodes).Keys == Image(l, b0, i0).Keys;
  }

  lemma SpentNext(sb: Superblock, t: Tab, b1: seq<Blk>, i1: seq<Inode>, b2: seq<Blk>, i2: seq<Inode>, n: nat, bn: nat,
                  addr: nat, bm: set<nat>)
    requires BmapStep(b1, i1, b2, i2, n, bn, addr, bm)
    ensures Spent(sb, t, i1, n) <= Spent(sb, NextTab(t, addr, bm), i2, n)
    ensures bm + NonZero(addr) + NonZero(Get(i2, n, NDIRECT)) <= Spent(sb, NextTab(t, addr, bm), i2, n)
  {
    assert Peek(0);
    assert PlaceKept(b1, i1, b2, i2, Ind(n), PlaceOf(n, bn), Ind(n));
  }

  lemma OtherOps(open: map<OpId, nat>, jobs: seq<Job>, es: seq<Event>, es': seq<Event>, w: nat)
    requires Opens(open, jobs) && w < |jobs| && jobs[w].phase.Writing?
    requires forall o | o != jobs[w].phase.op :: OpWrites(es', o) == OpWrites(es, o)
    ensures SameWrites(es, es', jobs, w)
  {
    forall v: nat | v < |jobs| && v != w && jobs[v].phase.Writing? ensures jobs[v].phase.op != jobs[w].phase.op {
      assert OpenAt(open, jobs, v) && OpenAt(open, jobs, w);
    }
  }

  /** Job w goes on with its transaction. */
  lemma BookStep(sb: Superblock, home: set<nat>, tabs: seq<Tab>, b1: seq<Blk>, i1: seq<Inode>, jobs: seq<Job>,
                 open: map<OpId, nat>, es: seq<Event>, w: nat, t: Tab, b2: seq<Blk>, i2: seq<Inode>, j: Job,
                 ws: seq<Event>)
    requires Book(sb, home, tabs, b1, i1, jobs, open, es) && w < |jobs| && jobs[w].phase.Writing?
    requires j.n == jobs[w].n && j.phase.Writing? && j.phase.op == jobs[w].phase.op && TabOk(t, b2, i2, j)
    requires Aside(b1, i1, b2, i2, j.n) && SameSizes(i1, i2)
    requires Spent(sb, tabs[w], i1, j.n) <= Spent(sb, t, i2, j.n)
    requires WritesBy(ws, j.phase.op, Spent(sb, t, i2, j.n) * home)
    ensures Book(sb, home, tabs[w := t], b2, i2, jobs[w := j], open, es + ws)
  {
    assert Peek(0);
    assert TabAt(sb, tabs, b1, i1, jobs, es, w) && OpenAt(open, jobs, w);
    TabTen(sb, t, b2, i2, j);
    EventsWrites(home, es, j.phase.op, ws, Spent(sb, t, i2, j.n));
    OtherOps(open, jobs, es, es + ws, w);
    TabsStep(sb, tabs, b1, i1, jobs, es, w, t, b2, i2, j, es + ws);
    NoHolesLater(b1, i1, b2, i2);
    OpensStep(open, jobs, w, j, open);
  }

  lemma BookAt(sb: Superblock, home: set<nat>, tabs: seq<Tab>, b: seq<Blk>, i: seq<Inode>, jobs: seq<Job>,
               open: map<OpId, nat>, es: seq<Event>, w: nat)
    requires Book(sb, home, tabs, b, i, jobs, open, es) && w < |jobs| && jobs[w].phase.Writing?
    ensures TabOk(tabs[w], b, i, jobs[w])
  {
    assert Peek(0);
    assert TabAt(sb, tabs, b, i, jobs, es, w);
  }

  /** A turn of writei's loop by job w. */
  lemma BookTurn(sb: Superblock, home: set<nat>, tabs: seq<Tab>, b1: seq<Blk>, i1: seq<Inode>, jobs: seq<Job>,
                 open: map<OpId, nat>, es: seq<Event>, w: nat, b2: seq<Blk>, i2: seq<Inode>, addr: nat, bm: set<nat>,
                 ws: seq<Event>)
    requires Book(sb, home, tabs, b1, i1, jobs, open, es) && w < |jobs| && jobs[w].phase.Writing?
    requires jobs[w].phase.tot < jobs[w].phase.n1 && Alone(i1, i2, jobs[w].n)
    requires BmapStep(b1, i1, b2, i2, jobs[w].n, (jobs[w].foff + jobs[w].Tot()) / BSIZE, addr, bm)
    requires WritesBy(ws, jobs[w].phase.op, (bm + NonZero(addr) + NonZero(Get(i2, jobs[w].n, NDIRECT))) * home)
    ensures var j := jobs[w]; var m := Chunk(j.foff + j.Tot(), j.phase.n1 - j.phase.tot);
      Book(sb, home, tabs[w := NextTab(tabs[w], addr, bm)], b2, i2, jobs[w := j.Turned(addr == 0, m)], open, es + ws)
  {
    var j, t := jobs[w], NextTab(tabs[w], addr, bm);
    var bn, m := (j.foff + j.Tot()) / BSIZE, Chunk(j.foff + j.Tot(), j.phase.n1 - j.phase.tot);
    BookAt(sb, home, tabs, b1, i1, jobs, open, es, w);
    TabTurn(tabs[w], b1, i1, b2, i2, j, addr, bm);
    SpentNext(sb, tabs[w], b1, i1, b2, i2, j.n, bn, addr, bm);
    BmapAside(b1, i1, b2, i2, j.n, bn, addr, bm);
    BookStep(sb, home, tabs, b1, i1, jobs, open, es, w, t, b2, i2, j.Turned(addr == 0, m), ws);
  }

  lemma SettledNoHoles(t: Tab, b: seq<Blk>, i1: seq<Inode>, i2: seq<Inode>, j: Job)
    requires j.phase.Writing? && TabOk(t, b, i1, j) && NoHolesAnywhere(b, i1) && j.n < |i1|
    requires i2 == i1[j.n := Inode(i1[j.n].addrs, Grown(i1[j.n].size, j.foff + j.Tot()))]
    ensures NoHolesAnywhere(b, i2)
  {
    assert Peek(0);
    var off := j.foff + j.i;
    SizeAside(b, i1, i2, j.n);
    forall bn: nat {:trigger PlaceOf(j.n, bn)} | off / BSIZE <= bn < off / BSIZE + t.it
      ensures AddrAt(b, i2, PlaceOf(j.n, bn)) != 0
    {
      assert PlaceSame(b, i1, b, i2, PlaceOf(j.n, bn));
    }
    WriteLeavesNoHoles(b, i1, b, i2, j.n, off, j.phase.tot, t.it);
  }

  lemma BookEnd(sb: Superblock, home: set<nat>, tabs: seq<Tab>, b: seq<Blk>, i1: seq<Inode>, jobs: seq<Job>,
                open: map<OpId, nat>, es: seq<Event>, w: nat, i2: seq<Inode>, j: Job, ws: seq<Event>)
    requires Book(sb, home, tabs, b, i1, jobs, open, es) && w < |jobs| && jobs[w].phase.Writing? && jobs[w].n < |i1|
    requires var n := jobs[w].n; i2 == i1[n := Inode(i1[n].addrs, Grown(i1[n].size, jobs[w].foff + jobs[w].Tot()))]
    requires j.n == jobs[w].n && !j.phase.Writing? && WritesBy(ws, jobs[w].phase.op, {sb.Iblock(j.n)} * home)
    ensures Book(sb, home, tabs, b, i2, jobs[w := j], open - {jobs[w].phase.op}, es + ws + [End(jobs[w].phase.op)])
  {
    assert Peek(0);
    var op := jobs[w].phase.op;
    assert TabAt(sb, tabs, b, i1, jobs, es, w) && OpenAt(open, jobs, w);
    TabTen(sb, tabs[w], b, i1, jobs[w]);
    EventsWrites(home, es, op, ws, Spent(sb, tabs[w], i1, j.n));
    SettledNoHoles(tabs[w], b, i1, i2, jobs[w]);
    SizeAside(b, i1, i2, j.n);
    var es' := es + ws + [End(op)];
    assert es'[..|es + ws|] == es + ws;
    PlainWrites(es + ws, End(op), jobs, open, w);
    OtherOps(open, jobs, es, es + ws, w);
    TabsStep(sb, tabs, b, i1, jobs, es, w, tabs[w], b, i2, j, es');
    assert tabs[w := tabs[w]] == tabs;
    EventsNext(home, es + ws, End(op));
    OpensStep(open, jobs, w, j, open - {op});
  }

  /** A transaction that writei refuses. */
  lemma BookRefuse(sb: Superblock, home: set<nat>, tabs: seq<Tab>, b: seq<Blk>, i: seq<Inode>, jobs: seq<Job>,
                   open: map<OpId, nat>, es: seq<Event>, w: nat, j: Job, op: OpId)
    requires Book(sb, home, tabs, b, i, jobs, open, es) && w < |jobs| && !jobs[w].phase.Writing? && op !in open
    requires j.n == jobs[w].n < |i| && !j.phase.Writing?
    ensures Book(sb, home, tabs, b, i, jobs[w := j], open, es + [Begin(op), End(op)])
  {
    assert Peek(0);
    var es1 := es + [Begin(op)];
    assert es + [Begin(op), End(op)] == es1 + [End(op)] && es1[..|es|] == es && (es1 + [End(op)])[..|es1|] == es1;
    PlainWrites(es, Begin(op), jobs, open, w);
    PlainWrites(es1, End(op), jobs, open, w);
    assert open.Keys + {op} - {op} == open.Keys;
    SizeAside(b, i, i, j.n);
    TabsStep(sb, tabs, b, i, jobs, es, w, tabs[w], b, i, j, es1 + [End(op)]);
    assert tabs[w := tabs[w]] == tabs;
    EventsNext(home, es, Begin(op));
    EventsNext(home, es1, End(op));
    OpensStep(open, jobs, w, j, open);
    assert Tabs(sb, tabs, b, i, jobs[w := j], es1 + [End(op)]);
    assert Open(es1 + [End(op)]) == open.Keys;
    assert Different(jobs[w := j]);
  }

  lemma BookCommit(sb: Superblock, home: set<nat>, tabs: seq<Tab>, b: seq<Blk>, i: seq<Inode>, jobs: seq<Job>,
                   open: map<OpId, nat>, es: seq<Event>)
    requires Book(sb, home, tabs, b, i, jobs, open, es)
    ensures Book(sb, home, tabs, b, i, jobs, open, es + [Commit])
  {
    assert Peek(0);
    assert (es + [Commit])[..|es|] == es;
    EventsNext(home, es, Commit);
    forall w: nat | w < |jobs| ensures TabAt(sb, tabs, b, i, jobs, es + [Commit], w) {
      assert TabAt(sb, tabs, b, i, jobs, es, w);
    }
  }

  lemma BookEvent(sb: Superblock, home: set<nat>, tabs: seq<Tab>, b: seq<Blk>, i: seq<Inode>, jobs: seq<Job>,
                  open: map<OpId, nat>, es: seq<Event>, c: nat)
    requires Book(sb, home, tabs, b, i, jobs, open, es) && c < |es|
    ensures EventOk(home, es, c)
  {
    assert Peek(0);
  }

  lemma ActiveIsOpen(a: Area, s: State, es: seq<Event>)
    requires Fresh(a, s) && LogRun.Inv(a, s) && CrashFree(es) && Exec(a, s, es).Some?
    ensures Exec(a, s, es).value.active.Keys == Open(es)
  {
    ExecRefines(a, s, es);
    StoreRun(Abs(a, s), es);
  }

  /** In a log of LOGSIZE + 1 blocks, such a log_write does not panic, except one of a
      block already listed in a log that is full. */
  lemma Admits(home: set<nat>, es: seq<Event>, a: Area, s: State, c: nat)
    requires EventOk(home, es, c) && es[c].LogWrite? && CrashFree(es[..c])
    requires Fresh(a, s) && LogRun.Inv(a, s) && HomeOf(a, s.disk).Keys == home && a.size >= LOGSIZE + 1
    requires Exec(a, s, es[..c]).Some?
    ensures var t := Exec(a, s, es[..c]).value; Enabled(a, t, es[c]) <==> es[c].bno !in t.lh || |t.lh| < LOGSIZE
  {
    var p, op := es[..c], es[c].op;
    var txn := OpWrites(es[..c + 1], op);
    assert es[..c + 1][..c] == p;
    assert OpWrites(p, op) + {es[c].bno as nat} <= txn;
    ActiveIsOpen(a, s, p);
    TransactionAdmitted(a, s, p, op, txn, es[c].bno, es[c].data);
  }
}
