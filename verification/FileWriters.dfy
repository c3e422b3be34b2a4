/** The processes of module FileGroup on one file system: one turn of writei's loop
    is one step, and the steps of different processes may follow one another in
    any order. */
module FileWriters {
  import opened Common
  import opened Blocks
  import opened Wal
  import opened LogRun
  import opened BlockMap
  import opened FileBytes
  import opened FileTxn
  import opened FileSys
  import opened FileCrash
  import opened FileGroup
  import opened FileBudget

  const MAXCHUNK := (MAXOPBLOCKS - 1 - 1 - 2) / 2 * BSIZE

  /** The bytes of the next transaction. */
  function NextChunk(j: Job): nat
    requires j.i <= j.cnt
  {
    if j.cnt - j.i > MAXCHUNK then MAXCHUNK else j.cnt - j.i
  }

  /** writei refuses the next transaction of j. */
  predicate Refused(inodes: seq<Inode>, j: Job)
    requires j.n < |inodes| && j.i <= j.cnt
  {
    j.foff + j.i > inodes[j.n].size || j.foff + j.i + NextChunk(j) > MAXFILE * BSIZE
  }

  /** writei refuses a transaction exactly as it does a lone write of its bytes, so
      one that begins where the file ends goes on as long as the file has room. */
  lemma RefusedExactly(inodes: seq<Inode>, j: Job)
    requires j.n < |inodes| && j.i <= j.cnt
    ensures var off, n1 := j.foff + j.i, NextChunk(j);
      Refused(inodes, j) <==> off > inodes[j.n].size || off + n1 >= U32 || off + n1 > MAXFILE * BSIZE
    ensures NextChunk(j) == Piece(j.cnt - j.i)
    ensures j.foff + j.i == inodes[j.n].size ==>
      (Refused(inodes, j) <==> inodes[j.n].size + NextChunk(j) > MAXFILE * BSIZE)
  {
  }

  lemma NextIn(x: nat, rest: nat)
    requires 0 < rest && x + rest <= MAXFILE * BSIZE
    ensures 0 < Chunk(x, rest) <= rest && x / BSIZE < MAXFILE && x % BSIZE + Chunk(x, rest) <= BSIZE
  {
    ChunkFits(x, rest);
  }

  class Writers {
    const fs: FileSystem
    ghost const l: Layout
    ghost const b0: seq<Blk>
    ghost const i0: seq<Inode>
    var jobs: seq<Job>
    /** The inodes as the inode blocks have them. */
    ghost var stored: seq<Inode>
    /** The log's events, the marks, and which mark each point is at. */
    ghost var es: seq<Event>
    ghost var at: seq<nat>
    ghost var marks: seq<Mark>
    /** The job of each open operation, and what each transaction may have logged. */
    ghost var open: map<OpId, nat>
    ghost var tabs: seq<Tab>

    ghost function Home(): map<nat, Block> { Image(l, b0, i0) }

    ghost predicate Valid()
      reads this, fs
    {
      && fs.Sound() && l.sb == fs.sb && |fs.blocks| == |b0| <= 0x1_0000_0000
      && Group(b0, i0, fs.blocks, fs.inodes, stored, jobs, open, marks)
      && Trace(l, Home(), es, at, marks, open.Keys, fs.blocks, stored)
      && (open == map[] ==> marks != [] && marks[|marks| - 1] == Mark(fs.blocks, fs.inodes, jobs))
      && Book(l.sb, Home().Keys, tabs, fs.blocks, fs.inodes, jobs, open, es)
    }

    constructor (fs: FileSystem, ghost l: Layout, jobs: seq<Job>)
      requires fs.Valid() && l.sb == fs.sb && |fs.blocks| <= 0x1_0000_0000 && Different(jobs)
      requires JobsOk(fs.inodes, jobs) && forall w | 0 <= w < |jobs| :: jobs[w].phase.Idle? && jobs[w].i == 0
      ensures Valid() && this.fs == fs && this.l == l && this.jobs == jobs && es == []
      ensures b0 == fs.blocks && i0 == fs.inodes
    {
      this.fs, this.l, this.jobs, b0, i0 := fs, l, jobs, fs.blocks, fs.inodes;
      stored, es, at, marks, open := fs.inodes, [], [0], [Mark(fs.blocks, fs.inodes, jobs)], map[];
      tabs := seq(|jobs|, _ => Tab([], [], 0, {}, {}));
      new;
      forall w: nat | w < |jobs| ensures FileAt(b0, i0, fs.blocks, fs.inodes, jobs[w]) { assert JobOk(i0, jobs[w]); }
      assert PointAt(l, Home(), es, at, marks, 0);
      EarlierRefl(jobs);
    }

    /** begin_op, and writei up to its loop, for a range it does not refuse. */
    method Begin(w: nat, op: OpId)
      requires Valid() && w < |jobs| && jobs[w].phase.Idle? && jobs[w].i < jobs[w].cnt && op !in open
      requires jobs[w].n < |fs.inodes| && !Refused(fs.inodes, jobs[w])
      modifies this`jobs, this`es, this`at, this`open, this`tabs
      ensures Valid() && open == old(open)[op := w] && es == old(es) + [LogRun.Begin(op)]
      ensures jobs == old(jobs)[w := old(jobs)[w].(phase := Writing(op, NextChunk(old(jobs)[w]), 0, false))]
    {
      var j := jobs[w].(phase := Writing(op, NextChunk(jobs[w]), 0, false));
      GroupAt(b0, i0, fs.blocks, fs.inodes, stored, jobs, open, marks, w);
      SameFiles(b0, i0, fs.blocks, fs.inodes, fs.blocks, fs.inodes, jobs[w], j);
      GroupStep(b0, i0, fs.blocks, fs.inodes, stored, jobs, open, marks, w, j, fs.blocks, fs.inodes, stored,
                open[op := w]);
      TraceBegin(l, Home(), es, at, marks, open.Keys, fs.blocks, stored, op);
      BookBegin(l.sb, Home().Keys, tabs, fs.blocks, fs.inodes, jobs, open, es, w, j);
      assert open[op := w].Keys == open.Keys + {op};
      jobs, open, es, at, tabs := jobs[w := j], open[op := w], es + [LogRun.Begin(op)], at + [|marks| - 1],
      tabs[w := Tab(fs.blocks, fs.inodes, 0, {}, {})];
    }

    /** One turn of writei's loop on the disk, with what it logs. */
    method PutBlock(n: nat, bn: nat, lo: nat, s: seq<byte>) returns (addr: nat, ghost bm: set<nat>)
      requires fs.Sound() && l.sb == fs.sb && n < |fs.inodes| && bn < MAXFILE && lo + |s| <= BSIZE
      modifies fs
      ensures fs.Sound() && |fs.blocks| == |old(fs.blocks)| && Alone(old(fs.inodes), fs.inodes, n)
      ensures SameSizes(old(fs.inodes), fs.inodes) && n < |fs.inodes|
      ensures BmapStep(old(fs.blocks), old(fs.inodes), fs.blocks, fs.inodes, n, bn, addr, bm)
      ensures addr == AddrAt(fs.blocks, fs.inodes, PlaceOf(n, bn)) && (addr == 0 ==> fs.Full())
      ensures fs.noted.Keys <= bm + NonZero(addr) + NonZero(Get(fs.inodes, n, NDIRECT))
      ensures if addr == 0 then SameBytes(old(fs.blocks), old(fs.inodes), fs.blocks, fs.inodes)
              else Patched(old(fs.blocks), old(fs.inodes), fs.blocks, fs.inodes, n, bn, lo, s)
      ensures n < |stored| ==> Txn(l.sb, old(fs.blocks), stored, fs.noted, fs.blocks, stored)
    {
      ghost var b1 := fs.blocks;
      fs.BeginTxn();
      addr, bm := fs.WriteOne(n, bn, lo, s, true);
      assert fs.base == b1 && fs.ragged == {};
      assert fs.noted.Keys <= fs.logged by { assert Peek(0); }
      if n < |stored| { NotedTxn(l.sb, b1, stored, fs.logged, fs.noted, fs.blocks, stored, n); }
    }

    /** One turn of writei's loop on the job's file. */
    method Turn(w: nat) returns (addr: nat, ghost bm: set<nat>)
      requires Valid() && w < |jobs| && jobs[w].phase.Writing? && jobs[w].phase.tot < jobs[w].phase.n1
      modifies fs
      ensures fs.Sound() && |fs.blocks| == |old(fs.blocks)| && (addr == 0 ==> fs.Full())
      ensures var j := jobs[w]; var x := j.foff + j.Tot(); var m := Chunk(x, j.phase.n1 - j.phase.tot);
        && BmapStep(old(fs.blocks), old(fs.inodes), fs.blocks, fs.inodes, j.n, x / BSIZE, addr, bm)
        && addr == AddrAt(fs.blocks, fs.inodes, PlaceOf(j.n, x / BSIZE))
        && Group(b0, i0, fs.blocks, fs.inodes, stored, jobs[w := j.Turned(addr == 0, m)], open, marks)
        && fs.noted.Keys <= bm + NonZero(addr) + NonZero(Get(fs.inodes, j.n, NDIRECT))
        && Alone(old(fs.inodes), fs.inodes, j.n)
      ensures Txn(l.sb, old(fs.blocks), stored, fs.noted, fs.blocks, stored) && jobs[w].phase.op in open
    {
      var j := jobs[w];
      var x, rest := j.foff + j.Tot(), j.phase.n1 - j.phase.tot;
      ghost var b1, i1 := fs.blocks, fs.inodes;
      GroupJob(b0, i0, b1, i1, stored, jobs, open, marks, w);
      NextIn(x, rest);
      var m := Chunk(x, rest);
      addr, bm := PutBlock(j.n, x / BSIZE, x % BSIZE, j.src[j.Tot()..j.Tot() + m]);
      GroupWrite(b0, i0, b1, i1, stored, jobs, open, marks, w, fs.blocks, fs.inodes, m, addr == 0);
    }

    /** Any log_writes by op of what it changed from p to s, and no other blocks. */
    lemma Logged(op: OpId, p: Snap, s: Snap, blocks: set<nat>) returns (ws: seq<Event>, at': seq<nat>)
      requires Trace(l, Home(), es, at, marks, open.Keys, p.blocks, p.inodes) && op in open
      requires Txn(l.sb, p.blocks, p.inodes, s.log, s.blocks, s.inodes)
      requires |s.blocks| == |b0| <= 0x1_0000_0000 && s.log.Keys <= blocks
      ensures Leaves(ws, op, Stores(l, s)) && WritesBy(ws, op, blocks * Home().Keys)
      ensures Trace(l, Home(), es + ws, at', marks, open.Keys, s.blocks, s.inodes)
    {
      var some := LeavesExist(l, op, s);
      ws :| Leaves(ws, op, Stores(l, s));
      at' := TraceWrites(l, Home(), es, at, marks, open.Keys, op, p, s, ws);
      LeavesBy(l, b0, i0, s, ws, op, blocks);
    }

    /** What a turn of job w from (p, i1) to (s, i2) logs is within its reservation. */
    lemma TurnLogged(w: nat, p: Snap, i1: seq<Inode>, s: Snap, i2: seq<Inode>, addr: nat, bm: set<nat>, m: nat)
      returns (ws: seq<Event>, at': seq<nat>)
      requires Trace(l, Home(), es, at, marks, open.Keys, p.blocks, p.inodes)
      requires Book(l.sb, Home().Keys, tabs, p.blocks, i1, jobs, open, es)
      requires w < |jobs| && jobs[w].phase.Writing? && jobs[w].phase.tot < jobs[w].phase.n1 && jobs[w].phase.op in open
      requires Txn(l.sb, p.blocks, p.inodes, s.log, s.blocks, s.inodes) && |s.blocks| == |b0| <= 0x1_0000_0000
      requires BmapStep(p.blocks, i1, s.blocks, i2, jobs[w].n, (jobs[w].foff + jobs[w].Tot()) / BSIZE, addr, bm)
      requires s.log.Keys <= bm + NonZero(addr) + NonZero(Get(i2, jobs[w].n, NDIRECT)) && Alone(i1, i2, jobs[w].n)
      requires m == Chunk(jobs[w].foff + jobs[w].Tot(), jobs[w].phase.n1 - jobs[w].phase.tot)
      ensures Leaves(ws, jobs[w].phase.op, Stores(l, s))
      ensures Trace(l, Home(), es + ws, at', marks, open.Keys, s.blocks, s.inodes)
      ensures Book(l.sb, Home().Keys, tabs[w := NextTab(tabs[w], addr, bm)], s.blocks, i2,
                   jobs[w := jobs[w].Turned(addr == 0, m)], open, es + ws)
    {
      ws, at' := Logged(jobs[w].phase.op, p, s, bm + NonZero(addr) + NonZero(Get(i2, jobs[w].n, NDIRECT)));
      BookTurn(l.sb, Home().Keys, tabs, p.blocks, i1, jobs, open, es, w, s.blocks, i2, addr, bm, ws);
    }

    /** One turn of writei's loop; full exactly if there is no block to be had. */
    method Write(w: nat) returns (full: bool, ghost ws: seq<Event>)
      requires Valid() && w < |jobs| && jobs[w].phase.Writing? && jobs[w].phase.tot < jobs[w].phase.n1
      requires !jobs[w].phase.full
      modifies fs, this`jobs, this`es, this`at, this`tabs
      ensures Valid() && (full ==> fs.Full()) && es == old(es) + ws
      ensures var j := old(jobs)[w]; var x := j.foff + j.Tot(); var m := Chunk(x, j.phase.n1 - j.phase.tot);
        && full == (AddrAt(fs.blocks, fs.inodes, PlaceOf(j.n, x / BSIZE)) == 0)
        && jobs == old(jobs)[w := j.Turned(full, m)]
        && Leaves(ws, j.phase.op, Stores(l, Snap(fs.blocks, stored, fs.noted, 0)))
    {
      var j := jobs[w];
      ghost var p, i1 := Snap(fs.blocks, stored, map[], 0), fs.inodes;
      var addr;
      ghost var bm;
      addr, bm := Turn(w);
      full := addr == 0;
      var m := Chunk(j.foff + j.Tot(), j.phase.n1 - j.phase.tot);
      ghost var s, i2 := Snap(fs.blocks, stored, fs.noted, 0), fs.inodes;
      ghost var at';
      ws, at' := TurnLogged(w, p, i1, s, i2, addr, bm, m);
      jobs, es, at, tabs := jobs[w := j.Turned(full, m)], es + ws, at', tabs[w := NextTab(tabs[w], addr, bm)];
      assert s == Snap(fs.blocks, stored, fs.noted, 0) && i2 == fs.inodes;
    }

    /** The size and the iupdate at the end of writei, with what they log. */
    method PutInode(n: nat, end: nat)
      requires fs.Sound() && l.sb == fs.sb && n < |fs.inodes| == |stored|
      modifies fs
      ensures fs.Sound() && fs.blocks == old(fs.blocks) && SameBytes(fs.blocks, old(fs.inodes), fs.blocks, fs.inodes)
      ensures var i := old(fs.inodes); fs.inodes == i[n := Inode(i[n].addrs, Grown(i[n].size, end))]
      ensures Txn(l.sb, fs.blocks, stored, fs.noted, fs.blocks, stored[n := fs.inodes[n]])
      ensures fs.noted.Keys <= {l.sb.Iblock(n)}
    {
      fs.BeginTxn();
      fs.Settle(n, end);
      assert fs.base == fs.blocks && fs.ragged == {};
      NotedTxn(l.sb, fs.blocks, stored, fs.logged, fs.noted, fs.blocks, stored[n := fs.inodes[n]], n);
    }

    /** The rest of writei, and end_op, once the loop has ended. */
    method End(w: nat) returns (ghost ws: seq<Event>)
      requires Valid() && w < |jobs| && jobs[w].phase.Writing?
      requires jobs[w].phase.tot == jobs[w].phase.n1 || jobs[w].phase.full
      modifies fs, this`jobs, this`stored, this`es, this`at, this`marks, this`open
      ensures Valid() && open == old(open) - {old(jobs)[w].phase.op}
      ensures var op := old(jobs)[w].phase.op;
        es == old(es) + ws + [LogRun.End(op)] && Leaves(ws, op, Stores(l, Snap(fs.blocks, stored, fs.noted, 0)))
      ensures var j := old(jobs)[w]; var phase := if j.phase.tot == j.phase.n1 then Idle else Over;
        jobs == old(jobs)[w := j.(i := j.Tot(), phase := phase)]
    {
      var j := jobs[w];
      var p := j.phase;
      var j' := j.(i := j.Tot(), phase := if p.tot == p.n1 then Idle else Over);
      ghost var b1, i1 := fs.blocks, fs.inodes;
      GroupJob(b0, i0, b1, i1, stored, jobs, open, marks, w);
      PutInode(j.n, j.foff + j.Tot());
      ghost var st := stored[j.n := fs.inodes[j.n]];
      GroupEnd(b0, i0, b1, i1, stored, jobs, open, marks, w, fs.inodes, j');
      ghost var at';
      ws, at' := Logged(p.op, Snap(b1, stored, map[], 0), Snap(b1, st, fs.noted, 0), {l.sb.Iblock(j.n)});
      BookEnd(l.sb, Home().Keys, tabs, b1, i1, jobs, open, es, w, fs.inodes, j', ws);
      jobs, stored, es, at := jobs[w := j'], st, es + ws, at';
      Ends(p.op);
    }

    /** end_op of operation op, whose job is done with it. */
    ghost method Ends(op: OpId)
      requires op in open && Group(b0, i0, fs.blocks, fs.inodes, stored, jobs, open - {op}, marks)
      requires Trace(l, Home(), es, at, marks, open.Keys, fs.blocks, stored)
      modifies this`es, this`at, this`marks, this`open
      ensures Group(b0, i0, fs.blocks, fs.inodes, stored, jobs, open, marks)
      ensures Trace(l, Home(), es, at, marks, open.Keys, fs.blocks, stored)
      ensures open == map[] ==> marks != [] && marks[|marks| - 1] == Mark(fs.blocks, fs.inodes, jobs)
      ensures es == old(es) + [LogRun.End(op)] && open == old(open) - {op}
    {
      var m := Mark(fs.blocks, fs.inodes, jobs);
      if open - {op} == map[] { GroupQuiet(b0, i0, fs.blocks, fs.inodes, stored, jobs, marks); }
      assert (open - {op}).Keys == open.Keys - {op} && (open.Keys - {op} == {} <==> open - {op} == map[]);
      var marks' := TraceEnd(l, Home(), es, at, marks, open.Keys, fs.blocks, stored, op, m);
      es, at, marks, open := es + [LogRun.End(op)], at + [|marks'| - 1], marks', open - {op};
    }

    /** A transaction that writei refuses. */
    method Refuse(w: nat, op: OpId)
      requires Valid() && w < |jobs| && jobs[w].phase.Idle? && jobs[w].i < jobs[w].cnt && op !in open
      requires jobs[w].n < |fs.inodes| && Refused(fs.inodes, jobs[w])
      modifies this`jobs, this`stored, this`es, this`at, this`marks, this`open
      ensures Valid() && es == old(es) + [LogRun.Begin(op), LogRun.End(op)]
      ensures open == old(open) && jobs == old(jobs)[w := old(jobs)[w].(phase := Over)]
    {
      var j := jobs[w].(phase := Over);
      ghost var was, es' := open, es + [LogRun.Begin(op), LogRun.End(op)];
      GroupAt(b0, i0, fs.blocks, fs.inodes, stored, jobs, open, marks, w);
      SameFiles(b0, i0, fs.blocks, fs.inodes, fs.blocks, fs.inodes, jobs[w], j);
      GroupStored(b0, i0, fs.blocks, fs.inodes, stored, jobs, open, marks, w);
      GroupStep(b0, i0, fs.blocks, fs.inodes, stored, jobs, open, marks, w, j, fs.blocks, fs.inodes, stored, open);
      BookRefuse(l.sb, Home().Keys, tabs, fs.blocks, fs.inodes, jobs, open, es, w, j, op);
      TraceBegin(l, Home(), es, at, marks, open.Keys, fs.blocks, stored, op);
      assert open[op := w].Keys == open.Keys + {op} && open[op := w] - {op} == open;
      jobs, open, es, at := jobs[w := j], open[op := w], es + [LogRun.Begin(op)], at + [|marks| - 1];
      Ends(op);
      assert es == es' && open == was;
    }

    /** A commit of the log. */
    ghost method Commit()
      requires Valid()
      modifies this`es, this`at
      ensures Valid() && es == old(es) + [LogRun.Commit]
    {
      TraceMarked(l, Home(), es, at, marks, open.Keys, fs.blocks, stored);
      if open == map[] { GroupQuiet(b0, i0, fs.blocks, fs.inodes, stored, jobs, marks); }
      assert open.Keys == {} ==> open == map[];
      TraceCommit(l, Home(), es, at, marks, open.Keys, fs.blocks, stored);
      BookCommit(l.sb, Home().Keys, tabs, fs.blocks, fs.inodes, jobs, open, es);
      es, at := es + [LogRun.Commit], at + [|marks| - 1];
    }

    /** No file has a hole, also between the steps of its own write. */
    lemma NoHoles()
      requires Valid()
      ensures fs.Valid()
    {
      assert Peek(0);
    }

    /** In a log of LOGSIZE + 1 blocks, no log_write of the run panics, except one of a
        block already listed in a log that is full. */
    lemma Admitted(s: State, c: nat)
      requires Valid() && c < |es| && es[c].LogWrite? && l.area.size >= LOGSIZE + 1
      requires LogRun.Inv(l.area, s) && Fresh(l.area, s) && HomeOf(l.area, s.disk) == Home()
      requires Exec(l.area, s, es[..c]).Some?
      ensures var t := Exec(l.area, s, es[..c]).value;
        Enabled(l.area, t, es[c]) <==> es[c].bno !in t.lh || |t.lh| < LOGSIZE
    {
      TraceMarked(l, Home(), es, at, marks, open.Keys, fs.blocks, stored);
      BookEvent(l.sb, Home().Keys, tabs, fs.blocks, fs.inodes, jobs, open, es, c);
      Admits(Home().Keys, es, l.area, s, c);
    }

    /** Crash the run anywhere, any number of times: the recovered disk is exactly
        that of a moment at which no transaction was open.  Every file has a whole
        number of its job's transactions, no fewer than were committed, and every
        other file is unchanged. */
    lemma Crash(s: State, c: nat, k: nat, cuts: seq<nat>) returns (j: nat)
      requires Valid() && c <= |es|
      requires LogRun.Inv(l.area, s) && Fresh(l.area, s) && HomeOf(l.area, s.disk) == Home()
      requires Exec(l.area, s, es[..c]).Some?
      requires Enabled(l.area, Exec(l.area, s, es[..c]).value, LogRun.Crash(k, cuts))
      ensures var r := LogRun.Step(l.area, Exec(l.area, s, es[..c]).value, LogRun.Crash(k, cuts));
        j < |marks| && Fresh(l.area, r) && HomeOf(l.area, r.disk) == Image(l, marks[j].blocks, marks[j].inodes)
      ensures WholeJobs(b0, i0, marks[j]) && Earlier(marks[j].jobs, jobs)
      ensures var d := LastCommit(es[..c]); d < |at| && at[d] <= j && Earlier(marks[at[d]].jobs, marks[j].jobs)
    {
      j := CrashAtMark(l, Home(), es, at, marks, open.Keys, fs.blocks, stored, s, c, k, cuts);
      GroupMarks(b0, i0, fs.blocks, fs.inodes, stored, jobs, open, marks, at[LastCommit(es[..c])], j);
    }
  }
}
