/** kernel/log.c itself: the in-memory log record and its routines over the
    buffer cache, each tied to the writes of module Wal and the steps of module
    LogRun.  The commit runs here without another process between its steps; a
    false result is a panic. */
module Log {
  import opened Common
  import opened Blocks
  import opened Wal
  import opened LogRun
  import opened LogBuffers
  import BufferCache

  class LogDevice {
    const a: Area
    const io: Device
    /** log.lh */
    var n: nat
    var block: array<uint32>
    var outstanding: int
    var committing: bool
    /** The listed block numbers, and what each operation has appended. */
    ghost var lh: seq<uint32>
    ghost var active: map<OpId, nat>

    ghost predicate Listed()
      reads this, block
    {
      && block.Length == LOGSIZE && n == |lh| <= LOGSIZE
      && forall i | 0 <= i < n :: block[i] == lh[i]
    }

    ghost function View(): State
      reads this, io
    {
      State(io.disk, lh, io.cache, active, committing)
    }

    ghost predicate Valid()
      reads this, block, io, io.bc
    {
      io.Attached() && Listed() && outstanding == |active| && Inv(a, View())
    }

    /** initlog on a cache that no one uses yet. */
    constructor (a: Area, io: Device, pid: nat)
      requires io.Attached() && io.Quiet() && io.cache == map[] && io.bc.tickets == map[]
      requires GoodHead(a, io.disk) && pid != 0
      modifies io, io.bc
      ensures Valid() && io.disk == Reboot(a, old(io.disk), []) && this.a == a && this.io == io && fresh(block)
      ensures lh == [] && active == map[] && !committing
    {
      this.a, this.io, n, outstanding, committing, lh, active := a, io, 0, 0, false, [], map[];
      block := new uint32[LOGSIZE];
      new;
      var _ := RecoverFromLog(pid);
    }

    /** One turn of write_log. */
    method CopyOut(tail: nat, pid: nat) returns (ok: bool)
      requires io.Attached() && io.Quiet() && pid != 0 && Listed() && tail < n
      requires a.Slot(tail) < |io.disk| && a.Slot(tail) !in io.cache && lh[tail] < |io.disk| && lh[tail] in io.cache
      modifies io`disk, io`writes, io.bc
      ensures !ok <==> old(io.bc.Full(BufferCache.Key(io.dev, a.Slot(tail))))
      ensures !ok ==> io.writes == old(io.writes)
      ensures ok ==> io.Attached() && io.Quiet() && io.bc.tickets == old(io.bc.tickets)
      ensures ok ==> io.disk == old(io.disk)[a.Slot(tail) := io.cache[lh[tail]]]
      ensures ok ==> io.writes == old(io.writes) + [Write(a.Slot(tail), io.cache[lh[tail]])]
    {
      var to, from;
      ghost var t := FreshNat(io.bc.tickets.Keys);
      ghost var u := FreshNat(io.bc.tickets.Keys + {t});
      ok, to, from := io.FetchPair(a.start + tail + 1, block[tail], pid, t, u);
      if ok {
        io.Write(to, pid, t, a.Slot(tail), io.bc.data[from]);
        io.ReleasePair(from, to, pid, u, t, lh[tail], a.Slot(tail));
      }
    }

    /** write_log: copy each logged buffer to its slot. */
    method WriteLog(pid: nat) returns (ok: bool)
      requires io.Attached() && io.Quiet() && pid != 0 && Listed() && GoodList(a, io.disk, lh)
      requires (forall b | b in lh :: b in io.cache) && (forall b | b in io.cache :: b in lh)
      modifies io`disk, io`writes, io.bc
      ensures ok ==> io.Attached() && io.Quiet() && io.bc.tickets == old(io.bc.tickets)
      ensures ok ==> io.writes == old(io.writes) + LogWrites(a, lh, io.cache)
      ensures ok ==> io.disk == Apply(old(io.disk), LogWrites(a, lh, io.cache))
      ensures old(io.Alone()) ==> (ok <==> n == 0 || |io.cache| < BufferCache.NBUF)
      ensures old(io.Alone()) && !ok ==> io.writes == old(io.writes)
    {
      ghost var ws := LogWrites(a, lh, io.cache);
      var tail := 0;
      while tail < n
        invariant 0 <= tail <= n
        invariant io.Attached() && io.Quiet() && io.bc.tickets == old(io.bc.tickets) && |io.disk| == |old(io.disk)|
        invariant io.writes == old(io.writes) + ws[..tail]
        invariant io.disk == Apply(old(io.disk), ws[..tail])
        invariant old(io.Alone()) && tail > 0 ==> |io.cache| < BufferCache.NBUF
      {
        assert lh[tail] in io.cache;
        if io.Alone() { io.FullExactly(a.Slot(tail)); }
        ok := CopyOut(tail, pid);
        if !ok {
          return;
        }
        Extend(old(io.writes), ws, tail);
        tail := tail + 1;
      }
      assert ws[..n] == ws;
      ok := true;
    }

    /** write_head: n and the first n block numbers into the header block. */
    method WriteHead(pid: nat) returns (ok: bool)
      requires io.Attached() && io.Quiet() && pid != 0 && Listed() && a.On(io.disk) && a.start !in io.cache
      modifies io`disk, io`writes, io.bc
      ensures !ok <==> old(io.bc.Full(BufferCache.Key(io.dev, a.start)))
      ensures ok ==> io.Attached() && io.Quiet() && io.bc.tickets == old(io.bc.tickets)
      ensures ok ==> io.writes == old(io.writes) + [Write(a.start, PutHead(old(io.disk)[a.start], lh))]
      ensures ok ==> io.disk == old(io.disk)[a.start := PutHead(old(io.disk)[a.start], lh)]
    {
      var h;
      ghost var t := FreshNat(io.bc.tickets.Keys);
      ok, h := io.Fetch(a.start, pid, t);
      if ok {
        var hb := FillHead(io.bc.data[h]);
        io.Write(h, pid, t, a.start, hb);
        io.Release(h, pid, t, a.start);
      }
    }

    /** write_head's stores into the header buffer. */
    method FillHead(b: Block) returns (hb: Block)
      requires Listed()
      ensures hb == PutHead(b, lh)
    {
      hb := PutWord(b, 0, n);
      var i := 0;
      while i < n
        invariant 0 <= i <= n
        invariant forall j | 0 <= j < WORDS :: Word(hb, j) == if j <= i then HeadWord(b, lh, j) else Word(b, j)
      {
        hb := PutWord(hb, i + 1, block[i]);
        i := i + 1;
      }
      assert hb.words == PutHead(b, lh).words;
    }

    /** read_head: the on-disk header into lh. */
    method ReadHead(pid: nat) returns (ok: bool)
      requires io.Attached() && io.Quiet() && pid != 0
      requires block.Length == LOGSIZE && GoodHead(a, io.disk) && a.start !in io.cache
      modifies io.bc, this`n, this`lh, block
      ensures !ok <==> old(io.bc.Full(BufferCache.Key(io.dev, a.start)))
      ensures ok ==> io.Attached() && io.Quiet() && io.bc.tickets == old(io.bc.tickets)
      ensures ok ==> Listed() && lh == HeadOf(a, io.disk)
    {
      var h;
      ghost var t := FreshNat(io.bc.tickets.Keys);
      ok, h := io.Fetch(a.start, pid, t);
      if ok {
        CopyHead(io.bc.data[h]);
        io.Release(h, pid, t, a.start);
      }
    }

    method CopyHead(hb: Block)
      requires block.Length == LOGSIZE && Word(hb, 0) <= LOGSIZE
      modifies this`n, this`lh, block
      ensures Listed() && lh == HeadBlocks(hb)
    {
      n := Word(hb, 0);
      var i := 0;
      while i < n
        invariant 0 <= i <= n == Word(hb, 0)
        invariant forall j | 0 <= j < i :: block[j] == Word(hb, j + 1)
      {
        block[i] := Word(hb, i + 1);
        i := i + 1;
      }
      lh := HeadBlocks(hb);
    }

    /** A block written home from its locked buffer and, when not recovering,
        unpinned. */
    method PutHome(h: nat, pid: nat, ghost u: nat, ghost b: nat, d: Block, recovering: bool)
      requires io.Attached() && b < |io.disk| && io.Held(h, pid, u, b) && (recovering <==> b !in io.cache)
      modifies io`disk, io`writes, io`cache, io`pin
      modifies io.bc`data, io.bc`disk, io.bc`refcnt, io.bc`tickets, io.bc`pins, io.bc`freed, io.bc`clock
      ensures io.Attached() && io.disk == old(io.disk)[b := d] && io.writes == old(io.writes) + [Write(b, d)]
      ensures io.cache == old(io.cache) - {b} && io.bc.data == old(io.bc.data)[h := d]
      ensures recovering ==> io.pin == old(io.pin) && io.bc.tickets == old(io.bc.tickets)
      ensures !recovering ==> b in old(io.pin) && io.pin == old(io.pin) - {b}
      ensures !recovering ==> io.bc.tickets == old(io.bc.tickets) - {old(io.pin)[b]}
      ensures forall c :: io.Busy(c) == old(io.Busy(c))
      ensures forall g: nat, q: nat, v: nat, c: nat {:trigger io.Held(g, q, v, c)} ::
        old(io.Held(g, q, v, c)) ==> io.Held(g, q, v, c)
    {
      io.Write(h, pid, u, b, d);
      if !recovering {
        io.Unpin(h, pid, u, b);
      }
    }

    /** One turn of install_trans. */
    method InstallOne(tail: nat, recovering: bool, pid: nat) returns (ok: bool)
      requires io.Attached() && io.Quiet() && pid != 0 && Listed() && tail < n
      requires a.Slot(tail) < |io.disk| && lh[tail] < |io.disk| && a.Slot(tail) != lh[tail]
      requires a.Slot(tail) !in io.cache && (recovering <==> lh[tail] !in io.cache)
      modifies io, io.bc
      ensures ok ==> io.Attached() && io.Quiet()
      ensures ok ==> io.disk == old(io.disk)[lh[tail] := old(io.disk)[a.Slot(tail)]]
      ensures ok ==> io.writes == old(io.writes) + [Write(lh[tail], old(io.disk)[a.Slot(tail)])]
      ensures ok ==> io.cache == old(io.cache) - {lh[tail]}
      ensures ok && recovering ==> io.bc.tickets == old(io.bc.tickets)
      ensures ok && !recovering ==> lh[tail] in old(io.pin) && io.pin == old(io.pin) - {lh[tail]}
      ensures ok && !recovering ==> io.bc.tickets == old(io.bc.tickets) - {old(io.pin)[lh[tail]]}
      ensures recovering && |old(io.bc.tickets)| + 1 < BufferCache.NBUF ==> ok
      ensures !recovering ==> (!ok <==> old(io.bc.Full(BufferCache.Key(io.dev, a.Slot(tail)))))
    {
      var lbuf, dbuf;
      ghost var t := FreshNat(io.bc.tickets.Keys);
      ghost var u := FreshNat(io.bc.tickets.Keys + {t});
      ok, lbuf, dbuf := io.FetchPair(a.start + tail + 1, block[tail], pid, t, u);
      if ok {
        PutHome(dbuf, pid, u, lh[tail], io.bc.data[lbuf], recovering);
        io.ReleasePair(lbuf, dbuf, pid, t, u, a.Slot(tail), lh[tail]);
      }
    }

    /** The same, where the log's pins are the only references. */
    method InstallTurn(tail: nat, recovering: bool, pid: nat) returns (ok: bool)
      requires io.Attached() && io.Quiet() && pid != 0 && Listed() && tail < n
      requires a.Slot(tail) < |io.disk| && lh[tail] < |io.disk| && a.Slot(tail) != lh[tail]
      requires a.Slot(tail) !in io.cache && (recovering <==> lh[tail] !in io.cache)
      modifies io, io.bc
      ensures ok ==> io.Attached() && io.Quiet()
      ensures ok ==> io.disk == old(io.disk)[lh[tail] := old(io.disk)[a.Slot(tail)]]
      ensures ok ==> io.writes == old(io.writes) + [Write(lh[tail], old(io.disk)[a.Slot(tail)])]
      ensures ok ==> io.cache == old(io.cache) - {lh[tail]}
      ensures recovering && |old(io.bc.tickets)| + 1 < BufferCache.NBUF ==> ok && io.bc.tickets == old(io.bc.tickets)
      ensures !recovering && old(io.Alone()) && |old(io.cache)| < BufferCache.NBUF ==> ok && io.Alone()
      ensures ok && !recovering && old(io.Alone()) ==> io.Alone() && |io.cache| <= |old(io.cache)|
    {
      if !recovering && io.Alone() {
        io.FullExactly(a.Slot(tail));
        io.AloneDrop(lh[tail]);
      }
      ok := InstallOne(tail, recovering, pid);
    }

    /** install_trans: copy each slot home; when not recovering, unpin. */
    method InstallTrans(recovering: bool, pid: nat) returns (ok: bool)
      requires io.Attached() && io.Quiet() && pid != 0 && Listed() && GoodList(a, io.disk, lh)
      requires if recovering then io.cache == map[] else forall b | b in lh :: b in io.cache
      requires forall b | b in io.cache :: a.Home(io.disk, b)
      modifies io, io.bc
      ensures ok ==> io.Attached() && io.Quiet()
      ensures ok ==> io.writes == old(io.writes) + InstallWrites(a, old(io.disk), lh)
      ensures ok ==> io.disk == Apply(old(io.disk), InstallWrites(a, old(io.disk), lh))
      ensures ok ==> io.cache == Unpinned(old(io.cache), lh)
      ensures recovering && |old(io.bc.tickets)| + 1 < BufferCache.NBUF ==> ok && io.bc.tickets == old(io.bc.tickets)
      ensures !recovering && old(io.Alone()) && |old(io.cache)| < BufferCache.NBUF ==>
        ok && io.Alone() && |io.cache| < BufferCache.NBUF
    {
      ghost var d, ws := io.disk, InstallWrites(a, io.disk, lh);
      DistinctPairs(lh);
      var tail := 0;
      while tail < n
        invariant 0 <= tail <= n && io.Attached() && io.Quiet() && |io.disk| == |d|
        invariant io.writes == old(io.writes) + ws[..tail] && io.disk == Apply(d, ws[..tail])
        invariant io.cache == Unpinned(old(io.cache), lh[..tail])
        invariant recovering && |old(io.bc.tickets)| + 1 < BufferCache.NBUF ==> io.bc.tickets == old(io.bc.tickets)
        invariant !recovering && old(io.Alone()) ==> io.Alone() && |io.cache| <= |old(io.cache)|
      {
        InstallStep(a, d, lh, ws, tail, old(io.cache), old(io.writes));
        ok := InstallTurn(tail, recovering, pid);
        if !ok {
          return;
        }
        tail := tail + 1;
      }
      assert ws[..n] == ws && lh[..n] == lh;
      ok := true;
    }

    method Reset()
      requires block.Length == LOGSIZE
      modifies this`n, this`lh
      ensures Listed() && lh == []
    {
      n, lh := 0, [];
    }

    /** The common tail of commit and recover_from_log: install what the header
        on disk names, then clear it. */
    method InstallAndClear(recovering: bool, pid: nat) returns (ok: bool)
      requires io.Attached() && io.Quiet() && pid != 0 && Listed() && GoodHead(a, io.disk) && lh == HeadOf(a, io.disk)
      requires if recovering then io.cache == map[] else forall b | b in lh :: b in io.cache
      requires forall b | b in io.cache :: a.Home(io.disk, b)
      modifies io, io.bc, this`n, this`lh
      ensures ok ==> io.Attached() && io.Quiet()
      ensures ok ==> io.writes == old(io.writes) + RecoverWrites(a, old(io.disk))
      ensures ok ==> io.disk == Apply(old(io.disk), RecoverWrites(a, old(io.disk)))
      ensures ok ==> Listed() && lh == [] && io.cache == Unpinned(old(io.cache), old(lh))
      ensures recovering && |old(io.bc.tickets)| + 1 < BufferCache.NBUF ==> ok
      ensures !recovering && old(io.Alone()) && |old(io.cache)| < BufferCache.NBUF ==> ok
    {
      RecoverIs(a, io.disk, io.writes);
      ok := InstallTrans(recovering, pid);
      if ok {
        ok := ClearHead(pid);
      }
    }

    /** `log.lh.n = 0; write_head();` */
    method ClearHead(pid: nat) returns (ok: bool)
      requires io.Attached() && io.Quiet() && pid != 0 && block.Length == LOGSIZE && a.On(io.disk)
      requires a.start !in io.cache
      modifies io`disk, io`writes, io.bc, this`n, this`lh
      ensures ok ==> io.Attached() && io.Quiet() && Listed() && lh == []
      ensures ok ==> io.writes == old(io.writes) + [Write(a.start, PutHead(old(io.disk)[a.start], []))]
      ensures ok ==> io.disk == old(io.disk)[a.start := PutHead(old(io.disk)[a.start], [])]
      ensures |old(io.bc.tickets)| < BufferCache.NBUF ==> ok
      ensures old(io.Alone()) && |io.cache| < BufferCache.NBUF ==> ok
    {
      io.Room(a.start);
      if io.Alone() { io.FullExactly(a.start); }
      Reset();
      ok := WriteHead(pid);
    }

    /** recover_from_log. */
    method RecoverFromLog(pid: nat) returns (ok: bool)
      requires io.Attached() && io.Quiet() && pid != 0 && block.Length == LOGSIZE && GoodHead(a, io.disk)
      requires io.cache == map[] && outstanding == 0 && active == map[] && !committing
      modifies io, io.bc, this`n, this`lh, block
      ensures ok ==> Valid() && lh == [] && io.cache == map[]
      ensures ok ==> io.writes == old(io.writes) + RecoverWrites(a, old(io.disk))
      ensures ok ==> io.disk == Reboot(a, old(io.disk), [])
      ensures |old(io.bc.tickets)| + 1 < BufferCache.NBUF ==> ok
    {
      io.Room(a.start);
      RebootIsRedone(a, io.disk, []);
      ok := ReadHead(pid);
      if ok {
        ok := InstallAndClear(true, pid);
      }
    }

    /** commit. */
    method Commit(pid: nat) returns (ok: bool)
      requires io.Attached() && io.Quiet() && pid != 0 && Listed() && GoodList(a, io.disk, lh)
      requires (forall b | b in lh :: b in io.cache) && (forall b | b in io.cache :: b in lh)
      modifies io, io.bc, this`n, this`lh
      ensures ok ==> io.Attached() && io.Quiet() && Listed() && lh == [] && io.cache == map[]
      ensures ok ==> io.writes == old(io.writes) + CommitWrites(a, old(io.disk), old(lh), old(io.cache))
      ensures ok ==> io.disk == Apply(old(io.disk), CommitWrites(a, old(io.disk), old(lh), old(io.cache)))
      ensures old(io.Alone()) ==> (ok <==> |old(lh)| < BufferCache.NBUF)
      ensures old(io.Alone()) && !ok ==> io.writes == old(io.writes)
    {
      ok := true;
      if n > 0 {
        CommitApplied(a, io.disk, lh, io.cache, io.writes);
        ok := WriteCommitted(pid);
        if ok {
          ok := InstallAndClear(false, pid);
        }
        assert ok ==> io.cache == map[];
      }
    }

    /** commit up to the header write. */
    method WriteCommitted(pid: nat) returns (ok: bool)
      requires io.Attached() && io.Quiet() && pid != 0 && Listed() && GoodList(a, io.disk, lh) && n > 0
      requires (forall b | b in lh :: b in io.cache) && (forall b | b in io.cache :: b in lh)
      modifies io`disk, io`writes, io.bc
      ensures ok ==> io.Attached() && io.Quiet() && io.bc.tickets == old(io.bc.tickets)
      ensures ok ==> io.disk == Committed(a, old(io.disk), lh, io.cache)
      ensures ok ==>
        io.writes == old(io.writes) + LogWrites(a, lh, io.cache) + [Write(a.start, PutHead(old(io.disk)[a.start], lh))]
      ensures old(io.Alone()) ==> (ok <==> |io.cache| == |lh| < BufferCache.NBUF) && |io.cache| == |lh|
      ensures old(io.Alone()) && !ok ==> io.writes == old(io.writes)
    {
      LoggedHead(a, io.disk, lh, io.cache);
      ListCard(lh, io.cache);
      ok := WriteLog(pid);
      if ok {
        if io.Alone() { io.FullExactly(a.start); }
        ok := WriteHead(pid);
      }
    }

    /** One pass of begin_op's loop: admit the operation, or leave it asleep. */
    method BeginOp(ghost op: OpId) returns (admitted: bool)
      requires Valid() && op !in active
      modifies this`outstanding, this`active
      ensures Valid()
      ensures admitted <==> Enabled(a, old(View()), Begin(op))
      ensures admitted <==> !old(committing) && old(n) + (old(outstanding) + 1) * MAXOPBLOCKS <= LOGSIZE
      ensures View() == if admitted then Step(a, old(View()), Begin(op)) else old(View())
    {
      if committing {
        return false;
      } else if n + (outstanding + 1) * MAXOPBLOCKS > LOGSIZE {
        return false;
      } else {
        outstanding := outstanding + 1;
        active := active[op := 0];
        return true;
      }
    }

    /** log_write's search for the block among the first n entries. */
    method Find(b: uint32) returns (i: nat)
      requires Listed()
      ensures i <= n && (i < n ==> lh[i] == b) && (i == n <==> b !in lh)
    {
      i := 0;
      while i < n && block[i] != b
        invariant 0 <= i <= n
        invariant forall j | 0 <= j < i :: lh[j] != b
      {
        i := i + 1;
      }
    }

    /** log_write by an operation within its budget, of the buffer h of block b
        that process pid has locked; false means panic. */
    method LogWrite(ghost op: OpId, h: nat, b: uint32, ghost pid: nat, ghost t: nat) returns (ok: bool)
      requires Valid() && io.Held(h, pid, t, b) && op in active && a.Home(io.disk, b)
      requires b !in lh ==> active[op] < MAXOPBLOCKS
      modifies io`cache, io`pin, io.bc`refcnt, io.bc`tickets, io.bc`want, io.bc`pins
      modifies this`n, this`lh, this`active, block
      ensures Valid() && io.Held(h, pid, t, b)
      ensures ok <==> !Refuses(a, old(View()))
      ensures ok ==> io.Bread(b) == io.bc.data[h]
      ensures View() == if ok then Step(a, old(View()), LogRun.LogWrite(op, b, io.bc.data[h])) else old(View())
    {
      if n >= LOGSIZE || n >= a.size - 1 || outstanding < 1 {
        return false;
      }
      ghost var s' := Step(a, View(), LogRun.LogWrite(op, b, io.bc.data[h]));
      StepInv(a, View(), LogRun.LogWrite(op, b, io.bc.data[h]));
      Append(op, h, b, pid, t);
      assert View() == s';
      return true;
    }

    /** log_write past its checks. */
    method Append(ghost op: OpId, h: nat, b: uint32, ghost pid: nat, ghost t: nat)
      requires io.Attached() && Listed() && n < LOGSIZE && io.Held(h, pid, t, b) && op in active && b < |io.disk|
      requires b in lh <==> b in io.cache
      modifies io`cache, io`pin, io.bc`refcnt, io.bc`tickets, io.bc`want, io.bc`pins
      modifies this`n, this`lh, this`active, block
      ensures io.Attached() && Listed() && io.Held(h, pid, t, b) && io.cache == old(io.cache)[b as nat := io.bc.data[h]]
      ensures lh == if b in old(lh) then old(lh) else old(lh) + [b]
      ensures active == if b in old(lh) then old(active) else old(active)[op := old(active)[op] + 1]
      ensures |active| == |old(active)|
    {
      var i := Find(b);
      ghost var p := FreshNat(io.bc.tickets.Keys);
      io.Record(h, pid, t, b, i == n, p);
      Note(i, b, op);
    }

    /** log_write's stores at entry i. */
    method Note(i: nat, b: uint32, ghost op: OpId)
      requires Listed() && i <= n && i < LOGSIZE && (i < n ==> lh[i] == b) && (i == n <==> b !in lh) && op in active
      modifies this`n, this`lh, this`active, block
      ensures Listed() && lh == if b in old(lh) then old(lh) else old(lh) + [b]
      ensures active == if b in old(lh) then old(active) else old(active)[op := old(active)[op] + 1]
      ensures |active| == |old(active)|
    {
      block[i] := b;
      if i == n {
        n := n + 1;
        lh, active := lh + [b], active[op := active[op] + 1];
        assert active.Keys == old(active).Keys && |active| == |active.Keys|;
      }
    }

    /** end_op up to its release of log.lock. */
    method Leave(ghost op: OpId)
      requires op in active && outstanding == |active| && !committing
      modifies this`outstanding, this`active, this`committing
      ensures active == old(active) - {op} && outstanding == |active| && |active| == |old(active)| - 1
      ensures committing == (active == map[])
    {
      outstanding := outstanding - 1;
      active := active - {op};
      assert active.Keys == old(active).Keys - {op} && |active| == |active.Keys|;
      committing := outstanding == 0;
    }

    /** end_op: the last operation out runs the commit. */
    method EndOp(ghost op: OpId, pid: nat) returns (ok: bool)
      requires Valid() && op in active && pid != 0 && (|active| == 1 ==> io.Quiet())
      modifies io, io.bc, this`n, this`lh, this`outstanding, this`committing, this`active
      ensures ok ==> Valid()
      ensures var s := Step(a, old(View()), End(op));
        ok ==> View() == if s.committing then Step(a, s, LogRun.Commit) else s
      ensures var s := Step(a, old(View()), End(op));
        ok ==> io.writes == old(io.writes) + if s.committing then CommitWrites(a, s.disk, s.lh, s.cache) else []
      ensures Step(a, old(View()), End(op)).committing
        ==> old(io.Alone()) ==> (ok <==> |old(lh)| < BufferCache.NBUF) && (!ok ==> io.writes == old(io.writes))
      ensures !Step(a, old(View()), End(op)).committing ==> ok
    {
      ghost var s := Step(a, View(), End(op));
      StepInv(a, View(), End(op));
      Leave(op);
      assert View() == s;
      ok := true;
      if committing {
        ok := CommitLast(pid);
      }
    }

    /** end_op's commit, when no operation is left. */
    method CommitLast(pid: nat) returns (ok: bool)
      requires Valid() && pid != 0 && io.Quiet() && committing
      modifies io, io.bc, this`n, this`lh, this`committing
      ensures ok ==> Valid() && View() == Step(a, old(View()), LogRun.Commit)
      ensures ok ==> io.writes == old(io.writes) + CommitWrites(a, old(io.disk), old(lh), old(io.cache))
      ensures old(io.Alone()) ==> (ok <==> |old(lh)| < BufferCache.NBUF)
      ensures old(io.Alone()) && !ok ==> io.writes == old(io.writes)
    {
      ghost var t := Step(a, View(), LogRun.Commit);
      StepInv(a, View(), LogRun.Commit);
      ok := Commit(pid);
      committing := false;
      assert ok ==> View() == t;
    }
  }

  lemma ListCard(lh: seq<uint32>, cache: map<nat, Block>)
    requires Distinct(lh) && (forall b | b in lh :: b in cache) && (forall b | b in cache :: b in lh)
    ensures |cache| == |lh|
  {
    SetOfDistinct(lh);
    var listed: set<nat> := Elems(lh);
    assert cache.Keys == listed && |cache| == |cache.Keys|;
  }

  /** A recovery: the installs, then a clear header. */
  lemma RecoverIs(a: Area, d: Disk, w: seq<Write>)
    requires GoodHead(a, d)
    ensures var ws := InstallWrites(a, d, HeadOf(a, d)); var clear := PutHead(d[a.start], []);
      && Apply(d, ws)[a.start] == d[a.start] && Apply(d, RecoverWrites(a, d)) == Apply(d, ws)[a.start := clear]
      && w + ws + [Write(a.start, clear)] == w + RecoverWrites(a, d)
  {
    var lh := HeadOf(a, d);
    var ws, x := InstallWrites(a, d, lh), Write(a.start, PutHead(d[a.start], []));
    HeadKept(a, d, lh, ws);
    ApplyLast(d, ws, x);
    Snoc(w, ws, x);
  }

  lemma HeadKept(a: Area, d: Disk, lh: seq<uint32>, ws: seq<Write>)
    requires GoodList(a, d, lh) && ws == InstallWrites(a, d, lh)
    ensures Apply(d, ws)[a.start] == d[a.start]
  {
    assert ws[..|ws|] == ws;
    InstallState(a, d, lh, ws);
  }

  lemma ApplyLast(d: Disk, ws: seq<Write>, x: Write)
    requires x.bno < |d|
    ensures Apply(d, ws + [x]) == Apply(d, ws)[x.bno := x.data]
  {
    assert (ws + [x])[..|ws|] == ws;
  }

  lemma Snoc(w: seq<Write>, x: seq<Write>, h: Write)
    ensures w + x + [h] == w + (x + [h])
    ensures (x + [h])[..|x|] == x
  {
  }

  /** One more block installed. */
  lemma InstallStep(a: Area, d: Disk, lh: seq<uint32>, ws: seq<Write>, k: nat, cache: map<nat, Block>, w: seq<Write>)
    requires GoodList(a, d, lh) && ws == InstallWrites(a, d, lh) && k < |lh|
    ensures a.Slot(k) < |d| && lh[k] < |d| && !a.Home(d, a.Slot(k))
    ensures var e := Apply(d, ws[..k]); var x := Write(lh[k], e[a.Slot(k)]);
      w + ws[..k] + [x] == w + ws[..k + 1] && Apply(d, ws[..k + 1]) == e[lh[k] := e[a.Slot(k)]]
    ensures Unpinned(cache, lh[..k + 1]) == Unpinned(cache, lh[..k]) - {lh[k]}
  {
    SlotKept(a, d, lh, ws, k);
    ApplyNext(d, ws, k);
    Extend(w, ws, k);
    UnpinnedNext(cache, lh, k);
  }

  lemma SlotKept(a: Area, d: Disk, lh: seq<uint32>, ws: seq<Write>, k: nat)
    requires GoodList(a, d, lh) && ws == InstallWrites(a, d, lh) && k < |lh|
    ensures ws[k] == Write(lh[k], d[a.Slot(k)]) && Apply(d, ws[..k])[a.Slot(k)] == d[a.Slot(k)]
  {
    InstallState(a, d, lh, ws[..k]);
  }

  lemma ApplyNext(d: Disk, ws: seq<Write>, k: nat)
    requires k < |ws| && ws[k].bno < |d|
    ensures Apply(d, ws[..k + 1]) == Apply(d, ws[..k])[ws[k].bno := ws[k].data]
  {
    assert ws[..k + 1] == ws[..k] + [ws[k]];
    ApplyLast(d, ws[..k], ws[k]);
  }

  lemma UnpinnedNext(cache: map<nat, Block>, lh: seq<uint32>, k: nat)
    requires k < |lh|
    ensures Unpinned(cache, lh[..k + 1]) == Unpinned(cache, lh[..k]) - {lh[k]}
  {
    assert lh[..k + 1] == lh[..k] + [lh[k]];
  }

  lemma Extend(w: seq<Write>, ws: seq<Write>, k: nat)
    requires k < |ws|
    ensures w + ws[..k] + [ws[k]] == w + ws[..k + 1]
    ensures ws[..k + 1][..k] == ws[..k]
  {
  }

  /** The buffers left pinned once the listed ones are released. */
  ghost function Unpinned(cache: map<nat, Block>, lh: seq<uint32>): map<nat, Block> {
    map b | b in cache && b !in lh :: cache[b]
  }

  lemma LoggedHead(a: Area, d: Disk, lh: seq<uint32>, cache: map<nat, Block>)
    requires GoodList(a, d, lh)
    requires forall b | b in lh :: b in cache
    ensures Apply(d, LogWrites(a, lh, cache))[a.start] == d[a.start]
  {
    SlotWrites(a, d, lh, cache, |lh|);
    assert LogWrites(a, lh, cache)[..|lh|] == LogWrites(a, lh, cache);
  }

  lemma CommitApplied(a: Area, d: Disk, lh: seq<uint32>, cache: map<nat, Block>, w: seq<Write>)
    requires GoodList(a, d, lh) && lh != []
    requires forall b | b in lh :: b in cache
    ensures var c := Committed(a, d, lh, cache);
      && Apply(d, CommitWrites(a, d, lh, cache)) == Apply(c, RecoverWrites(a, c))
      && w + LogWrites(a, lh, cache) + [Write(a.start, PutHead(d[a.start], lh))] + RecoverWrites(a, c)
        == w + CommitWrites(a, d, lh, cache)
  {
    var logs, head := LogWrites(a, lh, cache), Write(a.start, PutHead(d[a.start], lh));
    var rest := RecoverWrites(a, Committed(a, d, lh, cache));
    ApplyConcat(d, logs + [head], rest);
    Snoc(w, logs, head);
    Regroup(w, logs, [head], rest);
  }

  lemma Regroup(w: seq<Write>, x: seq<Write>, y: seq<Write>, z: seq<Write>)
    ensures w + x + y + z == w + (x + y + z)
  {
  }
}
