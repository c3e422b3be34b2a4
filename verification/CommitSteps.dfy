/** commit of kernel/log.c one buffer step at a time, while other processes read
    through the same buffer cache.

    Every step of the committing process and every step of a reader keeps
    `Valid()`, so they may follow one another in any order. */
module CommitSteps {
  import opened Common
  import opened Blocks
  import opened Wal
  import opened LogBuffers
  import opened CommitTurns
  import BufferCache
  import LogRun

  datatype Result = Goes | Waits | Panics

  class Committer {
    const a: Area
    const io: Device
    const pid: nat
    /** log.lh as commit finds it. */
    const lh: seq<uint32>
    var turn: nat
    var stage: Stage
    /** The buffers it copies from and to. */
    var src: nat
    var dst: nat
    /** Its references to them, and what it has of each. */
    ghost var ts: nat
    ghost var td: nat
    ghost var gs: Grip
    ghost var gd: Grip
    ghost const plan: Plan

    constructor (a: Area, io: Device, pid: nat, lh: seq<uint32>)
      requires io.Attached() && pid != 0 && Logged(a, io.disk, lh, io.cache)
      ensures Valid() && turn == 0 && stage == GetFirst && this.io == io && this.pid == pid
      ensures plan == Plan(a, io.disk, lh, io.cache, io.writes, CommitWrites(a, io.disk, lh, io.cache))
    {
      this.a, this.io, this.pid, this.lh := a, io, pid, lh;
      turn, stage, src, dst, ts, td, gs, gd := 0, GetFirst, 0, 0, 0, 0, Free, Free;
      plan := Plan(a, io.disk, lh, io.cache, io.writes, CommitWrites(a, io.disk, lh, io.cache));
      new;
      plan.Begun();
      plan.Bounds(0);
    }

    // ---------------------------------------------------------- invariant

    /** The process has reference t to the buffer h of block b, and no lock. */
    ghost predicate Refers(h: nat, t: nat, b: nat)
      reads io.bc
    {
      && h < BufferCache.NBUF && t in io.bc.tickets && io.bc.tickets[t] == h && t !in io.bc.pins
      && t in io.bc.want && io.bc.want[t] == BufferCache.Key(io.dev, b)
      && (h in io.bc.lockTicket ==> io.bc.lockTicket[h] != t)
    }

    ghost predicate Has(g: Grip, h: nat, t: nat, b: nat)
      reads io, io.bc
    {
      b < |io.disk| &&
      match g
      case Free => true
      case Referenced => Refers(h, t, b)
      case Locked => io.Held(h, pid, t, b) && io.bc.data[h] == io.Bread(b)
    }

    ghost predicate Hands()
      reads this, io, io.bc
    {
      && Has(gs, src, ts, Src(a, lh, turn)) && Has(gd, dst, td, Dst(a, lh, turn))
      && (gs != Free && gd != Free ==> ts != td)
    }

    /** The same, for proofs that hand it on without looking inside. */
    ghost predicate Owns()
      reads this, io, io.bc
    {
      forall p: nat {:trigger Look(0, p)} | Look(0, p) :: Hands()
    }

    ghost predicate Shape()
      reads this
    {
      && pid != 0 && plan.a == a && plan.lh == lh && plan.Sound() && Fits(|lh|, turn, stage)
      && gs == SrcGrip(|lh|, turn, stage) && gd == DstGrip(|lh|, turn, stage)
    }

    ghost predicate Valid()
      reads this, io, io.bc
    {
      && io.Attached() && Shape() && Owns()
      && plan.Progress(Issued(turn, stage), Freed(|lh|, turn, stage), io.writes, io.disk, io.cache)
    }

    ghost function BlockOf(source: bool): nat
      reads this`turn
    {
      if source then Src(a, lh, turn) else Dst(a, lh, turn)
    }

    ghost function Handle(source: bool): nat
      reads this
    {
      if source then src else dst
    }

    ghost predicate Gets()
      reads this`stage
    {
      stage == GetFirst || stage == GetSecond
    }

    ghost predicate Locks()
      reads this`stage
    {
      stage == LockFirst || stage == LockSecond
    }

    /** The next buffer it gets or locks is the source. */
    ghost predicate Sourced()
      reads this
    {
      (stage == GetFirst || stage == LockFirst) == Installing(|lh|, turn)
    }

    /** Someone holds the sleep-lock of buffer h. */
    ghost predicate Taken(h: nat)
      reads io.bc
    {
      h < |io.bc.lock| && io.bc.lock[h] != 0
    }

    /** t is one of the committer's references. */
    ghost predicate Mine(t: nat)
      reads this
    {
      (gs != Free && t == ts) || (gd != Free && t == td)
    }

    /** The lock of another process stays, with what it has in the buffer. */
    twostate predicate LockKept(x: nat, p: nat, u: nat, c: nat)
      reads io, io.bc
    {
      old(io.Held(x, p, u, c)) && p != pid ==> io.Held(x, p, u, c) && io.bc.data[x] == old(io.bc.data)[x]
    }

    /** So does its reference without a lock. */
    twostate predicate RefKept(x: nat, u: nat, c: nat)
      reads this, io, io.bc
    {
      old(Has(Referenced, x, u, c)) && !old(Mine(u)) ==> Has(Referenced, x, u, c) && !Mine(u)
    }

    twostate predicate OthersKeep()
      reads this, io, io.bc
    {
      && (forall x: nat, p: nat, u: nat, c: nat {:trigger LockKept(x, p, u, c)} :: LockKept(x, p, u, c))
      && (forall x: nat, u: nat, c: nat {:trigger RefKept(x, u, c)} :: RefKept(x, u, c))
    }

    /** Every reference and lock but t's stays, with what is in the buffer. */
    twostate predicate RestKeep(t: nat)
      reads io, io.bc
    {
      && (forall x: nat, u: nat, c: nat {:trigger Has(Referenced, x, u, c)} ::
        old(Has(Referenced, x, u, c)) && u != t ==> Has(Referenced, x, u, c))
      && (forall x: nat, p: nat, u: nat, c: nat {:trigger io.Held(x, p, u, c)} ::
        old(io.Held(x, p, u, c)) && u != t ==> io.Held(x, p, u, c) && io.bc.data[x] == old(io.bc.data)[x])
    }

    /** The lock of another process is not by a reference of the committer's. */
    lemma NotMine(h: nat, q: nat, t: nat, b: nat)
      requires Owns() && io.Held(h, q, t, b) && q != pid
      ensures !Mine(t)
    {
      assert Look(0, 0);
    }

    // ------------------------------------------------- one step on a buffer

    method GetBuf(b: nat) returns (ok: bool, h: nat, ghost t: nat)
      requires io.Attached() && b < |io.disk|
      modifies io.bc`key, io.bc`valid, io.bc`refcnt, io.bc`tickets, io.bc`want, io.bc`place
      ensures io.Attached() && (!ok <==> old(io.bc.Full(BufferCache.Key(io.dev, b))))
      ensures !ok ==> io.bc.Full(BufferCache.Key(io.dev, b))
      ensures t !in old(io.bc.tickets) && (ok ==> Has(Referenced, h, t, b))
      ensures forall g: Grip, x: nat, u: nat, c: nat {:trigger Has(g, x, u, c)} ::
        old(Has(g, x, u, c)) ==> Has(g, x, u, c)
      ensures forall x: nat, q: nat, u: nat, c: nat {:trigger io.Held(x, q, u, c)} ::
        old(io.Held(x, q, u, c)) ==> io.Held(x, q, u, c)
    {
      t := FreshNat(io.bc.tickets.Keys);
      io.NoLock(t);
      ok, h := io.Get(b, t);
    }

    method LockBuf(h: nat, q: nat, ghost t: nat, ghost b: nat)
      requires io.Attached() && Has(Referenced, h, t, b) && q != 0 && h < |io.bc.lock| && io.bc.lock[h] == 0
      modifies io.bc`lock, io.bc`valid, io.bc`data, io.bc`lockTicket
      ensures io.Attached() && io.Held(h, q, t, b) && io.bc.data[h] == io.Bread(b)
      ensures forall g: Grip, x: nat, u: nat, c: nat {:trigger Has(g, x, u, c)} ::
        old(Has(g, x, u, c)) && u != t ==> Has(g, x, u, c)
      ensures forall x: nat, p: nat, u: nat, c: nat {:trigger io.Held(x, p, u, c)} :: old(io.Held(x, p, u, c)) ==>
        io.Held(x, p, u, c) && io.bc.data[x] == old(io.bc.data)[x]
    {
      io.Lock(h, q, t, b);
    }

    method UnlockBuf(h: nat, q: nat, ghost t: nat, ghost b: nat)
      requires io.Attached() && b < |io.disk| && io.Held(h, q, t, b) && io.bc.data[h] == io.Bread(b)
      modifies io.bc`lock, io.bc`lockTicket
      ensures io.Attached() && Has(Referenced, h, t, b)
      ensures forall g: Grip, x: nat, u: nat, c: nat {:trigger Has(g, x, u, c)} ::
        old(Has(g, x, u, c)) && u != t ==> Has(g, x, u, c)
      ensures forall x: nat, p: nat, u: nat, c: nat {:trigger io.Held(x, p, u, c)} ::
        old(io.Held(x, p, u, c)) && x != h ==>
        io.Held(x, p, u, c)
    {
      io.HeldByTicket(h, q, t, b);
      io.HeldWants(h, q, t, b);
      io.Unlock(h, q, t, b);
    }

    method DropBuf(h: nat, ghost t: nat, ghost b: nat)
      requires io.Attached() && Has(Referenced, h, t, b)
      modifies io.bc`refcnt, io.bc`next, io.bc`prev, io.bc`order, io.bc`stamp, io.bc`freed, io.bc`clock, io.bc`tickets
      ensures io.Attached() && t !in io.bc.tickets
      ensures forall g: Grip, x: nat, u: nat, c: nat {:trigger Has(g, x, u, c)} ::
        old(Has(g, x, u, c)) && u != t ==> Has(g, x, u, c)
      ensures forall x: nat, p: nat, u: nat, c: nat {:trigger io.Held(x, p, u, c)} ::
        old(io.Held(x, p, u, c)) ==> io.Held(x, p, u, c)
    {
      io.Drop(h, t);
    }

    // ------------------------------------- the same, for one of its two buffers

    method Reach(source: bool, st: Stage) returns (ok: bool)
      requires io.Attached() && Owns() && (if source then gs else gd) == Free
      modifies this`stage, this`src, this`dst, this`ts, this`td, this`gs, this`gd
      modifies io.bc`key, io.bc`valid, io.bc`refcnt, io.bc`tickets, io.bc`want, io.bc`place
      ensures io.Attached() && Owns() && stage == if ok then st else old(stage)
      ensures gs == if ok && source then Referenced else old(gs)
      ensures gd == if ok && !source then Referenced else old(gd)
      ensures ok <==> !old(io.bc.Full(BufferCache.Key(io.dev, BlockOf(source))))
      ensures OthersKeep() && (!ok ==> io.bc.Full(BufferCache.Key(io.dev, BlockOf(source))))
    {
      assert Look(0, 0);
      var h;
      ghost var t;
      ok, h, t := GetBuf(if source then Src(a, lh, turn) else Dst(a, lh, turn));
      if ok {
        assert Hands();
        Note(source, h, t, Referenced, st);
      }
      forall x: nat, p: nat, u: nat, c: nat ensures LockKept(x, p, u, c) { }
      forall x: nat, u: nat, c: nat ensures RefKept(x, u, c) { }
    }

    method Seize(source: bool, st: Stage) returns (ok: bool)
      requires io.Attached() && Owns() && pid != 0 && (if source then gs else gd) == Referenced
      modifies this`stage, this`src, this`dst, this`ts, this`td, this`gs, this`gd
      modifies io.bc`lock, io.bc`valid, io.bc`data, io.bc`lockTicket
      ensures io.Attached() && Owns() && stage == if ok then st else old(stage)
      ensures gs == (if ok && source then Locked else old(gs)) && gd == if ok && !source then Locked else old(gd)
      ensures Handle(source) == old(Handle(source)) && (ok <==> !old(Taken(Handle(source))))
      ensures OthersKeep() && (!ok ==> Taken(Handle(source)))
    {
      assert Look(0, 0);
      var h := if source then src else dst;
      ghost var t := if source then ts else td;
      io.LockCount();
      ok := io.bc.lock[h] == 0;
      if ok {
        Note(source, h, t, Locked, st);
        LockBuf(h, pid, t, BlockOf(source));
      }
      forall x: nat, p: nat, u: nat, c: nat ensures LockKept(x, p, u, c) { }
      forall x: nat, u: nat, c: nat ensures RefKept(x, u, c) { }
    }

    method LetGo(source: bool, st: Stage)
      requires io.Attached() && Owns() && pid != 0 && (if source then gs else gd) == Locked
      modifies this`stage, this`src, this`dst, this`ts, this`td, this`gs, this`gd
      modifies io.bc`lock, io.bc`lockTicket
      ensures io.Attached() && Owns() && stage == st
      ensures gs == (if source then Referenced else old(gs)) && gd == if !source then Referenced else old(gd)
      ensures OthersKeep()
    {
      assert Look(0, 0);
      var h := if source then src else dst;
      ghost var t := if source then ts else td;
      Note(source, h, t, Referenced, st);
      UnlockBuf(h, pid, t, BlockOf(source));
      forall x: nat, p: nat, u: nat, c: nat ensures LockKept(x, p, u, c) { }
      forall x: nat, u: nat, c: nat ensures RefKept(x, u, c) { }
    }

    method GiveBack(source: bool, st: Stage, k: nat)
      requires io.Attached() && Owns() && (if source then gs else gd) == Referenced
      requires k == turn || (!source && gs == Free && Src(a, lh, k) < |io.disk| && Dst(a, lh, k) < |io.disk|)
      modifies this`turn, this`stage, this`src, this`dst, this`ts, this`td, this`gs, this`gd
      modifies io.bc`refcnt, io.bc`next, io.bc`prev, io.bc`order, io.bc`stamp, io.bc`freed, io.bc`clock, io.bc`tickets
      ensures io.Attached() && Owns() && stage == st && turn == k
      ensures gs == (if source then Free else old(gs)) && gd == if !source then Free else old(gd)
      ensures OthersKeep() && old(if source then ts else td) !in io.bc.tickets
    {
      assert Look(0, 0);
      var h := if source then src else dst;
      ghost var t := if source then ts else td;
      DropBuf(h, t, BlockOf(source));
      Note(source, h, t, Free, st);
      turn := k;
      forall x: nat, p: nat, u: nat, c: nat ensures LockKept(x, p, u, c) { }
      forall x: nat, u: nat, c: nat ensures RefKept(x, u, c) { }
    }

    /** Its destination changed and written. */
    method Fill(d: Block, st: Stage)
      requires io.Attached() && Owns() && gd == Locked && gs != Referenced && pid != 0
      requires gs == Locked ==> Src(a, lh, turn) != Dst(a, lh, turn)
      requires Dst(a, lh, turn) in io.cache ==> io.cache[Dst(a, lh, turn)] == d
      modifies this`stage, io`disk, io`writes, io.bc`data, io.bc`disk
      ensures io.Attached() && Owns() && stage == st && OthersKeep() && Dst(a, lh, turn) < |old(io.disk)|
      ensures io.disk == old(io.disk)[Dst(a, lh, turn) := d]
      ensures io.writes == old(io.writes) + [Write(Dst(a, lh, turn), d)]
    {
      assert Look(0, 0);
      stage := st;
      io.Write(dst, pid, td, Dst(a, lh, turn), d);
      forall x: nat, p: nat, u: nat, c: nat ensures LockKept(x, p, u, c) { }
      forall x: nat, u: nat, c: nat ensures RefKept(x, u, c) { }
    }

    /** Its destination unpinned. */
    method Untie(st: Stage)
      requires io.Attached() && Owns() && gd == Locked && gs == Locked && pid != 0
      requires Src(a, lh, turn) != Dst(a, lh, turn)
      requires var b := Dst(a, lh, turn); b < |io.disk| && b in io.cache && io.cache[b] == io.disk[b]
      modifies this`stage, io`cache, io`pin, io.bc`refcnt, io.bc`tickets, io.bc`pins, io.bc`freed, io.bc`clock
      ensures io.Attached() && Owns() && stage == st && OthersKeep() && io.cache == old(io.cache) - {Dst(a, lh, turn)}
    {
      assert Look(0, 0);
      stage := st;
      io.Unpin(dst, pid, td, Dst(a, lh, turn));
      forall x: nat, p: nat, u: nat, c: nat ensures LockKept(x, p, u, c) { }
      forall x: nat, u: nat, c: nat ensures RefKept(x, u, c) { }
    }

    /** The stores that go with such a step. */
    method Note(source: bool, h: nat, ghost t: nat, ghost g: Grip, st: Stage)
      modifies this`stage, this`src, this`dst, this`ts, this`td, this`gs, this`gd
      ensures stage == st
      ensures if source then src == h && ts == t && gs == g && dst == old(dst) && td == old(td) && gd == old(gd)
        else dst == h && td == t && gd == g && src == old(src) && ts == old(ts) && gs == old(gs)
    {
      if source {
        src, ts, gs := h, t, g;
      } else {
        dst, td, gd := h, t, g;
      }
      stage := st;
    }

    // -------------------------------------------------- the committer's steps

    /** bread's bget; false is its panic. */
    method Get(source: bool) returns (ok: bool)
      requires Valid() && turn < Turns(|lh|) && (stage == GetFirst || stage == GetSecond)
      requires source == ((stage == GetFirst) == Installing(|lh|, turn))
      modifies this`stage, this`src, this`dst, this`ts, this`td, this`gs, this`gd
      modifies io.bc`key, io.bc`valid, io.bc`refcnt, io.bc`tickets, io.bc`want, io.bc`place
      ensures Valid() && stage == (if ok then Next(|lh|, turn, old(stage)) else old(stage)) && OthersKeep()
      ensures ok <==> !old(io.bc.Full(BufferCache.Key(io.dev, BlockOf(source))))
      ensures !ok ==> io.bc.Full(BufferCache.Key(io.dev, BlockOf(source)))
    {
      plan.MoveKeeps(turn, stage, io.writes, io.disk, io.cache);
      ghost var k, w, d, c := turn, io.writes, io.disk, io.cache;
      ok := Reach(source, Next(|lh|, turn, stage));
      assert turn == k && io.writes == w && io.disk == d && io.cache == c;
    }

    /** acquiresleep and the rest of bread; false if it has to wait. */
    method Lock(source: bool) returns (ok: bool)
      requires Valid() && turn < Turns(|lh|) && (stage == LockFirst || stage == LockSecond)
      requires source == ((stage == LockFirst) == Installing(|lh|, turn))
      modifies this`stage, this`src, this`dst, this`ts, this`td, this`gs, this`gd
      modifies io.bc`lock, io.bc`valid, io.bc`data, io.bc`lockTicket
      ensures Valid() && stage == (if ok then Next(|lh|, turn, old(stage)) else old(stage)) && OthersKeep()
      ensures (ok <==> !old(Taken(Handle(source)))) && (!ok ==> Taken(Handle(source)))
    {
      plan.MoveKeeps(turn, stage, io.writes, io.disk, io.cache);
      ghost var k, w, d, c := turn, io.writes, io.disk, io.cache;
      ok := Seize(source, Next(|lh|, turn, stage));
      assert turn == k && io.writes == w && io.disk == d && io.cache == c;
    }

    /** The memmove, or write_head's stores, and the bwrite. */
    method Copy()
      requires Valid() && turn < Turns(|lh|) && stage == CopyWrite
      modifies this`stage, io`disk, io`writes, io.bc`data, io.bc`disk
      ensures Valid() && stage == Next(|lh|, turn, old(stage)) && OthersKeep()
    {
      plan.Bounds(turn);
      NextKeeps(|lh|, turn, stage);
      var x := ReadSource();
      ghost var k, b, w, d, c := turn, Dst(a, lh, turn), io.writes, io.disk, io.cache;
      plan.CopyKeeps(turn, stage, w, d, c, b, x);
      Fill(x, Next(|lh|, turn, stage));
      assert turn == k && io.writes == w + [Write(b, x)] && io.disk == d[b := x] && io.cache == c;
    }

    function ReadSource(): (x: Block)
      reads this, io, io.bc
      requires Owns() && turn < Turns(|lh|) && gd == Locked && gs == (if Copies(|lh|, turn) then Locked else Free)
      requires |lh| <= LOGSIZE
      ensures Src(a, lh, turn) < |io.disk| && Dst(a, lh, turn) < |io.disk|
      ensures x == Content(a, lh, turn, io.disk, io.cache)
    {
      assert Look(0, 0);
      if Copies(|lh|, turn) then io.bc.data[src] else PutHead(io.bc.data[dst], if turn == |lh| then lh else [])
    }

    /** install_trans's bunpin. */
    method Release()
      requires Valid() && turn < Turns(|lh|) && stage == Unpin
      modifies this`stage, io`cache, io`pin, io.bc`refcnt, io.bc`tickets, io.bc`pins, io.bc`freed, io.bc`clock
      ensures Valid() && stage == Next(|lh|, turn, old(stage)) && OthersKeep()
    {
      plan.Bounds(turn);
      NextKeeps(|lh|, turn, stage);
      ghost var k, b, w, d, c := turn, Dst(a, lh, turn), io.writes, io.disk, io.cache;
      plan.UnpinKeeps(turn, stage, w, d, c, b);
      Untie(Next(|lh|, turn, stage));
      assert turn == k && io.writes == w && io.disk == d && io.cache == c - {b};
    }

    /** brelse's releasesleep. */
    method Unlock(source: bool)
      requires Valid() && turn < Turns(|lh|) && stage == if source then UnlockSrc else UnlockDst
      modifies this`stage, this`src, this`dst, this`ts, this`td, this`gs, this`gd
      modifies io.bc`lock, io.bc`lockTicket
      ensures Valid() && stage == Next(|lh|, turn, old(stage)) && OthersKeep()
    {
      plan.MoveKeeps(turn, stage, io.writes, io.disk, io.cache);
      ghost var k, w, d, c := turn, io.writes, io.disk, io.cache;
      LetGo(source, Next(|lh|, turn, stage));
      assert turn == k && io.writes == w && io.disk == d && io.cache == c;
    }

    /** The rest of brelse; after the destination's the next turn begins. */
    method Drop(source: bool)
      requires Valid() && turn < Turns(|lh|) && stage == if source then DropSrc else DropDst
      modifies this`turn, this`stage, this`src, this`dst, this`ts, this`td, this`gs, this`gd
      modifies io.bc`refcnt, io.bc`next, io.bc`prev, io.bc`order, io.bc`stamp, io.bc`freed, io.bc`clock, io.bc`tickets
      ensures Valid() && stage == Next(|lh|, old(turn), old(stage)) && OthersKeep()
      ensures turn == if source then old(turn) else old(turn) + 1
      ensures old(if source then ts else td) !in io.bc.tickets
    {
      plan.MoveKeeps(turn, stage, io.writes, io.disk, io.cache);
      plan.Bounds(turn + 1);
      ghost var w, d, c := io.writes, io.disk, io.cache;
      GiveBack(source, Next(|lh|, turn, stage), if source then turn else turn + 1);
      assert io.writes == w && io.disk == d && io.cache == c;
    }

    /** Its next step.  It panics exactly if bget finds no buffer and waits exactly
        if someone holds the lock it needs; otherwise it goes on to the next
        stage. */
    method Step() returns (r: Result)
      requires Valid() && turn < Turns(|lh|)
      modifies this, io, io.bc
      ensures Valid() && OthersKeep()
      ensures r.Panics? <==> old(Gets()) && old(io.bc.Full(BufferCache.Key(io.dev, BlockOf(Sourced()))))
      ensures r.Waits? <==> old(Locks()) && old(Taken(Handle(Sourced())))
      ensures stage == if r.Goes? then Next(|lh|, old(turn), old(stage)) else old(stage)
      ensures turn == if r.Goes? && old(stage) == DropDst then old(turn) + 1 else old(turn)
      ensures r.Panics? ==> io.bc.Full(BufferCache.Key(io.dev, BlockOf(Sourced())))
      ensures r.Waits? ==> Taken(Handle(Sourced()))
    {
      r := Goes;
      match stage {
        case GetFirst =>
          var ok := Get(Installing(|lh|, turn));
          if !ok {
            r := Panics;
          }
        case LockFirst =>
          var ok := Lock(Installing(|lh|, turn));
          if !ok {
            r := Waits;
          }
        case GetSecond =>
          var ok := Get(!Installing(|lh|, turn));
          if !ok {
            r := Panics;
          }
        case LockSecond =>
          var ok := Lock(!Installing(|lh|, turn));
          if !ok {
            r := Waits;
          }
        case CopyWrite => Copy();
        case Unpin => Release();
        case UnlockSrc => Unlock(true);
        case DropSrc => Drop(true);
        case UnlockDst => Unlock(false);
        case DropDst => Drop(false);
      }
    }

    // ------------------------------------------------- steps of the readers

    /** A reader's bget. */
    method ReaderGet(b: nat) returns (ok: bool, h: nat, ghost t: nat)
      requires Valid() && a.Home(plan.disk, b)
      modifies io.bc`key, io.bc`valid, io.bc`refcnt, io.bc`tickets, io.bc`want, io.bc`place
      ensures Valid() && (ok <==> !old(io.bc.Full(BufferCache.Key(io.dev, b))))
      ensures t !in old(io.bc.tickets) && (ok ==> Has(Referenced, h, t, b) && !Mine(t))
      ensures RestKeep(t)
    {
      assert Look(0, 0);
      ok, h, t := GetBuf(b);
    }

    /** A reader's acquiresleep and the rest of its bread: whatever the commit has
        done so far, it sees what is being committed. */
    method ReaderLock(h: nat, q: nat, ghost t: nat, ghost b: nat)
      requires Valid() && a.Home(plan.disk, b) && Has(Referenced, h, t, b) && !Mine(t)
      requires q != 0 && q != pid && h < |io.bc.lock| && io.bc.lock[h] == 0
      modifies io.bc`lock, io.bc`valid, io.bc`data, io.bc`lockTicket
      ensures Valid() && io.Held(h, q, t, b) && io.bc.data[h] == Seen(plan.disk, plan.cache, b)
      ensures RestKeep(t)
    {
      assert Look(0, 0);
      plan.ReaderSees(turn, stage, io.writes, io.disk, io.cache, b);
      LockBuf(h, q, t, b);
    }

    /** A reader's releasesleep. */
    method ReaderUnlock(h: nat, q: nat, ghost t: nat, ghost b: nat)
      requires Valid() && a.Home(plan.disk, b) && io.Held(h, q, t, b) && q != pid
      requires io.bc.data[h] == Seen(plan.disk, plan.cache, b)
      modifies io.bc`lock, io.bc`lockTicket
      ensures Valid() && Has(Referenced, h, t, b) && !Mine(t) && RestKeep(t)
    {
      NotMine(h, q, t, b);
      assert Look(0, 0);
      plan.ReaderSees(turn, stage, io.writes, io.disk, io.cache, b);
      UnlockBuf(h, q, t, b);
    }

    /** The rest of a reader's brelse. */
    method ReaderDrop(h: nat, ghost t: nat, ghost b: nat)
      requires Valid() && Has(Referenced, h, t, b) && !Mine(t)
      modifies io.bc`refcnt, io.bc`next, io.bc`prev, io.bc`order, io.bc`stamp, io.bc`freed, io.bc`clock, io.bc`tickets
      ensures Valid() && RestKeep(t) && t !in io.bc.tickets
    {
      assert Look(0, 0);
      DropBuf(h, t, b);
    }

    // ------------------------------------------------------------ the outcome

    /** The writes issued are a prefix of the commit's, and all of them once it is
        done, when nothing is pinned. */
    lemma Prefix()
      requires Valid()
      ensures io.writes <= plan.before + plan.ws
      ensures turn == Turns(|lh|) ==> io.writes == plan.before + plan.ws && io.cache == map[]
    {
      var i, m := Issued(turn, stage), Freed(|lh|, turn, stage);
      plan.Opened(i, m, io.writes, io.disk, io.cache);
      if turn == Turns(|lh|) {
        assert i == Turns(|lh|) && m == |lh|;
        plan.Finished(io.writes, io.disk, io.cache);
      }
    }

    /** However the steps were interleaved, a finished commit has issued exactly
        the writes of CommitWrites, in order, and is the Commit step of LogRun. */
    lemma Done(s: LogRun.State)
      requires Valid() && turn == Turns(|lh|) && LogRun.Enabled(a, s, LogRun.Commit)
      requires s.disk == plan.disk && s.lh == lh && s.cache == plan.cache
      ensures io.writes == plan.before + CommitWrites(a, plan.disk, lh, plan.cache)
      ensures LogRun.Step(a, s, LogRun.Commit) == LogRun.State(io.disk, [], io.cache, s.active, false)
    {
      assert Issued(turn, stage) == Turns(|lh|) && Freed(|lh|, turn, stage) == |lh|;
      plan.Finished(io.writes, io.disk, io.cache);
    }

    /** And a crash at any moment of it, with any recoveries cut off after it,
        leaves every home block new if the header was written and every one old
        otherwise. */
    lemma Crash(cuts: seq<nat>)
      requires Valid() && Clean(a, plan.disk)
      ensures GoodHead(a, io.disk) && Clean(a, Reboot(a, io.disk, cuts)) && |Reboot(a, io.disk, cuts)| == |plan.disk|
      ensures forall b: nat | a.Home(plan.disk, b) ::
        Reboot(a, io.disk, cuts)[b] ==
          if Issued(turn, stage) > |lh| then Seen(plan.disk, plan.cache, b) else plan.disk[b]
    {
      plan.Crashed(Issued(turn, stage), Freed(|lh|, turn, stage), io.writes, io.disk, io.cache, cuts);
    }
  }
}
