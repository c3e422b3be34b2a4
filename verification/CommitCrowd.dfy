/** Whole runs of a commit among readers: any number of other processes, each with
    any number of buffers, under any schedule. */
module CommitCrowd {
  import opened CommitTurns
  import opened CommitSteps
  import BufferCache

  /** Where a reader is between its bget and the end of its brelse. */
  datatype Phase = Wants | Reads | Leaves | Gone

  /** A process's use of one buffer: the process, the block and the buffer. */
  datatype Reader = Reader(q: nat, b: nat, h: nat, phase: Phase)

  function Passes(p: Phase): Phase {
    match p
    case Wants => Reads
    case Reads => Leaves
    case Leaves => Gone
    case Gone => Gone
  }

  function Onward(r: Reader): Reader { r.(phase := Passes(r.phase)) }

  /** What runs next: the committing process, a new reader, or a reader that is
      there. */
  datatype Move = Commit | Begin(q: nat, b: nat) | Go(i: nat)

  /** What one sees of a run: where the commit is, and each reader's process, block
      and place. */
  datatype View = View(turn: nat, stage: Stage, crowd: seq<(nat, nat, Phase)>)

  function Shown(readers: seq<Reader>): seq<(nat, nat, Phase)> {
    seq(|readers|, i requires 0 <= i < |readers| => (readers[i].q, readers[i].b, readers[i].phase))
  }

  /** The view after a move of a commit of n blocks: if it goes, that process's next
      step and nothing else. */
  function After(n: nat, v: View, m: Move, r: Result): View {
    if !r.Goes? then v
    else
      match m
      case Commit =>
        if v.turn >= Turns(n) then v
        else View(if v.stage == DropDst then v.turn + 1 else v.turn, Next(n, v.turn, v.stage), v.crowd)
      case Begin(q, b) => v.(crowd := v.crowd + [(q, b, Wants)])
      case Go(i) =>
        if i < |v.crowd| then v.(crowd := v.crowd[i := (v.crowd[i].0, v.crowd[i].1, Passes(v.crowd[i].2))]) else v
  }

  /** The view after a whole schedule, given how each move went. */
  function AfterAll(n: nat, v: View, sched: seq<Move>, rs: seq<Result>): View
    requires |rs| == |sched|
  {
    if sched == [] then v
    else After(n, AfterAll(n, v, sched[..|sched| - 1], rs[..|rs| - 1]), sched[|sched| - 1], rs[|rs| - 1])
  }

  class Crowd {
    const c: Committer
    var readers: seq<Reader>
    /** The reference of each reader that is not gone. */
    ghost var tickets: seq<nat>

    /** The reader's buffer has what is being committed for its block. */
    ghost predicate Sees(r: Reader)
      reads c.io.bc
    {
      && r.h < |c.io.bc.data| && r.b < |c.plan.disk|
      && c.io.bc.data[r.h] == Seen(c.plan.disk, c.plan.cache, r.b)
    }

    /** A reader that waits or leaves has its reference; one that reads has its
        lock, and in the buffer what is being committed. */
    ghost predicate Stands(r: Reader, t: nat)
      reads c, c.io, c.io.bc
    {
      && r.q != 0 && r.q != c.pid && c.a.Home(c.plan.disk, r.b)
      && match r.phase
         case Wants => c.Has(Referenced, r.h, t, r.b) && !c.Mine(t)
         case Reads => c.io.Held(r.h, r.q, t, r.b) && Sees(r)
         case Leaves => c.Has(Referenced, r.h, t, r.b) && !c.Mine(t)
         case Gone => true
    }

    ghost predicate ReaderAt(i: nat)
      reads this, c, c.io, c.io.bc
    {
      i < |readers| == |tickets| && Stands(readers[i], tickets[i])
    }

    ghost predicate Apart(i: nat, j: nat)
      reads this
    {
      i < |readers| == |tickets| && j < |readers| &&
      (i != j && !readers[i].phase.Gone? && !readers[j].phase.Gone? ==> tickets[i] != tickets[j])
    }

    ghost predicate Valid()
      reads this, c, c.io, c.io.bc
    {
      && c.Valid() && |tickets| == |readers|
      && (forall i: nat {:trigger ReaderAt(i)} | i < |readers| :: ReaderAt(i))
      && (forall i: nat, j: nat {:trigger Apart(i, j)} | i < |readers| && j < |readers| :: Apart(i, j))
    }

    constructor (c: Committer)
      requires c.Valid()
      ensures Valid() && this.c == c && readers == []
    {
      this.c, readers, tickets := c, [], [];
    }

    /** A step of the committing process. */
    method Advance() returns (r: Result)
      requires Valid() && c.turn < Turns(|c.lh|)
      modifies c, c.io, c.io.bc
      ensures Valid() && (r.Waits? <==> old(c.Locks()) && old(c.Taken(c.Handle(c.Sourced()))))
      ensures r.Panics? <==> old(c.Gets()) && old(c.io.bc.Full(BufferCache.Key(c.io.dev, c.BlockOf(c.Sourced()))))
      ensures c.stage == if r.Goes? then Next(|c.lh|, old(c.turn), old(c.stage)) else old(c.stage)
      ensures c.turn == if r.Goes? && old(c.stage) == DropDst then old(c.turn) + 1 else old(c.turn)
      ensures r.Panics? ==> c.io.bc.Full(BufferCache.Key(c.io.dev, c.BlockOf(c.Sourced())))
      ensures r.Waits? ==> c.Taken(c.Handle(c.Sourced()))
    {
      r := c.Step();
      forall i: nat | i < |readers| ensures ReaderAt(i) {
        var x, t := readers[i], tickets[i];
        assert old(ReaderAt(i)) && c.LockKept(x.h, x.q, t, x.b) && c.RefKept(x.h, t, x.b);
      }
      forall i: nat, j: nat | i < |readers| && j < |readers| ensures Apart(i, j) { assert old(Apart(i, j)); }
    }

    /** A reader that was there before, with a reference of its own. */
    method Admit(r: Reader, ghost t: nat)
      requires Valid() && Stands(r, t) && forall i | 0 <= i < |readers| && !readers[i].phase.Gone? :: tickets[i] != t
      modifies this`readers, this`tickets
      ensures Valid() && readers == old(readers) + [r]
    {
      readers, tickets := readers + [r], tickets + [t];
      forall i: nat | i < |readers| ensures ReaderAt(i) { if i < |old(readers)| { assert old(ReaderAt(i)); } }
      forall i: nat, j: nat | i < |readers| && j < |readers| ensures Apart(i, j) {
        if i < |old(readers)| && j < |old(readers)| { assert old(Apart(i, j)); }
      }
    }

    /** A new reader's bget; false is its panic. */
    method Enter(q: nat, b: nat) returns (ok: bool)
      requires Valid() && q != 0 && q != c.pid && c.a.Home(c.plan.disk, b)
      modifies this`readers, this`tickets
      modifies c.io.bc`key, c.io.bc`valid, c.io.bc`refcnt, c.io.bc`tickets, c.io.bc`want, c.io.bc`place
      ensures Valid() && (ok <==> !old(c.io.bc.Full(BufferCache.Key(c.io.dev, b))))
      ensures ok ==> exists h: nat :: readers == old(readers) + [Reader(q, b, h, Wants)]
      ensures !ok ==> readers == old(readers)
    {
      ghost var n := |readers|;
      var h;
      ghost var t;
      ok, h, t := c.ReaderGet(b);
      forall i: nat | i < |readers| ensures ReaderAt(i) && (!readers[i].phase.Gone? ==> tickets[i] != t) {
        assert old(ReaderAt(i));
      }
      forall i: nat, j: nat | i < |readers| && j < |readers| ensures Apart(i, j) { assert old(Apart(i, j)); }
      if ok {
        Admit(Reader(q, b, h, Wants), t);
      }
    }

    /** A reader's next step: acquiresleep and the rest of bread, releasesleep, or
        the drop of its reference; false if it has to wait. */
    method Act(r: Reader, ghost t: nat) returns (ok: bool)
      requires c.Valid() && Stands(r, t) && !r.phase.Gone?
      modifies c.io.bc
      ensures c.Valid() && Stands(if ok then Onward(r) else r, t) && c.RestKeep(t)
      ensures ok <==> !(r.phase.Wants? && old(c.Taken(r.h)))
    {
      ok := true;
      match r.phase {
        case Wants =>
          c.io.LockCount();
          ok := c.io.bc.lock[r.h] == 0;
          if ok {
            c.ReaderLock(r.h, r.q, t, r.b);
          }
        case Reads => c.ReaderUnlock(r.h, r.q, t, r.b);
        case Leaves => c.ReaderDrop(r.h, t, r.b);
      }
    }

    /** Reader i's next step. */
    method Proceed(i: nat) returns (ok: bool)
      requires Valid() && i < |readers| && !readers[i].phase.Gone?
      modifies this`readers, c.io.bc
      ensures Valid() && (ok <==> !(old(readers)[i].phase.Wants? && old(c.Taken(readers[i].h))))
      ensures readers == if ok then old(readers)[i := Onward(old(readers)[i])] else old(readers)
    {
      assert ReaderAt(i);
      ok := Act(readers[i], tickets[i]);
      forall j: nat | j < |readers| && j != i ensures Stands(readers[j], tickets[j]) {
        var x, t := readers[j], tickets[j];
        assert old(ReaderAt(j)) && old(Apart(i, j));
        assert x.phase.Wants? || x.phase.Leaves? ==> c.Has(Referenced, x.h, t, x.b);
        assert x.phase.Reads? ==> c.io.Held(x.h, x.q, t, x.b);
      }
      if ok {
        readers := readers[i := Onward(readers[i])];
      }
      forall j: nat | j < |readers| ensures ReaderAt(j) { assert Stands(readers[j], tickets[j]); }
      forall j: nat, k: nat | j < |readers| && k < |readers| ensures Apart(j, k) { assert old(Apart(j, k)); }
    }

    ghost predicate Fair(m: Move) { m.Begin? ==> m.q != 0 && m.q != c.pid && c.a.Home(c.plan.disk, m.b) }

    ghost function Places(): View
      reads this, c
    {
      View(c.turn, c.stage, Shown(readers))
    }

    /** One move.  It waits exactly if it needs a lock that is taken, and panics
        exactly if bget finds no buffer; otherwise it goes. */
    method Play(m: Move) returns (r: Result)
      requires Valid() && Fair(m)
      modifies this`readers, this`tickets, c, c.io, c.io.bc
      ensures Valid() && Places() == After(|c.lh|, old(Places()), m, r)
      ensures m.Commit? && old(c.turn) < Turns(|c.lh|) ==>
        && (r.Waits? <==> old(c.Locks()) && old(c.Taken(c.Handle(c.Sourced()))))
        && (r.Panics? <==> old(c.Gets()) && old(c.io.bc.Full(BufferCache.Key(c.io.dev, c.BlockOf(c.Sourced())))))
      ensures m.Begin? ==> !r.Waits? && (r.Panics? <==> old(c.io.bc.Full(BufferCache.Key(c.io.dev, m.b))))
      ensures m.Go? ==> !r.Panics?
      ensures m.Go? ==>
        (r.Waits? <==> m.i < |old(readers)| && old(readers)[m.i].phase.Wants? && old(c.Taken(readers[m.i].h)))
    {
      r := Goes;
      match m {
        case Commit =>
          if c.turn < Turns(|c.lh|) {
            r := Advance();
          }
        case Begin(q, b) =>
          var ok := Enter(q, b);
          if !ok {
            r := Panics;
          }
        case Go(i) =>
          if i < |readers| && !readers[i].phase.Gone? {
            var ok := Proceed(i);
            if !ok {
              r := Waits;
            }
          }
      }
    }

    /** Under every schedule: every process is where its moves have taken it; the
        writes issued are a prefix of the commit's, all of them once it is done; and
        every reader that has a lock has what is being committed. */
    method Run(sched: seq<Move>) returns (rs: seq<Result>)
      requires Valid() && forall i | 0 <= i < |sched| :: Fair(sched[i])
      modifies this`readers, this`tickets, c, c.io, c.io.bc
      ensures Valid() && c.io.writes <= c.plan.before + c.plan.ws
      ensures |rs| == |sched| && Places() == AfterAll(|c.lh|, old(Places()), sched, rs)
      ensures c.turn == Turns(|c.lh|) ==> c.io.writes == c.plan.before + c.plan.ws && c.io.cache == map[]
      ensures forall i | 0 <= i < |readers| && readers[i].phase.Reads? :: Sees(readers[i])
    {
      rs := [];
      for k := 0 to |sched|
        invariant Valid() && |rs| == k && Places() == AfterAll(|c.lh|, old(Places()), sched[..k], rs)
      {
        var r := Play(sched[k]);
        assert sched[..k + 1][..k] == sched[..k] && (rs + [r])[..k] == rs;
        rs := rs + [r];
      }
      assert sched[..|sched|] == sched;
      c.Prefix();
      forall i: nat | i < |readers| && readers[i].phase.Reads? ensures Sees(readers[i]) { assert ReaderAt(i); }
    }

    /** Left alone, the commit goes on to its end, unless it has to wait for a lock
        or bget finds no buffer. */
    method Finish() returns (r: Result)
      requires Valid()
      modifies c, c.io, c.io.bc
      ensures Valid() && (r.Goes? ==> c.turn == Turns(|c.lh|) && c.io.writes == c.plan.before + c.plan.ws)
      ensures r.Waits? ==> c.Taken(c.Handle(c.Sourced()))
      ensures r.Panics? ==> c.io.bc.Full(BufferCache.Key(c.io.dev, c.BlockOf(c.Sourced())))
    {
      r := Goes;
      while c.turn < Turns(|c.lh|)
        invariant Valid() && r == Goes && c.turn <= Turns(|c.lh|)
        decreases Turns(|c.lh|) - c.turn, Left(c.stage)
      {
        r := Advance();
        if !r.Goes? {
          return;
        }
      }
      c.Prefix();
    }
  }

  function Left(s: Stage): nat {
    match s
    case GetFirst => 9
    case LockFirst => 8
    case GetSecond => 7
    case LockSecond => 6
    case CopyWrite => 5
    case Unpin => 4
    case UnlockSrc => 3
    case DropSrc => 2
    case UnlockDst => 1
    case DropDst => 0
  }
}
