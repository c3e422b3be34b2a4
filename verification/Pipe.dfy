/** kernel/pipe.c: a ring of bytes between processes.  Each method is what one
    process does between taking pi->lock, or waking with it, and its next sleep or
    return, so methods may follow one another in any order. */
module Pipe {
  import opened Common

  const PIPESIZE := 512

  /** How a stretch of pipewrite or piperead ends. */
  datatype Outcome = Sleeps | Fails | Returns(count: nat)

  /** A 32-bit count indexes the ring like the full count. */
  lemma Wraps(x: nat)
    ensures x % U32 % PIPESIZE == x % PIPESIZE && (x % U32 + 1) % U32 == (x + 1) % U32
  {
    RingIndex(x, PIPESIZE, U32, 0x80_0000);
  }

  /** The empty and full tests on 32-bit counts. */
  lemma Tests(taken: nat, n: nat)
    requires n <= PIPESIZE
    ensures taken % U32 == (taken + n) % U32 <==> n == 0
    ensures (taken + n) % U32 == (taken % U32 + PIPESIZE) % U32 <==> n == PIPESIZE
  {
    var q, r := taken / U32, taken % U32;
    assert taken + n == q * U32 + (r + n);
    ModAdd(U32, q, r + n);
    assert r + n < U32 ==> (r + n) % U32 == r + n;
    assert r + n >= U32 ==> (r + n) % U32 == r + n - U32;
    assert r + PIPESIZE < U32 ==> (r + PIPESIZE) % U32 == r + PIPESIZE;
    assert r + PIPESIZE >= U32 ==> (r + PIPESIZE) % U32 == r + PIPESIZE - U32;
  }

  class Pipe {
    var data: array<byte>
    var nread: nat
    var nwrite: nat
    var readopen: bool
    var writeopen: bool
    /** Every byte ever stored, and every byte ever taken out. */
    ghost var stored: seq<byte>
    ghost var consumed: seq<byte>

    /** What was taken out is a prefix of what was stored, at most PIPESIZE bytes
        are outstanding, and the ring holds exactly those. */
    ghost predicate Valid()
      reads this, data
    {
      && data.Length == PIPESIZE && |consumed| <= |stored| <= |consumed| + PIPESIZE
      && consumed == stored[..|consumed|]
      && nread == |consumed| % U32 && nwrite == |stored| % U32
      && forall k | |consumed| <= k < |stored| :: data[k % PIPESIZE] == stored[k]
    }

    constructor ()
      ensures Valid() && fresh(data) && stored == [] && consumed == [] && readopen && writeopen
    {
      data := new byte[PIPESIZE];
      nread, nwrite, readopen, writeopen, stored, consumed := 0, 0, true, true, [], [];
    }

    /** Storing one byte in a ring that is not full. */
    method Put(ch: byte)
      requires Valid() && |stored| < |consumed| + PIPESIZE
      modifies this`nwrite, this`stored, data
      ensures Valid() && stored == old(stored) + [ch]
    {
      Wraps(|stored|);
      ghost var n := |stored|;
      forall k | |consumed| <= k < n ensures k % PIPESIZE != n % PIPESIZE { OtherSlot(k, n, PIPESIZE); }
      data[nwrite % PIPESIZE] := ch;
      nwrite := (nwrite + 1) % U32;
      stored := stored + [ch];
    }

    /** Taking one byte from a ring that is not empty. */
    method Get() returns (ch: byte)
      requires Valid() && |consumed| < |stored|
      modifies this`nread, this`consumed
      ensures Valid() && ch == stored[|old(consumed)|] && consumed == old(consumed) + [ch]
    {
      Wraps(|consumed|);
      ch := data[nread % PIPESIZE];
      nread := (nread + 1) % U32;
      assert stored[..|consumed| + 1] == stored[..|consumed|] + [ch];
      consumed := consumed + [ch];
    }

    /** pipewrite of n bytes with i already written, of which those in src are
        readable.  A kill is seen by the turns of the loop from byte `kill` on, if
        it comes at all.  It stores the next bytes in order; it sleeps exactly
        if the ring fills up with bytes left to write, fails exactly if the reader is gone or the turn that
        sees the kill is reached, the bytes before it stored, and stops short
        only where src ends. */
    method Write(src: seq<byte>, n: int, i: nat, kill: nat) returns (j: nat, res: Outcome)
      requires Valid() && i <= |src| && (i > 0 ==> i <= n)
      modifies this`nwrite, this`stored, data
      ensures Valid() && i <= j <= |src| && stored == old(stored) + src[i..j]
      ensures res.Sleeps? ==> |stored| == |consumed| + PIPESIZE
      ensures res.Sleeps? <==> var k := i + |consumed| + PIPESIZE - |old(stored)|;
        readopen && k < n && k <= |src| && k < kill
      ensures res.Fails? ==> j == if readopen && kill > i then kill else i
      ensures res.Fails? <==> i < n && var k := if kill > i then kill else i;
        !readopen || (k < n && k <= |src| && |old(stored)| + (k - i) <= |consumed| + PIPESIZE)
      ensures res.Returns? ==> res.count == j && (j == n || (j == 0 && n <= 0) || (j == |src| && j < n))
    {
      j := i;
      while j < n
        invariant Valid() && i <= j <= |src| && stored == old(stored) + src[i..j]
        invariant (j > 0 ==> j <= n) && (j > i ==> readopen && j <= kill)
        decreases n - j
      {
        if !readopen || kill <= j {
          return j, Fails;
        }
        Tests(|consumed|, |stored| - |consumed|);
        if nwrite == (nread + PIPESIZE) % U32 {
          return j, Sleeps;
        }
        if j >= |src| {
          break;
        }
        assert src[i..j + 1] == src[i..j] + [src[j]];
        Put(src[j]);
        j := j + 1;
      }
      return j, Returns(j);
    }

    /** piperead of up to n bytes into room for `room`.  It sleeps exactly if
        the ring is empty, a writer remains and no kill is seen; what it delivers continues what was
        delivered before.  A failed copy-out still takes the byte out of the ring:
        `lost` is that one byte, lost exactly when more was asked for and there
        than there is room for. */
    method Read(n: int, room: nat, killed: bool) returns (out: seq<byte>, res: Outcome, ghost lost: seq<byte>)
      requires Valid()
      modifies this`nread, this`consumed
      ensures Valid() && consumed == old(consumed) + out + lost
      ensures !res.Returns? ==> out == [] && lost == [] && |consumed| == |stored| && writeopen
      ensures res.Fails? <==> |old(consumed)| == |stored| && writeopen && killed
      ensures res.Sleeps? <==> |old(consumed)| == |stored| && writeopen && !killed
      ensures res.Returns? ==> res.count == |out| && |out| <= room
      ensures res.Returns? && lost == [] ==> |out| == n || (n <= 0 && out == []) || |consumed| == |stored|
      ensures |lost| <= 1 && (lost != [] ==> |out| == room)
      ensures lost != [] <==> res.Returns? && room < n && room < |stored| - |old(consumed)|
    {
      out, lost := [], [];
      Tests(|consumed|, |stored| - |consumed|);
      if nread == nwrite && writeopen {
        if killed {
          res := Fails;
        } else {
          res := Sleeps;
        }
        assert old(consumed) + out + lost == consumed;
        return;
      }
      while |out| < n
        invariant Valid() && consumed == old(consumed) + out && |out| <= room && (out != [] ==> |out| <= n)
        decreases n - |out|
      {
        Tests(|consumed|, |stored| - |consumed|);
        if nread == nwrite {
          break;
        }
        var ch := Get();
        if |out| == room {
          lost := [ch];
          break;
        }
        out := out + [ch];
      }
      res := Returns(|out|);
    }

    /** pipeclose; true when the pipe is to be freed. */
    method Close(writable: bool) returns (gone: bool)
      requires Valid()
      modifies this`readopen, this`writeopen
      ensures Valid() && gone == (!readopen && !writeopen)
      ensures readopen == (old(readopen) && writable) && writeopen == (old(writeopen) && !writable)
    {
      if writable {
        writeopen := false;
      } else {
        readopen := false;
      }
      return !readopen && !writeopen;
    }
  }
}
