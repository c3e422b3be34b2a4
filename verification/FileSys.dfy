/** kernel/fs.c: block allocation, the inode block map, truncation, and file
    reads and writes; and the chunking of kernel/file.c. */
module FileSys {
  import opened Common
  import opened BlockMap
  import opened FileBytes
  import opened FileTxn

  class FileSystem {
    const sb: Superblock
    /** Block contents as seen through the buffer cache, and the inode table. */
    var blocks: seq<Blk>
    var inodes: seq<Inode>
    /** Blocks handed to log_write since begin_op. */
    var logged: set<nat>
    ghost var owner: Owners
    ghost var loose: set<nat>
    /** The blocks as the transaction found them, what log_write last saw of each
        logged one, and the blocks changed without a log_write. */
    ghost var base: seq<Blk>
    ghost var noted: map<nat, Blk>
    ghost var ragged: set<nat>

    ghost predicate Good()
      reads this
    {
      Inv(sb, blocks, inodes, owner, loose) && Noted(base, blocks, logged, noted, ragged)
    }

    /** No block is on its way from balloc to a place. */
    ghost predicate Sound()
      reads this
    {
      Good() && loose == {}
    }

    ghost predicate Valid()
      reads this
    {
      Sound() && NoHolesAnywhere(blocks, inodes)
    }

    /** A disk as mkfs lays it out, without files: the metadata blocks marked in
        use, every other block free. */
    constructor (sb: Superblock)
      requires sb.Ok()
      ensures Valid() && this.sb == sb && owner == map[] && logged == {}
      ensures forall n | 0 <= n < |inodes| :: inodes[n] == Inode(ZeroAddrs(), 0)
    {
      this.sb, blocks, logged := sb, seq(sb.size, b requires 0 <= b => FirstBlock(sb, b)), {};
      inodes := seq(sb.ninodes, _ => Inode(ZeroAddrs(), 0));
      owner, loose, base, noted, ragged := map[], {}, blocks, map[], {};
      new;
      NotedNone(blocks, {});
      forall b: nat | b < sb.size ensures Marked(sb, blocks, owner, loose, b) && Mapped(sb, blocks, b) {
        FirstBit(sb, blocks, b);
      }
    }

    ghost predicate Full()
      reads this
    {
      forall b | 0 <= b < sb.size :: Bit(sb, blocks, b)
    }

    method LogWrite(b: nat)
      modifies this`logged, this`noted, this`ragged
      ensures logged == old(logged) + {b} && ragged == old(ragged) - {b}
      ensures noted == if b < |blocks| then old(noted)[b := blocks[b]] else old(noted)
    {
      logged := logged + {b};
      if b < |blocks| { noted := noted[b := blocks[b]]; }
      ragged := ragged - {b};
    }

    /** balloc's scan for the lowest clear bit. */
    method FindFree() returns (found: bool, r: nat)
      requires Good()
      ensures found ==> r < sb.size && !Bit(sb, blocks, r) && forall c | 0 <= c < r :: Bit(sb, blocks, c)
      ensures !found ==> Full()
    {
      var b := 0;
      while b < sb.size
        invariant b % BPB == 0
        invariant forall c | 0 <= c < b && c < sb.size :: Bit(sb, blocks, c)
      {
        BblockBelow(sb, b);
        assert Mapped(sb, blocks, b);
        var bp := blocks[sb.Bblock(b)];
        var bi := 0;
        while bi < BPB && b + bi < sb.size
          invariant 0 <= bi <= BPB
          invariant forall c | 0 <= c < b + bi && c < sb.size :: Bit(sb, blocks, c)
        {
          InBblock(sb, b, bi);
          if !bp.m[bi] {
            return true, b + bi;
          }
          bi := bi + 1;
        }
        b := b + BPB;
      }
      return false, 0;
    }

    /** balloc: the lowest free block, marked and zeroed; 0 when all are in use. */
    method Balloc() returns (r: nat)
      requires Good()
      modifies this`blocks, this`logged, this`noted, this`ragged, this`loose
      ensures Good() && SameBytes(old(blocks), inodes, blocks, inodes)
      ensures r == 0 ==> blocks == old(blocks) && logged == old(logged) && loose == old(loose) && Full()
      ensures r != 0 ==>
        && sb.nmeta <= r < sb.size && !Bit(sb, old(blocks), r) && (forall c | 0 <= c < r :: Bit(sb, old(blocks), c))
        && r !in owner && loose == old(loose) + {r} && At(blocks, r) == Zero
        && logged == old(logged) + {sb.Bblock(r), r}
        && forall c | 0 <= c < sb.size && c != r :: Bit(sb, blocks, c) == Bit(sb, old(blocks), c)
      ensures (forall b | b in owner :: At(blocks, b) == At(old(blocks), b)) && ragged <= old(ragged)
    {
      var found;
      found, r := FindFree();
      if !found {
        return 0;
      }
      AllocKeeps(sb, blocks, inodes, owner, loose, r);
      AllocBits(sb, blocks, inodes, owner, loose, r);
      BblockBelow(sb, r);
      NotedPut(base, blocks, logged, noted, ragged, sb.Bblock(r), SetBit(sb, blocks, r, true)[sb.Bblock(r)]);
      blocks := SetBit(sb, blocks, r, true);
      LogWrite(sb.Bblock(r));
      NotedPut(base, blocks, logged, noted, ragged, r, Zero);
      blocks := blocks[r := Zero];
      LogWrite(r);
      loose := loose + {r};
    }

    /** bmap's "if((addr = ip->addrs[i]) == 0) addr = balloc()" for a direct entry
        or the indirect one. */
    method FillAddr(n: nat, i: nat) returns (addr: nat, ghost bm: set<nat>)
      requires Sound() && n < |inodes| && i <= NDIRECT
      modifies this`blocks, this`inodes, this`logged, this`noted, this`ragged, this`owner, this`loose
      ensures Sound() && SameBytes(old(blocks), old(inodes), blocks, inodes)
      ensures var p := if i < NDIRECT then Direct(n, i) else Ind(n);
        && Fills(old(blocks), old(inodes), blocks, inodes, p, p) && addr == AddrAt(blocks, inodes, p)
        && |bm| <= Filled(old(blocks), old(inodes), blocks, inodes, p)
      ensures logged <= old(logged) + bm + NonZero(addr)
      ensures bm == {} ==> logged == old(logged) && inodes == old(inodes) && blocks == old(blocks)
      ensures (addr == 0 ==> Full()) && ragged <= old(ragged) && Alone(old(inodes), inodes, n)
    {
      ghost var p := if i < NDIRECT then Direct(n, i) else Ind(n);
      bm := {};
      addr := inodes[n].addrs[i];
      FillsRefl(blocks, inodes, p, p);
      if addr == 0 {
        addr := Balloc();
        if addr == 0 {
          return;
        }
        ghost var b1, i1 := blocks, inodes;
        FrameFills(sb, old(blocks), inodes, owner, {}, blocks, p, p);
        AddrFrame(sb, old(blocks), inodes, owner, {}, blocks, p);
        SetAddrKeeps(sb, blocks, inodes, owner, loose, n, i, addr);
        SetAddrFills(sb, blocks, inodes, n, i, addr, p, p);
        SetAddrIs(sb, blocks, inodes, n, i, addr, p);
        inodes := inodes[n := Inode(inodes[n].addrs[i := addr], inodes[n].size)];
        owner, loose := owner[addr := p], loose - {addr};
        bm := {sb.Bblock(addr)};
        FillsTrans(old(blocks), old(inodes), b1, i1, blocks, inodes, p, p);
      }
    }

    /** bmap: the block that holds file block bn, allocated if need be.  No file
        changes: a new block reads as the zeros the hole read as.  `bm` are the
        bitmap blocks logged, at most one per place filled. */
    method Bmap(n: nat, bn: nat) returns (addr: nat, ghost bm: set<nat>)
      requires Sound() && n < |inodes| && bn < MAXFILE
      modifies this`blocks, this`inodes, this`logged, this`noted, this`ragged, this`owner, this`loose
      ensures Sound() && SameBytes(old(blocks), old(inodes), blocks, inodes)
      ensures Fills(old(blocks), old(inodes), blocks, inodes, PlaceOf(n, bn), Ind(n))
      ensures addr == AddrAt(blocks, inodes, PlaceOf(n, bn)) && (addr == 0 ==> Full())
      ensures |bm| <= Filled(old(blocks), old(inodes), blocks, inodes, PlaceOf(n, bn))
                      + Filled(old(blocks), old(inodes), blocks, inodes, Ind(n))
      ensures logged <= old(logged) + bm + NonZero(addr) + NonZero(Get(inodes, n, NDIRECT))
      ensures AddrAt(old(blocks), old(inodes), PlaceOf(n, bn)) != 0 ==>
        logged == old(logged) && blocks == old(blocks) && inodes == old(inodes)
      ensures ragged <= old(ragged) && Alone(old(inodes), inodes, n)
    {
      ghost var p := PlaceOf(n, bn);
      if bn < NDIRECT {
        addr, bm := FillAddr(n, bn);
        WeakenFills(old(blocks), old(inodes), blocks, inodes, p, Ind(n));
        return;
      }
      addr, bm := FillIndirect(n, bn - NDIRECT);
    }

    /** bmap past the direct blocks. */
    method FillIndirect(n: nat, j: nat) returns (addr: nat, ghost bm: set<nat>)
      requires Sound() && n < |inodes| && j < NINDIRECT
      modifies this`blocks, this`inodes, this`logged, this`noted, this`ragged, this`owner, this`loose
      ensures Sound() && SameBytes(old(blocks), old(inodes), blocks, inodes)
      ensures Fills(old(blocks), old(inodes), blocks, inodes, Listed(n, j), Ind(n))
      ensures addr == AddrAt(blocks, inodes, Listed(n, j)) && (addr == 0 ==> Full())
      ensures |bm| <= Filled(old(blocks), old(inodes), blocks, inodes, Listed(n, j))
                      + Filled(old(blocks), old(inodes), blocks, inodes, Ind(n))
      ensures logged <= old(logged) + bm + NonZero(addr) + NonZero(Get(inodes, n, NDIRECT))
      ensures AddrAt(old(blocks), old(inodes), Listed(n, j)) != 0 ==>
        logged == old(logged) && blocks == old(blocks) && inodes == old(inodes)
      ensures ragged <= old(ragged) && Alone(old(inodes), inodes, n)
    {
      ghost var p := Listed(n, j);
      var ind;
      ind, bm := FillAddr(n, NDIRECT);
      WeakenFills(old(blocks), old(inodes), blocks, inodes, Ind(n), p);
      IndFilled(old(blocks), old(inodes), blocks, inodes, n, j);
      if ind == 0 {
        return 0, bm;
      }
      ghost var b1, i1, bm1, l1 := blocks, inodes, bm, logged;
      ghost var bm2;
      addr, bm2 := FillListed(n, j);
      bm := bm + bm2;
      BothFilled(old(blocks), old(inodes), b1, i1, blocks, inodes, n, j, bm1, bm2);
      assert logged <= l1 + bm2 + NonZero(addr) + NonZero(ind);
    }

    /** bmap's second half: an entry of the indirect block. */
    method FillListed(n: nat, j: nat) returns (addr: nat, ghost bm: set<nat>)
      requires Sound() && n < |inodes| && j < NINDIRECT && Get(inodes, n, NDIRECT) != 0
      modifies this`blocks, this`logged, this`noted, this`ragged, this`owner, this`loose
      ensures Sound() && SameBytes(old(blocks), inodes, blocks, inodes)
      ensures Fills(old(blocks), inodes, blocks, inodes, Listed(n, j), Listed(n, j))
      ensures addr == AddrAt(blocks, inodes, Listed(n, j)) && (addr == 0 ==> Full())
      ensures |bm| <= Filled(old(blocks), inodes, blocks, inodes, Listed(n, j))
      ensures logged <= old(logged) + bm + NonZero(addr) + NonZero(Get(inodes, n, NDIRECT))
      ensures (bm == {} ==> logged == old(logged) && blocks == old(blocks)) && ragged <= old(ragged)
    {
      ghost var p := Listed(n, j);
      bm := {};
      FillsRefl(blocks, inodes, p, p);
      IndirectOwned(sb, blocks, inodes, owner, loose, n);
      var ind := inodes[n].addrs[NDIRECT];
      addr := WordAt(blocks[ind], j);
      if addr == 0 {
        ghost var b0 := blocks;
        addr := Balloc();
        if addr != 0 {
          AddrFrame(sb, b0, inodes, owner, {}, blocks, p);
          FrameFills(sb, b0, inodes, owner, {}, blocks, p, p);
          var blk := PutWord(blocks[ind], j, addr);
          PutWordPuts(blocks[ind], j, addr);
          ghost var b1 := blocks;
          StoreListed(n, j, addr, blk);
          FillsTrans(b0, inodes, b1, inodes, blocks, inodes, p, p);
          SameTrans(b0, inodes, b1, inodes, blocks, inodes);
          bm := {sb.Bblock(addr)};
        }
      }
    }

    /** The new block number stored in the indirect block. */
    method StoreListed(n: nat, j: nat, addr: nat, blk: Blk)
      requires Good() && loose == {addr} && n < |inodes| && j < NINDIRECT && 0 < Get(inodes, n, NDIRECT) < |blocks|
      requires AddrAt(blocks, inodes, Listed(n, j)) == 0 && At(blocks, addr) == Zero && addr != 0
      requires IsPut(blocks[Get(inodes, n, NDIRECT)], blk, j, addr)
      modifies this`blocks, this`logged, this`noted, this`ragged, this`owner, this`loose
      ensures Sound() && SameBytes(old(blocks), inodes, blocks, inodes)
      ensures Fills(old(blocks), inodes, blocks, inodes, Listed(n, j), Listed(n, j))
      ensures AddrAt(blocks, inodes, Listed(n, j)) == addr
      ensures logged == old(logged) + {Get(inodes, n, NDIRECT)} && ragged <= old(ragged)
    {
      var ind := Get(inodes, n, NDIRECT);
      PutWordKeeps(sb, blocks, inodes, owner, loose, n, j, addr, blk);
      PutWordBytes(sb, blocks, inodes, owner, loose, n, j, addr, blk);
      PutWordFills(sb, blocks, inodes, owner, loose, n, j, addr, blk, Listed(n, j));
      PutWordIs(sb, blocks, inodes, owner, loose, n, j, addr, blk, Listed(n, j));
      assert loose - {addr} == {};
      NotedPut(base, blocks, logged, noted, ragged, ind, blk);
      blocks := blocks[ind := blk];
      LogWrite(ind);
      owner, loose := owner[addr := Listed(n, j)], {};
    }

    /** iupdate. */
    method Iupdate(n: nat)
      requires Noted(base, blocks, logged, noted, ragged)
      modifies this`logged, this`noted, this`ragged
      ensures Noted(base, blocks, logged, noted, ragged) && logged == old(logged) + {sb.Iblock(n)}
      ensures sb.Iblock(n) < |blocks| ==> sb.Iblock(n) in noted
      ensures ragged <= old(ragged)
    {
      NotedLog(base, blocks, logged, noted, ragged, sb.Iblock(n));
      LogWrite(sb.Iblock(n));
    }

    /** The copy and log_write of one iteration of writei.  A copy that fails has
        moved the readable bytes s, and is not logged. */
    method WriteBlock(n: nat, bn: nat, addr: nat, lo: nat, s: seq<byte>, whole: bool)
      requires Sound() && addr == AddrAt(blocks, inodes, PlaceOf(n, bn)) && addr != 0 && lo + |s| <= BSIZE
      modifies this`blocks, this`logged, this`noted, this`ragged
      ensures Sound() && Patched(old(blocks), inodes, blocks, inodes, n, bn, lo, s)
      ensures Fills(old(blocks), inodes, blocks, inodes, PlaceOf(n, bn), PlaceOf(n, bn))
      ensures logged == if whole then old(logged) + {addr} else old(logged)
      ensures whole || s == [] ==> ragged <= old(ragged)
    {
      PatchKeeps(sb, blocks, inodes, owner, n, bn, lo, s);
      if s == [] && !whole {
        FillsRefl(blocks, inodes, PlaceOf(n, bn), PlaceOf(n, bn));
        return;
      }
      NotedPut(base, blocks, logged, noted, ragged, addr, Bytes(Patch(BytesOf(blocks[addr]), lo, s)));
      blocks := blocks[addr := Bytes(Patch(BytesOf(blocks[addr]), lo, s))];
      if whole {
        LogWrite(addr);
      } else {
        ragged := ragged + {addr};
      }
    }

    /** One iteration of writei: find or allocate the block and copy s in. */
    method WriteOne(n: nat, bn: nat, lo: nat, s: seq<byte>, whole: bool) returns (addr: nat, ghost bm: set<nat>)
      requires Sound() && n < |inodes| && bn < MAXFILE && lo + |s| <= BSIZE
      modifies this`blocks, this`inodes, this`logged, this`noted, this`ragged, this`owner, this`loose
      ensures Sound() && Fills(old(blocks), old(inodes), blocks, inodes, PlaceOf(n, bn), Ind(n))
      ensures addr == AddrAt(blocks, inodes, PlaceOf(n, bn)) && (addr == 0 ==> Full())
      ensures if addr == 0 then SameBytes(old(blocks), old(inodes), blocks, inodes)
              else Patched(old(blocks), old(inodes), blocks, inodes, n, bn, lo, s)
      ensures |bm| <= Filled(old(blocks), old(inodes), blocks, inodes, PlaceOf(n, bn))
                      + Filled(old(blocks), old(inodes), blocks, inodes, Ind(n))
      ensures logged <= old(logged) + bm + NonZero(addr) + NonZero(Get(inodes, n, NDIRECT))
      ensures (whole || s == [] || addr == 0 ==> ragged <= old(ragged)) && Alone(old(inodes), inodes, n)
    {
      addr, bm := Bmap(n, bn);
      if addr != 0 {
        ghost var b1, i1 := blocks, inodes;
        WriteBlock(n, bn, addr, lo, s, whole);
        ThenPatched(old(blocks), old(inodes), b1, i1, blocks, inodes, n, bn, lo, s);
        FillsThen(old(blocks), old(inodes), b1, i1, blocks, inodes, PlaceOf(n, bn), Ind(n));
      }
    }

    /** The same, as a step of a write of src at off that began in b0, i0 and l0
        and has reached tot: m more bytes, unless the disk is full or src ends. */
    method WriteNext(n: nat, src: seq<byte>, off: nat, cnt: nat, tot: nat, ghost b0: seq<Blk>, ghost i0: seq<Inode>,
                     ghost l0: set<nat>, ghost data: set<nat>, ghost bms: set<nat>, ghost it: nat)
      returns (addr: nat, m: nat, ghost data': set<nat>, ghost bms': set<nat>)
      requires Sound() && n < |inodes| && off + cnt <= MAXFILE * BSIZE && tot < cnt && tot <= |src|
      requires Account(b0, i0, blocks, inodes, n, off, it, l0, logged, data, bms)
      requires Wrote(b0, i0, blocks, inodes, n, off, src, tot) && AtBlock(off, tot, cnt, it) && Alone(i0, inodes, n)
      modifies this`blocks, this`inodes, this`logged, this`noted, this`ragged, this`owner, this`loose
      ensures Sound() && n < |inodes| && (addr == 0 ==> Full()) && m == Chunk(off + tot, cnt - tot)
      ensures Account(b0, i0, blocks, inodes, n, off, if addr == 0 then it else it + 1, l0, logged, data', bms')
      ensures Wrote(b0, i0, blocks, inodes, n, off, src,
                    if addr == 0 then tot else if tot + m <= |src| then tot + m else |src|)
      ensures (tot + m <= |src| || tot == |src| || addr == 0 ==> ragged <= old(ragged)) && Alone(i0, inodes, n)
    {
      ghost var b1, i1, l1 := blocks, inodes, logged;
      m := Chunk(off + tot, cnt - tot);
      var end := if tot + m <= |src| then tot + m else |src|;
      var bn, lo := (off + tot) / BSIZE, (off + tot) % BSIZE;
      ChunkAt(off, tot, cnt, it);
      ghost var bm;
      addr, bm := WriteOne(n, bn, lo, src[tot..end], tot + m <= |src|);
      NextDone(b0, i0, b1, i1, blocks, inodes, n, off, src, tot, end, it, l0, l1, logged, data, bms, bm, addr);
      AloneTrans(i0, i1, inodes, n);
      data', bms' := data + NonZero(addr), bms + bm;
    }

    /** The loop of writei: whole blocks' worth of src until done, out of space,
        or past the readable bytes, of which then `torn` more are in the cache.
        `data` and `bms` are the data and bitmap blocks it may have logged, `it`
        the blocks it reached. */
    method WriteLoop(n: nat, src: seq<byte>, off: nat, cnt: nat)
      returns (tot: nat, ghost torn: nat, ghost data: set<nat>, ghost bms: set<nat>, ghost it: nat)
      requires Sound() && n < |inodes| && off + cnt <= MAXFILE * BSIZE
      modifies this`blocks, this`inodes, this`logged, this`noted, this`ragged, this`owner, this`loose
      ensures Sound() && Account(old(blocks), old(inodes), blocks, inodes, n, off, it, old(logged), logged, data, bms)
      ensures tot <= cnt && tot + torn <= |src|
      ensures Wrote(old(blocks), old(inodes), blocks, inodes, n, off, src, tot + torn)
      ensures Stopped(Full(), |src|, off, cnt, tot, torn)
      ensures AtBlock(off, tot, tot, it) && (cnt <= 3 * BSIZE ==> it <= 4 && (it == 4 ==> Inside(off) == 1))
      ensures (torn == 0 ==> ragged <= old(ragged)) && Alone(old(inodes), inodes, n)
    {
      ghost var b0, i0, l0 := blocks, inodes, logged;
      tot, torn, data, bms, it := 0, 0, {}, {}, 0;
      WroteNothing(b0, i0, blocks, inodes, n, off, src);
      AccountStart(b0, i0, n, off, l0);
      while tot < cnt
        invariant Sound() && n < |inodes| && Account(b0, i0, blocks, inodes, n, off, it, l0, logged, data, bms)
        invariant tot <= cnt && tot <= |src| && torn == 0 && Wrote(b0, i0, blocks, inodes, n, off, src, tot)
        invariant AtBlock(off, tot, cnt, it) && (cnt <= 3 * BSIZE ==> it <= 4 && (it == 4 ==> Inside(off) == 1))
        invariant ragged <= old(ragged) && Alone(i0, inodes, n)
        decreases cnt - tot
      {
        NextBlock(off, tot, cnt, it);
        if cnt <= 3 * BSIZE { AtMostFour(off, tot, cnt, it); }
        var addr, m;
        addr, m, data, bms := WriteNext(n, src, off, cnt, tot, b0, i0, l0, data, bms, it);
        if addr == 0 {
          break;
        }
        it := it + 1;
        if tot + m > |src| {
          torn := |src| - tot;
          break;
        }
        tot := tot + m;
      }
    }

    /** writei: -1 if the range is refused; otherwise the first r bytes of src are
        in the file, which has grown to hold them.  src are the bytes readable at
        the user address; where they end, `torn` bytes of the next block are
        overwritten as well.  Within a transaction of filewrite's size, `spent`
        bounds what was logged by ten blocks. */
    method Writei(n: nat, src: seq<byte>, off: nat, cnt: nat) returns (r: int, ghost torn: nat, ghost spent: set<nat>)
      requires Valid() && n < |inodes| && off < U32 && cnt < U32
      modifies this`blocks, this`inodes, this`logged, this`noted, this`ragged, this`owner, this`loose
      ensures Valid() && OtherSizes(old(inodes), inodes, n)
      ensures r == -1 <==> off > old(inodes)[n].size || off + cnt >= U32 || off + cnt > MAXFILE * BSIZE
      ensures r == -1 ==> blocks == old(blocks) && inodes == old(inodes) && logged == old(logged) && torn == 0
      ensures r != -1 ==> 0 <= r <= cnt && r + torn <= |src| && Stopped(Full(), |src|, off, cnt, r, torn)
      ensures r != -1 ==> Wrote(old(blocks), old(inodes), blocks, inodes, n, off, src, r + torn)
      ensures r != -1 ==> inodes[n].size == Grown(old(inodes)[n].size, off + r)
      ensures r != -1 ==> Updated(old(blocks), old(inodes), blocks, inodes, n, off, src[..r + torn])
      ensures logged <= old(logged) + spent && (cnt <= 3 * BSIZE ==> |spent| <= MAXOPBLOCKS)
      ensures (torn == 0 ==> ragged <= old(ragged)) && Alone(old(inodes), inodes, n)
      ensures inodes != old(inodes) ==> sb.Iblock(n) in noted
    {
      torn, spent := 0, {};
      if off > inodes[n].size || off + cnt >= U32 {
        return -1, torn, spent;
      }
      if off + cnt > MAXFILE * BSIZE {
        return -1, torn, spent;
      }
      ghost var b0, i0 := blocks, inodes;
      r, torn, spent := WriteRange(n, src, off, cnt);
      WroteUpdates(b0, i0, blocks, inodes, n, off, src, r, r + torn);
    }

    /** writei past its checks. */
    method WriteRange(n: nat, src: seq<byte>, off: nat, cnt: nat)
      returns (tot: nat, ghost torn: nat, ghost spent: set<nat>)
      requires Valid() && n < |inodes| && off <= inodes[n].size && off + cnt <= MAXFILE * BSIZE
      modifies this`blocks, this`inodes, this`logged, this`noted, this`ragged, this`owner, this`loose
      ensures Valid() && OtherSizes(old(inodes), inodes, n) && inodes[n].size == Grown(old(inodes)[n].size, off + tot)
      ensures tot <= cnt && tot + torn <= |src| && Stopped(Full(), |src|, off, cnt, tot, torn)
      ensures Wrote(old(blocks), old(inodes), blocks, inodes, n, off, src, tot + torn)
      ensures logged <= old(logged) + spent && (cnt <= 3 * BSIZE ==> |spent| <= MAXOPBLOCKS)
      ensures (torn == 0 ==> ragged <= old(ragged)) && Alone(old(inodes), inodes, n) && sb.Iblock(n) in noted
    {
      assert NoHoles(blocks, inodes, n);
      if off % BSIZE != 0 { FirstBlockThere(blocks, inodes, n, off); }
      ghost var data, bms, it;
      tot, torn, data, bms, it := WriteLoop(n, src, off, cnt);
      ghost var indFilled := Filled(old(blocks), old(inodes), blocks, inodes, Ind(n));
      ghost var i1 := inodes;
      SetSizeTo(n, src, off, tot, torn, it, old(blocks), old(inodes));
      AloneTrans(old(inodes), i1, inodes, n);
      IblockBelow(sb, n);
      ghost var ind := Get(inodes, n, NDIRECT);
      Iupdate(n);
      spent := data + bms + NonZero(ind) + {sb.Iblock(n)};
      if cnt <= 3 * BSIZE { TenBlocks(data, bms, it, off, indFilled, ind, sb.Iblock(n)); }
    }

    /** writei's update of the size. */
    method SetSizeTo(n: nat, ghost src: seq<byte>, off: nat, tot: nat, ghost torn: nat, ghost it: nat,
                     ghost b0: seq<Blk>, ghost i0: seq<Inode>)
      requires Sound() && n < |inodes| && NoHolesAnywhere(b0, i0) && SameSizes(i0, inodes) && off <= i0[n].size
      requires Later(b0, i0, blocks, inodes) && Reached(blocks, inodes, n, off / BSIZE, off / BSIZE + it)
      requires tot > 0 ==> off + tot <= (off / BSIZE + it) * BSIZE
      requires tot + torn <= |src| && Wrote(b0, i0, blocks, inodes, n, off, src, tot + torn)
      modifies this`inodes
      ensures Valid() && OtherSizes(i0, inodes, n) && inodes[n].size == Grown(i0[n].size, off + tot)
      ensures Get(inodes, n, NDIRECT) == Get(old(inodes), n, NDIRECT) && Alone(old(inodes), inodes, n)
      ensures Wrote(b0, i0, blocks, inodes, n, off, src, tot + torn)
    {
      if off + tot > inodes[n].size {
        ghost var i1, i2 := inodes, SetSize(inodes, n, off + tot);
        SetSizeKeeps(sb, blocks, i1, owner, n, off + tot);
        WroteThenSame(b0, i0, blocks, i1, blocks, i2, n, off, src, tot + torn);
        LaterSize(b0, i0, blocks, i1, i2, n, off + tot);
        ReachedSize(blocks, i1, i2, n, off / BSIZE, off / BSIZE + it);
        inodes := inodes[n := Inode(inodes[n].addrs, off + tot)];
      }
      WriteLeavesNoHoles(b0, i0, blocks, inodes, n, off, tot, it);
    }

    /** The bmap and bread of one iteration of readi. */
    method ReadBlock(n: nat, x: nat, m: nat, ghost c: seq<byte>) returns (s: seq<byte>)
      requires Valid() && n < |inodes| && inodes[n].size <= MAXFILE * BSIZE
      requires 0 < m && x + m <= inodes[n].size && x % BSIZE + m <= BSIZE && c == Contents(blocks, inodes, n)
      modifies this`blocks, this`inodes, this`logged, this`noted, this`ragged, this`owner, this`loose
      ensures Valid() && blocks == old(blocks) && inodes == old(inodes) && logged == old(logged)
      ensures s == c[x..x + m]
    {
      var bn := x / BSIZE;
      assert NoHoles(blocks, inodes, n);
      assert bn * BSIZE < inodes[n].size && AddrAt(blocks, inodes, PlaceOf(n, bn)) != 0;
      var addr;
      ghost var bm;
      addr, bm := Bmap(n, bn);
      AddrOwned(sb, blocks, inodes, owner, loose, PlaceOf(n, bn));
      assert Owned(sb, blocks, inodes, owner, addr);
      SliceInBlock(blocks, inodes, n, x, m);
      s := BytesOf(blocks[addr])[x % BSIZE..x % BSIZE + m];
    }

    /** readi: exactly the bytes off up to min(off + n, size), across the direct
        and indirect blocks; -1 if the destination cannot take them. */
    method Readi(n: nat, off: nat, cnt: nat, room: nat) returns (r: int, out: seq<byte>)
      requires Valid() && n < |inodes| && off < U32 && cnt < U32
      modifies this`blocks, this`inodes, this`logged, this`noted, this`ragged, this`owner, this`loose
      ensures Valid() && blocks == old(blocks) && inodes == old(inodes) && logged == old(logged)
      ensures off > inodes[n].size || off + cnt >= U32 ==> r == 0 && out == []
      ensures off <= inodes[n].size && off + cnt < U32 ==>
        var len := if off + cnt > inodes[n].size then inodes[n].size - off else cnt;
        if len <= room then r == len && out == Contents(blocks, inodes, n)[off..off + len] else r == -1
    {
      out := [];
      assert NoHoles(blocks, inodes, n);
      SizeBound(sb, blocks, inodes, owner, n);
      if off > inodes[n].size || off + cnt >= U32 {
        return 0, out;
      }
      var len := if off + cnt > inodes[n].size then inodes[n].size - off else cnt;
      r, out := ReadRange(n, off, len, room);
    }

    /** readi's loop over a range within the file. */
    method ReadRange(n: nat, off: nat, len: nat, room: nat) returns (r: int, out: seq<byte>)
      requires Valid() && n < |inodes| && off + len <= inodes[n].size <= MAXFILE * BSIZE
      modifies this`blocks, this`inodes, this`logged, this`noted, this`ragged, this`owner, this`loose
      ensures Valid() && blocks == old(blocks) && inodes == old(inodes) && logged == old(logged)
      ensures if len <= room then r == len && out == Contents(blocks, inodes, n)[off..off + len] else r == -1
    {
      ghost var c := Contents(blocks, inodes, n);
      out := [];
      var tot := 0;
      while tot < len
        invariant 0 <= tot <= len && tot <= room
        invariant Valid() && blocks == old(blocks) && inodes == old(inodes) && logged == old(logged)
        invariant out == c[off..off + tot]
        decreases len - tot
      {
        ChunkFits(off + tot, len - tot);
        var m := Chunk(off + tot, len - tot);
        var s := ReadBlock(n, off + tot, m, c);
        if room < tot + m {
          return -1, out;
        }
        SliceSnoc(c, off, tot, m);
        out := out + s;
        tot := tot + m;
      }
      return tot, out;
    }

    /** bfree; false means the "freeing free block" panic. */
    method Bfree(b: nat) returns (ok: bool)
      requires b < sb.size && sb.Bblock(b) < |blocks| && blocks[sb.Bblock(b)].Bits? && |blocks[sb.Bblock(b)].m| == BPB
      requires sb.Bblock(b) > 0 && Noted(base, blocks, logged, noted, ragged)
      modifies this`blocks, this`logged, this`noted, this`ragged
      ensures Noted(base, blocks, logged, noted, ragged)
      ensures ok <==> Bit(sb, old(blocks), b)
      ensures ok ==> blocks == SetBit(sb, old(blocks), b, false) && logged == old(logged) + {sb.Bblock(b)}
      ensures (!ok ==> blocks == old(blocks) && logged == old(logged)) && ragged <= old(ragged)
    {
      if !blocks[sb.Bblock(b)].m[b % BPB] {
        return false;
      }
      NotedPut(base, blocks, logged, noted, ragged, sb.Bblock(b), SetBit(sb, blocks, b, false)[sb.Bblock(b)]);
      blocks := SetBit(sb, blocks, b, false);
      LogWrite(sb.Bblock(b));
      return true;
    }

    /** itrunc: exactly the inode's blocks are freed, each one while it is still
        marked in use, and every other file keeps its blocks and bytes. */
    method Itrunc(n: nat)
      requires Valid() && n < |inodes|
      modifies this`blocks, this`inodes, this`logged, this`noted, this`ragged, this`owner
      ensures Valid() && owner == Without(old(owner), n)
      ensures inodes == old(inodes)[n := Inode(ZeroAddrs(), 0)]
      ensures forall m: nat, bn: nat, o: nat | m != n ::
        FileByte(blocks, inodes, m, bn, o) == FileByte(old(blocks), old(inodes), m, bn, o)
      ensures forall c | 0 <= c < sb.size ::
        Bit(sb, blocks, c) <==> Bit(sb, old(blocks), c) && !(c in old(owner) && old(owner)[c].inum == n)
      ensures sb.Iblock(n) in noted && ragged <= old(ragged)
    {
      ghost var b0, i0 := blocks, inodes;
      FreedNone(sb, blocks, inodes, owner, n);
      IblockBelow(sb, n);
      var i := 0;
      while i < NDIRECT
        modifies this`blocks, this`inodes, this`logged, this`noted, this`ragged
        invariant 0 <= i <= NDIRECT && FreedTo(sb, b0, owner, blocks, n, i)
        invariant Noted(base, blocks, logged, noted, ragged) && ragged <= old(ragged)
        invariant inodes == i0[n := Inode(Cleared(i0[n].addrs, i), i0[n].size)]
      {
        var a := inodes[n].addrs[i];
        if a != 0 {
          FreedStep(sb, b0, i0, owner, blocks, n, i, a);
          BblockBelow(sb, a);
          var ok := Bfree(a);
          assert ok;
          inodes := inodes[n := Inode(inodes[n].addrs[i := 0], inodes[n].size)];
        } else {
          FreedSkip(sb, b0, i0, owner, blocks, n, i);
          assert inodes[n].addrs[i := 0] == inodes[n].addrs;
        }
        i := i + 1;
      }
      if inodes[n].addrs[NDIRECT] != 0 {
        FreeIndirect(n, b0, i0);
        inodes := inodes[n := Inode(inodes[n].addrs[NDIRECT := 0], inodes[n].size)];
      } else {
        NoIndirect(sb, b0, i0, owner, blocks, n, NDIRECT);
      }
      TruncKeeps(sb, b0, i0, owner, blocks, n);
      assert inodes[n].addrs == ZeroAddrs();
      inodes := inodes[n := Inode(inodes[n].addrs, 0)];
      forall c | 0 <= c < sb.size
        ensures Bit(sb, blocks, c) <==> Bit(sb, b0, c) && !(c in owner && owner[c].inum == n)
      {
        assert FreedBit(sb, b0, owner, blocks, n, NDIRECT + NINDIRECT + 1, c);
        if c in owner { assert Owned(sb, b0, i0, owner, c); }
      }
      owner := Without(owner, n);
      assert inodes == i0[n := Inode(ZeroAddrs(), 0)];
      assert loose == {} && Inv(sb, blocks, inodes, owner, loose);
      TruncNoHoles(sb, b0, i0, old(owner), blocks, n);
      Iupdate(n);
    }

    /** itrunc's second half: the blocks listed in the indirect block, and then
        the indirect block itself. */
    method FreeIndirect(n: nat, ghost b0: seq<Blk>, ghost i0: seq<Inode>)
      requires Inv(sb, b0, i0, owner, {}) && n < |i0| == |inodes| && |inodes[n].addrs| == NDIRECT + 1
      requires inodes[n].addrs[NDIRECT] == Get(i0, n, NDIRECT) != 0 && FreedTo(sb, b0, owner, blocks, n, NDIRECT)
      requires Noted(base, blocks, logged, noted, ragged)
      modifies this`blocks, this`logged, this`noted, this`ragged
      ensures Noted(base, blocks, logged, noted, ragged)
      ensures FreedTo(sb, b0, owner, blocks, n, NDIRECT + NINDIRECT + 1) && ragged <= old(ragged)
    {
      var ind := inodes[n].addrs[NDIRECT];
      IndirectOwned(sb, b0, i0, owner, {}, n);
      var bp := blocks[ind];
      var j := 0;
      while j < NINDIRECT
        invariant 0 <= j <= NINDIRECT && FreedTo(sb, b0, owner, blocks, n, NDIRECT + j)
        invariant Noted(base, blocks, logged, noted, ragged) && ragged <= old(ragged)
      {
        var a := WordAt(bp, j);
        if a != 0 {
          FreedStep(sb, b0, i0, owner, blocks, n, NDIRECT + j, a);
          BblockBelow(sb, a);
          var ok := Bfree(a);
          assert ok;
        } else {
          FreedSkip(sb, b0, i0, owner, blocks, n, NDIRECT + j);
        }
        j := j + 1;
      }
      FreedStep(sb, b0, i0, owner, blocks, n, NDIRECT + NINDIRECT, ind);
      BblockBelow(sb, ind);
      var ok := Bfree(ind);
      assert ok;
    }

    /** begin_op's transaction is empty. */
    method BeginTxn()
      modifies this`logged, this`base, this`noted, this`ragged
      ensures logged == {} && base == blocks && noted == map[] && ragged == {}
      ensures Noted(base, blocks, logged, noted, ragged)
    {
      NotedNone(blocks, {});
      logged, base, noted, ragged := {}, blocks, map[], {};
    }

    /** The end of writei: the size, if the file has grown, and iupdate. */
    method Settle(n: nat, end: nat)
      requires Sound() && n < |inodes|
      modifies this`inodes, this`logged, this`noted, this`ragged
      ensures Sound() && SameBytes(blocks, old(inodes), blocks, inodes) && ragged <= old(ragged)
      ensures inodes == old(inodes)[n := Inode(old(inodes)[n].addrs, Grown(old(inodes)[n].size, end))]
      ensures sb.Iblock(n) in noted && logged == old(logged) + {sb.Iblock(n)}
    {
      if end > inodes[n].size {
        SetSizeKeeps(sb, blocks, inodes, owner, n, end);
        inodes := inodes[n := Inode(inodes[n].addrs, end)];
      }
      IblockBelow(sb, n);
      Iupdate(n);
    }

    /** begin_op, writei and end_op: unless the source ends in it, a transaction
        changes what it logs and nothing else. */
    method OneTxn(n: nat, src: seq<byte>, off: nat, cnt: nat) returns (r: int, ghost torn: nat)
      requires Valid() && n < |inodes| && off < U32 && cnt <= 3 * BSIZE
      modifies this`blocks, this`inodes, this`logged, this`noted, this`ragged, this`owner, this`loose, this`base
      ensures Valid() && OtherSizes(old(inodes), inodes, n) && |logged| <= MAXOPBLOCKS
      ensures r == -1 <==> off > old(inodes)[n].size || off + cnt >= U32 || off + cnt > MAXFILE * BSIZE
      ensures r == -1 ==> blocks == old(blocks) && inodes == old(inodes) && torn == 0
      ensures r != -1 ==> 0 <= r <= cnt && r + torn <= |src| && Stopped(Full(), |src|, off, cnt, r, torn)
      ensures r != -1 ==> Wrote(old(blocks), old(inodes), blocks, inodes, n, off, src, r + torn)
      ensures r != -1 ==> inodes[n].size == Grown(old(inodes)[n].size, off + r)
      ensures torn == 0 ==> Txn(sb, old(blocks), old(inodes), noted, blocks, inodes) && noted.Keys <= logged
    {
      ghost var b1, i1 := blocks, inodes;
      BeginTxn();
      ghost var spent;
      r, torn, spent := Writei(n, src, off, cnt);
      SubsetCard(logged, spent);
      if torn == 0 {
        assert base == b1 && ragged == {};
        NotedTxn(sb, b1, i1, logged, noted, blocks, inodes, n);
      }
    }

    /** One transaction of filewrite, i bytes into its source. */
    method WriteTxn(n: nat, src: seq<byte>, foff: nat, i: nat, n1: nat, ghost cnt: nat, ghost b0: seq<Blk>,
                    ghost i0: seq<Inode>)
      returns (r: int, ghost torn: nat, ghost done: nat)
      requires Valid() && n < |inodes| && foff + i <= MAXFILE * BSIZE && i < cnt && n1 == Piece(cnt - i)
      requires Progress(b0, i0, blocks, inodes, n, foff, src, i, i)
      modifies this`blocks, this`inodes, this`logged, this`noted, this`ragged, this`owner, this`loose, this`base
      ensures Valid() && n < |inodes| && |logged| <= MAXOPBLOCKS && -1 <= r <= n1
      ensures done == (if r > 0 then i + r else i) && foff + done <= MAXFILE * BSIZE && (r == n1 ==> torn == 0)
      ensures Progress(b0, i0, blocks, inodes, n, foff, src, done, done + torn)
      ensures torn == 0 ==> Txn(sb, old(blocks), old(inodes), noted, blocks, inodes) && noted.Keys <= logged
      ensures r < n1 ==> CutShort(Full(), inodes[n].size, |src|, foff, cnt, done)
    {
      ghost var b1, i1 := blocks, inodes;
      r, torn := OneTxn(n, src[i..], foff + i, n1);
      done := if r > 0 then i + r else i;
      if r >= 0 {
        ProgressStep(b0, i0, b1, i1, blocks, inodes, n, foff, src, i, r, r + torn);
        if r < n1 { StoppedShort(Full(), inodes[n].size, |src|, foff, cnt, i, n1, r, torn); }
      }
    }

    /** filewrite on an inode: the bytes go out in transactions, of which each logs
        at most MAXOPBLOCKS blocks (`txns`).  `done` bytes are in the file and the
        offset has moved past them; the result is cnt exactly when that is all of
        them.  `hist` are the states between the transactions, up to the one in
        which the source ends too early, if any. */
    method FileWrite(n: nat, src: seq<byte>, foff: nat, cnt: int)
      returns (ret: int, off: nat, ghost done: nat, ghost torn: nat, ghost txns: seq<set<nat>>, ghost hist: seq<Snap>)
      requires Valid() && n < |inodes| && foff <= MAXFILE * BSIZE && cnt < 0x8000_0000
      modifies this`blocks, this`inodes, this`logged, this`noted, this`ragged, this`owner, this`loose, this`base
      ensures Valid() && OtherSizes(old(inodes), inodes, n) && forall t | t in txns :: |t| <= MAXOPBLOCKS
      ensures off == foff + done && done + torn <= |src| && (done > 0 ==> done <= cnt)
      ensures inodes[n].size == if done > 0 then Grown(old(inodes)[n].size, off) else old(inodes)[n].size
      ensures if done + torn > 0 then Updated(old(blocks), old(inodes), blocks, inodes, n, foff, src[..done + torn])
              else forall m: nat | m < |inodes| :: SameFile(old(blocks), old(inodes), blocks, inodes, m)
      ensures ret == (if cnt >= 0 && done == cnt then cnt else -1) && (torn > 0 ==> ret == -1)
      ensures done < cnt ==> CutShort(Full(), inodes[n].size, |src|, foff, cnt, done)
      ensures !Full() && 0 <= cnt <= |src| && foff <= old(inodes)[n].size && foff + cnt <= MAXFILE * BSIZE ==>
        ret == cnt
      ensures History(sb, hist, n, foff, src) && hist[0] == Snap(old(blocks), old(inodes), map[], 0)
      ensures ByThree(hist) && |txns| == |hist| - if torn == 0 then 1 else 0
      ensures torn == 0 ==> var s := hist[|hist| - 1]; s == Snap(blocks, inodes, s.log, done)
    {
      ghost var b0, i0 := blocks, inodes;
      ret, off, done, torn, txns, hist := WriteChunks(n, src, foff, cnt);
      ProgressDone(b0, i0, blocks, inodes, n, foff, src, done, done + torn);
      TaleTold(sb, hist, txns, n, foff, src, Snap(b0, i0, map[], 0), torn > 0);
    }

    /** The loop of filewrite. */
    method WriteChunks(n: nat, src: seq<byte>, foff: nat, cnt: int)
      returns (ret: int, off: nat, ghost done: nat, ghost torn: nat, ghost txns: seq<set<nat>>, ghost hist: seq<Snap>)
      requires Valid() && n < |inodes| && foff <= MAXFILE * BSIZE && cnt < 0x8000_0000
      modifies this`blocks, this`inodes, this`logged, this`noted, this`ragged, this`owner, this`loose, this`base
      ensures Valid() && Progress(old(blocks), old(inodes), blocks, inodes, n, foff, src, done, done + torn)
      ensures off == foff + done && (done > 0 ==> done <= cnt)
      ensures ret == (if cnt >= 0 && done == cnt then cnt else -1) && (torn > 0 ==> ret == -1)
      ensures done < cnt ==> CutShort(Full(), inodes[n].size, |src|, foff, cnt, done)
      ensures Tale(sb, hist, txns, n, foff, src, Snap(old(blocks), old(inodes), map[], 0), torn > 0)
      ensures torn == 0 ==> hist != [] && var s := hist[|hist| - 1]; s == Snap(blocks, inodes, s.log, done)
    {
      var max := (MAXOPBLOCKS - 1 - 1 - 2) / 2 * BSIZE;
      var i := 0;
      off, done, torn, txns := foff, 0, 0, [];
      ghost var b0, i0, first := blocks, inodes, Snap(blocks, inodes, map[], 0);
      WroteNothing(b0, i0, b0, i0, n, foff, src);
      hist := [first];
      TaleFirst(sb, n, foff, src, first);
      while i < cnt
        invariant 0 <= i == done && torn == 0 && (i > 0 ==> i <= cnt) && off == foff + i && off <= MAXFILE * BSIZE
        invariant Valid() && Progress(b0, i0, blocks, inodes, n, foff, src, i, i)
        invariant Tale(sb, hist, txns, n, foff, src, first, false) && (i < cnt ==> i == (|hist| - 1) * (3 * BSIZE))
        invariant hist != [] && var s := hist[|hist| - 1]; s == Snap(blocks, inodes, s.log, i)
        decreases cnt - i
      {
        var n1 := if cnt - i > max then max else cnt - i;
        var r;
        ghost var p := hist[|hist| - 1];
        r, torn, done := WriteTxn(n, src, foff, i, n1, cnt, b0, i0);
        if r > 0 {
          off := off + r;
        }
        hist := TaleGoes(sb, hist, txns, n, foff, src, first, p, Snap(blocks, inodes, noted, done), logged, torn);
        txns := txns + [logged];
        if r != n1 {
          break;
        }
        i := i + r;
      }
      ret := if i == cnt then cnt else -1;
    }
  }

  /** What one more block of writei adds to the account. */
  lemma NextDone(b0: seq<Blk>, i0: seq<Inode>, b1: seq<Blk>, i1: seq<Inode>, b2: seq<Blk>, i2: seq<Inode>, n: nat,
                 off: nat, src: seq<byte>, tot: nat, end: nat, it: nat, l0: set<nat>, l1: set<nat>, l2: set<nat>,
                 data: set<nat>, bms: set<nat>, bm: set<nat>, addr: nat)
    requires tot <= end <= |src| && (off + tot) / BSIZE == off / BSIZE + it && (off + tot) % BSIZE + end - tot <= BSIZE
    requires Account(b0, i0, b1, i1, n, off, it, l0, l1, data, bms) && Wrote(b0, i0, b1, i1, n, off, src, tot)
    requires var q := PlaceOf(n, (off + tot) / BSIZE);
      && Fills(b1, i1, b2, i2, q, Ind(n)) && addr == AddrAt(b2, i2, q)
      && |bm| <= Filled(b1, i1, b2, i2, q) + Filled(b1, i1, b2, i2, Ind(n))
    requires l2 <= l1 + bm + NonZero(addr) + NonZero(Get(i2, n, NDIRECT))
    requires if addr == 0 then SameBytes(b1, i1, b2, i2)
             else Patched(b1, i1, b2, i2, n, (off + tot) / BSIZE, (off + tot) % BSIZE, src[tot..end])
    ensures Account(b0, i0, b2, i2, n, off, if addr == 0 then it else it + 1, l0, l2, data + NonZero(addr), bms + bm)
    ensures Wrote(b0, i0, b2, i2, n, off, src, if addr == 0 then tot else end)
  {
    AccountStep(b0, i0, b1, i1, b2, i2, n, off, it, l0, l1, l2, data, bms, bm, addr);
    if addr == 0 {
      WroteThenSame(b0, i0, b1, i1, b2, i2, n, off, src, tot);
    } else {
      WroteStep(b0, i0, b1, i1, b2, i2, n, off, src, tot, end - tot);
    }
  }

  /** Why writei's loop ends after tot of cnt bytes: all done, the disk full, or
      the readable bytes at an end within the next block. */
  ghost predicate Stopped(full: bool, len: nat, off: nat, cnt: nat, tot: nat, torn: nat) {
    || (tot == cnt && torn == 0)
    || (tot < cnt && full && torn == 0)
    || (tot < cnt && tot + torn == len < tot + Chunk(off + tot, cnt - tot))
  }

  /** The bytes of filewrite's next transaction. */
  ghost function Piece(rest: nat): nat { if rest > 3 * BSIZE then 3 * BSIZE else rest }

  /** Why filewrite ends with only `done` of cnt bytes written: the disk is full,
      writei refuses what comes next, or the readable bytes end within the next
      block. */
  ghost predicate CutShort(full: bool, size: nat, len: nat, foff: nat, cnt: nat, done: nat) {
    done < cnt &&
    var off, rest := foff + done, cnt - done;
    || full
    || off > size || off + Piece(rest) > MAXFILE * BSIZE
    || len < done + Chunk(off, rest)
  }

  lemma StoppedShort(full: bool, size: nat, len: nat, foff: nat, cnt: nat, i: nat, n1: nat, r: nat, torn: nat)
    requires i + n1 <= cnt && r < n1 && i <= len && Stopped(full, len - i, foff + i, n1, r, torn)
    ensures CutShort(full, size, len, foff, cnt, i + r)
  {
    assert Chunk(foff + i + r, n1 - r) <= Chunk(foff + (i + r), cnt - (i + r));
  }

  /** The states before the last are three blocks of bytes apart. */
  ghost predicate ByThree(hist: seq<Snap>) { forall k | 0 <= k < |hist| - 1 :: hist[k].len == k * (3 * BSIZE) }

  ghost predicate Recounts(sb: Superblock, hist: seq<Snap>, txns: seq<set<nat>>, n: nat, foff: nat, src: seq<byte>,
                           first: Snap, torn: bool)
  {
    && History(sb, hist, n, foff, src) && hist[0] == first && ByThree(hist)
    && |txns| == |hist| - (if torn then 0 else 1) && forall t | t in txns :: |t| <= MAXOPBLOCKS
  }

  /** The states and the transactions of a filewrite, of which the last may be torn.
      Closed, as with Peek. */
  ghost predicate Tale(sb: Superblock, hist: seq<Snap>, txns: seq<set<nat>>, n: nat, foff: nat, src: seq<byte>,
                       first: Snap, torn: bool)
  {
    forall k: nat {:trigger Peek(k)} | Peek(k) :: Recounts(sb, hist, txns, n, foff, src, first, torn)
  }

  lemma TaleFirst(sb: Superblock, n: nat, foff: nat, src: seq<byte>, first: Snap)
    requires first.len == 0 && n < |first.inodes|
    ensures Tale(sb, [first], [], n, foff, src, first, false)
  {
    WroteNothing(first.blocks, first.inodes, first.blocks, first.inodes, n, foff, src);
    assert SnapAt(sb, [first], n, foff, src, 0);
  }

  lemma TaleNext(sb: Superblock, hist: seq<Snap>, txns: seq<set<nat>>, n: nat, foff: nat, src: seq<byte>, first: Snap,
                 p: Snap, s: Snap, logged: set<nat>)
    requires Tale(sb, hist, txns, n, foff, src, first, false) && hist != [] && hist[|hist| - 1] == p
    requires p.len == (|hist| - 1) * (3 * BSIZE) && p.len <= s.len <= |src|
    requires s.log.Keys <= logged && |logged| <= MAXOPBLOCKS && Txn(sb, p.blocks, p.inodes, s.log, s.blocks, s.inodes)
    requires Progress(first.blocks, first.inodes, s.blocks, s.inodes, n, foff, src, s.len, s.len)
    ensures Tale(sb, hist + [s], txns + [logged], n, foff, src, first, false)
  {
    assert Peek(0);
    SubsetCard(s.log.Keys, logged);
    HistoryNext(sb, hist, n, foff, src, s);
  }

  lemma TaleTorn(sb: Superblock, hist: seq<Snap>, txns: seq<set<nat>>, n: nat, foff: nat, src: seq<byte>, first: Snap,
                 logged: set<nat>)
    requires Tale(sb, hist, txns, n, foff, src, first, false) && |logged| <= MAXOPBLOCKS
    ensures Tale(sb, hist, txns + [logged], n, foff, src, first, true)
  {
    assert Peek(0);
  }

  /** The account of a write after one more transaction, which left the state s. */
  lemma TaleGoes(sb: Superblock, hist: seq<Snap>, txns: seq<set<nat>>, n: nat, foff: nat, src: seq<byte>, first: Snap,
                 p: Snap, s: Snap, logged: set<nat>, torn: nat) returns (h: seq<Snap>)
    requires Tale(sb, hist, txns, n, foff, src, first, false) && hist != [] && hist[|hist| - 1] == p
    requires p.len == (|hist| - 1) * (3 * BSIZE) && |logged| <= MAXOPBLOCKS
    requires torn == 0 ==>
      && p.len <= s.len <= |src| && s.log.Keys <= logged && Txn(sb, p.blocks, p.inodes, s.log, s.blocks, s.inodes)
      && Progress(first.blocks, first.inodes, s.blocks, s.inodes, n, foff, src, s.len, s.len)
    ensures Tale(sb, h, txns + [logged], n, foff, src, first, torn > 0)
    ensures torn == 0 ==> |h| == |hist| + 1 && h[|hist|] == s
  {
    if torn == 0 {
      TaleNext(sb, hist, txns, n, foff, src, first, p, s, logged);
      h := hist + [s];
    } else {
      TaleTorn(sb, hist, txns, n, foff, src, first, logged);
      h := hist;
    }
  }

  lemma TaleTold(sb: Superblock, hist: seq<Snap>, txns: seq<set<nat>>, n: nat, foff: nat, src: seq<byte>, first: Snap,
                 torn: bool)
    requires Tale(sb, hist, txns, n, foff, src, first, torn)
    ensures Recounts(sb, hist, txns, n, foff, src, first, torn)
  {
    assert Peek(0);
  }

  function FirstBlock(sb: Superblock, b: nat): Blk {
    if sb.bmapstart <= b <= sb.bmapstart + sb.size / BPB
    then Bits(seq(BPB, i requires 0 <= i => (b - sb.bmapstart) * BPB + i < sb.nmeta))
    else Zero
  }

  lemma FirstBit(sb: Superblock, blocks: seq<Blk>, b: nat)
    requires sb.Ok() && |blocks| == sb.size && b < sb.size
    requires forall c: nat | c < sb.size :: blocks[c] == FirstBlock(sb, c)
    ensures Mapped(sb, blocks, b) && (Bit(sb, blocks, b) <==> b < sb.nmeta)
  {
    BblockBelow(sb, b);
    assert b / BPB <= sb.size / BPB && b == b / BPB * BPB + b % BPB;
  }

  lemma IblockBelow(sb: Superblock, n: nat)
    requires sb.Ok() && n < sb.ninodes
    ensures sb.inodestart <= sb.Iblock(n) < sb.bmapstart < sb.size
  {
    assert n / IPB <= sb.ninodes / IPB && sb.size / BPB >= 0;
  }

  lemma InBblock(sb: Superblock, b: nat, bi: nat)
    requires b % BPB == 0 && bi < BPB
    ensures sb.Bblock(b + bi) == sb.Bblock(b) && (b + bi) % BPB == bi
  {
  }

  lemma AllocBits(sb: Superblock, blocks: seq<Blk>, inodes: seq<Inode>, owner: Owners, loose: set<nat>, b: nat)
    requires Inv(sb, blocks, inodes, owner, loose) && sb.nmeta <= b < sb.size && b !in owner
    requires sb.Bblock(b) < |blocks| && blocks[sb.Bblock(b)].Bits? && |blocks[sb.Bblock(b)].m| == BPB
    ensures forall c | 0 <= c < sb.size && c != b :: Bit(sb, Allocated(sb, blocks, b), c) == Bit(sb, blocks, c)
    ensures forall c | c in owner :: At(Allocated(sb, blocks, b), c) == At(blocks, c)
  {
    assert Mapped(sb, blocks, b);
    BblockBelow(sb, b);
    forall c | 0 <= c < sb.size && c != b ensures Bit(sb, Allocated(sb, blocks, b), c) == Bit(sb, blocks, c) {
      assert Mapped(sb, blocks, c);
      SetBitIs(sb, blocks, b, true, c);
      PutDataBit(sb, SetBit(sb, blocks, b, true), b, Zero, c);
    }
    forall c | c in owner ensures At(Allocated(sb, blocks, b), c) == At(blocks, c) {
      assert Owned(sb, blocks, inodes, owner, c);
    }
  }

  lemma WeakenFills(b0: seq<Blk>, i0: seq<Inode>, b1: seq<Blk>, i1: seq<Inode>, p: Place, q: Place)
    requires Fills(b0, i0, b1, i1, p, p)
    ensures Fills(b0, i0, b1, i1, q, p) && Fills(b0, i0, b1, i1, p, q)
  {
    forall x: Place | x.Direct? ==> x.i < NDIRECT
      ensures PlaceKept(b0, i0, b1, i1, x, q, p) && PlaceKept(b0, i0, b1, i1, x, p, q)
    {
      assert PlaceKept(b0, i0, b1, i1, x, p, p);
    }
  }

  lemma SameTrans(b0: seq<Blk>, i0: seq<Inode>, b1: seq<Blk>, i1: seq<Inode>, b2: seq<Blk>, i2: seq<Inode>)
    requires SameBytes(b0, i0, b1, i1) && SameBytes(b1, i1, b2, i2)
    ensures SameBytes(b0, i0, b2, i2)
  {
    forall n, bn, o ensures FileByte(b2, i2, n, bn, o) == FileByte(b0, i0, n, bn, o) {
      assert FileByte(b1, i1, n, bn, o) == FileByte(b0, i0, n, bn, o);
    }
  }

  /** The indirect block and then one of its entries. */
  lemma BothFilled(b0: seq<Blk>, i0: seq<Inode>, b1: seq<Blk>, i1: seq<Inode>, b2: seq<Blk>, i2: seq<Inode>, n: nat,
                   j: nat, bm1: set<nat>, bm2: set<nat>)
    requires Fills(b0, i0, b1, i1, Ind(n), Ind(n)) && Fills(b1, i1, b2, i2, Listed(n, j), Listed(n, j))
    requires AddrAt(b1, i1, Ind(n)) != 0
    requires SameBytes(b0, i0, b1, i1) && SameBytes(b1, i1, b2, i2)
    requires |bm1| <= Filled(b0, i0, b1, i1, Ind(n)) && |bm2| <= Filled(b1, i1, b2, i2, Listed(n, j))
    ensures Fills(b0, i0, b2, i2, Listed(n, j), Ind(n)) && SameBytes(b0, i0, b2, i2)
    ensures |bm1 + bm2| <= Filled(b0, i0, b2, i2, Listed(n, j)) + Filled(b0, i0, b2, i2, Ind(n))
  {
    WeakenFills(b0, i0, b1, i1, Ind(n), Listed(n, j));
    WeakenFills(b1, i1, b2, i2, Listed(n, j), Ind(n));
    FillsTrans(b0, i0, b1, i1, b2, i2, Listed(n, j), Ind(n));
    SameTrans(b0, i0, b1, i1, b2, i2);
    IndFilled(b0, i0, b1, i1, n, j);
    assert PlaceKept(b1, i1, b2, i2, Ind(n), Listed(n, j), Listed(n, j));
    CardUnion(bm1, bm2);
  }

  lemma IndFilled(b0: seq<Blk>, i0: seq<Inode>, b1: seq<Blk>, i1: seq<Inode>, n: nat, j: nat)
    requires Fills(b0, i0, b1, i1, Ind(n), Ind(n))
    ensures AddrAt(b1, i1, Listed(n, j)) == AddrAt(b0, i0, Listed(n, j))
  {
    assert PlaceKept(b0, i0, b1, i1, Listed(n, j), Ind(n), Ind(n));
  }

  lemma LaterSize(b0: seq<Blk>, i0: seq<Inode>, b1: seq<Blk>, i1: seq<Inode>, i2: seq<Inode>, n: nat, sz: nat)
    requires Later(b0, i0, b1, i1) && n < |i1| && i2 == SetSize(i1, n, sz)
    requires forall p :: AddrAt(b1, i2, p) == AddrAt(b1, i1, p)
    ensures Later(b0, i0, b1, i2)
  {
    forall p: Place | p.Direct? ==> p.i < NDIRECT ensures PlaceHeld(b0, i0, b1, i2, p) {
      assert PlaceHeld(b0, i0, b1, i1, p);
    }
  }

  lemma {:induction false} NoIndirect(sb: Superblock, b0: seq<Blk>, i0: seq<Inode>, owner: Owners, blocks: seq<Blk>,
                                      n: nat, k: nat)
    requires Inv(sb, b0, i0, owner, {}) && n < |i0| && NDIRECT <= k <= NDIRECT + NINDIRECT + 1
    requires FreedTo(sb, b0, owner, blocks, n, k) && Get(i0, n, NDIRECT) == 0
    ensures FreedTo(sb, b0, owner, blocks, n, NDIRECT + NINDIRECT + 1)
    decreases NDIRECT + NINDIRECT + 1 - k
  {
    if k <= NDIRECT + NINDIRECT {
      FreedSkip(sb, b0, i0, owner, blocks, n, k);
      NoIndirect(sb, b0, i0, owner, blocks, n, k + 1);
    }
  }

  lemma SliceSnoc(c: seq<byte>, off: nat, i: nat, m: nat)
    requires off + i + m <= |c|
    ensures c[off..off + i] + c[off + i..off + i + m] == c[off..off + (i + m)]
  {
  }

  lemma ReachedSize(blocks: seq<Blk>, i1: seq<Inode>, i2: seq<Inode>, n: nat, lo: nat, hi: nat)
    requires Reached(blocks, i1, n, lo, hi) && forall p :: AddrAt(blocks, i2, p) == AddrAt(blocks, i1, p)
    ensures Reached(blocks, i2, n, lo, hi)
  {
    forall bn: nat {:trigger PlaceOf(n, bn)} | lo <= bn < hi ensures AddrAt(blocks, i2, PlaceOf(n, bn)) != 0 {
      assert AddrAt(blocks, i1, PlaceOf(n, bn)) != 0;
    }
  }

  lemma TruncNoHoles(sb: Superblock, b0: seq<Blk>, i0: seq<Inode>, owner: Owners, blocks: seq<Blk>, n: nat)
    requires Inv(sb, b0, i0, owner, {}) && n < |i0| && FreedTo(sb, b0, owner, blocks, n, NDIRECT + NINDIRECT + 1)
    requires NoHolesAnywhere(b0, i0)
    ensures NoHolesAnywhere(blocks, i0[n := Inode(ZeroAddrs(), 0)])
  {
    var i1 := i0[n := Inode(ZeroAddrs(), 0)];
    forall m: nat | m < |i1| ensures NoHoles(blocks, i1, m) {
      assert NoHoles(b0, i0, m);
      forall bn: nat {:trigger PlaceOf(m, bn)} | bn * BSIZE < i1[m].size
        ensures AddrAt(blocks, i1, PlaceOf(m, bn)) != 0
      {
        TruncAddr(sb, b0, i0, owner, blocks, n, NDIRECT + NINDIRECT + 1, PlaceOf(m, bn));
      }
    }
  }
}
