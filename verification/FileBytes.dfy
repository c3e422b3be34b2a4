/** A file as a plain byte sequence, and what reads and writes do to it. */
module FileBytes {
  import opened Common
  import opened BlockMap

  /** The bytes of inode n, offset 0 up to its size. */
  ghost function Contents(blocks: seq<Blk>, inodes: seq<Inode>, n: nat): (c: seq<byte>)
    requires n < |inodes|
    ensures |c| == inodes[n].size
  {
    seq(inodes[n].size, k requires 0 <= k => FileByte(blocks, inodes, n, k / BSIZE, k % BSIZE))
  }

  /** c overwritten, or extended, at off by s. */
  ghost function Overwrite(c: seq<byte>, off: nat, s: seq<byte>): seq<byte>
    requires off <= |c|
  {
    c[..off] + s + (if off + |s| < |c| then c[off + |s|..] else [])
  }

  /** Every block below the size is allocated. */
  ghost predicate NoHoles(blocks: seq<Blk>, inodes: seq<Inode>, n: nat) {
    n < |inodes| && forall bn: nat {:trigger PlaceOf(n, bn)} | bn * BSIZE < inodes[n].size ::
      AddrAt(blocks, inodes, PlaceOf(n, bn)) != 0
  }

  ghost predicate NoHolesAnywhere(blocks: seq<Blk>, inodes: seq<Inode>) {
    forall n: nat {:trigger NoHoles(blocks, inodes, n)} | n < |inodes| :: NoHoles(blocks, inodes, n)
  }

  // ------------------------------------------------------------------ writes

  ghost function WroteByte(b0: seq<Blk>, i0: seq<Inode>, n: nat, off: nat, src: seq<byte>, tot: nat, m: nat, bn: nat,
                           o: nat): byte
    requires tot <= |src|
  {
    if m == n && o < BSIZE && off <= bn * BSIZE + o < off + tot then src[bn * BSIZE + o - off]
    else FileByte(b0, i0, m, bn, o)
  }

  /** The first tot bytes of src are in file n from off on; every other byte of
      every file is as it was. */
  ghost predicate Wrote(b0: seq<Blk>, i0: seq<Inode>, b1: seq<Blk>, i1: seq<Inode>, n: nat, off: nat, src: seq<byte>,
                        tot: nat)
    requires tot <= |src|
  {
    forall m: nat, bn: nat, o: nat :: FileByte(b1, i1, m, bn, o) == WroteByte(b0, i0, n, off, src, tot, m, bn, o)
  }

  lemma WroteNothing(b0: seq<Blk>, i0: seq<Inode>, b1: seq<Blk>, i1: seq<Inode>, n: nat, off: nat, src: seq<byte>)
    requires SameBytes(b0, i0, b1, i1)
    ensures Wrote(b0, i0, b1, i1, n, off, src, 0)
  {
  }

  lemma WroteThenSame(b0: seq<Blk>, i0: seq<Inode>, b1: seq<Blk>, i1: seq<Inode>, b2: seq<Blk>, i2: seq<Inode>,
                      n: nat, off: nat, src: seq<byte>, tot: nat)
    requires tot <= |src| && Wrote(b0, i0, b1, i1, n, off, src, tot) && SameBytes(b1, i1, b2, i2)
    ensures Wrote(b0, i0, b2, i2, n, off, src, tot)
  {
    forall m: nat, bn: nat, o: nat ensures FileByte(b2, i2, m, bn, o) == WroteByte(b0, i0, n, off, src, tot, m, bn, o) {
      assert FileByte(b2, i2, m, bn, o) == FileByte(b1, i1, m, bn, o);
    }
  }

  /** Bytes lo up to lo + |s| of file block bn replaced by s. */
  ghost predicate Patched(b0: seq<Blk>, i0: seq<Inode>, b1: seq<Blk>, i1: seq<Inode>, n: nat, bn: nat, lo: nat,
                          s: seq<byte>)
  {
    forall m: nat, cn: nat, o: nat :: FileByte(b1, i1, m, cn, o) ==
      if m == n && cn == bn && lo <= o < lo + |s| then s[o - lo] else FileByte(b0, i0, m, cn, o)
  }

  lemma WroteStep(b0: seq<Blk>, i0: seq<Inode>, b1: seq<Blk>, i1: seq<Inode>, b2: seq<Blk>, i2: seq<Inode>,
                  n: nat, off: nat, src: seq<byte>, tot: nat, k: nat)
    requires tot + k <= |src| && Wrote(b0, i0, b1, i1, n, off, src, tot)
    requires (off + tot) % BSIZE + k <= BSIZE
    requires Patched(b1, i1, b2, i2, n, (off + tot) / BSIZE, (off + tot) % BSIZE, src[tot..tot + k])
    ensures Wrote(b0, i0, b2, i2, n, off, src, tot + k)
  {
    forall m: nat, bn: nat, o: nat
      ensures FileByte(b2, i2, m, bn, o) == WroteByte(b0, i0, n, off, src, tot + k, m, bn, o)
    {
      assert FileByte(b1, i1, m, bn, o) == WroteByte(b0, i0, n, off, src, tot, m, bn, o);
      InBlock(off + tot, bn, o);
    }
  }

  lemma InBlock(x: nat, bn: nat, o: nat)
    ensures x == x / BSIZE * BSIZE + x % BSIZE
    ensures o < BSIZE ==> (bn == x / BSIZE <==> x / BSIZE * BSIZE <= bn * BSIZE + o < (x / BSIZE + 1) * BSIZE)
    ensures o < BSIZE ==> (bn * BSIZE + o) / BSIZE == bn && (bn * BSIZE + o) % BSIZE == o
  {
  }

  /** A write of tot bytes, of which the first len extend the file, seen as a
      file operation: the old bytes overwritten or extended. */
  lemma WroteContents(b0: seq<Blk>, i0: seq<Inode>, b1: seq<Blk>, i1: seq<Inode>, n: nat, off: nat, src: seq<byte>,
                      len: nat, tot: nat)
    requires n < |i0| && n < |i1| && off <= i0[n].size && len <= tot <= |src| && Wrote(b0, i0, b1, i1, n, off, src, tot)
    requires i1[n].size == Grown(i0[n].size, off + len)
    ensures Contents(b1, i1, n) == Overwrite(Contents(b0, i0, n), off, src[..tot])[..i1[n].size]
  {
    var c0, c1 := Contents(b0, i0, n), Contents(b1, i1, n);
    var w := Overwrite(c0, off, src[..tot]);
    forall k | 0 <= k < |c1| ensures c1[k] == w[k] {
      InBlock(k, k / BSIZE, k % BSIZE);
      assert c1[k] == FileByte(b1, i1, n, k / BSIZE, k % BSIZE);
      assert c1[k] == WroteByte(b0, i0, n, off, src, tot, n, k / BSIZE, k % BSIZE);
      OverwriteAt(c0, off, src[..tot], k);
    }
    assert c1 == w[..|c1|];
  }

  lemma OverwriteAt(c: seq<byte>, off: nat, s: seq<byte>, k: nat)
    requires off <= |c| && k < Grown(|c|, off + |s|)
    ensures |Overwrite(c, off, s)| == Grown(|c|, off + |s|)
    ensures Overwrite(c, off, s)[k] == if off <= k < off + |s| then s[k - off] else c[k]
  {
  }

  /** The size of a file that is written up to `end`. */
  function Grown(size: nat, end: nat): nat { if end > size then end else size }

  /** File m holds what it held. */
  ghost predicate SameFile(b0: seq<Blk>, i0: seq<Inode>, b1: seq<Blk>, i1: seq<Inode>, m: nat) {
    m < |i0| && m < |i1| && Contents(b1, i1, m) == Contents(b0, i0, m)
  }

  ghost predicate OthersSame(b0: seq<Blk>, i0: seq<Inode>, b1: seq<Blk>, i1: seq<Inode>, n: nat) {
    |i1| == |i0| && forall m: nat {:trigger SameFile(b0, i0, b1, i1, m)} | m < |i0| && m != n ::
      SameFile(b0, i0, b1, i1, m)
  }

  /** File n holds what it held, overwritten or extended by s at off, as far as
      its size goes; the other files hold what they held. */
  ghost predicate Updated(b0: seq<Blk>, i0: seq<Inode>, b1: seq<Blk>, i1: seq<Inode>, n: nat, off: nat, s: seq<byte>) {
    && n < |i0| && n < |i1| && off <= i0[n].size && i1[n].size <= Grown(i0[n].size, off + |s|)
    && Contents(b1, i1, n) == Overwrite(Contents(b0, i0, n), off, s)[..i1[n].size]
    && OthersSame(b0, i0, b1, i1, n)
  }

  lemma SameFileIf(b0: seq<Blk>, i0: seq<Inode>, b1: seq<Blk>, i1: seq<Inode>, n: nat, off: nat, src: seq<byte>,
                   tot: nat, m: nat)
    requires tot <= |src| && Wrote(b0, i0, b1, i1, n, off, src, tot) && (m != n || tot == 0)
    requires m < |i0| && m < |i1| && i1[m].size == i0[m].size
    ensures SameFile(b0, i0, b1, i1, m)
  {
    forall k | 0 <= k < i0[m].size ensures Contents(b1, i1, m)[k] == Contents(b0, i0, m)[k] {
      assert FileByte(b1, i1, m, k / BSIZE, k % BSIZE) == WroteByte(b0, i0, n, off, src, tot, m, k / BSIZE, k % BSIZE);
    }
  }

  lemma OthersKeep(b0: seq<Blk>, i0: seq<Inode>, b1: seq<Blk>, i1: seq<Inode>, n: nat, off: nat, src: seq<byte>,
                   tot: nat)
    requires tot <= |src| && Wrote(b0, i0, b1, i1, n, off, src, tot) && OtherSizes(i0, i1, n)
    ensures OthersSame(b0, i0, b1, i1, n)
  {
    forall m: nat | m < |i0| && m != n ensures SameFile(b0, i0, b1, i1, m) {
      SameFileIf(b0, i0, b1, i1, n, off, src, tot, m);
    }
  }

  /** The bytes written, as a file operation. */
  lemma WroteUpdates(b0: seq<Blk>, i0: seq<Inode>, b1: seq<Blk>, i1: seq<Inode>, n: nat, off: nat, src: seq<byte>,
                     len: nat, tot: nat)
    requires n < |i0| && OtherSizes(i0, i1, n) && off <= i0[n].size && len <= tot <= |src|
    requires Wrote(b0, i0, b1, i1, n, off, src, tot) && i1[n].size == Grown(i0[n].size, off + len)
    ensures Updated(b0, i0, b1, i1, n, off, src[..tot])
  {
    WroteContents(b0, i0, b1, i1, n, off, src, len, tot);
    OthersKeep(b0, i0, b1, i1, n, off, src, tot);
  }

  // ------------------------------------------------------- the byte operation

  /** The 1024 bytes of a data block. */
  function BytesOf(b: Blk): (s: seq<byte>)
    requires b.Bytes? ==> |b.d| == BSIZE
    ensures |s| == BSIZE
  {
    if b.Bytes? then b.d else Repeat(0, BSIZE)
  }

  lemma BytesOfAt(b: Blk, o: nat)
    requires (b.Bytes? ==> |b.d| == BSIZE) && o < BSIZE
    ensures BytesOf(b)[o] == ByteAt(b, o)
  {
    RepeatAt(0 as byte, BSIZE, o);
  }

  /** memmove(bp->data + lo, src, |s|). */
  function Patch(d: seq<byte>, lo: nat, s: seq<byte>): (r: seq<byte>)
    requires lo + |s| <= |d|
    ensures |r| == |d|
  {
    d[..lo] + s + d[lo + |s|..]
  }

  lemma PatchAt(d: seq<byte>, lo: nat, s: seq<byte>, o: nat)
    requires lo + |s| <= |d| && o < |d|
    ensures Patch(d, lo, s)[o] == if lo <= o < lo + |s| then s[o - lo] else d[o]
  {
  }

  lemma PatchKeeps(sb: Superblock, blocks: seq<Blk>, inodes: seq<Inode>, owner: Owners, n: nat, bn: nat, lo: nat,
                   s: seq<byte>)
    requires Inv(sb, blocks, inodes, owner, {}) && lo + |s| <= BSIZE && AddrAt(blocks, inodes, PlaceOf(n, bn)) != 0
    ensures var a := AddrAt(blocks, inodes, PlaceOf(n, bn));
      && 0 < a < |blocks| && (blocks[a].Bytes? ==> |blocks[a].d| == BSIZE)
      && var blocks' := blocks[a := Bytes(Patch(BytesOf(blocks[a]), lo, s))];
        && Inv(sb, blocks', inodes, owner, {})
        && Patched(blocks, inodes, blocks', inodes, n, bn, lo, s)
        && Fills(blocks, inodes, blocks', inodes, PlaceOf(n, bn), PlaceOf(n, bn))
  {
    var a := AddrAt(blocks, inodes, PlaceOf(n, bn));
    AddrOwned(sb, blocks, inodes, owner, {}, PlaceOf(n, bn));
    assert Owned(sb, blocks, inodes, owner, a);
    var d := Patch(BytesOf(blocks[a]), lo, s);
    PutDataKeeps(sb, blocks, inodes, owner, {}, n, bn, d);
    var blocks' := blocks[a := Bytes(d)];
    forall m: nat, cn: nat, o: nat
      ensures FileByte(blocks', inodes, m, cn, o) ==
        if m == n && cn == bn && lo <= o < lo + |s| then s[o - lo] else FileByte(blocks, inodes, m, cn, o)
    {
      if m == n && cn == bn && o < BSIZE {
        PatchAt(BytesOf(blocks[a]), lo, s, o);
        BytesOfAt(blocks[a], o);
      }
    }
    forall p: Place | p.Direct? ==> p.i < NDIRECT
      ensures PlaceKept(blocks, inodes, blocks', inodes, p, PlaceOf(n, bn), PlaceOf(n, bn))
    {
    }
  }

  // --------------------------------------------------------- allocated places

  ghost predicate PlaceHeld(b0: seq<Blk>, i0: seq<Inode>, b1: seq<Blk>, i1: seq<Inode>, p: Place) {
    AddrAt(b0, i0, p) != 0 ==> AddrAt(b1, i1, p) == AddrAt(b0, i0, p)
  }

  /** No place loses its block. */
  ghost predicate Later(b0: seq<Blk>, i0: seq<Inode>, b1: seq<Blk>, i1: seq<Inode>) {
    && |i1| == |i0|
    && forall p: Place {:trigger PlaceHeld(b0, i0, b1, i1, p)} | p.Direct? ==> p.i < NDIRECT ::
      PlaceHeld(b0, i0, b1, i1, p)
  }

  ghost predicate SameSizes(i0: seq<Inode>, i1: seq<Inode>) {
    |i1| == |i0| && forall m | 0 <= m < |i0| :: i1[m].size == i0[m].size
  }

  /** Only file n may have another size. */
  ghost predicate OtherSizes(i0: seq<Inode>, i1: seq<Inode>, n: nat) {
    |i1| == |i0| && forall m | 0 <= m < |i0| && m != n :: i1[m].size == i0[m].size
  }

  lemma LaterFills(b0: seq<Blk>, i0: seq<Inode>, b1: seq<Blk>, i1: seq<Inode>, b2: seq<Blk>, i2: seq<Inode>, q: Place,
                   r: Place)
    requires Later(b0, i0, b1, i1) && Fills(b1, i1, b2, i2, q, r)
    ensures Later(b0, i0, b2, i2)
  {
    forall p: Place | p.Direct? ==> p.i < NDIRECT ensures PlaceHeld(b0, i0, b2, i2, p) {
      assert PlaceHeld(b0, i0, b1, i1, p) && PlaceKept(b1, i1, b2, i2, p, q, r);
    }
  }

  ghost function SetSize(inodes: seq<Inode>, n: nat, sz: nat): seq<Inode>
    requires n < |inodes|
  {
    inodes[n := Inode(inodes[n].addrs, sz)]
  }

  lemma SetSizeKeeps(sb: Superblock, blocks: seq<Blk>, inodes: seq<Inode>, owner: Owners, n: nat, sz: nat)
    requires Inv(sb, blocks, inodes, owner, {}) && n < |inodes|
    ensures Inv(sb, blocks, SetSize(inodes, n, sz), owner, {})
    ensures SameBytes(blocks, inodes, blocks, SetSize(inodes, n, sz))
    ensures forall p :: AddrAt(blocks, SetSize(inodes, n, sz), p) == AddrAt(blocks, inodes, p)
  {
    var inodes' := SetSize(inodes, n, sz);
    forall m: nat, i: nat ensures Get(inodes', m, i) == Get(inodes, m, i) {}
    forall p | PlaceOk(inodes', p) ensures Stored(blocks, inodes', owner, p) {
      assert Stored(blocks, inodes, owner, p);
    }
    forall b | b in owner ensures Owned(sb, blocks, inodes', owner, b) { assert Owned(sb, blocks, inodes, owner, b); }
  }

  // ------------------------------------------------------- transaction budget

  /** 1 if the place went from empty to filled. */
  ghost function Filled(b0: seq<Blk>, i0: seq<Inode>, b1: seq<Blk>, i1: seq<Inode>, p: Place): nat {
    if AddrAt(b0, i0, p) == 0 && AddrAt(b1, i1, p) != 0 then 1 else 0
  }

  ghost function NonZero(b: nat): set<nat> { if b == 0 then {} else {b} }

  /** An unaligned write begins inside an existing block. */
  function Inside(off: nat): nat { if off % BSIZE != 0 then 1 else 0 }

  /** After `it` blocks: at most one data block each, and one bitmap block for
      each block allocated, where an unaligned first block is not. */
  ghost predicate Within(data: set<nat>, bms: set<nat>, it: nat, off: nat, ind: nat) {
    |data| <= it && |bms| <= it - (if it > 0 then Inside(off) else 0) + ind
  }

  /** writei is before or at the start of block `it` of the write. */
  ghost predicate AtBlock(off: nat, tot: nat, cnt: nat, it: nat) {
    if it == 0 then tot == 0
    else
      var end := (off / BSIZE + it) * BSIZE;
      off + tot <= end && (tot < cnt ==> off + tot == end)
  }

  lemma AtMostFour(off: nat, tot: nat, cnt: nat, it: nat)
    requires AtBlock(off, tot, cnt, it) && tot < cnt <= 3 * BSIZE
    ensures it <= 3 && (it == 3 ==> Inside(off) == 1)
  {
  }

  function Chunk(off: nat, rest: nat): nat { if rest < BSIZE - off % BSIZE then rest else BSIZE - off % BSIZE }

  lemma ChunkFits(x: nat, rest: nat)
    requires 0 < rest
    ensures 0 < Chunk(x, rest) <= rest && x % BSIZE + Chunk(x, rest) <= BSIZE
  {
  }

  lemma ChunkAt(off: nat, tot: nat, cnt: nat, it: nat)
    requires AtBlock(off, tot, cnt, it) && tot < cnt && off + cnt <= MAXFILE * BSIZE
    ensures (off + tot) / BSIZE == off / BSIZE + it < MAXFILE
    ensures (off + tot) % BSIZE + Chunk(off + tot, cnt - tot) <= BSIZE
  {
    NextBlock(off, tot, cnt, it);
  }

  lemma NextBlock(off: nat, tot: nat, cnt: nat, it: nat)
    requires AtBlock(off, tot, cnt, it) && tot < cnt
    ensures AtBlock(off, tot + Chunk(off + tot, cnt - tot), cnt, it + 1)
    ensures (off + tot) / BSIZE == off / BSIZE + it && 0 < Chunk(off + tot, cnt - tot) <= cnt - tot
  {
  }

  /** The bound filewrite relies on: ten blocks at most. */
  lemma TenBlocks(data: set<nat>, bms: set<nat>, it: nat, off: nat, ind: nat, a: nat, b: nat)
    requires Within(data, bms, it, off, ind) && ind <= 1 && it <= 4 && (it == 4 ==> Inside(off) == 1)
    ensures |data + bms + NonZero(a) + {b}| <= 10
  {
    CardUnion(data, bms);
    CardUnion(data + bms, NonZero(a));
    CardUnion(data + bms + NonZero(a), {b});
  }

  lemma CardUnion(x: set<nat>, y: set<nat>)
    ensures |x + y| <= |x| + |y|
  {
    assert x + y == x + (y - x);
    assert |x + (y - x)| == |x| + |y - x|;
    assert (y - x) + (y * x) == y;
    assert |y| == |y - x| + |y * x|;
  }

  /** File blocks lo up to hi are there. */
  ghost predicate Reached(blocks: seq<Blk>, inodes: seq<Inode>, n: nat, lo: nat, hi: nat) {
    forall bn: nat {:trigger PlaceOf(n, bn)} | lo <= bn < hi :: AddrAt(blocks, inodes, PlaceOf(n, bn)) != 0
  }

  lemma StaysReached(b1: seq<Blk>, i1: seq<Inode>, b2: seq<Blk>, i2: seq<Inode>, n: nat, q: Place, r: Place, lo: nat,
                     hi: nat)
    requires Fills(b1, i1, b2, i2, q, r)
    requires Reached(b1, i1, n, lo, hi)
    ensures Reached(b2, i2, n, lo, hi) && (AddrAt(b2, i2, PlaceOf(n, hi)) != 0 ==> Reached(b2, i2, n, lo, hi + 1))
  {
    forall bn: nat {:trigger PlaceOf(n, bn)} | lo <= bn < hi ensures AddrAt(b2, i2, PlaceOf(n, bn)) != 0 {
      assert PlaceKept(b1, i1, b2, i2, PlaceOf(n, bn), q, r);
    }
  }

  /** Accounting for one more call of bmap. */
  lemma Spend(b0: seq<Blk>, i0: seq<Inode>, b1: seq<Blk>, i1: seq<Inode>, b2: seq<Blk>, i2: seq<Inode>,
              n: nat, off: nat, it: nat, data: set<nat>, bms: set<nat>, bm: set<nat>, addr: nat)
    requires Later(b0, i0, b1, i1) && Fills(b1, i1, b2, i2, PlaceOf(n, off / BSIZE + it), Ind(n))
    requires off % BSIZE != 0 ==> AddrAt(b0, i0, PlaceOf(n, off / BSIZE)) != 0
    requires Within(data, bms, it, off, Filled(b0, i0, b1, i1, Ind(n)))
    requires addr == AddrAt(b2, i2, PlaceOf(n, off / BSIZE + it))
    requires |bm| <= Filled(b1, i1, b2, i2, PlaceOf(n, off / BSIZE + it)) + Filled(b1, i1, b2, i2, Ind(n))
    ensures addr == 0 ==> Within(data, bms + bm, it, off, Filled(b0, i0, b2, i2, Ind(n)))
    ensures addr != 0 ==> Within(data + {addr}, bms + bm, it + 1, off, Filled(b0, i0, b2, i2, Ind(n)))
  {
    CardUnion(bms, bm);
    CardUnion(data, {addr});
    assert PlaceHeld(b0, i0, b1, i1, Ind(n)) && PlaceHeld(b0, i0, b1, i1, PlaceOf(n, off / BSIZE));
    assert PlaceKept(b1, i1, b2, i2, Ind(n), PlaceOf(n, off / BSIZE + it), Ind(n));
  }

  ghost predicate LogsOnly(l0: set<nat>, l: set<nat>, data: set<nat>, bms: set<nat>, ind: nat) {
    l <= l0 + data + bms + NonZero(ind)
  }

  lemma Logs(b1: seq<Blk>, i1: seq<Inode>, b2: seq<Blk>, i2: seq<Inode>, n: nat, q: Place,
             l0: set<nat>, l1: set<nat>, l2: set<nat>, data: set<nat>, bms: set<nat>, bm: set<nat>, addr: nat)
    requires Fills(b1, i1, b2, i2, q, Ind(n))
    requires LogsOnly(l0, l1, data, bms, Get(i1, n, NDIRECT))
    requires l2 <= l1 + bm + NonZero(addr) + NonZero(Get(i2, n, NDIRECT))
    ensures addr == 0 ==> LogsOnly(l0, l2, data, bms + bm, Get(i2, n, NDIRECT))
    ensures addr != 0 ==> LogsOnly(l0, l2, data + {addr}, bms + bm, Get(i2, n, NDIRECT))
  {
    assert PlaceKept(b1, i1, b2, i2, Ind(n), q, Ind(n));
  }

  /** What the loop of writei has done after reaching `it` blocks: sizes and
      block numbers stand, those blocks are there, and only `data`, `bms` and the
      indirect block were logged since l0. */
  ghost predicate Account(b0: seq<Blk>, i0: seq<Inode>, b1: seq<Blk>, i1: seq<Inode>, n: nat, off: nat, it: nat,
                          l0: set<nat>, l1: set<nat>, data: set<nat>, bms: set<nat>)
  {
    && SameSizes(i0, i1) && Later(b0, i0, b1, i1) && Reached(b1, i1, n, off / BSIZE, off / BSIZE + it)
    && LogsOnly(l0, l1, data, bms, Get(i1, n, NDIRECT))
    && ((off % BSIZE != 0 ==> AddrAt(b0, i0, PlaceOf(n, off / BSIZE)) != 0) ==>
          Within(data, bms, it, off, Filled(b0, i0, b1, i1, Ind(n))))
  }

  lemma AccountStart(b0: seq<Blk>, i0: seq<Inode>, n: nat, off: nat, l0: set<nat>)
    ensures Account(b0, i0, b0, i0, n, off, 0, l0, l0, {}, {})
  {
  }

  lemma AccountStep(b0: seq<Blk>, i0: seq<Inode>, b1: seq<Blk>, i1: seq<Inode>, b2: seq<Blk>, i2: seq<Inode>, n: nat,
                    off: nat, it: nat, l0: set<nat>, l1: set<nat>, l2: set<nat>, data: set<nat>, bms: set<nat>,
                    bm: set<nat>, addr: nat)
    requires Account(b0, i0, b1, i1, n, off, it, l0, l1, data, bms)
    requires var q := PlaceOf(n, off / BSIZE + it);
      && Fills(b1, i1, b2, i2, q, Ind(n)) && addr == AddrAt(b2, i2, q)
      && |bm| <= Filled(b1, i1, b2, i2, q) + Filled(b1, i1, b2, i2, Ind(n))
    requires l2 <= l1 + bm + NonZero(addr) + NonZero(Get(i2, n, NDIRECT))
    ensures Account(b0, i0, b2, i2, n, off, if addr == 0 then it else it + 1, l0, l2, data + NonZero(addr), bms + bm)
  {
    var q := PlaceOf(n, off / BSIZE + it);
    LaterFills(b0, i0, b1, i1, b2, i2, q, Ind(n));
    StaysReached(b1, i1, b2, i2, n, q, Ind(n), off / BSIZE, off / BSIZE + it);
    Logs(b1, i1, b2, i2, n, q, l0, l1, l2, data, bms, bm, addr);
    if off % BSIZE != 0 ==> AddrAt(b0, i0, PlaceOf(n, off / BSIZE)) != 0 {
      Spend(b0, i0, b1, i1, b2, i2, n, off, it, data, bms, bm, addr);
    }
    assert addr == 0 ==> data + NonZero(addr) == data;
  }

  lemma ThenPatched(b0: seq<Blk>, i0: seq<Inode>, b1: seq<Blk>, i1: seq<Inode>, b2: seq<Blk>, i2: seq<Inode>,
                    n: nat, bn: nat, lo: nat, s: seq<byte>)
    requires SameBytes(b0, i0, b1, i1) && Patched(b1, i1, b2, i2, n, bn, lo, s)
    ensures Patched(b0, i0, b2, i2, n, bn, lo, s)
  {
    forall m: nat, cn: nat, o: nat ensures FileByte(b2, i2, m, cn, o) ==
      if m == n && cn == bn && lo <= o < lo + |s| then s[o - lo] else FileByte(b0, i0, m, cn, o)
    {
      assert FileByte(b1, i1, m, cn, o) == FileByte(b0, i0, m, cn, o);
    }
  }

  /** Writing into a block that is there fills no further place. */
  lemma FillsThen(b0: seq<Blk>, i0: seq<Inode>, b1: seq<Blk>, i1: seq<Inode>, b2: seq<Blk>, i2: seq<Inode>, q: Place,
                  r: Place)
    requires Fills(b0, i0, b1, i1, q, r) && Fills(b1, i1, b2, i2, q, q) && AddrAt(b1, i1, q) != 0
    requires (q.Direct? ==> q.i < NDIRECT) && (r.Direct? ==> r.i < NDIRECT)
    ensures Fills(b0, i0, b2, i2, q, r) && AddrAt(b2, i2, q) == AddrAt(b1, i1, q)
    ensures AddrAt(b2, i2, r) == AddrAt(b1, i1, r)
  {
    assert PlaceKept(b1, i1, b2, i2, q, q, q) && PlaceKept(b1, i1, b2, i2, r, q, q);
    forall p: Place | p.Direct? ==> p.i < NDIRECT ensures PlaceKept(b0, i0, b2, i2, p, q, r) {
      assert PlaceKept(b0, i0, b1, i1, p, q, r) && PlaceKept(b1, i1, b2, i2, p, q, q);
    }
  }

  lemma HolesStayFilled(b0: seq<Blk>, i0: seq<Inode>, b1: seq<Blk>, i1: seq<Inode>, m: nat)
    requires m < |i0| && Later(b0, i0, b1, i1) && i1[m].size <= i0[m].size && NoHoles(b0, i0, m)
    ensures NoHoles(b1, i1, m)
  {
    forall bn: nat {:trigger PlaceOf(m, bn)} | bn * BSIZE < i1[m].size ensures AddrAt(b1, i1, PlaceOf(m, bn)) != 0 {
      assert PlaceHeld(b0, i0, b1, i1, PlaceOf(m, bn));
    }
  }

  /** A write that starts within the file leaves no hole behind. */
  lemma WriteLeavesNoHole(b0: seq<Blk>, i0: seq<Inode>, b1: seq<Blk>, i1: seq<Inode>, n: nat, off: nat, tot: nat,
                          it: nat)
    requires n < |i0| && off <= i0[n].size && Later(b0, i0, b1, i1) && NoHoles(b0, i0, n)
    requires i1[n].size == Grown(i0[n].size, off + tot)
    requires tot > 0 ==> Reached(b1, i1, n, off / BSIZE, off / BSIZE + it) && off + tot <= (off / BSIZE + it) * BSIZE
    ensures NoHoles(b1, i1, n)
  {
    forall bn: nat {:trigger PlaceOf(n, bn)} | bn * BSIZE < i1[n].size ensures AddrAt(b1, i1, PlaceOf(n, bn)) != 0 {
      assert PlaceHeld(b0, i0, b1, i1, PlaceOf(n, bn));
      if bn * BSIZE < i0[n].size { assert AddrAt(b0, i0, PlaceOf(n, bn)) != 0; }
    }
  }

  /** So no file has a hole after it. */
  lemma WriteLeavesNoHoles(b0: seq<Blk>, i0: seq<Inode>, b1: seq<Blk>, i1: seq<Inode>, n: nat, off: nat, tot: nat,
                           it: nat)
    requires n < |i0| && off <= i0[n].size && Later(b0, i0, b1, i1) && NoHolesAnywhere(b0, i0)
    requires i1[n].size == Grown(i0[n].size, off + tot) && OtherSizes(i0, i1, n)
    requires tot > 0 ==> Reached(b1, i1, n, off / BSIZE, off / BSIZE + it) && off + tot <= (off / BSIZE + it) * BSIZE
    ensures NoHolesAnywhere(b1, i1)
  {
    forall m: nat | m < |i1| ensures NoHoles(b1, i1, m) {
      assert NoHoles(b0, i0, m);
      if m == n {
        WriteLeavesNoHole(b0, i0, b1, i1, n, off, tot, it);
      } else {
        HolesStayFilled(b0, i0, b1, i1, m);
      }
    }
  }

  lemma FirstBlockThere(blocks: seq<Blk>, inodes: seq<Inode>, n: nat, off: nat)
    requires n < |inodes| && off <= inodes[n].size && NoHoles(blocks, inodes, n) && off % BSIZE != 0
    ensures AddrAt(blocks, inodes, PlaceOf(n, off / BSIZE)) != 0
  {
    assert off / BSIZE * BSIZE < off;
  }

  /** Two writes, the second where the first ended. */
  lemma WroteJoin(b0: seq<Blk>, i0: seq<Inode>, b1: seq<Blk>, i1: seq<Inode>, b2: seq<Blk>, i2: seq<Inode>,
                  n: nat, off: nat, src: seq<byte>, i: nat, r: nat)
    requires i + r <= |src| && Wrote(b0, i0, b1, i1, n, off, src, i) && Wrote(b1, i1, b2, i2, n, off + i, src[i..], r)
    ensures Wrote(b0, i0, b2, i2, n, off, src, i + r)
  {
    forall m: nat, bn: nat, o: nat
      ensures FileByte(b2, i2, m, bn, o) == WroteByte(b0, i0, n, off, src, i + r, m, bn, o)
    {
      assert FileByte(b2, i2, m, bn, o) == WroteByte(b1, i1, n, off + i, src[i..], r, m, bn, o);
      assert FileByte(b1, i1, m, bn, o) == WroteByte(b0, i0, n, off, src, i, m, bn, o);
    }
  }

  lemma SameBlock(x: nat, k: nat)
    requires x % BSIZE + k < BSIZE
    ensures (x + k) / BSIZE == x / BSIZE && (x + k) % BSIZE == x % BSIZE + k
  {
    DivIs(x + k, BSIZE, x / BSIZE, x % BSIZE + k);
  }

  /** A byte of a file in the block of byte x. */
  lemma ByteInBlock(blocks: seq<Blk>, inodes: seq<Inode>, n: nat, x: nat, k: nat)
    requires n < |inodes| && x + k < inodes[n].size && x % BSIZE + k < BSIZE
    requires var a := AddrAt(blocks, inodes, PlaceOf(n, x / BSIZE)); At(blocks, a).Bytes? ==> |At(blocks, a).d| == BSIZE
    ensures var a := AddrAt(blocks, inodes, PlaceOf(n, x / BSIZE));
      BytesOf(At(blocks, a))[x % BSIZE + k] == Contents(blocks, inodes, n)[x + k]
  {
    BytesOfAt(At(blocks, AddrAt(blocks, inodes, PlaceOf(n, x / BSIZE))), x % BSIZE + k);
    SameBlock(x, k);
  }

  /** The slice of a file that lies in one block. */
  lemma SliceInBlock(blocks: seq<Blk>, inodes: seq<Inode>, n: nat, x: nat, m: nat)
    requires n < |inodes| && x + m <= inodes[n].size && x % BSIZE + m <= BSIZE
    requires var a := AddrAt(blocks, inodes, PlaceOf(n, x / BSIZE)); At(blocks, a).Bytes? ==> |At(blocks, a).d| == BSIZE
    ensures var a := AddrAt(blocks, inodes, PlaceOf(n, x / BSIZE));
      BytesOf(At(blocks, a))[x % BSIZE..x % BSIZE + m] == Contents(blocks, inodes, n)[x..x + m]
  {
    var a, lo := AddrAt(blocks, inodes, PlaceOf(n, x / BSIZE)), x % BSIZE;
    var d, c := BytesOf(At(blocks, a)), Contents(blocks, inodes, n);
    forall k: nat | k < m ensures d[lo + k] == Shifted(c, x, k) { ByteInBlock(blocks, inodes, n, x, k); }
    SameSlice(d, c, lo, x, m);
  }

  lemma SameSlice(d: seq<byte>, c: seq<byte>, lo: nat, x: nat, m: nat)
    requires lo + m <= |d| && x + m <= |c|
    requires forall k: nat {:trigger Shifted(c, x, k)} | k < m :: d[lo + k] == Shifted(c, x, k)
    ensures d[lo..lo + m] == c[x..x + m]
  {
    var s, t := d[lo..lo + m], c[x..x + m];
    forall k: nat | k < m ensures s[k] == t[k] { assert d[lo + k] == Shifted(c, x, k); }
  }

  ghost function Shifted(c: seq<byte>, x: nat, k: nat): byte { if x + k < |c| then c[x + k] else 0 }

  /** A file without holes is no longer than the block map can address. */
  lemma SizeBound(sb: Superblock, blocks: seq<Blk>, inodes: seq<Inode>, owner: Owners, n: nat)
    requires Inv(sb, blocks, inodes, owner, {}) && n < |inodes| && NoHoles(blocks, inodes, n)
    ensures inodes[n].size <= MAXFILE * BSIZE
  {
    if inodes[n].size > MAXFILE * BSIZE {
      AddrOwned(sb, blocks, inodes, owner, {}, PlaceOf(n, MAXFILE));
    }
  }

  // --------------------------------------------------------------- truncation

  /** The order in which itrunc reaches a place. */
  function Rank(p: Place): nat {
    match p
    case Direct(_, i) => i
    case Listed(_, j) => NDIRECT + j
    case Ind(_) => NDIRECT + NINDIRECT
  }

  function PlaceAt(n: nat, k: nat): Place {
    if k < NDIRECT then Direct(n, k) else if k < NDIRECT + NINDIRECT then Listed(n, k - NDIRECT) else Ind(n)
  }

  /** c belongs to inode n and itrunc has passed its place. */
  ghost predicate Passed(owner: Owners, n: nat, k: nat, c: nat) {
    c in owner && owner[c].inum == n && Rank(owner[c]) < k
  }

  ghost predicate FreedBit(sb: Superblock, b0: seq<Blk>, owner: Owners, blocks: seq<Blk>, n: nat, k: nat, c: nat) {
    Mapped(sb, blocks, c) && (Bit(sb, blocks, c) <==> Bit(sb, b0, c) && !Passed(owner, n, k, c))
  }

  /** Exactly the blocks of inode n at the first k places have been freed. */
  ghost predicate FreedTo(sb: Superblock, b0: seq<Blk>, owner: Owners, blocks: seq<Blk>, n: nat, k: nat) {
    && |blocks| == |b0| == sb.size
    && (forall c {:trigger FreedBit(sb, b0, owner, blocks, n, k, c)} | 0 <= c < sb.size ::
      FreedBit(sb, b0, owner, blocks, n, k, c))
    && (forall c | sb.nmeta <= c < sb.size :: blocks[c] == b0[c])
  }

  lemma FreedNone(sb: Superblock, b0: seq<Blk>, inodes: seq<Inode>, owner: Owners, n: nat)
    requires Inv(sb, b0, inodes, owner, {})
    ensures FreedTo(sb, b0, owner, b0, n, 0)
  {
    forall c | 0 <= c < sb.size ensures FreedBit(sb, b0, owner, b0, n, 0, c) { assert Mapped(sb, b0, c); }
  }

  lemma OwnedAtRank(sb: Superblock, b0: seq<Blk>, i0: seq<Inode>, owner: Owners, n: nat, k: nat, c: nat)
    requires Inv(sb, b0, i0, owner, {}) && n < |i0| && k <= NDIRECT + NINDIRECT
    ensures c in owner && owner[c].inum == n && Rank(owner[c]) == k <==> c != 0 && AddrAt(b0, i0, PlaceAt(n, k)) == c
  {
    if c in owner { assert Owned(sb, b0, i0, owner, c); }
    assert PlaceOk(i0, PlaceAt(n, k)) && Stored(b0, i0, owner, PlaceAt(n, k));
  }

  lemma FreedSkip(sb: Superblock, b0: seq<Blk>, i0: seq<Inode>, owner: Owners, blocks: seq<Blk>, n: nat, k: nat)
    requires Inv(sb, b0, i0, owner, {}) && n < |i0| && k <= NDIRECT + NINDIRECT
    requires FreedTo(sb, b0, owner, blocks, n, k) && AddrAt(b0, i0, PlaceAt(n, k)) == 0
    ensures FreedTo(sb, b0, owner, blocks, n, k + 1)
  {
    var k' := k + 1;
    forall c | 0 <= c < sb.size ensures FreedBit(sb, b0, owner, blocks, n, k', c) {
      assert FreedBit(sb, b0, owner, blocks, n, k, c);
      OwnedAtRank(sb, b0, i0, owner, n, k, c);
    }
  }

  /** The block at the next place is still in use, and freeing it moves on. */
  lemma FreedStep(sb: Superblock, b0: seq<Blk>, i0: seq<Inode>, owner: Owners, blocks: seq<Blk>, n: nat, k: nat, b: nat)
    requires Inv(sb, b0, i0, owner, {}) && n < |i0| && k <= NDIRECT + NINDIRECT
    requires FreedTo(sb, b0, owner, blocks, n, k) && AddrAt(b0, i0, PlaceAt(n, k)) == b && b != 0
    ensures sb.nmeta <= b < sb.size && Mapped(sb, blocks, b) && Bit(sb, blocks, b)
    ensures sb.Bblock(b) < |blocks| && blocks[sb.Bblock(b)].Bits? && |blocks[sb.Bblock(b)].m| == BPB
    ensures FreedTo(sb, b0, owner, SetBit(sb, blocks, b, false), n, k + 1)
  {
    OwnedAtRank(sb, b0, i0, owner, n, k, b);
    assert Owned(sb, b0, i0, owner, b) && Marked(sb, b0, owner, {}, b) && FreedBit(sb, b0, owner, blocks, n, k, b);
    BblockBelow(sb, b);
    var blocks', k' := SetBit(sb, blocks, b, false), k + 1;
    forall c | 0 <= c < sb.size ensures FreedBit(sb, b0, owner, blocks', n, k', c) {
      assert FreedBit(sb, b0, owner, blocks, n, k, c);
      OwnedAtRank(sb, b0, i0, owner, n, k, c);
      SetBitIs(sb, blocks, b, false, c);
    }
  }

  ghost function Without(owner: Owners, n: nat): Owners {
    map b | b in owner && owner[b].inum != n :: owner[b]
  }

  /** The addresses after itrunc has zeroed the first k. */
  function Cleared(addrs: seq<nat>, k: nat): (r: seq<nat>)
    requires k <= |addrs|
    ensures |r| == |addrs|
    ensures forall j | 0 <= j < |r| :: r[j] == if j < k then 0 else addrs[j]
  {
    if k == 0 then addrs else Cleared(addrs, k - 1)[k - 1 := 0]
  }

  function ZeroAddrs(): seq<nat> { [0, 0, 0, 0, 0, 0, 0, 0, 0, 0, 0, 0, 0] }

  lemma TruncAddr(sb: Superblock, b0: seq<Blk>, i0: seq<Inode>, owner: Owners, blocks: seq<Blk>, n: nat, k: nat,
                  p: Place)
    requires Inv(sb, b0, i0, owner, {}) && n < |i0| && FreedTo(sb, b0, owner, blocks, n, k)
    requires p.Direct? ==> p.i < NDIRECT
    ensures var i1 := i0[n := Inode(ZeroAddrs(), 0)];
      AddrAt(blocks, i1, p) == if p.inum == n then 0 else AddrAt(b0, i0, p)
    ensures p.inum != n ==> At(blocks, AddrAt(b0, i0, p)) == At(b0, AddrAt(b0, i0, p))
  {
    AddrOwned(sb, b0, i0, owner, {}, p);
    AddrOwned(sb, b0, i0, owner, {}, Ind(p.inum));
    var a, ind := AddrAt(b0, i0, p), Get(i0, p.inum, NDIRECT);
    if a != 0 { assert Owned(sb, b0, i0, owner, a); }
    if ind != 0 { assert Owned(sb, b0, i0, owner, ind); }
  }

  /** With every place passed, exactly the inode's blocks are free and the other
      files are untouched. */
  lemma TruncKeeps(sb: Superblock, b0: seq<Blk>, i0: seq<Inode>, owner: Owners, blocks: seq<Blk>, n: nat)
    requires Inv(sb, b0, i0, owner, {}) && n < |i0| && FreedTo(sb, b0, owner, blocks, n, NDIRECT + NINDIRECT + 1)
    ensures var i1 := i0[n := Inode(ZeroAddrs(), 0)];
      && Inv(sb, blocks, i1, Without(owner, n), {})
      && forall m: nat, bn: nat, o: nat | m != n :: FileByte(blocks, i1, m, bn, o) == FileByte(b0, i0, m, bn, o)
  {
    var i1, owner' := i0[n := Inode(ZeroAddrs(), 0)], Without(owner, n);
    var k := NDIRECT + NINDIRECT + 1;
    forall m: nat, bn: nat, o: nat | m != n ensures FileByte(blocks, i1, m, bn, o) == FileByte(b0, i0, m, bn, o) {
      TruncAddr(sb, b0, i0, owner, blocks, n, k, PlaceOf(m, bn));
    }
    forall p | PlaceOk(i1, p) ensures Stored(blocks, i1, owner', p) {
      TruncAddr(sb, b0, i0, owner, blocks, n, k, p);
      if p.inum != n { assert PlaceOk(i0, p) && Stored(b0, i0, owner, p); }
    }
    forall b | b in owner' ensures Owned(sb, blocks, i1, owner', b) {
      assert Owned(sb, b0, i0, owner, b);
      TruncAddr(sb, b0, i0, owner, blocks, n, k, owner[b]);
    }
    forall c | 0 <= c < sb.size ensures Marked(sb, blocks, owner', {}, c) && Mapped(sb, blocks, c) {
      assert Marked(sb, b0, owner, {}, c) && FreedBit(sb, b0, owner, blocks, n, k, c);
      if c in owner { assert Owned(sb, b0, i0, owner, c); }
    }
  }
}
