/** The block map of kernel/fs.c: which inode place refers to which disk block,
    what the bitmap says, and the bytes a file denotes. */
module BlockMap {
  import opened Common

  const NDIRECT := 12
  const NINDIRECT := 256
  const MAXFILE := NDIRECT + NINDIRECT
  const BPB := 8 * BSIZE
  const IPB := 16                 // BSIZE / sizeof(struct dinode)

  /** A block by its use: zeroed, block numbers, file bytes, or bitmap bits. */
  datatype Blk = Zero | Words(w: seq<nat>) | Bytes(d: seq<byte>) | Bits(m: seq<bool>)

  function WordAt(b: Blk, j: nat): nat { if b.Words? && j < |b.w| then b.w[j] else 0 }
  function ByteAt(b: Blk, k: nat): byte { if b.Bytes? && k < |b.d| then b.d[k] else 0 }
  predicate BitAt(b: Blk, i: nat) { b.Bits? && i < |b.m| && b.m[i] }

  /** addrs[0..NDIRECT] direct blocks and addrs[NDIRECT] the indirect block;
      0 means no block. */
  datatype Inode = Inode(addrs: seq<nat>, size: nat)

  datatype Superblock = Superblock(size: nat, ninodes: nat, inodestart: nat, bmapstart: nat, nmeta: nat) {
    /** The metadata area holds the inode blocks and then the whole bitmap. */
    ghost predicate Ok() {
      && 0 < inodestart && inodestart + ninodes / IPB < bmapstart
      && bmapstart + size / BPB < nmeta <= size
    }
    function Bblock(b: nat): nat { b / BPB + bmapstart }
    function Iblock(n: nat): nat { n / IPB + inodestart }
  }

  /** The places a block number can be stored. */
  datatype Place = Direct(inum: nat, i: nat) | Ind(inum: nat) | Listed(inum: nat, j: nat)

  ghost predicate PlaceOk(inodes: seq<Inode>, p: Place) {
    p.inum < |inodes| && (p.Direct? ==> p.i < NDIRECT) && (p.Listed? ==> p.j < NINDIRECT)
  }

  function Get(inodes: seq<Inode>, n: nat, i: nat): nat {
    if n < |inodes| && i < |inodes[n].addrs| then inodes[n].addrs[i] else 0
  }

  function At(blocks: seq<Blk>, b: nat): Blk { if 0 < b < |blocks| then blocks[b] else Zero }

  function AddrAt(blocks: seq<Blk>, inodes: seq<Inode>, p: Place): nat {
    match p
    case Direct(n, i) => Get(inodes, n, i)
    case Ind(n) => Get(inodes, n, NDIRECT)
    case Listed(n, j) => WordAt(At(blocks, Get(inodes, n, NDIRECT)), j)
  }

  /** Where the number of file block bn is stored. */
  function PlaceOf(n: nat, bn: nat): Place {
    if bn < NDIRECT then Direct(n, bn) else Listed(n, bn - NDIRECT)
  }

  /** Byte o of file block bn; a block that is not there reads as zeros. */
  function FileByte(blocks: seq<Blk>, inodes: seq<Inode>, n: nat, bn: nat, o: nat): byte {
    ByteAt(At(blocks, AddrAt(blocks, inodes, PlaceOf(n, bn))), o)
  }

  /** The bitmap bit of block b. */
  ghost predicate Bit(sb: Superblock, blocks: seq<Blk>, b: nat) {
    BitAt(At(blocks, sb.Bblock(b)), b % BPB)
  }

  // -------------------------------------------------------------- invariant

  type Owners = map<nat, Place>

  /** A stored block number is owned by the place that stores it. */
  ghost predicate Stored(blocks: seq<Blk>, inodes: seq<Inode>, owner: Owners, p: Place) {
    var b := AddrAt(blocks, inodes, p);
    b != 0 ==> b in owner && owner[b] == p
  }

  ghost predicate Typed(b: Blk, p: Place) {
    if p.Ind? then b.Zero? || (b.Words? && |b.w| == NINDIRECT) else b.Zero? || (b.Bytes? && |b.d| == BSIZE)
  }

  /** An owned block is a data block stored at its owner and used as such. */
  ghost predicate Owned(sb: Superblock, blocks: seq<Blk>, inodes: seq<Inode>, owner: Owners, b: nat)
    requires b in owner
  {
    && sb.nmeta <= b < sb.size && PlaceOk(inodes, owner[b])
    && AddrAt(blocks, inodes, owner[b]) == b
    && Typed(At(blocks, b), owner[b])
  }

  /** The bit is set exactly for metadata, owned blocks, and blocks that balloc
      has returned but that are not yet stored (`loose`). */
  ghost predicate Marked(sb: Superblock, blocks: seq<Blk>, owner: Owners, loose: set<nat>, b: nat) {
    Bit(sb, blocks, b) <==> b < sb.nmeta || b in owner || b in loose
  }

  ghost predicate Mapped(sb: Superblock, blocks: seq<Blk>, b: nat) {
    At(blocks, sb.Bblock(b)).Bits? && |At(blocks, sb.Bblock(b)).m| == BPB
  }

  ghost predicate Shape(sb: Superblock, blocks: seq<Blk>, inodes: seq<Inode>) {
    && sb.Ok() && |blocks| == sb.size && |inodes| == sb.ninodes
    && forall n | 0 <= n < |inodes| :: |inodes[n].addrs| == NDIRECT + 1
  }

  ghost predicate Inv(sb: Superblock, blocks: seq<Blk>, inodes: seq<Inode>, owner: Owners, loose: set<nat>) {
    && Shape(sb, blocks, inodes)
    && (forall p {:trigger Stored(blocks, inodes, owner, p)} | PlaceOk(inodes, p) :: Stored(blocks, inodes, owner, p))
    && (forall b {:trigger Owned(sb, blocks, inodes, owner, b)} | b in owner :: Owned(sb, blocks, inodes, owner, b))
    && (forall b {:trigger Marked(sb, blocks, owner, loose, b)} | 0 <= b < sb.size ::
      Marked(sb, blocks, owner, loose, b))
    && (forall b {:trigger Mapped(sb, blocks, b)} | 0 <= b < sb.size :: Mapped(sb, blocks, b))
    && (forall b | b in loose :: b !in owner && sb.nmeta <= b < sb.size)
  }

  /** Exact ownership: a data block's bit is set if and only if exactly one place
      of exactly one inode stores its number. */
  lemma ExactOwnership(sb: Superblock, blocks: seq<Blk>, inodes: seq<Inode>, owner: Owners, b: nat)
    requires Inv(sb, blocks, inodes, owner, {}) && sb.nmeta <= b < sb.size
    ensures Bit(sb, blocks, b) <==> exists p :: PlaceOk(inodes, p) && AddrAt(blocks, inodes, p) == b
    ensures forall p, q | PlaceOk(inodes, p) && PlaceOk(inodes, q) &&
              AddrAt(blocks, inodes, p) == b && AddrAt(blocks, inodes, q) == b :: p == q
  {
    assert Marked(sb, blocks, owner, {}, b);
    if b in owner { assert Owned(sb, blocks, inodes, owner, b); }
    forall p | PlaceOk(inodes, p) && AddrAt(blocks, inodes, p) == b ensures b in owner && owner[b] == p {
      assert Stored(blocks, inodes, owner, p);
    }
  }

  ghost predicate SameBytes(blocks: seq<Blk>, inodes: seq<Inode>, blocks': seq<Blk>, inodes': seq<Inode>) {
    forall n, bn, o :: FileByte(blocks', inodes', n, bn, o) == FileByte(blocks, inodes, n, bn, o)
  }

  // ------------------------------------------------------------------ frames

  lemma AddrOwned(sb: Superblock, blocks: seq<Blk>, inodes: seq<Inode>, owner: Owners, loose: set<nat>, p: Place)
    requires Inv(sb, blocks, inodes, owner, loose) && (p.Direct? ==> p.i < NDIRECT)
    ensures var b := AddrAt(blocks, inodes, p); b != 0 ==> PlaceOk(inodes, p) && b in owner && owner[b] == p
  {
    var ind := Get(inodes, p.inum, NDIRECT);
    if ind != 0 {
      assert Stored(blocks, inodes, owner, Ind(p.inum));
      assert Owned(sb, blocks, inodes, owner, ind);
    }
    if PlaceOk(inodes, p) { assert Stored(blocks, inodes, owner, p); }
  }

  /** Stores outside the owned blocks change no address and no file byte. */
  lemma AddrFrame(sb: Superblock, blocks: seq<Blk>, inodes: seq<Inode>, owner: Owners, loose: set<nat>,
                  blocks': seq<Blk>, p: Place)
    requires Inv(sb, blocks, inodes, owner, loose) && |blocks'| == |blocks| && (p.Direct? ==> p.i < NDIRECT)
    requires forall b | b in owner :: At(blocks', b) == At(blocks, b)
    ensures AddrAt(blocks', inodes, p) == AddrAt(blocks, inodes, p)
    ensures At(blocks', AddrAt(blocks, inodes, p)) == At(blocks, AddrAt(blocks, inodes, p))
  {
    AddrOwned(sb, blocks, inodes, owner, loose, p);
    AddrOwned(sb, blocks, inodes, owner, loose, Ind(p.inum));
  }

  lemma BytesFrame(sb: Superblock, blocks: seq<Blk>, inodes: seq<Inode>, owner: Owners, loose: set<nat>,
                   blocks': seq<Blk>)
    requires Inv(sb, blocks, inodes, owner, loose) && |blocks'| == |blocks|
    requires forall b | b in owner :: At(blocks', b) == At(blocks, b)
    ensures SameBytes(blocks, inodes, blocks', inodes)
  {
    forall n, bn, o ensures FileByte(blocks', inodes, n, bn, o) == FileByte(blocks, inodes, n, bn, o) {
      AddrFrame(sb, blocks, inodes, owner, loose, blocks', PlaceOf(n, bn));
    }
  }

  // ------------------------------------------------------------- bitmap bits

  function SetBit(sb: Superblock, blocks: seq<Blk>, b: nat, v: bool): seq<Blk>
    requires sb.Bblock(b) < |blocks| && blocks[sb.Bblock(b)].Bits? && |blocks[sb.Bblock(b)].m| == BPB
  {
    blocks[sb.Bblock(b) := Bits(blocks[sb.Bblock(b)].m[b % BPB := v])]
  }

  lemma BblockBelow(sb: Superblock, b: nat)
    requires sb.Ok() && b < sb.size
    ensures 0 < sb.Bblock(b) < sb.nmeta
  {
    assert b / BPB <= sb.size / BPB;
  }

  lemma SetBitIs(sb: Superblock, blocks: seq<Blk>, b: nat, v: bool, c: nat)
    requires sb.Ok() && |blocks| == sb.size && b < sb.size && c < sb.size
    requires Mapped(sb, blocks, b) && Mapped(sb, blocks, c)
    ensures sb.Bblock(b) < |blocks| && blocks[sb.Bblock(b)].Bits? && |blocks[sb.Bblock(b)].m| == BPB
    ensures Bit(sb, SetBit(sb, blocks, b, v), c) == (if c == b then v else Bit(sb, blocks, c))
    ensures Mapped(sb, SetBit(sb, blocks, b, v), c)
  {
    BblockBelow(sb, b);
    BblockBelow(sb, c);
    assert b == b / BPB * BPB + b % BPB && c == c / BPB * BPB + c % BPB;
  }

  lemma PutDataBit(sb: Superblock, blocks: seq<Blk>, a: nat, blk: Blk, c: nat)
    requires sb.Ok() && |blocks| == sb.size && sb.nmeta <= a < sb.size && c < sb.size
    ensures Bit(sb, blocks[a := blk], c) == Bit(sb, blocks, c)
    ensures Mapped(sb, blocks, c) ==> Mapped(sb, blocks[a := blk], c)
  {
    BblockBelow(sb, c);
  }

  // --------------------------------------------------------------- allocation

  /** balloc's two stores: the bit, and the zeroed block. */
  function Allocated(sb: Superblock, blocks: seq<Blk>, b: nat): seq<Blk>
    requires sb.Bblock(b) < |blocks| && blocks[sb.Bblock(b)].Bits? && |blocks[sb.Bblock(b)].m| == BPB && b < |blocks|
  {
    SetBit(sb, blocks, b, true)[b := Zero]
  }

  lemma AllocKeeps(sb: Superblock, blocks: seq<Blk>, inodes: seq<Inode>, owner: Owners, loose: set<nat>, b: nat)
    requires Inv(sb, blocks, inodes, owner, loose) && b < sb.size && !Bit(sb, blocks, b)
    ensures sb.Bblock(b) < |blocks| && blocks[sb.Bblock(b)].Bits? && |blocks[sb.Bblock(b)].m| == BPB
    ensures sb.nmeta <= b && b !in owner && b !in loose
    ensures Inv(sb, Allocated(sb, blocks, b), inodes, owner, loose + {b})
    ensures SameBytes(blocks, inodes, Allocated(sb, blocks, b), inodes)
  {
    assert Marked(sb, blocks, owner, loose, b) && Mapped(sb, blocks, b);
    BblockBelow(sb, b);
    var blocks', loose' := Allocated(sb, blocks, b), loose + {b};
    forall c | c in owner ensures At(blocks', c) == At(blocks, c) { assert Owned(sb, blocks, inodes, owner, c); }
    BytesFrame(sb, blocks, inodes, owner, loose, blocks');
    forall c | 0 <= c < sb.size ensures Marked(sb, blocks', owner, loose', c) && Mapped(sb, blocks', c) {
      assert Marked(sb, blocks, owner, loose, c) && Mapped(sb, blocks, c);
      SetBitIs(sb, blocks, b, true, c);
      PutDataBit(sb, SetBit(sb, blocks, b, true), b, Zero, c);
    }
    forall p | PlaceOk(inodes, p) ensures Stored(blocks', inodes, owner, p) {
      assert Stored(blocks, inodes, owner, p);
      AddrFrame(sb, blocks, inodes, owner, loose, blocks', p);
    }
    forall c | c in owner ensures Owned(sb, blocks', inodes, owner, c) {
      assert Owned(sb, blocks, inodes, owner, c);
      AddrFrame(sb, blocks, inodes, owner, loose, blocks', owner[c]);
    }
  }

  // ------------------------------------------------------ storing an address

  function SetAddr(inodes: seq<Inode>, n: nat, i: nat, b: nat): seq<Inode>
    requires n < |inodes| && i < |inodes[n].addrs|
  {
    inodes[n := Inode(inodes[n].addrs[i := b], inodes[n].size)]
  }

  lemma SetAddrIs(sb: Superblock, blocks: seq<Blk>, inodes: seq<Inode>, n: nat, i: nat, b: nat, p: Place)
    requires Shape(sb, blocks, inodes) && n < |inodes| && i <= NDIRECT && Get(inodes, n, i) == 0
    requires At(blocks, b) == Zero && (p.Direct? ==> p.i < NDIRECT)
    ensures AddrAt(blocks, SetAddr(inodes, n, i, b), p) ==
      if p == (if i < NDIRECT then Direct(n, i) else Ind(n)) then b else AddrAt(blocks, inodes, p)
  {
  }

  lemma SetAddrBytes(sb: Superblock, blocks: seq<Blk>, inodes: seq<Inode>, n: nat, i: nat, b: nat)
    requires Shape(sb, blocks, inodes) && n < |inodes| && i <= NDIRECT && Get(inodes, n, i) == 0
    requires At(blocks, b) == Zero
    ensures SameBytes(blocks, inodes, blocks, SetAddr(inodes, n, i, b))
  {
    var inodes' := SetAddr(inodes, n, i, b);
    forall m, bn, o ensures FileByte(blocks, inodes', m, bn, o) == FileByte(blocks, inodes, m, bn, o) {
      SetAddrIs(sb, blocks, inodes, n, i, b, PlaceOf(m, bn));
    }
  }

  /** An empty place of the inode takes a loose, zeroed block. */
  lemma SetAddrKeeps(sb: Superblock, blocks: seq<Blk>, inodes: seq<Inode>, owner: Owners, loose: set<nat>, n: nat,
                     i: nat, b: nat)
    requires Inv(sb, blocks, inodes, owner, loose) && n < |inodes| && i <= NDIRECT && Get(inodes, n, i) == 0
    requires b in loose && At(blocks, b) == Zero
    ensures var p := if i < NDIRECT then Direct(n, i) else Ind(n);
      Inv(sb, blocks, SetAddr(inodes, n, i, b), owner[b := p], loose - {b})
    ensures SameBytes(blocks, inodes, blocks, SetAddr(inodes, n, i, b))
  {
    var p := if i < NDIRECT then Direct(n, i) else Ind(n);
    var inodes', owner', loose' := SetAddr(inodes, n, i, b), owner[b := p], loose - {b};
    forall q | PlaceOk(inodes', q) ensures Stored(blocks, inodes', owner', q) {
      assert Stored(blocks, inodes, owner, q);
      SetAddrIs(sb, blocks, inodes, n, i, b, q);
    }
    forall c | c in owner' ensures Owned(sb, blocks, inodes', owner', c) {
      if c != b { assert Owned(sb, blocks, inodes, owner, c); }
      SetAddrIs(sb, blocks, inodes, n, i, b, owner'[c]);
    }
    forall c | 0 <= c < sb.size ensures Marked(sb, blocks, owner', loose', c) {
      assert Marked(sb, blocks, owner, loose, c);
    }
    SetAddrBytes(sb, blocks, inodes, n, i, b);
  }

  function PutWord(b: Blk, j: nat, v: nat): Blk
    requires j < NINDIRECT && (b.Words? ==> |b.w| == NINDIRECT)
  {
    Words((if b.Words? then b.w else Repeat<nat>(0, NINDIRECT))[j := v])
  }

  /** blk is the indirect block was with entry j set to b. */
  ghost predicate IsPut(was: Blk, blk: Blk, j: nat, b: nat) {
    && blk.Words? && |blk.w| == NINDIRECT
    && forall i: nat {:trigger WordAt(blk, i)} :: WordAt(blk, i) == if i == j then b else WordAt(was, i)
  }

  lemma PutWordPuts(was: Blk, j: nat, b: nat)
    requires j < NINDIRECT && (was.Words? ==> |was.w| == NINDIRECT)
    ensures IsPut(was, PutWord(was, j, b), j, b)
  {
    forall i: nat ensures WordAt(PutWord(was, j, b), i) == if i == j then b else WordAt(was, i) {
      if i < NINDIRECT { RepeatAt<nat>(0, NINDIRECT, i); }
    }
  }

  lemma IndirectOwned(sb: Superblock, blocks: seq<Blk>, inodes: seq<Inode>, owner: Owners, loose: set<nat>, n: nat)
    requires Inv(sb, blocks, inodes, owner, loose) && n < |inodes| && Get(inodes, n, NDIRECT) != 0
    ensures var ind := Get(inodes, n, NDIRECT);
      && ind in owner && owner[ind] == Ind(n) && sb.nmeta <= ind < |blocks|
      && (blocks[ind].Zero? || (blocks[ind].Words? && |blocks[ind].w| == NINDIRECT))
  {
    assert Stored(blocks, inodes, owner, Ind(n)) && Owned(sb, blocks, inodes, owner, Get(inodes, n, NDIRECT));
  }

  lemma PutWordIs(sb: Superblock, blocks: seq<Blk>, inodes: seq<Inode>, owner: Owners, loose: set<nat>, n: nat, j: nat,
                  b: nat, blk: Blk, p: Place)
    requires Inv(sb, blocks, inodes, owner, loose) && n < |inodes| && j < NINDIRECT && (p.Direct? ==> p.i < NDIRECT)
    requires Get(inodes, n, NDIRECT) != 0 && Get(inodes, n, NDIRECT) < |blocks|
    requires IsPut(blocks[Get(inodes, n, NDIRECT)], blk, j, b)
    ensures AddrAt(blocks[Get(inodes, n, NDIRECT) := blk], inodes, p) ==
      if p == Listed(n, j) then b else AddrAt(blocks, inodes, p)
  {
    IndirectOwned(sb, blocks, inodes, owner, loose, n);
    AddrOwned(sb, blocks, inodes, owner, loose, Ind(p.inum));
    if p.Listed? { assert WordAt(blk, p.j) == if p.j == j then b else WordAt(blocks[Get(inodes, n, NDIRECT)], p.j); }
  }

  lemma PutWordBytes(sb: Superblock, blocks: seq<Blk>, inodes: seq<Inode>, owner: Owners, loose: set<nat>, n: nat,
                     j: nat, b: nat, blk: Blk)
    requires Inv(sb, blocks, inodes, owner, loose) && n < |inodes| && j < NINDIRECT
    requires 0 < Get(inodes, n, NDIRECT) < |blocks| && AddrAt(blocks, inodes, Listed(n, j)) == 0
    requires b in loose && At(blocks, b) == Zero && IsPut(blocks[Get(inodes, n, NDIRECT)], blk, j, b)
    ensures SameBytes(blocks, inodes, blocks[Get(inodes, n, NDIRECT) := blk], inodes)
  {
    var ind := Get(inodes, n, NDIRECT);
    IndirectOwned(sb, blocks, inodes, owner, loose, n);
    forall m, bn, o ensures FileByte(blocks[ind := blk], inodes, m, bn, o) == FileByte(blocks, inodes, m, bn, o) {
      PutWordIs(sb, blocks, inodes, owner, loose, n, j, b, blk, PlaceOf(m, bn));
      AddrOwned(sb, blocks, inodes, owner, loose, PlaceOf(m, bn));
    }
  }

  /** An empty entry of the indirect block takes a loose, zeroed block. */
  lemma PutWordKeeps(sb: Superblock, blocks: seq<Blk>, inodes: seq<Inode>, owner: Owners, loose: set<nat>, n: nat,
                     j: nat, b: nat, blk: Blk)
    requires Inv(sb, blocks, inodes, owner, loose) && n < |inodes| && j < NINDIRECT
    requires 0 < Get(inodes, n, NDIRECT) < |blocks| && AddrAt(blocks, inodes, Listed(n, j)) == 0
    requires b in loose && At(blocks, b) == Zero && IsPut(blocks[Get(inodes, n, NDIRECT)], blk, j, b)
    ensures Inv(sb, blocks[Get(inodes, n, NDIRECT) := blk], inodes, owner[b := Listed(n, j)], loose - {b})
  {
    var ind := Get(inodes, n, NDIRECT);
    IndirectOwned(sb, blocks, inodes, owner, loose, n);
    var blocks', owner', loose' := blocks[ind := blk], owner[b := Listed(n, j)], loose - {b};
    forall q | PlaceOk(inodes, q) ensures Stored(blocks', inodes, owner', q) {
      assert Stored(blocks, inodes, owner, q);
      PutWordIs(sb, blocks, inodes, owner, loose, n, j, b, blk, q);
    }
    forall c | c in owner' ensures Owned(sb, blocks', inodes, owner', c) {
      if c != b { assert Owned(sb, blocks, inodes, owner, c); }
      PutWordIs(sb, blocks, inodes, owner, loose, n, j, b, blk, owner'[c]);
    }
    forall c | 0 <= c < sb.size ensures Marked(sb, blocks', owner', loose', c) && Mapped(sb, blocks', c) {
      assert Marked(sb, blocks, owner, loose, c) && Mapped(sb, blocks, c);
      PutDataBit(sb, blocks, ind, blk, c);
    }
  }

  // ------------------------------------------------------------ writing data

  /** A store into a data block changes exactly that file block's bytes. */
  lemma PutDataKeeps(sb: Superblock, blocks: seq<Blk>, inodes: seq<Inode>, owner: Owners, loose: set<nat>, n: nat,
                     bn: nat, d: seq<byte>)
    requires Inv(sb, blocks, inodes, owner, loose) && |d| == BSIZE
    requires AddrAt(blocks, inodes, PlaceOf(n, bn)) != 0
    ensures var a := AddrAt(blocks, inodes, PlaceOf(n, bn));
      && 0 < a < |blocks| && a >= sb.nmeta
      && Inv(sb, blocks[a := Bytes(d)], inodes, owner, loose)
      && (forall m, cn, o :: FileByte(blocks[a := Bytes(d)], inodes, m, cn, o) ==
            if m == n && cn == bn then ByteAt(Bytes(d), o) else FileByte(blocks, inodes, m, cn, o))
      && (forall p: Place | p.Direct? ==> p.i < NDIRECT ::
        AddrAt(blocks[a := Bytes(d)], inodes, p) == AddrAt(blocks, inodes, p))
  {
    var a := AddrAt(blocks, inodes, PlaceOf(n, bn));
    AddrOwned(sb, blocks, inodes, owner, loose, PlaceOf(n, bn));
    assert Owned(sb, blocks, inodes, owner, a);
    var blocks' := blocks[a := Bytes(d)];
    forall p: Place | p.Direct? ==> p.i < NDIRECT ensures AddrAt(blocks', inodes, p) == AddrAt(blocks, inodes, p) {
      AddrOwned(sb, blocks, inodes, owner, loose, Ind(p.inum));
    }
    forall q | PlaceOk(inodes, q) ensures Stored(blocks', inodes, owner, q) { assert Stored(blocks, inodes, owner, q); }
    forall c | c in owner ensures Owned(sb, blocks', inodes, owner, c) { assert Owned(sb, blocks, inodes, owner, c); }
    forall c | 0 <= c < sb.size ensures Marked(sb, blocks', owner, loose, c) && Mapped(sb, blocks', c) {
      assert Marked(sb, blocks, owner, loose, c) && Mapped(sb, blocks, c);
      PutDataBit(sb, blocks, a, Bytes(d), c);
    }
    forall m, cn, o
      ensures FileByte(blocks', inodes, m, cn, o) ==
        if m == n && cn == bn then ByteAt(Bytes(d), o) else FileByte(blocks, inodes, m, cn, o)
    {
      AddrOwned(sb, blocks, inodes, owner, loose, PlaceOf(m, cn));
    }
  }

  // ------------------------------------------------- addresses across a call

  ghost predicate PlaceKept(blocks: seq<Blk>, inodes: seq<Inode>, blocks': seq<Blk>, inodes': seq<Inode>, p: Place,
                            q: Place, r: Place)
  {
    || AddrAt(blocks', inodes', p) == AddrAt(blocks, inodes, p)
    || (AddrAt(blocks, inodes, p) == 0 && (p == q || p == r))
  }

  /** Every place keeps its block number, except that the empty places q and r
      may have been filled. */
  ghost predicate Fills(blocks: seq<Blk>, inodes: seq<Inode>, blocks': seq<Blk>, inodes': seq<Inode>, q: Place,
                        r: Place)
  {
    && |inodes'| == |inodes|
    && (forall m | 0 <= m < |inodes| :: inodes'[m].size == inodes[m].size)
    && forall p: Place {:trigger PlaceKept(blocks, inodes, blocks', inodes', p, q, r)} | p.Direct? ==> p.i < NDIRECT ::
         PlaceKept(blocks, inodes, blocks', inodes', p, q, r)
  }

  lemma FillsRefl(blocks: seq<Blk>, inodes: seq<Inode>, q: Place, r: Place)
    ensures Fills(blocks, inodes, blocks, inodes, q, r)
  {
  }

  lemma FillsTrans(b0: seq<Blk>, i0: seq<Inode>, b1: seq<Blk>, i1: seq<Inode>, b2: seq<Blk>, i2: seq<Inode>, q: Place,
                   r: Place)
    requires Fills(b0, i0, b1, i1, q, r) && Fills(b1, i1, b2, i2, q, r)
    ensures Fills(b0, i0, b2, i2, q, r)
  {
    forall p: Place | p.Direct? ==> p.i < NDIRECT ensures PlaceKept(b0, i0, b2, i2, p, q, r) {
      assert PlaceKept(b0, i0, b1, i1, p, q, r) && PlaceKept(b1, i1, b2, i2, p, q, r);
    }
  }

  lemma FrameFills(sb: Superblock, blocks: seq<Blk>, inodes: seq<Inode>, owner: Owners, loose: set<nat>,
                   blocks': seq<Blk>, q: Place, r: Place)
    requires Inv(sb, blocks, inodes, owner, loose) && |blocks'| == |blocks|
    requires forall b | b in owner :: At(blocks', b) == At(blocks, b)
    ensures Fills(blocks, inodes, blocks', inodes, q, r)
  {
    forall p: Place | p.Direct? ==> p.i < NDIRECT ensures PlaceKept(blocks, inodes, blocks', inodes, p, q, r) {
      AddrFrame(sb, blocks, inodes, owner, loose, blocks', p);
    }
  }

  lemma SetAddrFills(sb: Superblock, blocks: seq<Blk>, inodes: seq<Inode>, n: nat, i: nat, b: nat, q: Place, r: Place)
    requires Shape(sb, blocks, inodes) && n < |inodes| && i <= NDIRECT && Get(inodes, n, i) == 0
    requires At(blocks, b) == Zero
    requires (if i < NDIRECT then Direct(n, i) else Ind(n)) in {q, r}
    ensures Fills(blocks, inodes, blocks, SetAddr(inodes, n, i, b), q, r)
  {
    forall p: Place | p.Direct? ==> p.i < NDIRECT
      ensures PlaceKept(blocks, inodes, blocks, SetAddr(inodes, n, i, b), p, q, r)
    {
      SetAddrIs(sb, blocks, inodes, n, i, b, p);
    }
  }

  lemma PutWordFills(sb: Superblock, blocks: seq<Blk>, inodes: seq<Inode>, owner: Owners, loose: set<nat>, n: nat,
                     j: nat, b: nat, blk: Blk, r: Place)
    requires Inv(sb, blocks, inodes, owner, loose) && n < |inodes| && j < NINDIRECT
    requires 0 < Get(inodes, n, NDIRECT) < |blocks| && AddrAt(blocks, inodes, Listed(n, j)) == 0
    requires IsPut(blocks[Get(inodes, n, NDIRECT)], blk, j, b)
    ensures Fills(blocks, inodes, blocks[Get(inodes, n, NDIRECT) := blk], inodes, Listed(n, j), r)
  {
    var blocks' := blocks[Get(inodes, n, NDIRECT) := blk];
    forall p: Place | p.Direct? ==> p.i < NDIRECT
      ensures PlaceKept(blocks, inodes, blocks', inodes, p, Listed(n, j), r)
    {
      PutWordIs(sb, blocks, inodes, owner, loose, n, j, b, blk, p);
    }
  }
}
