/** The transactions of kernel/file.c: what each logs, and the states of the file
    system between them. */
module FileTxn {
  import opened Common
  import opened BlockMap
  import opened FileBytes

  // ------------------------------------------- what a transaction has logged

  ghost predicate NotedAt(base: seq<Blk>, blocks: seq<Blk>, noted: map<nat, Blk>, ragged: set<nat>, b: nat) {
    b < |base| == |blocks| && (b !in ragged ==> blocks[b] == if b in noted then noted[b] else base[b])
  }

  /** The blocks are those the transaction found with what it has logged, except
      for the ragged ones. */
  ghost predicate NotedAll(base: seq<Blk>, blocks: seq<Blk>, logged: set<nat>, noted: map<nat, Blk>, ragged: set<nat>) {
    && noted.Keys <= logged && |base| == |blocks|
    && forall b: nat {:trigger NotedAt(base, blocks, noted, ragged, b)} | b < |base| ::
      NotedAt(base, blocks, noted, ragged, b)
  }

  /** The same, for proofs that hand it on without looking inside. */
  ghost predicate Noted(base: seq<Blk>, blocks: seq<Blk>, logged: set<nat>, noted: map<nat, Blk>, ragged: set<nat>) {
    forall k: nat {:trigger Peek(k)} | Peek(k) :: NotedAll(base, blocks, logged, noted, ragged)
  }

  /** No inode but n has changed. */
  ghost predicate Alone(i0: seq<Inode>, i1: seq<Inode>, n: nat) {
    n < |i0| == |i1| && i1 == i0[n := i1[n]]
  }

  lemma AloneTrans(i0: seq<Inode>, i1: seq<Inode>, i2: seq<Inode>, n: nat)
    requires Alone(i0, i1, n) && Alone(i1, i2, n)
    ensures Alone(i0, i2, n)
  {
  }

  lemma NotedNone(blocks: seq<Blk>, logged: set<nat>)
    ensures Noted(blocks, blocks, logged, map[], {})
  {
    var noted: map<nat, Blk>, ragged: set<nat> := map[], {};
    forall b: nat | b < |blocks| ensures NotedAt(blocks, blocks, noted, ragged, b) { }
  }

  /** A store, logged or not. */
  lemma NotedPut(base: seq<Blk>, blocks: seq<Blk>, logged: set<nat>, noted: map<nat, Blk>, ragged: set<nat>, b: nat,
                 x: Blk)
    requires Noted(base, blocks, logged, noted, ragged) && b < |blocks|
    ensures Noted(base, blocks[b := x], logged + {b}, noted[b := x], ragged - {b})
    ensures Noted(base, blocks[b := x], logged, noted, ragged + {b})
  {
    assert Peek(0);
    var blocks', noted', fewer, more := blocks[b := x], noted[b := x], ragged - {b}, ragged + {b};
    forall c: nat | c < |base|
      ensures NotedAt(base, blocks', noted', fewer, c) && NotedAt(base, blocks', noted, more, c)
    {
      assert NotedAt(base, blocks, noted, ragged, c);
    }
  }

  /** A log_write without a store. */
  lemma NotedLog(base: seq<Blk>, blocks: seq<Blk>, logged: set<nat>, noted: map<nat, Blk>, ragged: set<nat>, b: nat)
    requires Noted(base, blocks, logged, noted, ragged)
    ensures Noted(base, blocks, logged + {b}, if b < |blocks| then noted[b := blocks[b]] else noted, ragged - {b})
  {
    if b < |blocks| {
      NotedPut(base, blocks, logged, noted, ragged, b, blocks[b]);
      assert blocks[b := blocks[b]] == blocks;
    } else {
      assert Peek(0);
      var fewer := ragged - {b};
      forall c: nat | c < |base| ensures NotedAt(base, blocks, noted, fewer, c) {
        assert NotedAt(base, blocks, noted, ragged, c);
      }
    }
  }

  ghost predicate TxnBlock(b0: seq<Blk>, log: map<nat, Blk>, b1: seq<Blk>, b: nat) {
    b < |b0| == |b1| && b1[b] == if b in log then log[b] else b0[b]
  }

  ghost predicate TxnInode(sb: Superblock, i0: seq<Inode>, log: map<nat, Blk>, i1: seq<Inode>, m: nat) {
    m < |i0| == |i1| && (i1[m] == i0[m] || sb.Iblock(m) in log)
  }

  /** A transaction with this log leads from (b0, i0) to (b1, i1): the blocks it
      logged hold what was logged last, the others what they held, and an inode
      that changed is in a block that was logged. */
  ghost predicate Txn(sb: Superblock, b0: seq<Blk>, i0: seq<Inode>, log: map<nat, Blk>, b1: seq<Blk>, i1: seq<Inode>) {
    && |b1| == |b0| && |i1| == |i0|
    && (forall b: nat {:trigger TxnBlock(b0, log, b1, b)} | b < |b0| :: TxnBlock(b0, log, b1, b))
    && (forall m: nat {:trigger TxnInode(sb, i0, log, i1, m)} | m < |i0| :: TxnInode(sb, i0, log, i1, m))
  }

  lemma NotedTxn(sb: Superblock, b0: seq<Blk>, i0: seq<Inode>, logged: set<nat>, log: map<nat, Blk>, b1: seq<Blk>,
                  i1: seq<Inode>, n: nat)
    requires Noted(b0, b1, logged, log, {}) && Alone(i0, i1, n) && (i1 != i0 ==> sb.Iblock(n) in log)
    ensures Txn(sb, b0, i0, log, b1, i1) && log.Keys <= logged
  {
    assert Peek(0);
    var ragged: set<nat> := {};
    forall b: nat | b < |b0| ensures TxnBlock(b0, log, b1, b) { assert NotedAt(b0, b1, log, ragged, b); }
    forall m: nat | m < |i0| ensures TxnInode(sb, i0, log, i1, m) { }
  }

  /** A state between transactions, the log of the one before it, and how many
      bytes of the source it has. */
  datatype Snap = Snap(blocks: seq<Blk>, inodes: seq<Inode>, log: map<nat, Blk>, len: nat)

  // ------------------------------------------------- the states of filewrite

  /** Since b0 and i0, len bytes of src have been added to file n at off, and tot
      written. */
  ghost predicate Progress(b0: seq<Blk>, i0: seq<Inode>, b1: seq<Blk>, i1: seq<Inode>, n: nat, off: nat, src: seq<byte>,
                           len: nat, tot: nat)
  {
    && n < |i0| && len <= tot <= |src| && OtherSizes(i0, i1, n) && Wrote(b0, i0, b1, i1, n, off, src, tot)
    && (tot > 0 ==> off <= i0[n].size) && i1[n].size == if len > 0 then Grown(i0[n].size, off + len) else i0[n].size
  }

  lemma ProgressStep(b0: seq<Blk>, i0: seq<Inode>, b1: seq<Blk>, i1: seq<Inode>, b2: seq<Blk>, i2: seq<Inode>, n: nat,
                     off: nat, src: seq<byte>, i: nat, r: nat, t: nat)
    requires Progress(b0, i0, b1, i1, n, off, src, i, i) && r <= t && i + t <= |src| && off + i <= i1[n].size
    requires Wrote(b1, i1, b2, i2, n, off + i, src[i..], t) && OtherSizes(i1, i2, n)
    requires i2[n].size == Grown(i1[n].size, off + i + r)
    ensures Progress(b0, i0, b2, i2, n, off, src, i + r, i + t)
  {
    WroteJoin(b0, i0, b1, i1, b2, i2, n, off, src, i, t);
  }

  lemma ProgressDone(b0: seq<Blk>, i0: seq<Inode>, b1: seq<Blk>, i1: seq<Inode>, n: nat, off: nat, src: seq<byte>,
                     len: nat, tot: nat)
    requires Progress(b0, i0, b1, i1, n, off, src, len, tot)
    ensures if tot > 0 then Updated(b0, i0, b1, i1, n, off, src[..tot])
            else forall m: nat | m < |i1| :: SameFile(b0, i0, b1, i1, m)
  {
    if tot > 0 {
      WroteUpdates(b0, i0, b1, i1, n, off, src, len, tot);
    } else {
      forall m: nat | m < |i1| ensures SameFile(b0, i0, b1, i1, m) { SameFileIf(b0, i0, b1, i1, n, off, src, 0, m); }
    }
  }

  ghost predicate SnapAt(sb: Superblock, hist: seq<Snap>, n: nat, off: nat, src: seq<byte>, k: nat) {
    && k < |hist| && 0 < |hist| && hist[k].len <= |src|
    && Progress(hist[0].blocks, hist[0].inodes, hist[k].blocks, hist[k].inodes, n, off, src, hist[k].len, hist[k].len)
    && (k > 0 ==>
          && hist[k - 1].len <= hist[k].len && |hist[k].log| <= MAXOPBLOCKS
          && Txn(sb, hist[k - 1].blocks, hist[k - 1].inodes, hist[k].log, hist[k].blocks, hist[k].inodes))
  }

  /** States that a filewrite of src to file n at off goes through, one
      transaction of at most MAXOPBLOCKS blocks from each to the next: in each,
      file n has a prefix of src and is otherwise as it was. */
  ghost predicate History(sb: Superblock, hist: seq<Snap>, n: nat, off: nat, src: seq<byte>) {
    |hist| > 0 && hist[0].len == 0 &&
    forall k: nat {:trigger SnapAt(sb, hist, n, off, src, k)} | k < |hist| :: SnapAt(sb, hist, n, off, src, k)
  }

  lemma HistoryNext(sb: Superblock, hist: seq<Snap>, n: nat, off: nat, src: seq<byte>, s: Snap)
    requires History(sb, hist, n, off, src)
    requires var p := hist[|hist| - 1];
      && p.len <= s.len <= |src| && |s.log| <= MAXOPBLOCKS && Txn(sb, p.blocks, p.inodes, s.log, s.blocks, s.inodes)
      && Progress(hist[0].blocks, hist[0].inodes, s.blocks, s.inodes, n, off, src, s.len, s.len)
    ensures History(sb, hist + [s], n, off, src)
  {
    var h := hist + [s];
    forall k: nat | k < |h| ensures SnapAt(sb, h, n, off, src, k) {
      if k < |hist| { assert SnapAt(sb, hist, n, off, src, k); }
    }
  }
}
