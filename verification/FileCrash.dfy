/** A crash during filewrite: the log of module LogRun under the transactions of
    module FileTxn. */
module FileCrash {
  import opened Common
  import opened Blocks
  import opened Wal
  import opened LogRun
  import opened BlockMap
  import opened FileBytes
  import opened FileTxn

  // ------------------------------------------------- the state on the disk

  /** Where the log is, and how blocks and the inodes of an inode block are laid
      out as disk blocks. */
  datatype Layout = Layout(sb: Superblock, area: Area, blk: Blk -> Block, node: (nat, seq<Inode>) -> Block)

  /** The inodes in inode block b. */
  function NodesOf(sb: Superblock, inodes: seq<Inode>, b: nat): seq<Inode> {
    if b < sb.inodestart then []
    else
      var lo := (b - sb.inodestart) * IPB;
      if |inodes| <= lo then [] else if |inodes| <= lo + IPB then inodes[lo..] else inodes[lo..lo + IPB]
  }

  /** What block b holds on disk in a state between transactions. */
  function Shown(l: Layout, blocks: seq<Blk>, inodes: seq<Inode>, b: nat): Block
    requires b < |blocks|
  {
    if l.sb.inodestart <= b < l.sb.bmapstart then l.node(b, NodesOf(l.sb, inodes, b)) else l.blk(blocks[b])
  }

  /** The blocks outside the log. */
  ghost function Image(l: Layout, blocks: seq<Blk>, inodes: seq<Inode>): map<nat, Block> {
    map b: nat | b < |blocks| && !(l.area.start <= b < l.area.start + l.area.size) :: Shown(l, blocks, inodes, b)
  }

  lemma NodesSame(sb: Superblock, i0: seq<Inode>, i1: seq<Inode>, b: nat)
    requires |i1| == |i0| && forall m: nat | m < |i0| && sb.Iblock(m) == b :: i1[m] == i0[m]
    ensures NodesOf(sb, i1, b) == NodesOf(sb, i0, b)
  {
    if b >= sb.inodestart {
      var lo := (b - sb.inodestart) * IPB;
      forall m: nat | m < |i0| && lo <= m < lo + IPB ensures i1[m] == i0[m] {
        DivIs(m, IPB, b - sb.inodestart, m - lo);
        assert sb.Iblock(m) == b;
      }
    }
  }

  /** What a transaction's log_writes leave in the log. */
  ghost function Stores(l: Layout, s: Snap): map<nat, Block> {
    map b | b in s.log && b in Image(l, s.blocks, s.inodes) :: Image(l, s.blocks, s.inodes)[b]
  }

  /** The logged blocks make the difference between the two states. */
  lemma StoresLead(l: Layout, p: Snap, s: Snap)
    requires Txn(l.sb, p.blocks, p.inodes, s.log, s.blocks, s.inodes)
    ensures Image(l, p.blocks, p.inodes) + Stores(l, s) == Image(l, s.blocks, s.inodes)
  {
    var im0, im1 := Image(l, p.blocks, p.inodes), Image(l, s.blocks, s.inodes);
    assert im0.Keys == im1.Keys;
    forall b | b in im0 && b !in s.log ensures im1[b] == im0[b] {
      assert TxnBlock(p.blocks, s.log, s.blocks, b);
      forall m: nat | m < |p.inodes| && l.sb.Iblock(m) == b ensures s.inodes[m] == p.inodes[m] {
        assert TxnInode(l.sb, p.inodes, s.log, s.inodes, m);
      }
      NodesSame(l.sb, p.inodes, s.inodes, b);
    }
  }

  // --------------------------------------------------- events of the log

  lemma {:induction false} OpenJoin(u: seq<Event>, v: seq<Event>)
    requires Open(u) == {}
    ensures Open(u + v) == Open(v)
    decreases |v|
  {
    if v == [] {
      assert u + v == u;
    } else {
      assert (u + v)[..|u + v| - 1] == u + v[..|v| - 1];
      OpenJoin(u, v[..|v| - 1]);
    }
  }

  lemma {:induction false} ReplayJoin(h: map<nat, Block>, u: seq<Event>, v: seq<Event>)
    ensures Replay(h, u + v) == Replay(Replay(h, u), v)
    decreases |v|
  {
    if v == [] {
      assert u + v == u;
    } else {
      assert (u + v)[..|u + v| - 1] == u + v[..|v| - 1];
      ReplayJoin(h, u, v[..|v| - 1]);
    }
  }

  lemma {:induction false} ReplayOver(h: map<nat, Block>, es: seq<Event>)
    ensures Replay(h, es) == h + Replay(map[], es)
  {
    if es != [] {
      ReplayOver(h, es[..|es| - 1]);
    } else {
      assert h + map[] == h;
    }
  }

  /** The first t events are one operation whose log_writes leave these stores,
      and commits follow. */
  ghost predicate Performs(p: seq<Event>, t: nat, op: OpId, stores: map<nat, Block>) {
    && 2 <= t <= |p| && p[0] == Begin(op) && p[t - 1] == End(op)
    && (forall i | 0 < i < t - 1 :: p[i].LogWrite? && p[i].op == op) && (forall i | t <= i < |p| :: p[i].Commit?)
    && Replay(map[], p[..t]) == stores
  }

  lemma {:induction false} OpenInside(p: seq<Event>, t: nat, op: OpId, stores: map<nat, Block>, m: nat)
    requires Performs(p, t, op, stores) && m <= |p|
    ensures Open(p[..m]) == if 0 < m < t then {op} else {}
    decreases m
  {
    if m > 0 {
      assert p[..m][..m - 1] == p[..m - 1];
      OpenInside(p, t, op, stores, m - 1);
      if m == 1 { assert {} + {op} == {op}; }
      if m == t { assert {op} - {op} == {}; }
    }
  }

  lemma {:induction false} CommitsReplay(h: map<nat, Block>, p: seq<Event>, t: nat, op: OpId, stores: map<nat, Block>,
                                         m: nat)
    requires Performs(p, t, op, stores) && t <= m <= |p|
    ensures Replay(h, p[..m]) == h + stores
    decreases m
  {
    if m == t {
      ReplayOver(h, p[..t]);
    } else {
      assert p[..m][..m - 1] == p[..m - 1];
      CommitsReplay(h, p, t, op, stores, m - 1);
    }
  }

  // ------------------------------------------------------- runs of a filewrite

  lemma {:induction false} WritesFor(op: OpId, stores: map<nat, Block>) returns (ws: seq<Event>)
    requires forall b | b in stores :: b < 0x1_0000_0000
    ensures |ws| == |stores| && Replay(map[], ws) == stores
    ensures forall i | 0 <= i < |ws| :: ws[i].LogWrite? && ws[i].op == op
    decreases |stores|
  {
    if stores == map[] {
      return [];
    }
    var b :| b in stores;
    var less := stores - {b};
    assert less.Keys == stores.Keys - {b} && |less| == |less.Keys| && |stores| == |stores.Keys|;
    var w := WritesFor(op, less);
    ws := w + [LogWrite(op, b, stores[b])];
    assert ws[..|ws| - 1] == w && less[b := stores[b]] == stores;
  }

  /** Every transaction can be performed, with one log_write for each block. */
  lemma PartExists(op: OpId, stores: map<nat, Block>) returns (p: seq<Event>)
    requires forall b | b in stores :: b < 0x1_0000_0000
    ensures |p| == |stores| + 2 && Performs(p, |p|, op, stores)
  {
    var w := WritesFor(op, stores);
    p := [Begin(op)] + w + [End(op)];
    assert p[..|p|] == p && p[..|p| - 1] == [Begin(op)] + w && [Begin(op)][..0] == [];
    ReplayJoin(map[], [Begin(op)], w);
    assert Replay(map[], [Begin(op)]) == map[];
  }

  ghost predicate IsPart(p: seq<Event>, stores: map<nat, Block>) {
    exists t: nat, op: OpId :: Performs(p, t, op, stores)
  }

  /** parts[k] performs the transaction after hist[k]. */
  ghost predicate PartAt(l: Layout, hist: seq<Snap>, parts: seq<seq<Event>>, k: nat) {
    k < |parts| && k + 1 < |hist| && IsPart(parts[k], Stores(l, hist[k + 1]))
  }

  ghost predicate Parts(l: Layout, hist: seq<Snap>, parts: seq<seq<Event>>) {
    |parts| < |hist| && forall k: nat {:trigger PartAt(l, hist, parts, k)} | k < |parts| :: PartAt(l, hist, parts, k)
  }

  ghost function Flat(parts: seq<seq<Event>>): seq<Event> {
    if parts == [] then [] else Flat(parts[..|parts| - 1]) + parts[|parts| - 1]
  }

  ghost function ImageAt(l: Layout, hist: seq<Snap>, j: nat): map<nat, Block>
    requires j < |hist|
  {
    Image(l, hist[j].blocks, hist[j].inodes)
  }

  /** Whole parts leave no operation open. */
  lemma {:induction false} FlatClosed(l: Layout, hist: seq<Snap>, parts: seq<seq<Event>>)
    requires Parts(l, hist, parts)
    ensures Open(Flat(parts)) == {}
    decreases |parts|
  {
    if parts != [] {
      var q := |parts| - 1;
      Fewer(l, hist, parts);
      FlatClosed(l, hist, parts[..q]);
      assert PartAt(l, hist, parts, q);
      var t: nat, op: OpId :| Performs(parts[q], t, op, Stores(l, hist[q + 1]));
      OpenInside(parts[q], t, op, Stores(l, hist[q + 1]), |parts[q]|);
      assert parts[q][..|parts[q]|] == parts[q];
      OpenJoin(Flat(parts[..q]), parts[q]);
    }
  }

  lemma Fewer(l: Layout, hist: seq<Snap>, parts: seq<seq<Event>>)
    requires Parts(l, hist, parts) && parts != []
    ensures Parts(l, hist, parts[..|parts| - 1])
  {
    var less := parts[..|parts| - 1];
    forall k: nat | k < |less| ensures PartAt(l, hist, less, k) { assert PartAt(l, hist, parts, k); }
  }

  /** m events into a part that follows a closed run to im: either its operation
      is open, or its stores are in place. */
  lemma InPart(u: seq<Event>, h: map<nat, Block>, p: seq<Event>, t: nat, op: OpId, stores: map<nat, Block>, m: nat)
    requires Open(u) == {} && Performs(p, t, op, stores) && 0 < m <= |p|
    ensures Open(u + p[..m]) == {} ==> Replay(h, u + p[..m]) == Replay(h, u) + stores
  {
    OpenJoin(u, p[..m]);
    OpenInside(p, t, op, stores, m);
    if m >= t {
      ReplayJoin(h, u, p[..m]);
      CommitsReplay(Replay(h, u), p, t, op, stores, m);
    } else {
      assert op in Open(p[..m]);
    }
  }

  /** The first q parts are within the first c events. */
  ghost predicate Through(parts: seq<seq<Event>>, q: nat, c: nat) { q <= |parts| && |Flat(parts[..q])| <= c }

  lemma ThroughFewer(parts: seq<seq<Event>>, i: nat, c: nat)
    requires parts != [] && |parts[|parts| - 1]| > 0 && c <= |Flat(parts[..|parts| - 1])| && Through(parts, i, c)
    ensures Through(parts[..|parts| - 1], i, c)
  {
    assert parts[..|parts|] == parts;
    if i < |parts| { assert parts[..|parts| - 1][..i] == parts[..i]; }
  }

  /** Beyond the parts before the last. */
  lemma InLast(l: Layout, hist: seq<Snap>, n: nat, off: nat, src: seq<byte>, parts: seq<seq<Event>>, c: nat)
    requires History(l.sb, hist, n, off, src) && Parts(l, hist, parts) && parts != []
    requires |Flat(parts[..|parts| - 1])| < c <= |Flat(parts)| && Open(Flat(parts)[..c]) == {}
    requires Replay(ImageAt(l, hist, 0), Flat(parts[..|parts| - 1])) == ImageAt(l, hist, |parts| - 1)
    ensures Replay(ImageAt(l, hist, 0), Flat(parts)[..c]) == ImageAt(l, hist, |parts|)
  {
    var q := |parts| - 1;
    var u, p := Flat(parts[..q]), parts[q];
    assert PartAt(l, hist, parts, q);
    var t: nat, op: OpId :| Performs(p, t, op, Stores(l, hist[q + 1]));
    Fewer(l, hist, parts);
    FlatClosed(l, hist, parts[..q]);
    assert Flat(parts)[..c] == u + p[..c - |u|];
    InPart(u, ImageAt(l, hist, 0), p, t, op, Stores(l, hist[q + 1]), c - |u|);
    assert SnapAt(l.sb, hist, n, off, src, q + 1);
    StoresLead(l, hist[q], hist[q + 1]);
  }

  /** The whole parts lead to the state after the last. */
  lemma {:induction false} Whole(l: Layout, hist: seq<Snap>, n: nat, off: nat, src: seq<byte>, parts: seq<seq<Event>>)
    requires History(l.sb, hist, n, off, src) && Parts(l, hist, parts)
    ensures Replay(ImageAt(l, hist, 0), Flat(parts)) == ImageAt(l, hist, |parts|)
    decreases |parts|
  {
    if parts != [] {
      var f := Flat(parts);
      Fewer(l, hist, parts);
      Whole(l, hist, n, off, src, parts[..|parts| - 1]);
      FlatClosed(l, hist, parts);
      assert PartAt(l, hist, parts, |parts| - 1);
      assert f[..|f|] == f;
      InLast(l, hist, n, off, src, parts, |f|);
    }
  }

  /** A point of the run at which no operation is open shows a state between
      transactions, and none before the last part that is through. */
  lemma {:induction false} Boundary(l: Layout, hist: seq<Snap>, n: nat, off: nat, src: seq<byte>,
                                    parts: seq<seq<Event>>, c: nat)
    returns (j: nat)
    requires History(l.sb, hist, n, off, src) && Parts(l, hist, parts) && c <= |Flat(parts)|
    requires Open(Flat(parts)[..c]) == {}
    ensures j <= |parts| && Replay(ImageAt(l, hist, 0), Flat(parts)[..c]) == ImageAt(l, hist, j)
    ensures forall q: nat {:trigger Through(parts, q, c)} | Through(parts, q, c) :: j >= q
    decreases |parts|
  {
    if parts == [] {
      return 0;
    }
    var less := parts[..|parts| - 1];
    Fewer(l, hist, parts);
    assert PartAt(l, hist, parts, |parts| - 1);
    if c <= |Flat(less)| {
      assert Flat(parts)[..c] == Flat(less)[..c];
      j := Boundary(l, hist, n, off, src, less, c);
      forall i: nat | Through(parts, i, c) ensures j >= i { ThroughFewer(parts, i, c); }
    } else {
      j := |parts|;
      Whole(l, hist, n, off, src, less);
      InLast(l, hist, n, off, src, parts, c);
    }
  }

  // ------------------------------------------------------------- the theorem

  /** File n has the first len bytes of src at off and is otherwise as it was, and
      so is every other file. */
  ghost predicate Holds(first: Snap, s: Snap, n: nat, off: nat, src: seq<byte>) {
    s.len <= |src| &&
    if s.len > 0 then Updated(first.blocks, first.inodes, s.blocks, s.inodes, n, off, src[..s.len])
    else forall m: nat | m < |s.inodes| :: SameFile(first.blocks, first.inodes, s.blocks, s.inodes, m)
  }

  /** Let a filewrite run through the log, one operation for each of its
      transactions, and crash it anywhere, any number of times: the recovered
      disk is exactly a state between two of its transactions, in which the file
      has a whole number of them, no fewer than were committed, and every other
      file is unchanged. */
  lemma CrashKeepsWholeWrites(l: Layout, hist: seq<Snap>, n: nat, off: nat, src: seq<byte>, parts: seq<seq<Event>>,
                              s: State, es: seq<Event>, k: nat, cuts: seq<nat>)
    returns (j: nat)
    requires History(l.sb, hist, n, off, src) && Parts(l, hist, parts) && es <= Flat(parts)
    requires LogRun.Inv(l.area, s) && Fresh(l.area, s) && HomeOf(l.area, s.disk) == ImageAt(l, hist, 0)
    requires CrashFree(es) && Exec(l.area, s, es).Some? && Enabled(l.area, Exec(l.area, s, es).value, Crash(k, cuts))
    ensures var r := Step(l.area, Exec(l.area, s, es).value, Crash(k, cuts));
      j < |hist| && Fresh(l.area, r) && HomeOf(l.area, r.disk) == ImageAt(l, hist, j)
    ensures Holds(hist[0], hist[j], n, off, src)
    ensures forall q: nat {:trigger Through(parts, q, LastCommit(es))} | Through(parts, q, LastCommit(es)) :: j >= q
  {
    CrashKeepsWholeOps(l.area, s, es, k, cuts);
    var t := Exec(l.area, s, es).value;
    var cut := if t.committing && k > |t.lh| then |es| else LastCommit(es);
    assert es[..cut] == Flat(parts)[..cut];
    j := Boundary(l, hist, n, off, src, parts, cut);
    forall q: nat | Through(parts, q, LastCommit(es)) ensures j >= q { assert Through(parts, q, cut); }
    assert SnapAt(l.sb, hist, n, off, src, j);
    ProgressDone(hist[0].blocks, hist[0].inodes, hist[j].blocks, hist[j].inodes, n, off, src, hist[j].len, hist[j].len);
  }
}
