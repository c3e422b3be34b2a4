/** The redo log of kernel/log.c as the list of disk writes each routine
    issues, and what a reboot makes of any prefix of those writes.

    One block write is atomic.  A crash may fall between any two writes,
    including the writes of a recovery that is itself repeating. */
module Wal {
  import opened Common
  import opened Blocks

  const LOGSIZE := MAXOPBLOCKS * 3

  type Disk = seq<Block>

  datatype Write = Write(bno: nat, data: Block)

  /** `log.start` and `log.size`: a header block followed by size-1 slots. */
  datatype Area = Area(start: nat, size: nat) {
    /** A block of the disk outside the log. */
    predicate Home(d: Disk, b: nat) { b < |d| && !(start <= b < start + size) }
    /** The log area lies on the disk and has room for its header. */
    predicate On(d: Disk) { 0 < size && start + size <= |d| }
    function Slot(i: nat): nat { start + 1 + i }
  }

  // ---------------------------------------------------------------- writes

  /** The disk after a list of writes, in order. */
  function Apply(d: Disk, ws: seq<Write>): (r: Disk)
    ensures |r| == |d|
  {
    if ws == [] then d
    else
      var w := ws[|ws| - 1];
      var p := Apply(d, ws[..|ws| - 1]);
      if w.bno < |d| then p[w.bno := w.data] else p
  }

  lemma {:induction false} ApplyConcat(d: Disk, u: seq<Write>, v: seq<Write>)
    ensures Apply(d, u + v) == Apply(Apply(d, u), v)
    decreases |v|
  {
    if v == [] {
      assert u + v == u;
    } else {
      assert (u + v)[..|u + v| - 1] == u + v[..|v| - 1];
      ApplyConcat(d, u, v[..|v| - 1]);
    }
  }

  /** Writes to pairwise distinct blocks: each target holds its own data after
      any prefix that reaches it, and every other block is untouched. */
  lemma {:induction false} ApplyDistinct(d: Disk, ws: seq<Write>)
    requires forall i, j | 0 <= i < j < |ws| :: ws[i].bno != ws[j].bno
    ensures forall i | 0 <= i < |ws| && ws[i].bno < |d| :: Apply(d, ws)[ws[i].bno] == ws[i].data
    ensures forall b | 0 <= b < |d| && (forall i | 0 <= i < |ws| :: ws[i].bno != b) :: Apply(d, ws)[b] == d[b]
    decreases |ws|
  {
    if ws != [] {
      var n := |ws| - 1;
      var p := ws[..n];
      assert forall i | 0 <= i < n :: p[i] == ws[i];
      ApplyDistinct(d, p);
      forall i | 0 <= i < |ws| && ws[i].bno < |d|
        ensures Apply(d, ws)[ws[i].bno] == ws[i].data
      {
        if i < n { assert p[i].bno == ws[i].bno != ws[n].bno; }
      }
    }
  }

  // ---------------------------------------------------------------- header

  /** The block numbers a header names. */
  function HeadBlocks(b: Block): (lh: seq<uint32>)
    requires Word(b, 0) <= LOGSIZE
    ensures |lh| == Word(b, 0)
  {
    seq(Word(b, 0), i requires 0 <= i < Word(b, 0) => Word(b, i + 1))
  }

  function HeadWord(b: Block, lh: seq<uint32>, i: nat): uint32
    requires i < WORDS && |lh| < 0x1_0000_0000
  {
    if i == 0 then |lh| else if i <= |lh| then lh[i - 1] else Word(b, i)
  }

  /** `write_head` overwrites n and the first n entries; the rest of the
      header block keeps whatever it held.  The list reads back. */
  function PutHead(b: Block, lh: seq<uint32>): (r: Block)
    requires |lh| <= LOGSIZE
    ensures Word(r, 0) == |lh| && HeadBlocks(r) == lh
  {
    Block(seq(WORDS, i requires 0 <= i < WORDS => HeadWord(b, lh, i)))
  }

  // ---------------------------------------------------- what each routine writes

  /** A header the log can act on: within the log's room, naming distinct
      blocks that are on the disk and outside the log. */
  predicate GoodList(a: Area, d: Disk, lh: seq<uint32>) {
    && a.On(d)
    && |lh| <= LOGSIZE && |lh| < a.size
    && Distinct(lh)
    && forall i | 0 <= i < |lh| :: a.Home(d, lh[i])
  }

  predicate GoodHead(a: Area, d: Disk) {
    && a.On(d)
    && Word(d[a.start], 0) <= LOGSIZE
    && GoodList(a, d, HeadBlocks(d[a.start]))
  }

  predicate Clean(a: Area, d: Disk) {
    a.On(d) && Word(d[a.start], 0) == 0
  }

  function HeadOf(a: Area, d: Disk): (lh: seq<uint32>)
    requires GoodHead(a, d)
    ensures GoodList(a, d, lh)
  {
    HeadBlocks(d[a.start])
  }

  function LogWrites(a: Area, lh: seq<uint32>, cache: map<nat, Block>): (ws: seq<Write>)
    requires forall b | b in lh :: b in cache
  {
    seq(|lh|, i requires 0 <= i < |lh| => Write(a.Slot(i), cache[lh[i]]))
  }

  function InstallWrites(a: Area, d: Disk, lh: seq<uint32>): (ws: seq<Write>)
    requires a.On(d) && |lh| < a.size
  {
    seq(|lh|, i requires 0 <= i < |lh| => Write(lh[i], d[a.Slot(i)]))
  }

  /** `recover_from_log`: install what the on-disk header names, clear it. */
  function RecoverWrites(a: Area, d: Disk): (ws: seq<Write>)
    requires GoodHead(a, d)
  {
    InstallWrites(a, d, HeadOf(a, d)) + [Write(a.start, PutHead(d[a.start], []))]
  }

  /** The disk once `write_log` and `write_head` are done: committed. */
  function Committed(a: Area, d: Disk, lh: seq<uint32>, cache: map<nat, Block>): (r: Disk)
    requires GoodList(a, d, lh)
    requires forall b | b in lh :: b in cache
    ensures |r| == |d| && GoodHead(a, r) && HeadOf(a, r) == lh
  {
    Apply(d, LogWrites(a, lh, cache))[a.start := PutHead(d[a.start], lh)]
  }

  /** `commit`: nothing for an empty transaction; otherwise the log blocks and
      the header, and then what a recovery of that header would write. */
  function CommitWrites(a: Area, d: Disk, lh: seq<uint32>, cache: map<nat, Block>): (ws: seq<Write>)
    requires GoodList(a, d, lh)
    requires forall b | b in lh :: b in cache
    ensures |ws| == if lh == [] then 0 else 2 * |lh| + 2
  {
    if lh == [] then []
    else
      LogWrites(a, lh, cache)
      + [Write(a.start, PutHead(d[a.start], lh))]
      + RecoverWrites(a, Committed(a, d, lh, cache))
  }

  // ---------------------------------------------------------------- reboot

  /** A recovery cut off after k of its writes (or completed, if k is large). */
  function Cut(a: Area, d: Disk, k: nat): (r: Disk)
    requires GoodHead(a, d)
    ensures |r| == |d|
  {
    var ws := RecoverWrites(a, d);
    Apply(d, if k <= |ws| then ws[..k] else ws)
  }

  /** The home blocks of r are those of d with d's log installed. */
  ghost predicate Redone(a: Area, d: Disk, r: Disk)
    requires GoodHead(a, d)
  {
    && |r| == |d|
    && (forall i | 0 <= i < |HeadOf(a, d)| :: r[HeadOf(a, d)[i]] == d[a.Slot(i)])
    && (forall b: nat | a.Home(d, b) && b !in HeadOf(a, d) :: r[b] == d[b])
  }

  /** A list of writes that installs the first slots of the log, in order. */
  ghost predicate Installs(a: Area, d: Disk, lh: seq<uint32>, ws: seq<Write>)
    requires GoodList(a, d, lh)
  {
    && |ws| <= |lh|
    && forall i | 0 <= i < |ws| :: ws[i].bno == lh[i] && ws[i].data == d[a.Slot(i)]
  }

  lemma InstallState(a: Area, d: Disk, lh: seq<uint32>, ws: seq<Write>)
    requires GoodList(a, d, lh) && Installs(a, d, lh, ws)
    ensures var e := Apply(d, ws);
      && e[a.start] == d[a.start]
      && (forall i | 0 <= i < |lh| :: e[a.Slot(i)] == d[a.Slot(i)])
      && (forall i | 0 <= i < |lh| :: e[lh[i]] == if i < |ws| then d[a.Slot(i)] else d[lh[i]])
      && (forall b: nat | a.Home(d, b) && b !in lh :: e[b] == d[b])
  {
    DistinctPairs(lh);
    ApplyDistinct(d, ws);
    forall i | 0 <= i < |lh| ensures Apply(d, ws)[lh[i]] == if i < |ws| then d[a.Slot(i)] else d[lh[i]] {
      if i < |ws| { assert ws[i].bno == lh[i]; }
    }
  }

  lemma CutWrites(a: Area, d: Disk, k: nat)
    requires GoodHead(a, d)
    ensures var lh := HeadOf(a, d); var ins := InstallWrites(a, d, lh);
      && |ins| == |lh|
      && (k <= |lh| ==> Cut(a, d, k) == Apply(d, ins[..k]))
      && (k > |lh| ==> Cut(a, d, k) == Apply(d, ins)[a.start := PutHead(d[a.start], [])])
  {
    var lh := HeadOf(a, d);
    var ins := InstallWrites(a, d, lh);
    var ws := RecoverWrites(a, d);
    if k <= |lh| {
      assert ws[..k] == ins[..k];
    } else {
      assert ws[..|lh| + 1] == ws && ws[..|lh|] == ins;
    }
  }

  /** What k writes of a recovery have done. */
  lemma CutState(a: Area, d: Disk, k: nat)
    requires GoodHead(a, d)
    ensures var e := Cut(a, d, k); var lh := HeadOf(a, d);
      && e[a.start] == (if k <= |lh| then d[a.start] else PutHead(d[a.start], []))
      && (forall i | 0 <= i < |lh| :: e[a.Slot(i)] == d[a.Slot(i)])
      && (forall i | 0 <= i < |lh| :: e[lh[i]] == if i < k then d[a.Slot(i)] else d[lh[i]])
      && (forall b: nat | a.Home(d, b) && b !in lh :: e[b] == d[b])
  {
    var lh := HeadOf(a, d);
    var ins := InstallWrites(a, d, lh);
    CutWrites(a, d, k);
    if k <= |lh| {
      InstallState(a, d, lh, ins[..k]);
    } else {
      InstallState(a, d, lh, ins);
    }
  }

  /** Completing the recovery of a cut recovery completes the first one. */
  lemma CutKeepsRedone(a: Area, d: Disk, k: nat)
    requires GoodHead(a, d)
    ensures GoodHead(a, Cut(a, d, k))
    ensures forall r | Redone(a, Cut(a, d, k), r) :: Redone(a, d, r)
  {
    CutState(a, d, k);
  }

  /** Any number of recoveries in turn, each cut off after some writes. */
  function CutAll(a: Area, d: Disk, cuts: seq<nat>): Disk
    decreases |cuts|
  {
    if cuts == [] then d
    else
      var p := CutAll(a, d, cuts[..|cuts| - 1]);
      if GoodHead(a, p) then Cut(a, p, cuts[|cuts| - 1]) else p
  }

  /** And then one that completes. */
  function Reboot(a: Area, d: Disk, cuts: seq<nat>): Disk {
    var e := CutAll(a, d, cuts);
    if GoodHead(a, e) then Apply(e, RecoverWrites(a, e)) else e
  }

  /** Each recovery finds a good header, whatever the ones before it got done. */
  lemma {:induction false} CutAllGood(a: Area, d: Disk, cuts: seq<nat>)
    requires GoodHead(a, d)
    ensures GoodHead(a, CutAll(a, d, cuts)) && |CutAll(a, d, cuts)| == |d|
    ensures forall r | Redone(a, CutAll(a, d, cuts), r) :: Redone(a, d, r)
    decreases |cuts|
  {
    if cuts != [] {
      var n := |cuts| - 1;
      CutAllGood(a, d, cuts[..n]);
      CutKeepsRedone(a, CutAll(a, d, cuts[..n]), cuts[n]);
    }
  }

  lemma RecoverIsRedone(a: Area, d: Disk)
    requires GoodHead(a, d)
    ensures var r := Apply(d, RecoverWrites(a, d)); Clean(a, r) && Redone(a, d, r)
  {
    var ws := RecoverWrites(a, d);
    CutState(a, d, |ws|);
    assert ws[..|ws|] == ws;
  }

  lemma RebootIsRedone(a: Area, d: Disk, cuts: seq<nat>)
    requires GoodHead(a, d)
    ensures |Reboot(a, d, cuts)| == |d| && Clean(a, Reboot(a, d, cuts))
    ensures Redone(a, d, Reboot(a, d, cuts))
  {
    CutAllGood(a, d, cuts);
    RecoverIsRedone(a, CutAll(a, d, cuts));
  }

  // ---------------------------------------------------------------- commit

  /** Writing log slots touches neither the header nor any home block. */
  lemma SlotWrites(a: Area, d: Disk, lh: seq<uint32>, cache: map<nat, Block>, k: nat)
    requires GoodList(a, d, lh) && k <= |lh|
    requires forall b | b in lh :: b in cache
    ensures var e := Apply(d, LogWrites(a, lh, cache)[..k]);
      && e[a.start] == d[a.start]
      && (forall i | 0 <= i < k :: e[a.Slot(i)] == cache[lh[i]])
      && (forall b: nat | a.Home(d, b) :: e[b] == d[b])
  {
    var ws := LogWrites(a, lh, cache)[..k];
    ApplyDistinct(d, ws);
    forall i | 0 <= i < k ensures Apply(d, ws)[a.Slot(i)] == cache[lh[i]] { assert ws[i].bno == a.Slot(i); }
  }

  /** Past the header write, commit is a recovery of the committed disk. */
  lemma CommitSplits(a: Area, d: Disk, lh: seq<uint32>, cache: map<nat, Block>, k: nat)
    requires GoodList(a, d, lh) && lh != []
    requires forall b | b in lh :: b in cache
    requires |lh| < k <= 2 * |lh| + 2
    ensures Apply(d, CommitWrites(a, d, lh, cache)[..k]) == Cut(a, Committed(a, d, lh, cache), k - |lh| - 1)
  {
    var logs := LogWrites(a, lh, cache);
    var head := Write(a.start, PutHead(d[a.start], lh));
    var rest := RecoverWrites(a, Committed(a, d, lh, cache));
    TakePast(logs, head, rest, k);
    ApplyConcat(d, logs + [head], rest[..k - |lh| - 1]);
  }

  lemma TakePast(x: seq<Write>, h: Write, z: seq<Write>, k: nat)
    requires |x| < k <= |x| + 1 + |z|
    ensures (x + [h] + z)[..k] == (x + [h]) + z[..k - |x| - 1]
    ensures (x + [h])[..|x|] == x
  {
  }

  lemma CommittedState(a: Area, d: Disk, lh: seq<uint32>, cache: map<nat, Block>)
    requires GoodList(a, d, lh)
    requires forall b | b in lh :: b in cache
    ensures var c := Committed(a, d, lh, cache);
      && (forall i | 0 <= i < |lh| :: c[a.Slot(i)] == cache[lh[i]])
      && (forall b: nat | a.Home(d, b) :: c[b] == d[b])
  {
    SlotWrites(a, d, lh, cache, |lh|);
    assert LogWrites(a, lh, cache)[..|lh|] == LogWrites(a, lh, cache);
  }

  lemma CrashBeforeHeader(a: Area, d: Disk, lh: seq<uint32>, cache: map<nat, Block>, k: nat, cuts: seq<nat>)
    requires GoodList(a, d, lh) && Clean(a, d)
    requires forall b | b in lh :: b in cache
    requires k <= |lh|
    ensures var e := Apply(d, CommitWrites(a, d, lh, cache)[..k]);
      && GoodHead(a, e) && |Reboot(a, e, cuts)| == |d|
      && Clean(a, Reboot(a, e, cuts))
      && forall b: nat | a.Home(d, b) :: Reboot(a, e, cuts)[b] == d[b]
  {
    var e := Apply(d, CommitWrites(a, d, lh, cache)[..k]);
    SlotWrites(a, d, lh, cache, k);
    assert CommitWrites(a, d, lh, cache)[..k] == LogWrites(a, lh, cache)[..k];
    assert HeadBlocks(e[a.start]) == [];
    RebootIsRedone(a, e, cuts);
  }

  lemma CrashAfterHeader(a: Area, d: Disk, lh: seq<uint32>, cache: map<nat, Block>, k: nat, cuts: seq<nat>)
    requires GoodList(a, d, lh) && lh != []
    requires forall b | b in lh :: b in cache
    ensures var e := Cut(a, Committed(a, d, lh, cache), k);
      && GoodHead(a, e) && |Reboot(a, e, cuts)| == |d|
      && Clean(a, Reboot(a, e, cuts))
      && forall b: nat | a.Home(d, b) :: Reboot(a, e, cuts)[b] == if b in lh then cache[b] else d[b]
  {
    var c := Committed(a, d, lh, cache);
    var e := Cut(a, c, k);
    CutKeepsRedone(a, c, k);
    RebootIsRedone(a, e, cuts);
    RedoneCommitted(a, d, lh, cache, Reboot(a, e, cuts));
  }

  lemma RedoneCommitted(a: Area, d: Disk, lh: seq<uint32>, cache: map<nat, Block>, r: Disk)
    requires GoodList(a, d, lh)
    requires forall b | b in lh :: b in cache
    requires Redone(a, Committed(a, d, lh, cache), r)
    ensures forall b: nat | a.Home(d, b) :: r[b] == if b in lh then cache[b] else d[b]
  {
    var c := Committed(a, d, lh, cache);
    CommittedState(a, d, lh, cache);
    forall b: nat | a.Home(d, b) ensures r[b] == if b in lh then cache[b] else d[b] {
      if b in lh {
        var i :| 0 <= i < |lh| && lh[i] == b;
        assert r[HeadOf(a, c)[i]] == c[a.Slot(i)];
      }
    }
  }

  /** Crash atomicity.  Cut commit off after any k of its writes, cut off any
      number of recoveries after any number of theirs, and let one complete:
      the home blocks are all new exactly when the non-empty header was
      written, and otherwise all old. */
  lemma CrashAtomicity(a: Area, d: Disk, lh: seq<uint32>, cache: map<nat, Block>, k: nat, cuts: seq<nat>)
    requires GoodList(a, d, lh) && Clean(a, d)
    requires forall b | b in lh :: b in cache
    requires k <= |CommitWrites(a, d, lh, cache)|
    ensures var e := Apply(d, CommitWrites(a, d, lh, cache)[..k]);
      && GoodHead(a, e) && |Reboot(a, e, cuts)| == |d|
      && Clean(a, Reboot(a, e, cuts))
      && forall b: nat | a.Home(d, b) ::
           Reboot(a, e, cuts)[b] == if k > |lh| && b in lh then cache[b] else d[b]
  {
    if k <= |lh| {
      CrashBeforeHeader(a, d, lh, cache, k, cuts);
    } else {
      CommitSplits(a, d, lh, cache, k);
      CrashAfterHeader(a, d, lh, cache, k - |lh| - 1, cuts);
    }
  }
}
