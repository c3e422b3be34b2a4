/** The turns of commit of kernel/log.c: each issues one of the writes of module
    Wal, in stages at which other processes may come between. */
module CommitTurns {
  import opened Common
  import opened Blocks
  import opened Wal
  import Log

  /** What the committing process does next in a turn of its loops. */
  datatype Stage =
    | GetFirst | LockFirst | GetSecond | LockSecond | CopyWrite | Unpin | UnlockSrc | DropSrc | UnlockDst | DropDst

  /** What it has of a buffer. */
  datatype Grip = Free | Referenced | Locked

  /** Always true, and used like Peek; the tag lets a proof open one predicate
      and leave the others closed. */
  ghost predicate Look(tag: nat, k: nat) { true }

  // ------------------------------------------------------------- the turns

  /** One turn for each block write: n of write_log, a header, n of
      install_trans, a header. */
  function Turns(n: nat): nat { 2 * n + 2 }

  /** A turn of write_log or install_trans, which copies a block. */
  predicate Copies(n: nat, k: nat) { k != n && k < 2 * n + 1 }

  predicate Installing(n: nat, k: nat) { n < k <= 2 * n }

  function Src(a: Area, lh: seq<uint32>, k: nat): nat {
    var n := |lh|;
    if k < n then lh[k] else if Installing(n, k) then a.Slot(k - n - 1) else 0
  }

  function Dst(a: Area, lh: seq<uint32>, k: nat): nat {
    var n := |lh|;
    if k < n then a.Slot(k) else if Installing(n, k) then lh[k - n - 1] else a.start
  }

  /** Both loops read the log block first. */
  function SrcGrip(n: nat, k: nat, stage: Stage): Grip {
    if !Copies(n, k) then Free
    else
      match stage
      case GetFirst => Free
      case LockFirst => if Installing(n, k) then Referenced else Free
      case GetSecond => if Installing(n, k) then Locked else Free
      case LockSecond => if Installing(n, k) then Locked else Referenced
      case CopyWrite => Locked
      case Unpin => Locked
      case UnlockSrc => Locked
      case DropSrc => Referenced
      case UnlockDst => Free
      case DropDst => Free
  }

  function DstGrip(n: nat, k: nat, stage: Stage): Grip {
    match stage
    case GetFirst => Free
    case LockFirst => if Installing(n, k) then Free else Referenced
    case GetSecond => if Installing(n, k) then Free else Locked
    case LockSecond => if Installing(n, k) then Referenced else Locked
    case DropDst => Referenced
    case _ => Locked
  }

  /** The stage after this one; the last is followed by the next turn. */
  function Next(n: nat, k: nat, stage: Stage): Stage {
    match stage
    case GetFirst => LockFirst
    case LockFirst => if Copies(n, k) then GetSecond else CopyWrite
    case GetSecond => LockSecond
    case LockSecond => CopyWrite
    case CopyWrite => if Installing(n, k) then Unpin else if Copies(n, k) then UnlockSrc else UnlockDst
    case Unpin => UnlockSrc
    case UnlockSrc => DropSrc
    case DropSrc => UnlockDst
    case UnlockDst => DropDst
    case DropDst => GetFirst
  }

  /** The block writes issued so far. */
  function Issued(k: nat, stage: Stage): nat {
    match stage
    case Unpin => k + 1
    case UnlockSrc => k + 1
    case DropSrc => k + 1
    case UnlockDst => k + 1
    case DropDst => k + 1
    case _ => k
  }

  /** The listed blocks unpinned so far. */
  function Freed(n: nat, k: nat, stage: Stage): (r: nat)
    ensures r <= n
  {
    if k <= n then 0
    else if !Installing(n, k) then n
    else k - n - 1 + if Issued(k, stage) > k && stage != Unpin then 1 else 0
  }

  /** A block is unpinned after it is installed. */
  lemma FreedInstalled(n: nat, k: nat, st: Stage)
    ensures Freed(n, k, st) > 0 ==> Freed(n, k, st) + n + 1 <= Issued(k, st)
  {
  }

  /** Turn k has this stage. */
  predicate Fits(n: nat, k: nat, st: Stage) {
    && k <= Turns(n) && (k == Turns(n) ==> st == GetFirst) && (st == Unpin ==> Installing(n, k))
    && (st == GetSecond || st == LockSecond || st == UnlockSrc || st == DropSrc ==> Copies(n, k))
  }

  /** Only the copy issues a write, and only bunpin unpins. */
  lemma NextKeeps(n: nat, k: nat, st: Stage)
    requires Fits(n, k, st) && k < Turns(n)
    ensures Fits(n, if st == DropDst then k + 1 else k, Next(n, k, st))
    ensures SrcGrip(n, k + 1, GetFirst) == DstGrip(n, k + 1, GetFirst) == Free
    ensures st != CopyWrite && st != DropDst ==> Issued(k, Next(n, k, st)) == Issued(k, st)
    ensures st != DropDst && st != Unpin ==> Freed(n, k, Next(n, k, st)) == Freed(n, k, st)
    ensures st == CopyWrite ==> Issued(k, st) == k && Issued(k, Next(n, k, st)) == k + 1
    ensures st == Unpin ==> Issued(k, st) == k + 1 && Freed(n, k, st) == k - n - 1
    ensures st == Unpin ==> Freed(n, k, Next(n, k, st)) == k - n
    ensures Issued(k + 1, GetFirst) == Issued(k, DropDst) && Freed(n, k + 1, GetFirst) == Freed(n, k, DropDst)
  {
  }

  // ----------------------------------------------------- the writes in order

  ghost predicate Logged(a: Area, d: Disk, lh: seq<uint32>, cache: map<nat, Block>) {
    && GoodList(a, d, lh) && lh != []
    && (forall b | b in lh :: b in cache) && (forall b | b in cache :: b in lh)
  }

  /** The k-th write of a commit. */
  lemma WriteAt(a: Area, d: Disk, lh: seq<uint32>, cache: map<nat, Block>, k: nat)
    requires Logged(a, d, lh, cache) && k < Turns(|lh|)
    ensures var c := Committed(a, d, lh, cache); var n := |lh|;
      CommitWrites(a, d, lh, cache)[k] ==
        if k < n then Write(a.Slot(k), cache[lh[k]])
        else if k == n then Write(a.start, PutHead(d[a.start], lh))
        else if k <= 2 * n then Write(lh[k - n - 1], c[a.Slot(k - n - 1)])
        else Write(a.start, PutHead(c[a.start], []))
  {
    var c := Committed(a, d, lh, cache);
    Pick(LogWrites(a, lh, cache), Write(a.start, PutHead(d[a.start], lh)), RecoverWrites(a, c), k);
    if k > |lh| { Pick(InstallWrites(a, c, lh), Write(a.start, PutHead(c[a.start], [])), [], k - |lh| - 1); }
  }

  lemma Pick(x: seq<Write>, h: Write, z: seq<Write>, k: nat)
    requires k < |x| + 1 + |z|
    ensures (x + [h] + z)[k] == if k < |x| then x[k] else if k == |x| then h else z[k - |x| - 1]
    ensures z == [] ==> x + [h] + z == x + [h]
  {
  }

  /** The disk after k writes of a commit, up to the header. */
  lemma DiskBefore(a: Area, d: Disk, lh: seq<uint32>, cache: map<nat, Block>, k: nat)
    requires Logged(a, d, lh, cache) && k <= |lh|
    ensures var e := Apply(d, CommitWrites(a, d, lh, cache)[..k]);
      e[a.start] == d[a.start] && forall b: nat | a.Home(d, b) :: e[b] == d[b]
  {
    SlotWrites(a, d, lh, cache, k);
    assert CommitWrites(a, d, lh, cache)[..k] == LogWrites(a, lh, cache)[..k];
  }

  ghost predicate SlotAt(a: Area, d: Disk, lh: seq<uint32>, cache: map<nat, Block>, j: nat, e: Disk, i: nat) {
    && i < |lh| && lh[i] in cache && lh[i] < |d| == |e| && a.Slot(i) < |d|
    && e[a.Slot(i)] == cache[lh[i]] && e[lh[i]] == if i < j then cache[lh[i]] else d[lh[i]]
  }

  ghost predicate HomeAt(lh: seq<uint32>, d: Disk, e: Disk, b: nat) { b < |d| == |e| && (b !in lh ==> e[b] == d[b]) }

  /** e is the committed disk after j writes of the installation. */
  ghost predicate Installed(a: Area, d: Disk, lh: seq<uint32>, cache: map<nat, Block>, j: nat, e: Disk)
    requires Logged(a, d, lh, cache)
  {
    && |e| == |d| && (j <= |lh| ==> e[a.start] == Committed(a, d, lh, cache)[a.start])
    && (forall i: nat {:trigger SlotAt(a, d, lh, cache, j, e, i)} | i < |lh| :: SlotAt(a, d, lh, cache, j, e, i))
    && (forall b: nat {:trigger HomeAt(lh, d, e, b)} | a.Home(d, b) :: HomeAt(lh, d, e, b))
  }

  lemma CutCommitted(a: Area, d: Disk, lh: seq<uint32>, cache: map<nat, Block>, j: nat)
    requires Logged(a, d, lh, cache)
    ensures Installed(a, d, lh, cache, j, Cut(a, Committed(a, d, lh, cache), j))
  {
    var e := Cut(a, Committed(a, d, lh, cache), j);
    CutState(a, Committed(a, d, lh, cache), j);
    CommittedState(a, d, lh, cache);
    forall i: nat | i < |lh| ensures SlotAt(a, d, lh, cache, j, e, i) { }
    forall b: nat | a.Home(d, b) ensures HomeAt(lh, d, e, b) { }
  }

  /** And from there on. */
  lemma DiskPast(a: Area, d: Disk, lh: seq<uint32>, cache: map<nat, Block>, k: nat)
    requires Logged(a, d, lh, cache) && |lh| < k <= Turns(|lh|)
    ensures Installed(a, d, lh, cache, k - |lh| - 1, Apply(d, CommitWrites(a, d, lh, cache)[..k]))
  {
    CommitSplits(a, d, lh, cache, k);
    CutCommitted(a, d, lh, cache, k - |lh| - 1);
  }

  /** What the k-th write carries, in terms of the disk then. */
  lemma TurnLogs(a: Area, d: Disk, lh: seq<uint32>, cache: map<nat, Block>, k: nat)
    requires Logged(a, d, lh, cache) && k < |lh|
    ensures CommitWrites(a, d, lh, cache)[k] == Write(Dst(a, lh, k), cache[lh[k]])
  {
    WriteAt(a, d, lh, cache, k);
  }

  lemma TurnInstalls(a: Area, d: Disk, lh: seq<uint32>, cache: map<nat, Block>, k: nat, i: nat)
    requires Logged(a, d, lh, cache) && i < |lh| && k == |lh| + 1 + i
    ensures lh[i] in cache && CommitWrites(a, d, lh, cache)[k] == Write(lh[i], cache[lh[i]])
  {
    WriteAt(a, d, lh, cache, k);
    CommittedState(a, d, lh, cache);
  }

  lemma SlotPast(a: Area, d: Disk, lh: seq<uint32>, cache: map<nat, Block>, k: nat, i: nat)
    requires Logged(a, d, lh, cache) && i < |lh| && k == |lh| + 1 + i
    ensures lh[i] in cache && a.Slot(i) < |d| && Apply(d, CommitWrites(a, d, lh, cache)[..k])[a.Slot(i)] == cache[lh[i]]
  {
    DiskPast(a, d, lh, cache, k);
    assert SlotAt(a, d, lh, cache, k - |lh| - 1, Apply(d, CommitWrites(a, d, lh, cache)[..k]), i);
  }

  /** A listed block once it is installed. */
  lemma ListedPast(a: Area, d: Disk, lh: seq<uint32>, cache: map<nat, Block>, i: nat, j: nat)
    requires Logged(a, d, lh, cache) && j < |lh| && |lh| + j + 1 < i <= Turns(|lh|)
    ensures lh[j] in cache && lh[j] < |d| && Apply(d, CommitWrites(a, d, lh, cache)[..i])[lh[j]] == cache[lh[j]]
  {
    DiskPast(a, d, lh, cache, i);
    assert SlotAt(a, d, lh, cache, i - |lh| - 1, Apply(d, CommitWrites(a, d, lh, cache)[..i]), j);
  }

  lemma TurnHeads(a: Area, d: Disk, lh: seq<uint32>, cache: map<nat, Block>, k: nat)
    requires Logged(a, d, lh, cache) && k < Turns(|lh|) && !Copies(|lh|, k)
    ensures var ws := CommitWrites(a, d, lh, cache);
      ws[k] == Write(a.start, PutHead(Apply(d, ws[..k])[a.start], if k == |lh| then lh else []))
  {
    WriteAt(a, d, lh, cache, k);
    if k == |lh| {
      DiskBefore(a, d, lh, cache, k);
    } else {
      DiskPast(a, d, lh, cache, k);
    }
  }

  /** While nothing is unpinned, the cache has the listed blocks and no slot. */
  lemma LeftAll(a: Area, d: Disk, lh: seq<uint32>, cache: map<nat, Block>)
    requires Logged(a, d, lh, cache)
    ensures Log.Unpinned(cache, lh[..0]) == cache && forall i | 0 <= i < |lh| :: a.Slot(i) !in cache
  {
  }

  lemma LeftLater(a: Area, d: Disk, lh: seq<uint32>, cache: map<nat, Block>, i: nat)
    requires Logged(a, d, lh, cache) && i < |lh|
    ensures var left := Log.Unpinned(cache, lh[..i]);
      a.Slot(i) !in left && lh[i] in left && left[lh[i]] == cache[lh[i]]
  {
    DistinctPairs(lh);
  }

  // ------------------------------------------------------------ the progress

  /** What bread returns for block b. */
  function Seen(d: Disk, cache: map<nat, Block>, b: nat): Block
    requires b < |d|
  {
    if b in cache then cache[b] else d[b]
  }

  /** What turn k writes: its source block, or the header block it has read with
      the list, or with none, in it. */
  function Content(a: Area, lh: seq<uint32>, k: nat, d: Disk, cache: map<nat, Block>): Block
    requires Src(a, lh, k) < |d| && Dst(a, lh, k) < |d| && |lh| <= LOGSIZE
  {
    if Copies(|lh|, k) then Seen(d, cache, Src(a, lh, k))
    else PutHead(Seen(d, cache, Dst(a, lh, k)), if k == |lh| then lh else [])
  }

  /** What a commit starts from, and the writes it will issue. */
  datatype Plan = Plan(a: Area, disk: Disk, lh: seq<uint32>, cache: map<nat, Block>, before: seq<Write>, ws: seq<Write>)
  {
    ghost predicate Right() { Logged(a, disk, lh, cache) && ws == CommitWrites(a, disk, lh, cache) }

    /** The same, for proofs that hand it on without looking inside. */
    ghost predicate Sound() { forall p: nat {:trigger Look(1, p)} | Look(1, p) :: Right() }

    lemma Shown()
      requires Sound()
      ensures Right()
    {
      assert Look(1, 0);
    }

    /** The first i writes have been issued, and the first m listed blocks
        unpinned. */
    ghost predicate Wrote(i: nat, m: nat, w: seq<Write>, d: Disk, left: map<nat, Block>) {
      && i <= |ws| && m <= |lh|
      && w == before + ws[..i] && d == Apply(disk, ws[..i]) && left == Log.Unpinned(cache, lh[..m])
    }

    /** The same, closed. */
    ghost predicate Progress(i: nat, m: nat, w: seq<Write>, d: Disk, left: map<nat, Block>) {
      |d| == |disk| && forall p: nat {:trigger Look(2, p)} | Look(2, p) :: Wrote(i, m, w, d, left)
    }

    lemma Opened(i: nat, m: nat, w: seq<Write>, d: Disk, left: map<nat, Block>)
      requires Progress(i, m, w, d, left)
      ensures Wrote(i, m, w, d, left)
    {
      assert Look(2, 0);
    }

    lemma Begun()
      requires Right()
      ensures Progress(0, 0, before, disk, cache)
    {
      assert Log.Unpinned(cache, lh[..0]) == cache;
      assert before + ws[..0] == before;
    }

    lemma Bounds(k: nat)
      requires Sound()
      ensures |ws| == Turns(|lh|) && |lh| <= LOGSIZE && Dst(a, lh, k) < |disk| && Src(a, lh, k) < |disk|
      ensures Copies(|lh|, k) ==> Src(a, lh, k) != Dst(a, lh, k)
    {
      assert Look(1, 0);
    }

    // ---------------------------------------------------------- the copy

    /** Turn k writes x, which is the contents of its source, or the header. */
    ghost predicate CarriesAt(k: nat, x: Write) {
      && Dst(a, lh, k) < |disk| && Src(a, lh, k) < |disk| && |lh| <= LOGSIZE && k <= |ws|
      && var left := Log.Unpinned(cache, lh[..Freed(|lh|, k, CopyWrite)]);
        && x == Write(Dst(a, lh, k), Content(a, lh, k, Apply(disk, ws[..k]), left))
        && (x.bno in left ==> left[x.bno] == x.data)
    }

    lemma CarriesLog(k: nat)
      requires Sound() && k < |lh|
      ensures k < |ws| && CarriesAt(k, ws[k])
    {
      Bounds(k);
      assert Look(1, 0);
      TurnLogs(a, disk, lh, cache, k);
      LeftAll(a, disk, lh, cache);
    }

    lemma InstallsRight(k: nat, i: nat)
      requires Right() && i < |lh| && k == |lh| + 1 + i
      ensures lh[i] in cache && k < |ws| && ws[k] == Write(lh[i], cache[lh[i]])
    {
      TurnInstalls(a, disk, lh, cache, k, i);
    }

    lemma SlotRight(k: nat, i: nat)
      requires Right() && i < |lh| && k == |lh| + 1 + i
      ensures lh[i] in cache && a.Slot(i) < |disk| && k <= |ws| && Apply(disk, ws[..k])[a.Slot(i)] == cache[lh[i]]
    {
      SlotPast(a, disk, lh, cache, k, i);
    }

    lemma ListedRight(i: nat, j: nat)
      requires Right() && j < |lh| && |lh| + j + 1 < i <= |ws|
      ensures lh[j] in cache && lh[j] < |disk| && Apply(disk, ws[..i])[lh[j]] == cache[lh[j]]
    {
      ListedPast(a, disk, lh, cache, i, j);
    }

    /** The installation of the i-th listed block. */
    lemma InstallsAt(k: nat, i: nat)
      requires Sound() && i < |lh| && k == |lh| + 1 + i
      ensures lh[i] in cache && a.Slot(i) < |disk|
      ensures k < |ws| && ws[k] == Write(lh[i], cache[lh[i]]) && Apply(disk, ws[..k])[a.Slot(i)] == cache[lh[i]]
    {
      Shown();
      InstallsRight(k, i);
      SlotRight(k, i);
    }

    lemma LeftAt(i: nat)
      requires Sound() && i < |lh|
      ensures var left := Log.Unpinned(cache, lh[..i]);
        lh[i] in cache && a.Slot(i) !in left && lh[i] in left && left[lh[i]] == cache[lh[i]]
    {
      assert Look(1, 0);
      LeftLater(a, disk, lh, cache, i);
    }

    lemma CarriesInstall(k: nat)
      requires Sound() && Installing(|lh|, k)
      ensures k < |ws| && CarriesAt(k, ws[k])
    {
      Bounds(k);
      InstallsAt(k, k - |lh| - 1);
      LeftAt(k - |lh| - 1);
    }

    lemma CarriesHead(k: nat)
      requires Sound() && k < Turns(|lh|) && !Copies(|lh|, k)
      ensures k < |ws| && CarriesAt(k, ws[k])
    {
      Bounds(k);
      assert Look(1, 0);
      TurnHeads(a, disk, lh, cache, k);
    }

    /** Every turn does. */
    lemma Carries(k: nat)
      requires Sound() && k < Turns(|lh|)
      ensures k < |ws| && CarriesAt(k, ws[k])
    {
      if k < |lh| {
        CarriesLog(k);
      } else if Installing(|lh|, k) {
        CarriesInstall(k);
      } else {
        CarriesHead(k);
      }
    }

    lemma CopyKeeps(k: nat, st: Stage, w: seq<Write>, d: Disk, left: map<nat, Block>, b: nat, x: Block)
      requires Sound() && k < Turns(|lh|) && st == CopyWrite && |lh| <= LOGSIZE
      requires b == Dst(a, lh, k) < |d| && Src(a, lh, k) < |d| && x == Content(a, lh, k, d, left)
      requires Progress(Issued(k, st), Freed(|lh|, k, st), w, d, left)
      ensures b in left ==> left[b] == x
      ensures var st' := Next(|lh|, k, st);
        Progress(Issued(k, st'), Freed(|lh|, k, st'), w + [Write(b, x)], d[b := x], left)
    {
      var st', m := Next(|lh|, k, st), Freed(|lh|, k, st);
      assert Issued(k, st) == k && Issued(k, st') == k + 1 && Freed(|lh|, k, st') == m;
      Bounds(k);
      Copied(k, m, w, d, left, b, x);
    }

    lemma Copied(k: nat, m: nat, w: seq<Write>, d: Disk, left: map<nat, Block>, b: nat, x: Block)
      requires Sound() && k < Turns(|lh|) && |lh| <= LOGSIZE && m == Freed(|lh|, k, CopyWrite)
      requires b == Dst(a, lh, k) < |d| && Src(a, lh, k) < |d| && x == Content(a, lh, k, d, left)
      requires Progress(k, m, w, d, left)
      ensures b in left ==> left[b] == x
      ensures Progress(k + 1, m, w + [Write(b, x)], d[b := x], left)
    {
      Carries(k);
      Opened(k, m, w, d, left);
      Log.Extend(before, ws, k);
      Log.ApplyNext(disk, ws, k);
    }

    // -------------------------------------------------------- the unpinning

    lemma NoneTwice(i: nat)
      requires Sound() && i < |lh|
      ensures lh[i] !in lh[..i]
    {
      assert Look(1, 0);
      DistinctPairs(lh);
    }

    lemma InstalledHome(k: nat, i: nat)
      requires Sound() && i < |lh| && k == |lh| + 1 + i
      ensures k < |ws| && lh[i] < |disk| && lh[i] in cache && Apply(disk, ws[..k + 1])[lh[i]] == cache[lh[i]]
    {
      Bounds(k);
      InstallsAt(k, i);
      Log.ApplyNext(disk, ws, k);
    }

    lemma LeftNext(i: nat)
      requires Sound() && i < |lh| && lh[i] in cache
      ensures var left := Log.Unpinned(cache, lh[..i]); lh[i] in left && left[lh[i]] == cache[lh[i]]
      ensures Log.Unpinned(cache, lh[..i + 1]) == Log.Unpinned(cache, lh[..i]) - {lh[i]}
    {
      NoneTwice(i);
      Log.UnpinnedNext(cache, lh, i);
    }

    lemma Unpinned(k: nat, i: nat, w: seq<Write>, d: Disk, left: map<nat, Block>, b: nat)
      requires Sound() && i < |lh| && k == |lh| + 1 + i && b == lh[i] && Progress(k + 1, i, w, d, left)
      ensures b < |d| && b in left && left[b] == d[b]
      ensures Progress(k + 1, i + 1, w, d, left - {b})
    {
      Opened(k + 1, i, w, d, left);
      InstalledHome(k, i);
      LeftNext(i);
    }

    lemma UnpinKeeps(k: nat, st: Stage, w: seq<Write>, d: Disk, left: map<nat, Block>, b: nat)
      requires Sound() && Installing(|lh|, k) && st == Unpin && b == Dst(a, lh, k)
      requires Progress(Issued(k, st), Freed(|lh|, k, st), w, d, left)
      ensures b < |d| && b in left && left[b] == d[b]
      ensures var st' := Next(|lh|, k, st); Progress(Issued(k, st'), Freed(|lh|, k, st'), w, d, left - {b})
    {
      var st', n := Next(|lh|, k, st), |lh|;
      assert Issued(k, st) == Issued(k, st') == k + 1 && Freed(n, k, st) == k - n - 1 && Freed(n, k, st') == k - n;
      Unpinned(k, k - n - 1, w, d, left, b);
    }

    /** The other stages. */
    lemma MoveKeeps(k: nat, st: Stage, w: seq<Write>, d: Disk, left: map<nat, Block>)
      requires Fits(|lh|, k, st) && k < Turns(|lh|) && st != CopyWrite && st != Unpin
      requires Progress(Issued(k, st), Freed(|lh|, k, st), w, d, left)
      ensures var k', st' := if st == DropDst then k + 1 else k, Next(|lh|, k, st);
        Fits(|lh|, k', st') && Progress(Issued(k', st'), Freed(|lh|, k', st'), w, d, left)
    {
      NextKeeps(|lh|, k, st);
    }

    // ---------------------------------------------------------- the readers

    /** Throughout, a reader of a home block sees what is being committed. */
    lemma ReaderSees(k: nat, st: Stage, w: seq<Write>, d: Disk, left: map<nat, Block>, b: nat)
      requires Sound() && Fits(|lh|, k, st) && Progress(Issued(k, st), Freed(|lh|, k, st), w, d, left)
      requires a.Home(disk, b)
      ensures b < |d| && Seen(d, left, b) == Seen(disk, cache, b)
    {
      FreedInstalled(|lh|, k, st);
      SeenStays(Issued(k, st), Freed(|lh|, k, st), w, d, left, b);
    }

    lemma SeenStays(i: nat, m: nat, w: seq<Write>, d: Disk, left: map<nat, Block>, b: nat)
      requires Sound() && Progress(i, m, w, d, left) && (m > 0 ==> m + |lh| + 1 <= i) && a.Home(disk, b)
      ensures b < |d| && Seen(d, left, b) == Seen(disk, cache, b)
    {
      Opened(i, m, w, d, left);
      HomeNow(i, b);
      if b in lh[..m] {
        var j :| 0 <= j < m && lh[j] == b;
        ListedNow(i, j);
      }
    }

    lemma HomeNow(i: nat, b: nat)
      requires Sound() && i <= |ws| && a.Home(disk, b)
      ensures b in lh <==> b in cache
      ensures b !in lh || i <= |lh| ==> Apply(disk, ws[..i])[b] == disk[b]
    {
      assert Look(1, 0);
      if i <= |lh| {
        DiskBefore(a, disk, lh, cache, i);
      } else {
        DiskPast(a, disk, lh, cache, i);
        assert HomeAt(lh, disk, Apply(disk, ws[..i]), b);
      }
    }

    lemma ListedNow(i: nat, j: nat)
      requires Sound() && j < |lh| && |lh| + j + 1 < i <= |ws|
      ensures lh[j] in cache && lh[j] < |disk| && Apply(disk, ws[..i])[lh[j]] == cache[lh[j]]
    {
      Shown();
      ListedRight(i, j);
    }

    // ---------------------------------------------------- what a run leaves

    /** After the last turn: all writes issued and nothing pinned. */
    lemma Finished(w: seq<Write>, d: Disk, left: map<nat, Block>)
      requires Sound() && Progress(Turns(|lh|), |lh|, w, d, left)
      ensures Right() && w == before + ws && d == Apply(disk, ws) && left == map[]
    {
      Bounds(0);
      Shown();
      Opened(Turns(|lh|), |lh|, w, d, left);
      assert ws[..|ws|] == ws && lh[..|lh|] == lh;
    }

    /** A crash after i writes, and the recoveries that follow: the listed blocks
        are all as logged if the header was written, and otherwise all as they
        were. */
    lemma Crashed(i: nat, m: nat, w: seq<Write>, d: Disk, left: map<nat, Block>, cuts: seq<nat>)
      requires Sound() && Progress(i, m, w, d, left) && Clean(a, disk)
      ensures GoodHead(a, d) && Clean(a, Reboot(a, d, cuts)) && |Reboot(a, d, cuts)| == |disk|
      ensures forall b: nat | a.Home(disk, b) ::
        Reboot(a, d, cuts)[b] == if i > |lh| then Seen(disk, cache, b) else disk[b]
    {
      Shown();
      Opened(i, m, w, d, left);
      CrashAtomicity(a, disk, lh, cache, i, cuts);
    }
  }
}
