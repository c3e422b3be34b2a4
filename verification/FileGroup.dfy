/** Several filewrites at once, to different inodes: their transactions interleave
    and share commits. */
module FileGroup {
  import opened Common
  import opened Blocks
  import opened Wal
  import opened LogRun
  import opened BlockMap
  import opened FileBytes
  import opened FileTxn
  import opened FileCrash

  /** Where a filewrite is: between transactions, in one that has written tot of
      its n1 bytes or found the disk full, or at its end. */
  datatype Phase = Idle | Writing(op: OpId, n1: nat, tot: nat, full: bool) | Over

  /** filewrite of cnt bytes of src to inode n at foff, i of them in whole
      transactions. */
  datatype Job = Job(n: nat, src: seq<byte>, foff: nat, cnt: nat, i: nat, phase: Phase) {
    function Tot(): nat { if phase.Writing? then i + phase.tot else i }

    /** After a turn of writei's loop: m more bytes, or the disk is full. */
    function Turned(full: bool, m: nat): Job
      requires phase.Writing?
    {
      this.(phase := if full then phase.(full := true) else phase.(tot := phase.tot + m))
    }
  }

  // ---------------------------------------------------------------- the files

  /** Since (b0, i0), the bytes of file n have become these and no others. */
  ghost predicate HasBytes(b0: seq<Blk>, i0: seq<Inode>, b1: seq<Blk>, i1: seq<Inode>, j: Job)
    requires j.Tot() <= |j.src|
  {
    forall bn: nat, o: nat {:trigger FileByte(b1, i1, j.n, bn, o)} ::
      FileByte(b1, i1, j.n, bn, o) == WroteByte(b0, i0, j.n, j.foff, j.src, j.Tot(), j.n, bn, o)
  }

  ghost predicate FileAt(b0: seq<Blk>, i0: seq<Inode>, b1: seq<Blk>, i1: seq<Inode>, j: Job) {
    && j.n < |i0| == |i1| && j.Tot() <= |j.src| && (j.Tot() > 0 ==> j.foff <= i0[j.n].size)
    && i1[j.n].size == (if j.i > 0 then Grown(i0[j.n].size, j.foff + j.i) else i0[j.n].size)
    && HasBytes(b0, i0, b1, i1, j)
  }

  ghost predicate FileKept(b0: seq<Blk>, i0: seq<Inode>, b1: seq<Blk>, i1: seq<Inode>, m: nat) {
    && m < |i0| == |i1| && i1[m].size == i0[m].size
    && forall bn: nat, o: nat {:trigger FileByte(b1, i1, m, bn, o)} ::
      FileByte(b1, i1, m, bn, o) == FileByte(b0, i0, m, bn, o)
  }

  ghost predicate Written(jobs: seq<Job>, m: nat) { exists w :: 0 <= w < |jobs| && jobs[w].n == m }

  /** Each job's file has what the job has written, and every other file is as it
      was. */
  ghost predicate Files(b0: seq<Blk>, i0: seq<Inode>, b1: seq<Blk>, i1: seq<Inode>, jobs: seq<Job>) {
    && |i1| == |i0|
    && (forall w: nat {:trigger FileAt(b0, i0, b1, i1, jobs[w])} | w < |jobs| :: FileAt(b0, i0, b1, i1, jobs[w]))
    && (forall m: nat {:trigger FileKept(b0, i0, b1, i1, m)} | m < |i0| && !Written(jobs, m) ::
      FileKept(b0, i0, b1, i1, m))
  }

  /** The jobs write to different inodes. */
  ghost predicate Different(jobs: seq<Job>) {
    forall v: nat, w: nat | v < |jobs| && w < |jobs| && v != w :: jobs[v].n != jobs[w].n
  }

  /** What a step does to files other than n. */
  ghost predicate Spares(b1: seq<Blk>, i1: seq<Inode>, b2: seq<Blk>, i2: seq<Inode>, n: nat) {
    && |i2| == |i1|
    && forall m: nat {:trigger FileKept(b1, i1, b2, i2, m)} | m < |i1| && m != n :: FileKept(b1, i1, b2, i2, m)
  }

  lemma KeptThen(b0: seq<Blk>, i0: seq<Inode>, b1: seq<Blk>, i1: seq<Inode>, b2: seq<Blk>, i2: seq<Inode>, j: Job)
    requires FileKept(b1, i1, b2, i2, j.n)
    ensures FileAt(b0, i0, b1, i1, j) ==> FileAt(b0, i0, b2, i2, j)
    ensures FileKept(b0, i0, b1, i1, j.n) ==> FileKept(b0, i0, b2, i2, j.n)
  {
    forall bn: nat, o: nat ensures FileByte(b2, i2, j.n, bn, o) == FileByte(b1, i1, j.n, bn, o) { }
  }

  /** A step of job w, which leaves the other files alone. */
  lemma FilesStep(b0: seq<Blk>, i0: seq<Inode>, b1: seq<Blk>, i1: seq<Inode>, b2: seq<Blk>, i2: seq<Inode>,
                  jobs: seq<Job>, w: nat, j: Job)
    requires Files(b0, i0, b1, i1, jobs) && Different(jobs) && w < |jobs| && j.n == jobs[w].n
    requires Spares(b1, i1, b2, i2, j.n) && FileAt(b0, i0, b2, i2, j)
    ensures Files(b0, i0, b2, i2, jobs[w := j]) && Different(jobs[w := j])
  {
    var jobs' := jobs[w := j];
    forall v: nat | v < |jobs'| ensures FileAt(b0, i0, b2, i2, jobs'[v]) {
      if v != w {
        assert FileAt(b0, i0, b1, i1, jobs[v]) && FileKept(b1, i1, b2, i2, jobs[v].n);
        KeptThen(b0, i0, b1, i1, b2, i2, jobs[v]);
      }
    }
    forall m: nat | m < |i0| && !Written(jobs', m) ensures FileKept(b0, i0, b2, i2, m) {
      assert jobs'[w].n != m;
      forall v: nat | v < |jobs| ensures jobs[v].n != m { assert jobs'[v].n == jobs[v].n; }
      assert FileKept(b0, i0, b1, i1, m) && FileKept(b1, i1, b2, i2, m);
      KeptThen(b0, i0, b1, i1, b2, i2, Job(m, [], 0, 0, 0, Idle));
    }
  }

  /** k more bytes of job j. */
  lemma PatchedFile(b0: seq<Blk>, i0: seq<Inode>, b1: seq<Blk>, i1: seq<Inode>, b2: seq<Blk>, i2: seq<Inode>, j: Job,
                    k: nat)
    requires FileAt(b0, i0, b1, i1, j) && j.phase.Writing? && j.Tot() + k <= |j.src| && SameSizes(i1, i2)
    requires j.foff <= i0[j.n].size && (j.foff + j.Tot()) % BSIZE + k <= BSIZE
    requires var x := j.foff + j.Tot(); Patched(b1, i1, b2, i2, j.n, x / BSIZE, x % BSIZE, j.src[j.Tot()..j.Tot() + k])
    ensures FileAt(b0, i0, b2, i2, j.(phase := j.phase.(tot := j.phase.tot + k)))
    ensures Spares(b1, i1, b2, i2, j.n)
  {
    var j', x := j.(phase := j.phase.(tot := j.phase.tot + k)), j.foff + j.Tot();
    forall bn: nat, o: nat
      ensures FileByte(b2, i2, j.n, bn, o) == WroteByte(b0, i0, j.n, j.foff, j.src, j'.Tot(), j.n, bn, o)
    {
      assert FileByte(b1, i1, j.n, bn, o) == WroteByte(b0, i0, j.n, j.foff, j.src, j.Tot(), j.n, bn, o);
      InBlock(x, bn, o);
    }
  }

  /** A step of job j that changes no file. */
  lemma SameFiles(b0: seq<Blk>, i0: seq<Inode>, b1: seq<Blk>, i1: seq<Inode>, b2: seq<Blk>, i2: seq<Inode>, j: Job,
                  j': Job)
    requires FileAt(b0, i0, b1, i1, j) && SameBytes(b1, i1, b2, i2) && SameSizes(i1, i2)
    requires SameJob(j, j') && j'.i == j.i && j'.Tot() == j.Tot()
    ensures FileAt(b0, i0, b2, i2, j') && Spares(b1, i1, b2, i2, j.n)
  {
    forall m: nat | m < |i1| ensures FileKept(b1, i1, b2, i2, m) { }
    KeptThen(b0, i0, b1, i1, b2, i2, j);
    forall bn: nat, o: nat ensures FileByte(b2, i2, j.n, bn, o) ==
      WroteByte(b0, i0, j.n, j.foff, j.src, j'.Tot(), j.n, bn, o) { }
  }

  /** The end of a transaction of job j. */
  lemma SettledFile(b0: seq<Blk>, i0: seq<Inode>, b1: seq<Blk>, i1: seq<Inode>, i2: seq<Inode>, j: Job, phase: Phase)
    requires FileAt(b0, i0, b1, i1, j) && j.phase.Writing? && !phase.Writing? && j.foff <= i0[j.n].size
    requires SameBytes(b1, i1, b1, i2)
    requires i2 == i1[j.n := Inode(i1[j.n].addrs, Grown(i1[j.n].size, j.foff + j.Tot()))]
    ensures FileAt(b0, i0, b1, i2, j.(i := j.Tot(), phase := phase)) && Spares(b1, i1, b1, i2, j.n)
  {
    var j' := j.(i := j.Tot(), phase := phase);
    forall bn: nat, o: nat ensures FileByte(b1, i2, j.n, bn, o) ==
      WroteByte(b0, i0, j.n, j.foff, j.src, j'.Tot(), j.n, bn, o)
    {
      assert FileByte(b1, i1, j.n, bn, o) == WroteByte(b0, i0, j.n, j.foff, j.src, j.Tot(), j.n, bn, o);
    }
  }

  // --------------------------------------------------------------- the events

  /** A state in which no transaction is open. */
  datatype Mark = Mark(blocks: seq<Blk>, inodes: seq<Inode>, jobs: seq<Job>)

  /** If no operation is open after the first c events, their writes make the
      state of mark at[c]. */
  ghost predicate PointAt(l: Layout, home: map<nat, Block>, es: seq<Event>, at: seq<nat>, marks: seq<Mark>, c: nat) {
    && c <= |es| && c < |at| && at[c] < |marks|
    && (Open(es[..c]) == {} ==>
      Replay(home, es[..c]) == Image(l, marks[at[c]].blocks, marks[at[c]].inodes))
  }

  ghost predicate Points(l: Layout, home: map<nat, Block>, es: seq<Event>, at: seq<nat>, marks: seq<Mark>) {
    && |at| == |es| + 1
    && (forall c: nat {:trigger PointAt(l, home, es, at, marks, c)} | c <= |es| :: PointAt(l, home, es, at, marks, c))
    && (forall c, d | 0 <= c <= d < |at| :: at[c] <= at[d])
  }

  /** One more event, and with it perhaps one more mark. */
  lemma PointNext(l: Layout, home: map<nat, Block>, es: seq<Event>, at: seq<nat>, marks: seq<Mark>, e: Event,
                  more: seq<Mark>)
    requires Points(l, home, es, at, marks) && |marks + more| > 0
    requires var k := |marks + more| - 1; var m := (marks + more)[k];
      Open(es + [e]) == {} ==> Replay(home, es + [e]) == Image(l, m.blocks, m.inodes)
    ensures Points(l, home, es + [e], at + [|marks + more| - 1], marks + more)
  {
    var es', at', marks' := es + [e], at + [|marks + more| - 1], marks + more;
    assert PointAt(l, home, es, at, marks, |es|);
    forall c: nat | c <= |es'| ensures PointAt(l, home, es', at', marks', c) {
      if c <= |es| {
        assert PointAt(l, home, es, at, marks, c) && es'[..c] == es[..c];
      } else {
        assert es'[..c] == es';
      }
    }
    forall c, d | 0 <= c <= d < |at'| ensures at'[c] <= at'[d] {
      if c < |at| { assert PointAt(l, home, es, at, marks, c); }
    }
  }

  /** The log_writes of an operation that is open. */
  lemma {:induction false} PointWrites(l: Layout, home: map<nat, Block>, es: seq<Event>, at: seq<nat>,
                                       marks: seq<Mark>, op: OpId, ws: seq<Event>)
    returns (at': seq<nat>)
    requires Points(l, home, es, at, marks) && marks != [] && op in Open(es)
    requires forall i | 0 <= i < |ws| :: ws[i].LogWrite?
    ensures Points(l, home, es + ws, at', marks) && Open(es + ws) == Open(es)
    ensures Replay(home, es + ws) == Replay(home, es) + Replay(map[], ws)
    decreases |ws|
  {
    if ws == [] {
      assert es + ws == es && Replay(home, es) + map[] == Replay(home, es);
      return at;
    }
    var less, e := ws[..|ws| - 1], ws[|ws| - 1];
    var at1 := PointWrites(l, home, es, at, marks, op, less);
    assert (es + ws)[..|es + ws| - 1] == es + less && es + ws == (es + less) + [e] && marks + [] == marks;
    assert Open(es + ws) == Open(es);
    PointNext(l, home, es + less, at1, marks, e, []);
    at' := at1 + [|marks| - 1];
    assert Replay(home, es + ws) == (Replay(home, es) + Replay(map[], less))[e.bno as nat := e.data];
  }

  // ---------------------------------------------------------------- the marks

  ghost predicate SameJob(j: Job, k: Job) {
    j.n == k.n && j.src == k.src && j.foff == k.foff && j.cnt == k.cnt && j.i <= k.i
  }

  /** The same jobs, each no further than later. */
  ghost predicate Earlier(js: seq<Job>, ks: seq<Job>) {
    |js| == |ks| && forall w: nat {:trigger SameJob(js[w], ks[w])} | w < |js| :: SameJob(js[w], ks[w])
  }

  /** A mark: every job is between transactions, and its file has what it has
      written. */
  ghost predicate MarkAt(b0: seq<Blk>, i0: seq<Inode>, m: Mark) {
    Files(b0, i0, m.blocks, m.inodes, m.jobs) && forall w | 0 <= w < |m.jobs| :: !m.jobs[w].phase.Writing?
  }

  ghost predicate Marks(b0: seq<Blk>, i0: seq<Inode>, marks: seq<Mark>, jobs: seq<Job>) {
    && (forall k: nat {:trigger MarkAt(b0, i0, marks[k])} | k < |marks| :: MarkAt(b0, i0, marks[k]))
    && (forall k: nat {:trigger Earlier(marks[k].jobs, jobs)} | k < |marks| :: Earlier(marks[k].jobs, jobs))
    && (forall j: nat, k: nat {:trigger Earlier(marks[j].jobs, marks[k].jobs)} | j <= k < |marks| ::
      Earlier(marks[j].jobs, marks[k].jobs))
  }

  lemma EarlierTrans(js: seq<Job>, ks: seq<Job>, ls: seq<Job>)
    requires Earlier(js, ks) && Earlier(ks, ls)
    ensures Earlier(js, ls)
  {
    forall w: nat | w < |js| ensures SameJob(js[w], ls[w]) { assert SameJob(js[w], ks[w]) && SameJob(ks[w], ls[w]); }
  }

  lemma EarlierRefl(js: seq<Job>)
    ensures Earlier(js, js)
  {
  }

  lemma MarksStep(b0: seq<Blk>, i0: seq<Inode>, marks: seq<Mark>, jobs: seq<Job>, w: nat, j: Job)
    requires Marks(b0, i0, marks, jobs) && w < |jobs| && SameJob(jobs[w], j)
    ensures Marks(b0, i0, marks, jobs[w := j])
  {
    var jobs' := jobs[w := j];
    assert Earlier(jobs, jobs');
    forall k: nat | k < |marks| ensures Earlier(marks[k].jobs, jobs') { EarlierTrans(marks[k].jobs, jobs, jobs'); }
  }

  lemma MarksNext(b0: seq<Blk>, i0: seq<Inode>, marks: seq<Mark>, jobs: seq<Job>, m: Mark)
    requires Marks(b0, i0, marks, jobs) && MarkAt(b0, i0, m) && m.jobs == jobs
    ensures Marks(b0, i0, marks + [m], jobs)
  {
    var marks' := marks + [m];
    EarlierRefl(jobs);
    forall k: nat | k < |marks'| ensures MarkAt(b0, i0, marks'[k]) && Earlier(marks'[k].jobs, jobs) {
      if k < |marks| { assert MarkAt(b0, i0, marks[k]) && Earlier(marks[k].jobs, jobs); }
    }
    forall j: nat, k: nat | j <= k < |marks'| ensures Earlier(marks'[j].jobs, marks'[k].jobs) {
      if k < |marks| { assert Earlier(marks[j].jobs, marks[k].jobs); }
      if j < |marks| { assert Earlier(marks[j].jobs, jobs); }
    }
  }

  // ------------------------------------------------------ the jobs at a step

  /** Job j, whose source is readable, is within its bounds; while it writes, its
      transaction is one that writei does not refuse. */
  ghost predicate JobOk(i0: seq<Inode>, j: Job) {
    && j.n < |i0| && j.i <= j.cnt <= |j.src|
    && (j.phase.Writing? ==>
          && j.phase.tot <= j.phase.n1 && j.i + j.phase.n1 <= j.cnt && j.foff <= i0[j.n].size
          && j.foff + j.i + j.phase.n1 <= MAXFILE * BSIZE)
  }

  ghost predicate JobsOk(i0: seq<Inode>, jobs: seq<Job>) {
    forall w: nat {:trigger JobOk(i0, jobs[w])} | w < |jobs| :: JobOk(i0, jobs[w])
  }

  lemma JobsStep(i0: seq<Inode>, jobs: seq<Job>, w: nat, j: Job)
    requires JobsOk(i0, jobs) && w < |jobs| && JobOk(i0, j)
    ensures JobsOk(i0, jobs[w := j])
  {
    var jobs' := jobs[w := j];
    forall v: nat | v < |jobs'| ensures JobOk(i0, jobs'[v]) { if v != w { assert JobOk(i0, jobs[v]); } }
  }

  ghost predicate OpenAt(open: map<OpId, nat>, jobs: seq<Job>, w: nat) {
    w < |jobs| && (jobs[w].phase.Writing? ==> jobs[w].phase.op in open && open[jobs[w].phase.op] == w)
  }

  ghost predicate OpenOf(open: map<OpId, nat>, jobs: seq<Job>, op: OpId) {
    op in open && open[op] < |jobs| && jobs[open[op]].phase.Writing? && jobs[open[op]].phase.op == op
  }

  /** Which job each open operation belongs to. */
  ghost predicate Opens(open: map<OpId, nat>, jobs: seq<Job>) {
    && (forall w: nat {:trigger OpenAt(open, jobs, w)} | w < |jobs| :: OpenAt(open, jobs, w))
    && (forall op: OpId {:trigger OpenOf(open, jobs, op)} | op in open :: OpenOf(open, jobs, op))
  }

  /** Job w changes to j, which opens an operation, goes on with it or closes it. */
  ghost predicate Moves(open: map<OpId, nat>, jobs: seq<Job>, w: nat, j: Job, open': map<OpId, nat>)
    requires w < |jobs|
  {
    || (!jobs[w].phase.Writing? && j.phase.Writing? && j.phase.op !in open && open' == open[j.phase.op := w])
    || (jobs[w].phase.Writing? && j.phase.Writing? && j.phase.op == jobs[w].phase.op && open' == open)
    || (jobs[w].phase.Writing? && !j.phase.Writing? && open' == open - {jobs[w].phase.op})
    || (!jobs[w].phase.Writing? && !j.phase.Writing? && open' == open)
  }

  lemma OpensStep(open: map<OpId, nat>, jobs: seq<Job>, w: nat, j: Job, open': map<OpId, nat>)
    requires Opens(open, jobs) && w < |jobs| && Moves(open, jobs, w, j, open')
    ensures Opens(open', jobs[w := j])
  {
    var jobs' := jobs[w := j];
    assert OpenAt(open, jobs, w);
    forall v: nat | v < |jobs'| ensures OpenAt(open', jobs', v) { assert OpenAt(open, jobs, v); }
    forall op | op in open' ensures OpenOf(open', jobs', op) {
      if op in open { assert OpenOf(open, jobs, op); }
    }
  }

  ghost predicate Busy(jobs: seq<Job>, m: nat) {
    exists w :: 0 <= w < |jobs| && jobs[w].n == m && jobs[w].phase.Writing?
  }

  ghost predicate RecordedAt(stored: seq<Inode>, inodes: seq<Inode>, jobs: seq<Job>, m: nat) {
    m < |stored| == |inodes| && (stored[m] == inodes[m] || Busy(jobs, m))
  }

  /** The inode blocks have every inode that is not being written. */
  ghost predicate Recorded(stored: seq<Inode>, inodes: seq<Inode>, jobs: seq<Job>) {
    && |stored| == |inodes|
    && forall m: nat {:trigger RecordedAt(stored, inodes, jobs, m)} | m < |stored| ::
      RecordedAt(stored, inodes, jobs, m)
  }

  /** A step of job w within a transaction, or at its end, when its inode is
      stored. */
  lemma RecordedStep(stored: seq<Inode>, inodes: seq<Inode>, jobs: seq<Job>, w: nat, j: Job, stored': seq<Inode>,
                   inodes': seq<Inode>)
    requires Recorded(stored, inodes, jobs) && w < |jobs| && j.n == jobs[w].n && Alone(inodes, inodes', j.n)
    requires if j.phase.Writing? then stored' == stored else stored' == stored[j.n := inodes'[j.n]]
    ensures Recorded(stored', inodes', jobs[w := j])
  {
    var jobs' := jobs[w := j];
    forall m: nat | m < |stored'| ensures RecordedAt(stored', inodes', jobs', m) {
      assert RecordedAt(stored, inodes, jobs, m);
      if m == j.n {
        assert jobs'[w].n == m;
      } else if Busy(jobs, m) {
        var v :| 0 <= v < |jobs| && jobs[v].n == m && jobs[v].phase.Writing?;
        assert jobs'[v] == jobs[v];
      }
    }
  }

  /** With no operation open, every inode is stored and no job is writing. */
  lemma AllStored(stored: seq<Inode>, inodes: seq<Inode>, jobs: seq<Job>)
    requires Recorded(stored, inodes, jobs) && Opens(map[], jobs)
    ensures stored == inodes && forall w | 0 <= w < |jobs| :: !jobs[w].phase.Writing?
  {
    var none: map<OpId, nat> := map[];
    forall w: nat | w < |jobs| ensures !jobs[w].phase.Writing? { assert OpenAt(none, jobs, w); }
    forall m: nat | m < |stored| ensures stored[m] == inodes[m] { assert RecordedAt(stored, inodes, jobs, m); }
  }

  // ------------------------------------------------------------- all together

  ghost predicate InOrder(b0: seq<Blk>, i0: seq<Inode>, b: seq<Blk>, i: seq<Inode>, stored: seq<Inode>, jobs: seq<Job>,
                          open: map<OpId, nat>, marks: seq<Mark>)
  {
    && Files(b0, i0, b, i, jobs) && Different(jobs) && JobsOk(i0, jobs)
    && Recorded(stored, i, jobs) && Opens(open, jobs) && Marks(b0, i0, marks, jobs)
  }

  /** The same, for proofs that hand it on without looking inside. */
  ghost predicate Group(b0: seq<Blk>, i0: seq<Inode>, b: seq<Blk>, i: seq<Inode>, stored: seq<Inode>, jobs: seq<Job>,
                        open: map<OpId, nat>, marks: seq<Mark>)
  {
    forall k: nat {:trigger Peek(k)} | Peek(k) :: InOrder(b0, i0, b, i, stored, jobs, open, marks)
  }

  lemma GroupAt(b0: seq<Blk>, i0: seq<Inode>, b: seq<Blk>, i: seq<Inode>, stored: seq<Inode>, jobs: seq<Job>,
                open: map<OpId, nat>, marks: seq<Mark>, w: nat)
    requires Group(b0, i0, b, i, stored, jobs, open, marks) && w < |jobs|
    ensures JobOk(i0, jobs[w]) && FileAt(b0, i0, b, i, jobs[w]) && OpenAt(open, jobs, w) && |stored| == |i| == |i0|
  {
    assert Peek(0);
  }

  lemma GroupJob(b0: seq<Blk>, i0: seq<Inode>, b: seq<Blk>, i: seq<Inode>, stored: seq<Inode>, jobs: seq<Job>,
                 open: map<OpId, nat>, marks: seq<Mark>, w: nat)
    requires Group(b0, i0, b, i, stored, jobs, open, marks) && w < |jobs|
    ensures JobOk(i0, jobs[w]) && jobs[w].n < |stored| == |i|
    ensures jobs[w].phase.Writing? ==> jobs[w].phase.op in open
  {
    GroupAt(b0, i0, b, i, stored, jobs, open, marks, w);
  }

  /** A step of one job keeps it all. */
  lemma GroupStep(b0: seq<Blk>, i0: seq<Inode>, b1: seq<Blk>, i1: seq<Inode>, stored: seq<Inode>, jobs: seq<Job>,
                  open: map<OpId, nat>, marks: seq<Mark>, w: nat, j: Job, b2: seq<Blk>, i2: seq<Inode>,
                  stored': seq<Inode>, open': map<OpId, nat>)
    requires Group(b0, i0, b1, i1, stored, jobs, open, marks) && w < |jobs| && SameJob(jobs[w], j) && JobOk(i0, j)
    requires FileAt(b0, i0, b2, i2, j) && Spares(b1, i1, b2, i2, j.n) && Moves(open, jobs, w, j, open')
    requires Alone(i1, i2, j.n) && j.n < |stored|
    requires if j.phase.Writing? then stored' == stored else stored' == stored[j.n := i2[j.n]]
    ensures Group(b0, i0, b2, i2, stored', jobs[w := j], open', marks)
  {
    assert Peek(0);
    JobsStep(i0, jobs, w, j);
    MarksStep(b0, i0, marks, jobs, w, j);
    OpensStep(open, jobs, w, j, open');
    RecordedStep(stored, i1, jobs, w, j, stored', i2);
    FilesStep(b0, i0, b1, i1, b2, i2, jobs, w, j);
  }

  /** The inode of a job that is not writing is stored. */
  lemma GroupStored(b0: seq<Blk>, i0: seq<Inode>, b: seq<Blk>, i: seq<Inode>, stored: seq<Inode>, jobs: seq<Job>,
                    open: map<OpId, nat>, marks: seq<Mark>, w: nat)
    requires Group(b0, i0, b, i, stored, jobs, open, marks) && w < |jobs| && !jobs[w].phase.Writing?
    ensures jobs[w].n < |i| == |stored| && stored[jobs[w].n := i[jobs[w].n]] == stored
  {
    assert Peek(0);
    assert JobOk(i0, jobs[w]) && RecordedAt(stored, i, jobs, jobs[w].n);
  }

  /** With no operation open, the inodes are stored, and the state is a mark. */
  lemma GroupQuiet(b0: seq<Blk>, i0: seq<Inode>, b: seq<Blk>, i: seq<Inode>, stored: seq<Inode>, jobs: seq<Job>,
                   marks: seq<Mark>)
    requires Group(b0, i0, b, i, stored, jobs, map[], marks)
    ensures stored == i && Group(b0, i0, b, i, stored, jobs, map[], marks + [Mark(b, i, jobs)])
  {
    assert Peek(0);
    AllStored(stored, i, jobs);
    MarksNext(b0, i0, marks, jobs, Mark(b, i, jobs));
  }

  ghost predicate Traced(l: Layout, home: map<nat, Block>, es: seq<Event>, at: seq<nat>, marks: seq<Mark>,
                         ops: set<OpId>, b: seq<Blk>, stored: seq<Inode>)
  {
    && Points(l, home, es, at, marks) && marks != [] && CrashFree(es)
    && Open(es) == ops && Replay(home, es) == Image(l, b, stored)
  }

  /** The log has these blocks and inodes, and at every point with no operation
      open it had those of a mark.  Closed, as with Peek. */
  ghost predicate Trace(l: Layout, home: map<nat, Block>, es: seq<Event>, at: seq<nat>, marks: seq<Mark>,
                        ops: set<OpId>, b: seq<Blk>, stored: seq<Inode>)
  {
    forall k: nat {:trigger Peek(k)} | Peek(k) :: Traced(l, home, es, at, marks, ops, b, stored)
  }

  lemma TraceMarked(l: Layout, home: map<nat, Block>, es: seq<Event>, at: seq<nat>, marks: seq<Mark>, ops: set<OpId>,
                    b: seq<Blk>, stored: seq<Inode>)
    requires Trace(l, home, es, at, marks, ops, b, stored)
    ensures marks != [] && CrashFree(es)
  {
    assert Peek(0);
  }

  lemma TraceBegin(l: Layout, home: map<nat, Block>, es: seq<Event>, at: seq<nat>, marks: seq<Mark>, ops: set<OpId>,
                   b: seq<Blk>, stored: seq<Inode>, op: OpId)
    requires Trace(l, home, es, at, marks, ops, b, stored)
    ensures marks != []
    ensures Trace(l, home, es + [Begin(op)], at + [|marks| - 1], marks, ops + {op}, b, stored)
  {
    assert Peek(0);
    assert (es + [Begin(op)])[..|es|] == es && marks + [] == marks && op in Open(es + [Begin(op)]);
    PointNext(l, home, es, at, marks, Begin(op), []);
  }

  /** The log_writes of operation op that lead from p's state to s's. */
  /** Log_writes by op that leave these contents in the log. */
  ghost predicate Leaves(ws: seq<Event>, op: OpId, stores: map<nat, Block>) {
    Replay(map[], ws) == stores && forall i | 0 <= i < |ws| :: ws[i].LogWrite? && ws[i].op == op
  }

  lemma LeavesExist(l: Layout, op: OpId, s: Snap) returns (ws: seq<Event>)
    requires |s.blocks| <= 0x1_0000_0000
    ensures Leaves(ws, op, Stores(l, s))
  {
    ws := WritesFor(op, Stores(l, s));
  }

  lemma TraceWrites(l: Layout, home: map<nat, Block>, es: seq<Event>, at: seq<nat>, marks: seq<Mark>, ops: set<OpId>,
                    op: OpId, p: Snap, s: Snap, ws: seq<Event>)
    returns (at': seq<nat>)
    requires Trace(l, home, es, at, marks, ops, p.blocks, p.inodes) && op in ops
    requires Txn(l.sb, p.blocks, p.inodes, s.log, s.blocks, s.inodes) && Leaves(ws, op, Stores(l, s))
    ensures Trace(l, home, es + ws, at', marks, ops, s.blocks, s.inodes)
  {
    assert Peek(0);
    at' := PointWrites(l, home, es, at, marks, op, ws);
    StoresLead(l, p, s);
  }

  /** end_op, after which m is a mark if no operation is open. */
  lemma TraceEnd(l: Layout, home: map<nat, Block>, es: seq<Event>, at: seq<nat>, marks: seq<Mark>, ops: set<OpId>,
                 b: seq<Blk>, stored: seq<Inode>, op: OpId, m: Mark)
    returns (marks': seq<Mark>)
    requires Trace(l, home, es, at, marks, ops, b, stored)
    requires ops - {op} == {} ==> m.blocks == b && m.inodes == stored
    ensures marks' == (if ops - {op} == {} then marks + [m] else marks) && marks' != []
    ensures Trace(l, home, es + [End(op)], at + [|marks'| - 1], marks', ops - {op}, b, stored)
  {
    assert Peek(0);
    var more := if ops - {op} == {} then [m] else [];
    marks' := marks + more;
    assert (es + [End(op)])[..|es|] == es && marks + [] == marks;
    PointNext(l, home, es, at, marks, End(op), more);
  }

  /** A commit of the log. */
  lemma TraceCommit(l: Layout, home: map<nat, Block>, es: seq<Event>, at: seq<nat>, marks: seq<Mark>, ops: set<OpId>,
                    b: seq<Blk>, stored: seq<Inode>)
    requires Trace(l, home, es, at, marks, ops, b, stored) && marks != []
    requires ops == {} ==> var m := marks[|marks| - 1]; m.blocks == b && m.inodes == stored
    ensures Trace(l, home, es + [Commit], at + [|marks| - 1], marks, ops, b, stored)
  {
    assert Peek(0);
    assert (es + [Commit])[..|es|] == es && marks + [] == marks;
    PointNext(l, home, es, at, marks, Commit, []);
  }

  /** One turn of writei's loop by job w: m more bytes, or the disk is full. */
  lemma GroupWrite(b0: seq<Blk>, i0: seq<Inode>, b1: seq<Blk>, i1: seq<Inode>, stored: seq<Inode>, jobs: seq<Job>,
                   open: map<OpId, nat>, marks: seq<Mark>, w: nat, b2: seq<Blk>, i2: seq<Inode>, m: nat, full: bool)
    requires Group(b0, i0, b1, i1, stored, jobs, open, marks) && w < |jobs| && jobs[w].phase.Writing?
    requires jobs[w].phase.tot + m <= jobs[w].phase.n1 && Alone(i1, i2, jobs[w].n) && SameSizes(i1, i2)
    requires (jobs[w].foff + jobs[w].Tot()) % BSIZE + m <= BSIZE && jobs[w].Tot() + m <= |jobs[w].src|
    requires full ==> SameBytes(b1, i1, b2, i2)
    requires !full ==> var x := jobs[w].foff + jobs[w].Tot();
      Patched(b1, i1, b2, i2, jobs[w].n, x / BSIZE, x % BSIZE, jobs[w].src[jobs[w].Tot()..jobs[w].Tot() + m])
    ensures Group(b0, i0, b2, i2, stored, jobs[w := jobs[w].Turned(full, m)], open, marks)
  {
    var j := jobs[w].Turned(full, m);
    GroupAt(b0, i0, b1, i1, stored, jobs, open, marks, w);
    if full {
      SameFiles(b0, i0, b1, i1, b2, i2, jobs[w], j);
    } else {
      PatchedFile(b0, i0, b1, i1, b2, i2, jobs[w], m);
    }
    GroupStep(b0, i0, b1, i1, stored, jobs, open, marks, w, j, b2, i2, stored, open);
  }

  /** The end of a transaction of job w. */
  lemma GroupEnd(b0: seq<Blk>, i0: seq<Inode>, b1: seq<Blk>, i1: seq<Inode>, stored: seq<Inode>, jobs: seq<Job>,
                 open: map<OpId, nat>, marks: seq<Mark>, w: nat, i2: seq<Inode>, j: Job)
    requires Group(b0, i0, b1, i1, stored, jobs, open, marks) && w < |jobs| && jobs[w].phase.Writing?
    requires SameBytes(b1, i1, b1, i2) && jobs[w].n < |i1| == |stored|
    requires var n := jobs[w].n; i2 == i1[n := Inode(i1[n].addrs, Grown(i1[n].size, jobs[w].foff + jobs[w].Tot()))]
    requires j == jobs[w].(i := jobs[w].Tot(), phase := j.phase) && !j.phase.Writing?
    ensures Group(b0, i0, b1, i2, stored[j.n := i2[j.n]], jobs[w := j], open - {jobs[w].phase.op}, marks)
  {
    GroupAt(b0, i0, b1, i1, stored, jobs, open, marks, w);
    SettledFile(b0, i0, b1, i1, i2, jobs[w], j.phase);
    GroupStep(b0, i0, b1, i1, stored, jobs, open, marks, w, j, b1, i2, stored[j.n := i2[j.n]],
              open - {jobs[w].phase.op});
  }

  // --------------------------------------------------------- what a mark shows

  /** The job's file is the old one overwritten or extended by what the job has
      written in whole transactions. */
  ghost predicate Shows(b0: seq<Blk>, i0: seq<Inode>, m: Mark, j: Job) {
    && j.n < |i0| && j.n < |m.inodes| && j.i <= |j.src| && (j.i > 0 ==> j.foff <= i0[j.n].size)
    && Contents(m.blocks, m.inodes, j.n) ==
      if j.i > 0 then Overwrite(Contents(b0, i0, j.n), j.foff, j.src[..j.i]) else Contents(b0, i0, j.n)
  }

  lemma JobShows(b0: seq<Blk>, i0: seq<Inode>, m: Mark, j: Job)
    requires FileAt(b0, i0, m.blocks, m.inodes, j) && !j.phase.Writing?
    ensures Shows(b0, i0, m, j)
  {
    var c0, c1 := Contents(b0, i0, j.n), Contents(m.blocks, m.inodes, j.n);
    forall k | 0 <= k < |c1| ensures c1[k] == WroteByte(b0, i0, j.n, j.foff, j.src, j.i, j.n, k / BSIZE, k % BSIZE) {
      assert c1[k] == FileByte(m.blocks, m.inodes, j.n, k / BSIZE, k % BSIZE);
    }
    if j.i > 0 {
      var w := Overwrite(c0, j.foff, j.src[..j.i]);
      OverwriteAt(c0, j.foff, j.src[..j.i], j.foff);
      forall k | 0 <= k < |c1| ensures c1[k] == w[k] {
        InBlock(k, k / BSIZE, k % BSIZE);
        OverwriteAt(c0, j.foff, j.src[..j.i], k);
      }
      assert c1 == w;
    } else {
      assert c1 == c0;
    }
  }

  /** Every job's file has a whole number of its transactions, and every other file
      is unchanged. */
  ghost predicate WholeJobs(b0: seq<Blk>, i0: seq<Inode>, m: Mark) {
    && (forall w | 0 <= w < |m.jobs| :: !m.jobs[w].phase.Writing? && Shows(b0, i0, m, m.jobs[w]))
    && (forall n: nat | n < |i0| && !Written(m.jobs, n) :: SameFile(b0, i0, m.blocks, m.inodes, n))
  }

  lemma MarkShows(b0: seq<Blk>, i0: seq<Inode>, m: Mark)
    requires MarkAt(b0, i0, m)
    ensures WholeJobs(b0, i0, m)
  {
    forall w: nat | w < |m.jobs| ensures Shows(b0, i0, m, m.jobs[w]) {
      assert FileAt(b0, i0, m.blocks, m.inodes, m.jobs[w]);
      JobShows(b0, i0, m, m.jobs[w]);
    }
    forall n: nat | n < |i0| && !Written(m.jobs, n) ensures SameFile(b0, i0, m.blocks, m.inodes, n) {
      assert FileKept(b0, i0, m.blocks, m.inodes, n);
      JobShows(b0, i0, m, Job(n, [], 0, 0, 0, Idle));
    }
  }

  lemma TraceAt(l: Layout, home: map<nat, Block>, es: seq<Event>, at: seq<nat>, marks: seq<Mark>, ops: set<OpId>,
                b: seq<Blk>, stored: seq<Inode>, d: nat, c: nat)
    requires Trace(l, home, es, at, marks, ops, b, stored) && d <= c <= |es|
    ensures CrashFree(es[..c]) && d < |at| && PointAt(l, home, es, at, marks, c) && at[d] <= at[c]
  {
    assert Peek(0);
  }

  /** What a crash leaves, k writes into the commit that runs then if any, is the
      writes up to a point with no operation open. */
  lemma CrashCut(a: Area, s: State, run: seq<Event>, k: nat, cuts: seq<nat>, r: State) returns (cut: nat)
    requires LogRun.Inv(a, s) && Fresh(a, s) && CrashFree(run) && Exec(a, s, run).Some?
    requires Enabled(a, Exec(a, s, run).value, Crash(k, cuts)) && r == Step(a, Exec(a, s, run).value, Crash(k, cuts))
    ensures LastCommit(run) <= cut <= |run| && Open(run[..cut]) == {}
    ensures Fresh(a, r) && HomeOf(a, r.disk) == Replay(HomeOf(a, s.disk), run[..cut])
  {
    CrashKeepsWholeOps(a, s, run, k, cuts);
    var t := Exec(a, s, run).value;
    cut := if t.committing && k > |t.lh| then |run| else LastCommit(run);
  }

  lemma PointImage(l: Layout, home: map<nat, Block>, es: seq<Event>, at: seq<nat>, marks: seq<Mark>, c: nat, cut: nat)
    requires PointAt(l, home, es, at, marks, cut) && cut <= c <= |es| && Open(es[..c][..cut]) == {}
    ensures Replay(home, es[..c][..cut]) == Image(l, marks[at[cut]].blocks, marks[at[cut]].inodes)
  {
    assert es[..c][..cut] == es[..cut];
  }

  /** A crash after the first c events, and any recoveries cut off after it: the disk
      is that of a mark, and no job has less than at the last commit. */
  lemma CrashAtMark(l: Layout, home: map<nat, Block>, es: seq<Event>, at: seq<nat>, marks: seq<Mark>, ops: set<OpId>,
                    b: seq<Blk>, stored: seq<Inode>, s: State, c: nat, k: nat, cuts: seq<nat>)
    returns (j: nat)
    requires Trace(l, home, es, at, marks, ops, b, stored) && c <= |es|
    requires LogRun.Inv(l.area, s) && Fresh(l.area, s) && HomeOf(l.area, s.disk) == home
    requires Exec(l.area, s, es[..c]).Some? && Enabled(l.area, Exec(l.area, s, es[..c]).value, Crash(k, cuts))
    ensures var r := Step(l.area, Exec(l.area, s, es[..c]).value, Crash(k, cuts));
      j < |marks| && Fresh(l.area, r) && HomeOf(l.area, r.disk) == Image(l, marks[j].blocks, marks[j].inodes)
    ensures LastCommit(es[..c]) < |at| && at[LastCommit(es[..c])] <= j
  {
    var r := Step(l.area, Exec(l.area, s, es[..c]).value, Crash(k, cuts));
    TraceAt(l, home, es, at, marks, ops, b, stored, c, c);
    var cut := CrashCut(l.area, s, es[..c], k, cuts, r);
    TraceAt(l, home, es, at, marks, ops, b, stored, LastCommit(es[..c]), cut);
    PointImage(l, home, es, at, marks, c, cut);
    j := at[cut];
  }

  lemma GroupMarks(b0: seq<Blk>, i0: seq<Inode>, b: seq<Blk>, i: seq<Inode>, stored: seq<Inode>, jobs: seq<Job>,
                   open: map<OpId, nat>, marks: seq<Mark>, d: nat, j: nat)
    requires Group(b0, i0, b, i, stored, jobs, open, marks) && d <= j < |marks|
    ensures WholeJobs(b0, i0, marks[j]) && Earlier(marks[d].jobs, marks[j].jobs) && Earlier(marks[j].jobs, jobs)
  {
    assert Peek(0);
    assert MarkAt(b0, i0, marks[j]);
    MarkShows(b0, i0, marks[j]);
  }
}
