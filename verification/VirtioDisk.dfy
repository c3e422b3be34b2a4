/** kernel/virtio_disk.c, with the device as a second party that takes requests
    and completes them in any order.  Each method is one section under
    vdisk_lock, or one step of the device. */
module VirtioDisk {
  import opened Blocks
  import opened Virtqueue

  /** The number of free descriptors from index i on. */
  function FreeFrom(free: seq<bool>, i: nat): nat
    requires i <= |free|
    decreases |free| - i
  {
    if i == |free| then 0 else (if free[i] then 1 else 0) + FreeFrom(free, i + 1)
  }

  lemma {:induction false} FreeSet(free: seq<bool>, i: nat, j: nat, v: bool)
    requires i <= |free| && j < |free| && free[j] != v
    ensures FreeFrom(free[j := v], i) ==
      if j < i then FreeFrom(free, i) else if v then FreeFrom(free, i) + 1 else FreeFrom(free, i) - 1
    decreases |free| - i
  {
    if i < |free| { FreeSet(free, i + 1, j, v); }
  }

  lemma {:induction false} AllFree(free: seq<bool>, i: nat)
    requires i <= |free| && forall k | i <= k < |free| :: free[k]
    ensures FreeFrom(free, i) == |free| - i
    decreases |free| - i
  {
    if i < |free| { AllFree(free, i + 1); }
  }

  lemma {:induction false} NoneFree(free: seq<bool>, i: nat)
    requires i <= |free| && forall k | i <= k < |free| :: !free[k]
    ensures FreeFrom(free, i) == 0
    decreases |free| - i
  {
    if i < |free| { NoneFree(free, i + 1); }
  }

  /** `free` is free0 with the descriptors in `taken` gone. */
  ghost predicate Less(free0: seq<bool>, free: seq<bool>, taken: set<nat>) {
    |free| == |free0| && forall k | 0 <= k < |free0| :: free[k] == (free0[k] && k !in taken)
  }

  ghost predicate Apart(idx: seq<nat>) { forall x, y | 0 <= x < y < |idx| :: idx[x] != idx[y] }

  lemma SameSet(a: set<nat>, b: set<nat>)
    requires a <= b && |a| == |b|
    ensures a == b
  {
    assert b == a + (b - a) && |b - a| == |b| - |a|;
    assert b - a == {};
  }

  class Driver {
    /** What was never stored reads as this. */
    const blank: Block
    var free: seq<bool>
    var desc: seq<Desc>
    var ops: seq<Op>
    var info: seq<Info>
    var avail: seq<nat>
    var availIdx: nat
    var used: seq<nat>
    /** The device's used index, and how far the driver has looked. */
    var usedIdx: nat
    var seenIdx: nat
    /** How far the device has taken from the available ring. */
    var takenIdx: nat
    /** The buffers whose disk flag is set, and their contents. */
    var busy: set<nat>
    var data: map<nat, Block>
    var sectors: map<nat, Block>
    ghost var chains: Chains
    ghost var owner: Owners
    ghost var head: map<nat, nat>
    ghost var pend: seq<nat>
    ghost var pendBase: nat
    ghost var fin: seq<nat>
    ghost var finBase: nat
    /** What the device has read or written for each head it has completed. */
    ghost var outcome: map<nat, Block>

    /** The descriptors, the rings and the requests agree. */
    ghost predicate Queued()
      reads this
    {
      && TableOk(free, desc, ops, info, owner, chains)
      && RingOk(avail, takenIdx, availIdx, pendBase, pend) && PhaseOk(chains, pend, Posted)
      && RingOk(used, seenIdx, usedIdx, finBase, fin) && PhaseOk(chains, fin, Completed)
      && BusyOk(chains, busy, head)
    }

    ghost predicate Valid()
      reads this
    {
      Queued() && ResultsOk(chains, info, data, blank, outcome)
    }

    /** All descriptors free and both rings empty, as virtio_disk_init leaves
        them. */
    constructor (blank: Block, data: map<nat, Block>, sectors: map<nat, Block>)
      ensures Valid() && chains == map[] && busy == {} && FreeFrom(free, 0) == NUM
      ensures this.blank == blank && this.data == data && this.sectors == sectors
    {
      this.blank, this.data, this.sectors := blank, data, sectors;
      free := [true, true, true, true, true, true, true, true];
      desc := [Blank(), Blank(), Blank(), Blank(), Blank(), Blank(), Blank(), Blank()];
      var o, n := Op(false, 0), Info(-1, 0);
      ops, info := [o, o, o, o, o, o, o, o], [n, n, n, n, n, n, n, n];
      avail, used := [0, 0, 0, 0, 0, 0, 0, 0], [0, 0, 0, 0, 0, 0, 0, 0];
      availIdx, usedIdx, seenIdx, takenIdx, busy := 0, 0, 0, 0, {};
      chains, owner, head, pend, pendBase, fin, finBase, outcome := map[], map[], map[], [], 0, [], 0, map[];
      new;
      AllFree(free, 0);
    }

    /** alloc_desc. */
    method AllocDesc() returns (r: int)
      requires |free| == NUM
      modifies this`free
      ensures r == -1 ==> free == old(free) && FreeFrom(free, 0) == 0
      ensures r != -1 ==> 0 <= r < NUM && old(free)[r] && free == old(free)[r := false]
      ensures r != -1 ==> forall k | 0 <= k < r :: !old(free)[k]
    {
      var i := 0;
      while i < NUM
        invariant 0 <= i <= NUM && free == old(free) && forall k | 0 <= k < i :: !free[k]
      {
        if free[i] {
          free := free[i := false];
          return i;
        }
        i := i + 1;
      }
      NoneFree(free, 0);
      return -1;
    }

    /** free_desc; false is either of its panics. */
    method FreeDesc(i: int) returns (ok: bool)
      requires |free| == |desc| == NUM && 0 <= i
      modifies this`free, this`desc
      ensures ok <==> i < NUM && !old(free)[i]
      ensures ok ==> free == old(free)[i := true] && desc == old(desc)[i := Desc(Null, false, false, 0)]
      ensures !ok ==> free == old(free) && desc == old(desc)
    {
      if i >= NUM {
        return false;
      }
      if free[i] {
        return false;
      }
      desc := desc[i := Blank()];
      free := free[i := true];
      return true;
    }

    /** alloc3_desc: three distinct free descriptors, or, exactly when fewer than
        three are free, nothing changes. */
    method Alloc3() returns (ok: bool, idx: seq<nat>)
      requires |free| == |desc| == NUM && forall k | 0 <= k < NUM && free[k] :: desc[k] == Blank()
      modifies this`free, this`desc
      ensures desc == old(desc) && (ok <==> FreeFrom(old(free), 0) >= 3)
      ensures !ok ==> free == old(free)
      ensures ok ==> |idx| == 3 && Apart(idx) && (forall x | 0 <= x < 3 :: idx[x] < NUM && old(free)[idx[x]])
      ensures ok ==> Less(old(free), free, {idx[0], idx[1], idx[2]})
    {
      idx := [];
      ghost var free0 := free;
      ghost var taken: set<nat> := {};
      while |idx| < 3
        invariant |idx| <= 3 && Apart(idx) && |taken| == |idx| && Less(free0, free, taken)
        invariant forall x | 0 <= x < |idx| :: idx[x] < NUM && free0[idx[x]] && idx[x] in taken
        invariant FreeFrom(free0, 0) == FreeFrom(free, 0) + |idx| && desc == old(desc)
      {
        ghost var f := free;
        var i := AllocDesc();
        if i < 0 {
          Rollback(idx, free0, taken);
          return false, idx;
        }
        FreeSet(f, 0, i, false);
        idx, taken := idx + [i], taken + {i};
      }
      SameSet({idx[0], idx[1], idx[2]}, taken);
      return true, idx;
    }

    /** alloc3_desc's rollback. */
    method Rollback(idx: seq<nat>, ghost free0: seq<bool>, ghost taken: set<nat>)
      requires |free| == |desc| == |free0| == NUM && Apart(idx) && |taken| == |idx| && Less(free0, free, taken)
      requires forall x | 0 <= x < |idx| :: idx[x] < NUM && free0[idx[x]] && idx[x] in taken && desc[idx[x]] == Blank()
      modifies this`free, this`desc
      ensures free == free0 && desc == old(desc)
    {
      var j := 0;
      ghost var rem := taken;
      while j < |idx|
        invariant 0 <= j <= |idx| && |rem| == |idx| - j && Less(free0, free, rem) && desc == old(desc)
        invariant forall x | j <= x < |idx| :: idx[x] in rem
      {
        var ok := FreeDesc(idx[j]);
        assert ok && old(desc)[idx[j] := Blank()] == old(desc);
        rem := rem - {idx[j]};
        j := j + 1;
      }
      assert rem == {};
    }

    /** alloc3_desc's result as virtio_disk_rw uses it. */
    method AllocThree() returns (ok: bool, h: nat, d1: nat, d2: nat)
      requires TableOk(free, desc, ops, info, owner, chains)
      modifies this`free, this`desc
      ensures desc == old(desc) && |free| == NUM && (ok <==> FreeFrom(old(free), 0) >= 3)
      ensures !ok ==> free == old(free)
      ensures ok ==> h < NUM && d1 < NUM && d2 < NUM && h != d1 && h != d2 && d1 != d2 && old(free)[h] && old(free)[d1]
      ensures ok ==> old(free)[d2]
      ensures ok ==> forall k | 0 <= k < NUM :: free[k] == (old(free)[k] && k != h && k != d1 && k != d2)
    {
      h, d1, d2 := 0, 0, 0;
      forall k: nat | k < NUM && free[k] ensures desc[k] == Blank() { assert DescAt(free, desc, owner, chains, k); }
      var idx;
      ok, idx := Alloc3();
      if ok {
        h, d1, d2 := idx[0], idx[1], idx[2];
      }
    }

    /** The three descriptors of a request. */
    method Format(h: nat, d1: nat, d2: nat, b: nat, op: Op)
      requires |desc| == |ops| == |info| == NUM && h < NUM && d1 < NUM && d2 < NUM
      modifies this`desc, this`ops, this`info
      ensures desc == Formatted(old(desc), h, d1, d2, b, op) && ops == old(ops)[h := op]
      ensures info == old(info)[h := Info(b, 0xff)]
    {
      ops := ops[h := op];
      desc := desc[h := Desc(Header(h), false, true, d1)];
      desc := desc[d1 := Desc(Data(b), !op.write, true, d2)];
      info := info[h := Info(b, 0xff)];
      desc := desc[d2 := Desc(StatusOf(h), true, false, 0)];
    }

    /** A head put into the available ring. */
    method Offer(h: nat)
      requires |avail| == NUM
      modifies this`avail, this`availIdx
      ensures avail == old(avail)[old(availIdx) % NUM := h] && availIdx == (old(availIdx) + 1) % WRAP
    {
      avail := avail[availIdx % NUM := h];
      availIdx := (availIdx + 1) % WRAP;
    }

    ghost method Enlist(h: nat, c: Chain)
      modifies this`chains, this`owner, this`head, this`pend
      ensures chains == old(chains)[h := c] && owner == Owning(old(owner), h, c.d1, c.d2)
      ensures head == old(head)[c.b := h] && pend == old(pend) + [h]
    {
      chains, owner, head, pend := chains[h := c], Owning(owner, h, c.d1, c.d2), head[c.b := h], pend + [h];
    }

    /** virtio_disk_rw up to its second sleep, for a buffer the caller has locked:
        fails exactly when fewer than three descriptors are free, and then leaves
        everything alone. */
    method Submit(b: nat, blockno: nat, write: bool) returns (ok: bool, h: nat)
      requires Valid() && forall g | g in chains :: chains[g].b != b
      modifies this`free, this`desc, this`ops, this`info, this`avail, this`availIdx, this`busy
      modifies this`chains, this`owner, this`head, this`pend, this`outcome
      ensures Valid() && (ok <==> FreeFrom(old(free), 0) >= 3)
      ensures !ok ==> chains == old(chains) && free == old(free) && desc == old(desc) && pend == old(pend)
      ensures !ok ==> busy == old(busy)
      ensures ok ==> h !in old(chains) && h in chains && chains == old(chains)[h := chains[h]]
      ensures ok ==> chains[h].b == b && chains[h].op == Op(write, 2 * blockno) && chains[h].phase == Posted
      ensures ok ==> pend == old(pend) + [h] && busy == old(busy) + {b}
      ensures outcome == if ok then old(outcome) - {h} else old(outcome)
    {
      ghost var info0, chains0 := info, chains;
      ok, h := Post(b, blockno, write);
      if ok {
        ResultsAdd(chains0, info0, data, blank, outcome, h, chains[h], Info(b, 0xff));
        outcome := outcome - {h};
      }
    }

    /** The same, for the descriptors and rings. */
    method Post(b: nat, blockno: nat, write: bool) returns (ok: bool, h: nat)
      requires Queued() && forall g | g in chains :: chains[g].b != b
      modifies this`free, this`desc, this`ops, this`info, this`avail, this`availIdx, this`busy
      modifies this`chains, this`owner, this`head, this`pend
      ensures Queued() && (ok <==> FreeFrom(old(free), 0) >= 3)
      ensures !ok ==> chains == old(chains) && free == old(free) && desc == old(desc) && info == old(info)
      ensures !ok ==> pend == old(pend) && busy == old(busy)
      ensures ok ==> h !in old(chains) && h in chains && chains == old(chains)[h := chains[h]]
      ensures ok ==> chains[h].b == b && chains[h].op == Op(write, 2 * blockno) && chains[h].phase == Posted
      ensures ok ==> pend == old(pend) + [h] && busy == old(busy) + {b}
      ensures ok ==> h < |old(info)| && info == old(info)[h := Info(b, 0xff)]
    {
      ghost var free0, desc0, ops0, info0, avail0, idx0, busy0 := free, desc, ops, info, avail, availIdx, busy;
      ghost var c;
      ok, h, c := Enqueue(b, blockno, write);
      if ok {
        AddChain(free0, desc0, ops0, info0, owner, chains, h, c, free);
        AddPhase(chains, pend, Posted, h, c);
        AddPhase(chains, fin, Completed, h, c);
        AddBusy(chains, busy0, head, h, c);
        RingPush(avail0, takenIdx, idx0, pendBase, pend, h);
        Enlist(h, c);
      }
    }

    /** The stores of virtio_disk_rw that make up a request. */
    method Enqueue(b: nat, blockno: nat, write: bool) returns (ok: bool, h: nat, ghost c: Chain)
      requires TableOk(free, desc, ops, info, owner, chains) && |avail| == NUM
      modifies this`free, this`desc, this`ops, this`info, this`avail, this`availIdx, this`busy
      ensures |free| == |old(free)| == NUM && (ok <==> FreeFrom(old(free), 0) >= 3)
      ensures !ok ==> free == old(free) && desc == old(desc) && ops == old(ops) && info == old(info)
      ensures !ok ==> avail == old(avail) && availIdx == old(availIdx) && busy == old(busy)
      ensures ok ==> h < NUM && c.d1 < NUM && c.d2 < NUM && h != c.d1 && h != c.d2 && c.d1 != c.d2 && old(free)[h]
      ensures ok ==> old(free)[c.d1] && old(free)[c.d2]
      ensures ok ==> forall i | 0 <= i < NUM :: free[i] == (old(free)[i] && i != h && i != c.d1 && i != c.d2)
      ensures ok ==> c == Chain(c.d1, c.d2, b, Op(write, 2 * blockno), Posted) && |old(desc)| == NUM
      ensures ok ==> desc == Formatted(old(desc), h, c.d1, c.d2, b, c.op) && ops == old(ops)[h := c.op]
      ensures ok ==> info == old(info)[h := Info(b, 0xff)]
      ensures ok ==> busy == old(busy) + {b} && avail == old(avail)[old(availIdx) % NUM := h]
      ensures ok ==> availIdx == (old(availIdx) + 1) % WRAP
    {
      var d1, d2;
      ok, h, d1, d2 := AllocThree();
      c := Chain(d1, d2, b, Op(write, 2 * blockno), Posted);
      if ok {
        Format(h, d1, d2, b, Op(write, 2 * blockno));
        busy := busy + {b};
        Offer(h);
      }
    }

    /** The device looks at the available ring and takes the oldest entry. */
    method Take() returns (some: bool, h: nat)
      requires Valid()
      modifies this`takenIdx, this`chains, this`pend, this`pendBase
      ensures Valid() && (some <==> old(pend) != [])
      ensures !some ==> chains == old(chains) && pend == old(pend)
      ensures some ==> h == old(pend)[0] && h in old(chains) && pend == old(pend)[1..]
      ensures some ==> chains == SetPhase(old(chains), h, Taken)
    {
      RingHead(avail, takenIdx, availIdx, pendBase, pend);
      h := 0;
      if takenIdx == availIdx {
        return false, h;
      }
      h := avail[takenIdx % NUM];
      Leaves(chains, pend, Posted, Taken);
      Elsewhere(chains, fin, Completed, h, Taken);
      PhaseKeeps(free, desc, ops, info, owner, chains, h, Taken);
      BusyKeeps(chains, busy, head, h, Taken);
      ResultsPhase(chains, info, data, blank, outcome, h, Taken);
      RingPop(avail, takenIdx, availIdx, pendBase, pend);
      Advance(h);
      return true, h;
    }

    /** The device's index moves past the entry h. */
    method Advance(ghost h: nat)
      requires h in chains && pend != []
      modifies this`takenIdx, this`chains, this`pend, this`pendBase
      ensures takenIdx == (old(takenIdx) + 1) % WRAP && pendBase == old(pendBase) + 1
      ensures chains == SetPhase(old(chains), h, Taken) && pend == old(pend)[1..]
    {
      takenIdx := (takenIdx + 1) % WRAP;
      chains, pend, pendBase := SetPhase(chains, h, Taken), pend[1..], pendBase + 1;
    }

    method Transfer(b: nat, op: Op, status: nat)
      modifies this`data, this`sectors
      ensures data ==
        if status == 0 && !op.write then old(data)[b := Held(old(sectors), blank, op.sector)] else old(data)
      ensures sectors ==
        if status == 0 && op.write then old(sectors)[op.sector := Held(old(data), blank, b)] else old(sectors)
    {
      if status == 0 {
        if op.write {
          sectors := sectors[op.sector := Held(data, blank, b)];
        } else {
          data := data[b := Held(sectors, blank, op.sector)];
        }
      }
    }

    /** A head put into the used ring. */
    method Report(h: nat)
      requires |used| == NUM
      modifies this`used, this`usedIdx
      ensures used == old(used)[old(usedIdx) % NUM := h] && usedIdx == (old(usedIdx) + 1) % WRAP
    {
      used := used[usedIdx % NUM := h];
      usedIdx := (usedIdx + 1) % WRAP;
    }

    /** The device carries out a request it has taken, following the descriptors,
        and reports it; requests may complete in any order.  What it does is what
        the driver asked for. */
    method Complete(h: nat, status: nat)
      requires Valid() && h in chains && chains[h].phase == Taken
      modifies this`info, this`used, this`usedIdx, this`data, this`sectors, this`chains, this`fin, this`outcome
      ensures Valid() && chains == SetPhase(old(chains), h, Completed) && fin == old(fin) + [h]
      ensures var c := old(chains)[h];
        var res := if c.op.write then Held(old(data), blank, c.b) else Held(old(sectors), blank, c.op.sector);
        outcome == old(outcome)[h := res]
      ensures h < |info| == |old(info)| && info[h].status == status
      ensures forall g | 0 <= g < |info| && g != h :: info[g] == old(info)[g]
      ensures var c := old(chains)[h];
        if status != 0 then data == old(data) && sectors == old(sectors)
        else if c.op.write then data == old(data) && sectors == old(sectors)[c.op.sector := Held(old(data), blank, c.b)]
        else sectors == old(sectors) && data == old(data)[c.b := Held(old(sectors), blank, c.op.sector)]
    {
      ghost var c := chains[h];
      ghost var res := if c.op.write then Held(data, blank, c.b) else Held(sectors, blank, c.op.sector);
      ghost var data' := if status == 0 && !c.op.write then data[c.b := res] else data;
      assert ChainAt(desc, ops, info, owner, chains, h);
      ResultsDone(chains, busy, head, info, data, blank, outcome, h, status, res, data');
      CarryOut(h, status, res);
    }

    /** The same, for the descriptors and rings. */
    method CarryOut(h: nat, status: nat, ghost res: Block)
      requires Queued() && h in chains && chains[h].phase == Taken
      modifies this`info, this`used, this`usedIdx, this`data, this`sectors, this`chains, this`fin, this`outcome
      ensures Queued() && chains == SetPhase(old(chains), h, Completed) && fin == old(fin) + [h]
      ensures h < |old(info)| == NUM && info == old(info)[h := Info(old(info)[h].b, status)]
      ensures outcome == old(outcome)[h := res]
      ensures var c := old(chains)[h]; var read := Held(old(sectors), blank, c.op.sector);
        data == if status == 0 && !c.op.write then old(data)[c.b := read] else old(data)
      ensures var c := old(chains)[h]; var wrote := Held(old(data), blank, c.b);
        sectors == if status == 0 && c.op.write then old(sectors)[c.op.sector := wrote] else old(sectors)
    {
      assert ChainAt(desc, ops, info, owner, chains, h);
      CompleteKeeps(free, desc, ops, info, owner, chains, pend, fin, busy, head, h, status);
      RingPush(used, seenIdx, usedIdx, finBase, fin, h);
      Carry(h, status, res);
    }

    /** What the device does to memory and disk, as the descriptors tell it. */
    method Carry(h: nat, status: nat, ghost res: Block)
      requires |desc| == |ops| == |info| == |used| == NUM && h in chains && ChainAt(desc, ops, info, owner, chains, h)
      modifies this`info, this`used, this`usedIdx, this`data, this`sectors, this`chains, this`fin, this`outcome
      ensures h < NUM && info == old(info)[h := Info(old(info)[h].b, status)]
      ensures used == old(used)[old(usedIdx) % NUM := h] && usedIdx == (old(usedIdx) + 1) % WRAP
      ensures var c := old(chains)[h]; var read := Held(old(sectors), blank, c.op.sector);
        data == if status == 0 && !c.op.write then old(data)[c.b := read] else old(data)
      ensures var c := old(chains)[h]; var wrote := Held(old(data), blank, c.b);
        sectors == if status == 0 && c.op.write then old(sectors)[c.op.sector := wrote] else old(sectors)
      ensures chains == SetPhase(old(chains), h, Completed) && fin == old(fin) + [h]
      ensures outcome == old(outcome)[h := res]
    {
      var d0 := desc[h];
      var op := ops[d0.addr.i];
      var d1 := desc[d0.next];
      var st := desc[d1.next].addr.i;
      Transfer(d1.addr.b, op, status);
      info := info[st := Info(info[st].b, status)];
      Report(h);
      chains, fin, outcome := SetPhase(chains, h, Completed), fin + [h], outcome[h := res];
    }

    /** virtio_disk_intr; false is its panic, which happens exactly if the device
        reported a failure.  Otherwise every completed request is acknowledged. */
    method Intr() returns (ok: bool)
      requires Valid()
      modifies this`seenIdx, this`busy, this`chains, this`fin, this`finBase
      ensures Valid()
      ensures ok <==> forall k | 0 <= k < |old(fin)| && old(fin)[k] < |info| :: info[old(fin)[k]].status == 0
      ensures ok ==> fin == [] && chains == AckAll(old(chains), old(fin))
    {
      ghost var fin0 := fin;
      ghost var n := 0;
      RingHead(used, seenIdx, usedIdx, finBase, fin);
      while seenIdx != usedIdx
        invariant Valid() && n <= |fin0| && fin == fin0[n..] && (seenIdx != usedIdx <==> fin != [])
        invariant AckAll(chains, fin) == AckAll(old(chains), fin0)
        invariant forall k | 0 <= k < n && fin0[k] < |info| :: info[fin0[k]].status == 0
        decreases |fin|
      {
        ok := SeeNext();
        if !ok {
          return;
        }
        assert fin0[n..][1..] == fin0[n + 1..];
        n := n + 1;
      }
      return true;
    }

    /** One turn of the interrupt handler's loop; false is its panic. */
    method SeeNext() returns (ok: bool)
      requires Valid() && fin != []
      modifies this`seenIdx, this`busy, this`chains, this`fin, this`finBase
      ensures Valid() && (seenIdx != usedIdx <==> fin != [])
      ensures old(fin)[0] < |info| && old(fin)[0] in old(chains) && (ok <==> info[old(fin)[0]].status == 0)
      ensures ok ==> chains == SetPhase(old(chains), old(fin)[0], Acked) && fin == old(fin)[1..]
      ensures !ok ==> chains == old(chains) && fin == old(fin)
    {
      RingHead(used, seenIdx, usedIdx, finBase, fin);
      var id := used[seenIdx % NUM];
      assert id in fin && InPhase(chains, fin, Completed, id);
      if info[id].status != 0 {
        return false;
      }
      AckOne(id);
      RingHead(used, seenIdx, usedIdx, finBase, fin);
      return true;
    }

    /** The driver has seen the request at the head of the used ring. */
    method AckOne(id: nat)
      requires Valid() && fin != [] && id == fin[0] && id < NUM && info[id].status == 0
      modifies this`seenIdx, this`busy, this`chains, this`fin, this`finBase
      ensures Valid() && id in old(chains) && chains == SetPhase(old(chains), id, Acked) && fin == old(fin)[1..]
    {
      Leaves(chains, fin, Completed, Acked);
      Elsewhere(chains, pend, Posted, id, Acked);
      PhaseKeeps(free, desc, ops, info, owner, chains, id, Acked);
      BusyKeeps(chains, busy, head, id, Acked);
      ResultsPhase(chains, info, data, blank, outcome, id, Acked);
      RingPop(used, seenIdx, usedIdx, finBase, fin);
      assert ChainAt(desc, ops, info, owner, chains, id);
      See(id);
    }

    /** The stores of that turn. */
    method See(id: nat)
      requires id in chains && id < |info| && fin != []
      modifies this`seenIdx, this`busy, this`chains, this`fin, this`finBase
      ensures busy == old(busy) - {info[id].b} && seenIdx == (old(seenIdx) + 1) % WRAP
      ensures chains == SetPhase(old(chains), id, Acked) && fin == old(fin)[1..] && finBase == old(finBase) + 1
    {
      busy := busy - {info[id].b};
      seenIdx := (seenIdx + 1) % WRAP;
      chains, fin, finBase := SetPhase(chains, id, Acked), fin[1..], finBase + 1;
    }

    /** free_chain: frees the chain's three descriptors and nothing else, and none
        of free_desc's panics happens. */
    method FreeChain(h: nat, ghost info0: seq<Info>)
      requires TableOk(free, desc, ops, info0, owner, chains) && h in chains
      modifies this`free, this`desc
      ensures |free| == |desc| == NUM
      ensures forall i | 0 <= i < NUM :: free[i] == (old(free)[i] || InChain(chains, h, i))
      ensures forall i | 0 <= i < NUM :: desc[i] == if InChain(chains, h, i) then Blank() else old(desc)[i]
    {
      assert ChainAt(desc, ops, info0, owner, chains, h);
      ghost var c := chains[h];
      assert DescAt(free, desc, owner, chains, h) && DescAt(free, desc, owner, chains, c.d1);
      assert DescAt(free, desc, owner, chains, c.d2);
      ghost var t := [h, c.d1, c.d2];
      ghost var k := 0;
      var i, more := h, true;
      while more
        invariant k <= 3 && (more <==> k < 3) && (more ==> i == t[k]) && |free| == |desc| == NUM
        invariant forall j | 0 <= j < NUM :: free[j] == (old(free)[j] || j in t[..k])
        invariant forall j | 0 <= j < NUM :: desc[j] == if j in t[..k] then Blank() else old(desc)[j]
        decreases 3 - k
      {
        assert t[..k + 1] == t[..k] + [i];
        var flag, nxt := desc[i].hasNext, desc[i].next;
        var ok := FreeDesc(i);
        assert ok;
        k := k + 1;
        if flag {
          i := nxt;
        } else {
          more := false;
        }
      }
      assert t[..3] == t;
    }

    /** The rest of virtio_disk_rw: it goes on waiting while the disk has the
        buffer; it returns only once the device has completed this very request
        and the driver has seen it, with what the device read or wrote for it in
        the buffer, and gives back exactly its descriptors. */
    method Finish(b: nat, h: nat) returns (done: bool)
      requires Valid() && h in chains && chains[h].b == b
      modifies this`free, this`desc, this`info, this`chains, this`owner
      ensures Valid() && (done <==> old(chains)[h].phase == Acked)
      ensures !done ==> chains == old(chains) && free == old(free)
      ensures done ==> h in outcome && Held(data, blank, b) == outcome[h]
      ensures done ==> chains == old(chains) - {h}
      ensures done ==> forall i | 0 <= i < NUM :: free[i] == (old(free)[i] || InChain(old(chains), h, i))
    {
      assert BusyAt(chains, busy, head, h) && ChainAt(desc, ops, info, owner, chains, h);
      if b in busy {
        return false;
      }
      assert ResultAt(chains, info, data, blank, outcome, h);
      ghost var free0, desc0, info0 := free, desc, info;
      info := info[h := Info(-1, info[h].status)];
      FreeChain(h, info0);
      DropChain(free0, desc0, ops, info0, owner, chains, h, free, desc, Info(-1, info0[h].status));
      DropPhase(chains, pend, Posted, h);
      DropPhase(chains, fin, Completed, h);
      DropBusy(chains, busy, head, h);
      ResultsDrop(chains, info0, data, blank, outcome, h, Info(-1, info0[h].status));
      owner, chains := owner - {h, chains[h].d1, chains[h].d2}, chains - {h};
      return true;
    }
  }

  /** The bookkeeping of a completion. */
  lemma CompleteKeeps(free: seq<bool>, desc: seq<Desc>, ops: seq<Op>, info: seq<Info>, owner: Owners, chains: Chains,
                      pend: seq<nat>, fin: seq<nat>, busy: set<nat>, head: map<nat, nat>, h: nat, status: nat)
    requires TableOk(free, desc, ops, info, owner, chains) && h in chains && chains[h].phase == Taken && h < NUM
    requires PhaseOk(chains, pend, Posted) && PhaseOk(chains, fin, Completed) && BusyOk(chains, busy, head)
    ensures h !in fin
    ensures var chains' := SetPhase(chains, h, Completed);
      && TableOk(free, desc, ops, info[h := Info(info[h].b, status)], owner, chains') && BusyOk(chains', busy, head)
      && PhaseOk(chains', pend, Posted) && PhaseOk(chains', fin + [h], Completed)
  {
    Elsewhere(chains, pend, Posted, h, Completed);
    Joins(chains, fin, Completed, h);
    BusyKeeps(chains, busy, head, h, Completed);
    PhaseKeeps(free, desc, ops, info, owner, chains, h, Completed);
    StatusKeeps(free, desc, ops, info, owner, SetPhase(chains, h, Completed), h, status);
  }

  lemma StatusKeeps(free: seq<bool>, desc: seq<Desc>, ops: seq<Op>, info: seq<Info>, owner: Owners, chains: Chains,
                    h: nat, status: nat)
    requires TableOk(free, desc, ops, info, owner, chains) && h in chains && h < NUM && chains[h].phase != Acked
    ensures TableOk(free, desc, ops, info[h := Info(info[h].b, status)], owner, chains)
  {
    var info' := info[h := Info(info[h].b, status)];
    forall i: nat | i < NUM ensures DescAt(free, desc, owner, chains, i) { }
    forall g | g in chains ensures ChainAt(desc, ops, info', owner, chains, g) {
      assert ChainAt(desc, ops, info, owner, chains, g);
    }
  }
}
