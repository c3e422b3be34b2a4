/** What holds of the virtqueue shared by the driver and the device: section 2.6
    of the virtio 1.1 specification as kernel/virtio_disk.c uses it. */
module Virtqueue {
  import opened Common
  import opened Blocks

  const NUM := 8
  const WRAP := 0x1_0000

  /** What a descriptor points to. */
  datatype Addr = Null | Header(i: nat) | Data(b: nat) | StatusOf(i: nat)
  datatype Desc = Desc(addr: Addr, devWrites: bool, hasNext: bool, next: nat)
  datatype Op = Op(write: bool, sector: nat)
  datatype Info = Info(b: int, status: nat)

  /** A request's way through the rings: in the available ring, taken by the
      device, in the used ring, seen by the driver. */
  datatype Phase = Posted | Taken | Completed | Acked
  datatype Chain = Chain(d1: nat, d2: nat, b: nat, op: Op, phase: Phase)

  type Chains = map<nat, Chain>
  type Owners = map<nat, nat>

  function Blank(): Desc { Desc(Null, false, false, 0) }

  // ------------------------------------------------------------ descriptors

  ghost predicate InChain(chains: Chains, h: nat, i: nat) {
    h in chains && (i == h || i == chains[h].d1 || i == chains[h].d2)
  }

  /** A descriptor is free and blank, or part of exactly one chain. */
  ghost predicate DescAt(free: seq<bool>, desc: seq<Desc>, owner: Owners, chains: Chains, i: nat)
  {
    i < |free| && i < |desc| &&
    if free[i] then i !in owner && desc[i] == Blank() else i in owner && InChain(chains, owner[i], i)
  }

  /** A chain owns three descriptors, which describe its request. */
  ghost predicate ChainAt(desc: seq<Desc>, ops: seq<Op>, info: seq<Info>, owner: Owners, chains: Chains, h: nat)
  {
    |desc| == |ops| == |info| == NUM && h in chains &&
    var c := chains[h];
    && h < NUM && c.d1 < NUM && c.d2 < NUM && h != c.d1 && h != c.d2 && c.d1 != c.d2
    && h in owner && c.d1 in owner && c.d2 in owner && owner[h] == owner[c.d1] == owner[c.d2] == h
    && desc[h] == Desc(Header(h), false, true, c.d1) && ops[h] == c.op
    && desc[c.d1] == Desc(Data(c.b), !c.op.write, true, c.d2)
    && desc[c.d2] == Desc(StatusOf(h), true, false, 0)
    && info[h].b == c.b && (c.phase == Acked ==> info[h].status == 0)
  }

  ghost predicate TableOk(free: seq<bool>, desc: seq<Desc>, ops: seq<Op>, info: seq<Info>, owner: Owners,
                          chains: Chains)
  {
    && |free| == |desc| == |ops| == |info| == NUM
    && (forall i: nat {:trigger DescAt(free, desc, owner, chains, i)} | i < NUM :: DescAt(free, desc, owner, chains, i))
    && (forall h {:trigger ChainAt(desc, ops, info, owner, chains, h)} | h in chains ::
      ChainAt(desc, ops, info, owner, chains, h))
  }

  /** In-flight chains use disjoint descriptors, none of them free. */
  lemma ChainsDisjoint(free: seq<bool>, desc: seq<Desc>, ops: seq<Op>, info: seq<Info>, owner: Owners, chains: Chains,
                       h: nat, g: nat)
    requires TableOk(free, desc, ops, info, owner, chains) && h in chains && g in chains && h != g
    ensures {h, chains[h].d1, chains[h].d2} !! {g, chains[g].d1, chains[g].d2}
    ensures |{h, chains[h].d1, chains[h].d2}| == 3
    ensures forall i | i in {h, chains[h].d1, chains[h].d2} :: i < NUM && !free[i]
  {
    assert ChainAt(desc, ops, info, owner, chains, h) && ChainAt(desc, ops, info, owner, chains, g);
    assert DescAt(free, desc, owner, chains, h) && DescAt(free, desc, owner, chains, chains[h].d1);
    assert DescAt(free, desc, owner, chains, chains[h].d2);
  }

  // ----------------------------------------------------------------- rings

  ghost predicate SlotAt(ring: seq<nat>, base: nat, s: seq<nat>, k: nat) {
    |ring| == NUM && k < |s| && ring[(base + k) % NUM] == s[k]
  }

  /** A ring holds the entries s, which its 16-bit indices delimit. */
  ghost predicate RingOk(ring: seq<nat>, lo: nat, hi: nat, base: nat, s: seq<nat>) {
    && |ring| == NUM && lo == base % WRAP && hi == (base + |s|) % WRAP && Distinct(s) && (forall x | x in s :: x < NUM)
    && (forall k: nat {:trigger SlotAt(ring, base, s, k)} | k < |s| :: SlotAt(ring, base, s, k))
  }

  /** The entries of a ring are exactly the chains in one phase. */
  ghost predicate InPhase(chains: Chains, s: seq<nat>, phase: Phase, h: nat) {
    h in s <==> h in chains && chains[h].phase == phase
  }

  ghost predicate PhaseOk(chains: Chains, s: seq<nat>, phase: Phase) {
    forall h: nat {:trigger InPhase(chains, s, phase, h)} :: InPhase(chains, s, phase, h)
  }

  lemma WrapArith(x: nat)
    ensures x % WRAP % NUM == x % NUM && (x % WRAP + 1) % WRAP == (x + 1) % WRAP
  {
    RingIndex(x, NUM, WRAP, 8192);
  }

  lemma SameIndex(base: nat, n: nat)
    requires n < WRAP
    ensures base % WRAP == (base + n) % WRAP <==> n == 0
  {
    if base % WRAP == (base + n) % WRAP { assert (base + n - base) % WRAP == 0; }
  }

  /** The index test sees whether anything is there, also across wrap-around, and
      the first entry is in its slot. */
  lemma RingHead(ring: seq<nat>, lo: nat, hi: nat, base: nat, s: seq<nat>)
    requires RingOk(ring, lo, hi, base, s)
    ensures |s| <= NUM && (lo != hi <==> s != []) && lo % NUM == base % NUM && hi % NUM == (base + |s|) % NUM
    ensures s != [] ==> ring[lo % NUM] == s[0]
  {
    DistinctBelow(s, NUM);
    WrapArith(base);
    WrapArith(base + |s|);
    SameIndex(base, |s|);
    if s != [] { assert SlotAt(ring, base, s, 0); }
  }

  lemma RingPop(ring: seq<nat>, lo: nat, hi: nat, base: nat, s: seq<nat>)
    requires RingOk(ring, lo, hi, base, s) && s != []
    ensures RingOk(ring, (lo + 1) % WRAP, hi, base + 1, s[1..])
  {
    WrapArith(base);
    var base', s' := base + 1, s[1..];
    assert base' + |s'| == base + |s| && forall x | x in s' :: x in s;
    forall k: nat | k < |s'| ensures SlotAt(ring, base', s', k) {
      var k' := k + 1;
      assert SlotAt(ring, base, s, k') && base' + k == base + k';
    }
  }

  lemma RingPush(ring: seq<nat>, lo: nat, hi: nat, base: nat, s: seq<nat>, h: nat)
    requires RingOk(ring, lo, hi, base, s) && h !in s && h < NUM
    ensures |s| < NUM && RingOk(ring[hi % NUM := h], lo, (hi + 1) % WRAP, base, s + [h])
  {
    RingHead(ring, lo, hi, base, s);
    DistinctJoin(s, [h]);
    var s', ring' := s + [h], ring[hi % NUM := h];
    DistinctBelow(s', NUM);
    WrapArith(base + |s|);
    forall k: nat | k < |s'| ensures SlotAt(ring', base, s', k) {
      if k < |s| {
        assert SlotAt(ring, base, s, k);
        OtherSlot(base + k, base + |s|, NUM);
      }
    }
  }

  // ---------------------------------------------------------------- phases

  ghost function SetPhase(chains: Chains, h: nat, phase: Phase): Chains
    requires h in chains
  {
    chains[h := chains[h].(phase := phase)]
  }

  /** Moving a chain on touches no descriptor. */
  lemma PhaseKeeps(free: seq<bool>, desc: seq<Desc>, ops: seq<Op>, info: seq<Info>, owner: Owners, chains: Chains,
                   h: nat, phase: Phase)
    requires TableOk(free, desc, ops, info, owner, chains) && h in chains
    requires phase == Acked ==> h < NUM && info[h].status == 0
    ensures TableOk(free, desc, ops, info, owner, SetPhase(chains, h, phase))
  {
    var chains' := SetPhase(chains, h, phase);
    forall i: nat | i < NUM ensures DescAt(free, desc, owner, chains', i) {
      assert DescAt(free, desc, owner, chains, i);
    }
    forall g | g in chains' ensures ChainAt(desc, ops, info, owner, chains', g) {
      assert ChainAt(desc, ops, info, owner, chains, g);
    }
  }

  /** Entering and leaving a ring. */
  lemma Joins(chains: Chains, s: seq<nat>, phase: Phase, h: nat)
    requires PhaseOk(chains, s, phase) && h in chains && chains[h].phase != phase
    ensures h !in s && PhaseOk(SetPhase(chains, h, phase), s + [h], phase)
  {
    assert InPhase(chains, s, phase, h);
    var chains', s' := SetPhase(chains, h, phase), s + [h];
    forall g: nat ensures InPhase(chains', s', phase, g) { assert InPhase(chains, s, phase, g); }
  }

  lemma Leaves(chains: Chains, s: seq<nat>, phase: Phase, phase': Phase)
    requires PhaseOk(chains, s, phase) && s != [] && Distinct(s) && phase' != phase
    ensures s[0] in chains && chains[s[0]].phase == phase && PhaseOk(SetPhase(chains, s[0], phase'), s[1..], phase)
  {
    assert InPhase(chains, s, phase, s[0]);
    var chains', s' := SetPhase(chains, s[0], phase'), s[1..];
    forall g: nat ensures InPhase(chains', s', phase, g) {
      assert InPhase(chains, s, phase, g);
      assert g in s <==> g == s[0] || g in s';
    }
  }

  lemma Elsewhere(chains: Chains, s: seq<nat>, phase: Phase, h: nat, phase': Phase)
    requires PhaseOk(chains, s, phase) && h in chains && chains[h].phase != phase && phase' != phase
    ensures PhaseOk(SetPhase(chains, h, phase'), s, phase)
  {
    var chains' := SetPhase(chains, h, phase');
    forall g: nat ensures InPhase(chains', s, phase, g) { assert InPhase(chains, s, phase, g); }
  }

  // ---------------------------------------------------------------- buffers

  ghost predicate BusyAt(chains: Chains, busy: set<nat>, head: map<nat, nat>, h: nat) {
    h in chains &&
    var c := chains[h];
    c.b in head && head[c.b] == h && (c.b in busy <==> c.phase != Acked)
  }

  /** A buffer has at most one request, and is marked as the disk's exactly until
      the driver has seen it completed. */
  ghost predicate BusyOk(chains: Chains, busy: set<nat>, head: map<nat, nat>) {
    forall h {:trigger BusyAt(chains, busy, head, h)} | h in chains :: BusyAt(chains, busy, head, h)
  }

  lemma BusyKeeps(chains: Chains, busy: set<nat>, head: map<nat, nat>, h: nat, phase: Phase)
    requires BusyOk(chains, busy, head) && h in chains && chains[h].phase != Acked
    ensures BusyOk(SetPhase(chains, h, phase), if phase == Acked then busy - {chains[h].b} else busy, head)
  {
    var chains', busy' := SetPhase(chains, h, phase), if phase == Acked then busy - {chains[h].b} else busy;
    assert BusyAt(chains, busy, head, h);
    forall g | g in chains' ensures BusyAt(chains', busy', head, g) { assert BusyAt(chains, busy, head, g); }
  }

  // ---------------------------------------------------------------- results

  function Held(data: map<nat, Block>, blank: Block, b: nat): Block { if b in data then data[b] else blank }

  ghost predicate ResultAt(chains: Chains, info: seq<Info>, data: map<nat, Block>, blank: Block,
                           outcome: map<nat, Block>, h: nat)
  {
    h in chains && h < |info| &&
    var c := chains[h];
    && (h in outcome <==> c.phase == Completed || c.phase == Acked)
    && (h in outcome && info[h].status == 0 ==> Held(data, blank, c.b) == outcome[h])
  }

  /** A request has an outcome from its completion on, and if it succeeded its
      buffer holds what the device read into it or wrote from it. */
  ghost predicate ResultsOk(chains: Chains, info: seq<Info>, data: map<nat, Block>, blank: Block,
                            outcome: map<nat, Block>)
  {
    forall h {:trigger ResultAt(chains, info, data, blank, outcome, h)} | h in chains ::
      ResultAt(chains, info, data, blank, outcome, h)
  }

  lemma ResultsPhase(chains: Chains, info: seq<Info>, data: map<nat, Block>, blank: Block, outcome: map<nat, Block>,
                     h: nat, phase: Phase)
    requires ResultsOk(chains, info, data, blank, outcome) && h in chains && (phase == Taken || phase == Acked)
    requires chains[h].phase == if phase == Acked then Completed else Posted
    ensures ResultsOk(SetPhase(chains, h, phase), info, data, blank, outcome)
  {
    var chains' := SetPhase(chains, h, phase);
    forall g | g in chains' ensures ResultAt(chains', info, data, blank, outcome, g) {
      assert ResultAt(chains, info, data, blank, outcome, g);
    }
  }

  /** The device's completion of request h, for which it read or wrote res. */
  lemma ResultsDone(chains: Chains, busy: set<nat>, head: map<nat, nat>, info: seq<Info>, data: map<nat, Block>,
                    blank: Block, outcome: map<nat, Block>, h: nat, status: nat, res: Block, data': map<nat, Block>)
    requires ResultsOk(chains, info, data, blank, outcome) && BusyOk(chains, busy, head) && h in chains && h < |info|
    requires chains[h].op.write ==> res == Held(data, blank, chains[h].b)
    requires data' == if status == 0 && !chains[h].op.write then data[chains[h].b := res] else data
    ensures var chains', info' := SetPhase(chains, h, Completed), info[h := Info(info[h].b, status)];
      ResultsOk(chains', info', data', blank, outcome[h := res])
  {
    var chains', info' := SetPhase(chains, h, Completed), info[h := Info(info[h].b, status)];
    var outcome' := outcome[h := res];
    assert BusyAt(chains, busy, head, h);
    forall g | g in chains' ensures ResultAt(chains', info', data', blank, outcome', g) {
      assert ResultAt(chains, info, data, blank, outcome, g) && BusyAt(chains, busy, head, g);
    }
  }

  lemma ResultsAdd(chains: Chains, info: seq<Info>, data: map<nat, Block>, blank: Block, outcome: map<nat, Block>,
                   h: nat, c: Chain, x: Info)
    requires ResultsOk(chains, info, data, blank, outcome) && h !in chains && h < |info| && c.phase == Posted
    ensures ResultsOk(chains[h := c], info[h := x], data, blank, outcome - {h})
  {
    var chains', info', outcome' := chains[h := c], info[h := x], outcome - {h};
    forall g | g in chains' ensures ResultAt(chains', info', data, blank, outcome', g) {
      if g != h { assert ResultAt(chains, info, data, blank, outcome, g); }
    }
  }

  lemma ResultsDrop(chains: Chains, info: seq<Info>, data: map<nat, Block>, blank: Block, outcome: map<nat, Block>,
                    h: nat, x: Info)
    requires ResultsOk(chains, info, data, blank, outcome) && h < |info|
    ensures ResultsOk(chains - {h}, info[h := x], data, blank, outcome)
  {
    var chains', info' := chains - {h}, info[h := x];
    forall g | g in chains' ensures ResultAt(chains', info', data, blank, outcome, g) {
      assert ResultAt(chains, info, data, blank, outcome, g);
    }
  }

  // ------------------------------------------------------ chains come and go

  ghost function Formatted(desc: seq<Desc>, h: nat, d1: nat, d2: nat, b: nat, op: Op): seq<Desc>
    requires h < |desc| && d1 < |desc| && d2 < |desc|
  {
    var desc' := desc[h := Desc(Header(h), false, true, d1)][d1 := Desc(Data(b), !op.write, true, d2)];
    desc'[d2 := Desc(StatusOf(h), true, false, 0)]
  }

  ghost function Owning(owner: Owners, h: nat, d1: nat, d2: nat): Owners { owner[h := h][d1 := h][d2 := h] }

  /** A new chain over three free descriptors. */
  lemma AddChain(free: seq<bool>, desc: seq<Desc>, ops: seq<Op>, info: seq<Info>, owner: Owners, chains: Chains,
                 h: nat, c: Chain, free': seq<bool>)
    requires TableOk(free, desc, ops, info, owner, chains) && c.phase == Posted
    requires h < NUM && c.d1 < NUM && c.d2 < NUM && h != c.d1 && h != c.d2 && c.d1 != c.d2 && free[h] && free[c.d1]
    requires free[c.d2]
    requires |free'| == NUM && forall i | 0 <= i < NUM :: free'[i] == (free[i] && i != h && i != c.d1 && i != c.d2)
    ensures h !in chains
    ensures TableOk(free', Formatted(desc, h, c.d1, c.d2, c.b, c.op), ops[h := c.op], info[h := Info(c.b, 0xff)],
                    Owning(owner, h, c.d1, c.d2), chains[h := c])
  {
    var desc', owner' := Formatted(desc, h, c.d1, c.d2, c.b, c.op), Owning(owner, h, c.d1, c.d2);
    var chains' := chains[h := c];
    var ops', info' := ops[h := c.op], info[h := Info(c.b, 0xff)];
    assert DescAt(free, desc, owner, chains, h) && DescAt(free, desc, owner, chains, c.d1);
    assert DescAt(free, desc, owner, chains, c.d2);
    forall g | g in chains ensures g != h { assert ChainAt(desc, ops, info, owner, chains, g); }
    forall i: nat | i < NUM ensures DescAt(free', desc', owner', chains', i) {
      assert DescAt(free, desc, owner, chains, i);
    }
    forall g | g in chains' ensures ChainAt(desc', ops', info', owner', chains', g) {
      if g != h { assert ChainAt(desc, ops, info, owner, chains, g); }
    }
  }

  lemma AddBusy(chains: Chains, busy: set<nat>, head: map<nat, nat>, h: nat, c: Chain)
    requires BusyOk(chains, busy, head) && h !in chains && c.phase == Posted
    requires forall g | g in chains :: chains[g].b != c.b
    ensures BusyOk(chains[h := c], busy + {c.b}, head[c.b := h])
  {
    var chains', busy', head' := chains[h := c], busy + {c.b}, head[c.b := h];
    forall g | g in chains' ensures BusyAt(chains', busy', head', g) {
      if g != h { assert BusyAt(chains, busy, head, g); }
    }
  }

  lemma AddPhase(chains: Chains, s: seq<nat>, phase: Phase, h: nat, c: Chain)
    requires PhaseOk(chains, s, phase) && h !in chains
    ensures h !in s && PhaseOk(chains[h := c], if c.phase == phase then s + [h] else s, phase)
  {
    assert InPhase(chains, s, phase, h);
    var chains', s' := chains[h := c], if c.phase == phase then s + [h] else s;
    forall g: nat ensures InPhase(chains', s', phase, g) { assert InPhase(chains, s, phase, g); }
  }

  /** An acknowledged chain gives its descriptors back. */
  lemma DropChain(free: seq<bool>, desc: seq<Desc>, ops: seq<Op>, info: seq<Info>, owner: Owners, chains: Chains,
                  h: nat, free': seq<bool>, desc': seq<Desc>, x: Info)
    requires TableOk(free, desc, ops, info, owner, chains) && h in chains && h < NUM
    requires |free'| == |desc'| == NUM
    requires forall i | 0 <= i < NUM :: free'[i] == (free[i] || InChain(chains, h, i))
    requires forall i | 0 <= i < NUM :: desc'[i] == if InChain(chains, h, i) then Blank() else desc[i]
    ensures TableOk(free', desc', ops, info[h := x], owner - {h, chains[h].d1, chains[h].d2}, chains - {h})
  {
    var c := chains[h];
    var owner', chains', info' := owner - {h, c.d1, c.d2}, chains - {h}, info[h := x];
    assert ChainAt(desc, ops, info, owner, chains, h);
    forall i: nat | i < NUM ensures DescAt(free', desc', owner', chains', i) {
      assert DescAt(free, desc, owner, chains, i);
    }
    forall g | g in chains' ensures ChainAt(desc', ops, info', owner', chains', g) {
      assert ChainAt(desc, ops, info, owner, chains, g);
    }
  }

  lemma DropPhase(chains: Chains, s: seq<nat>, phase: Phase, h: nat)
    requires PhaseOk(chains, s, phase) && h in chains && chains[h].phase != phase
    ensures PhaseOk(chains - {h}, s, phase)
  {
    var chains' := chains - {h};
    forall g: nat ensures InPhase(chains', s, phase, g) { assert InPhase(chains, s, phase, g); }
  }

  lemma DropBusy(chains: Chains, busy: set<nat>, head: map<nat, nat>, h: nat)
    requires BusyOk(chains, busy, head)
    ensures BusyOk(chains - {h}, busy, head)
  {
    var chains' := chains - {h};
    forall g | g in chains' ensures BusyAt(chains', busy, head, g) { assert BusyAt(chains, busy, head, g); }
  }

  /** Every chain in s acknowledged. */
  ghost function AckAll(chains: Chains, s: seq<nat>): Chains {
    if s == [] then chains else AckAll(if s[0] in chains then SetPhase(chains, s[0], Acked) else chains, s[1..])
  }

  /** An interrupt acknowledges the listed chains and no other. */
  lemma {:induction false} AckAllIs(chains: Chains, s: seq<nat>, h: nat)
    ensures h in AckAll(chains, s) <==> h in chains
    ensures h in chains ==> AckAll(chains, s)[h] == if h in s then chains[h].(phase := Acked) else chains[h]
    decreases |s|
  {
    if s != [] {
      AckAllIs(if s[0] in chains then SetPhase(chains, s[0], Acked) else chains, s[1..], h);
      assert h in s <==> h == s[0] || h in s[1..];
    }
  }
}
