/** The free list of user/umalloc.c as a value: blocks in address order, none
    touching the next, headed by the empty static block `base`.  Addresses and
    sizes count Header units (16 bytes). */
module FreeList {

  datatype Blk = Blk(addr: int, size: nat) {
    function End(): int { addr + size }
    ghost predicate Has(u: int) { addr <= u < End() }
  }

  ghost predicate Sep(bs: seq<Blk>, i: nat, j: nat)
    requires i < |bs| && j < |bs|
  {
    bs[i].End() < bs[j].addr
  }

  /** Ordered, non-empty after the head, and separated by at least one unit. */
  ghost predicate Ordered(bs: seq<Blk>) {
    && |bs| > 0 && bs[0].size == 0
    && (forall i | 0 < i < |bs| :: bs[i].size > 0)
    && (forall i, j | 0 <= i < j < |bs| :: Sep(bs, i, j))
  }

  ghost predicate Covers(bs: seq<Blk>, u: int) {
    exists i :: 0 <= i < |bs| && bs[i].Has(u)
  }

  /** The units in the first k blocks. */
  ghost function UnitsTo(bs: seq<Blk>, k: nat): nat
    requires k <= |bs|
  {
    if k == 0 then 0 else UnitsTo(bs, k - 1) + bs[k - 1].size
  }

  ghost function Units(bs: seq<Blk>): nat { UnitsTo(bs, |bs|) }

  /** Stretches that agree block by block hold the same number of units. */
  lemma {:induction false} UnitsShift(bs: seq<Blk>, p: nat, cs: seq<Blk>, q: nat, k: nat)
    requires p + k <= |bs| && q + k <= |cs|
    requires forall i | p <= i < p + k :: bs[i] == cs[i - p + q]
    ensures UnitsTo(bs, p + k) - UnitsTo(bs, p) == UnitsTo(cs, q + k) - UnitsTo(cs, q)
  {
    if k > 0 {
      UnitsShift(bs, p, cs, q, k - 1);
    }
  }

  /** Two ordered lists with the same head that cover the same units are the
      same list: coalescing leaves nothing to choose. */
  lemma {:induction false} Canonical(bs: seq<Blk>, cs: seq<Blk>)
    requires Ordered(bs) && Ordered(cs) && bs[0] == cs[0]
    requires forall u :: Covers(bs, u) <==> Covers(cs, u)
    ensures bs == cs
  {
    var k := 1;
    while k < |bs| && k < |cs|
      invariant 1 <= k <= |bs| && k <= |cs|
      invariant bs[..k] == cs[..k]
    {
      AddrBelow(bs, cs, k);
      AddrBelow(cs, bs, k);
      EndBelow(bs, cs, k);
      EndBelow(cs, bs, k);
      assert bs[k] == cs[k];
      k := k + 1;
    }
    assert (k == |bs| ==> bs[..k] == bs) && (k == |cs| ==> cs[..k] == cs);
    if k < |bs| { CoversMore(bs, k); }
    if k < |cs| { CoversMore(cs, k); }
  }

  lemma SepIs(bs: seq<Blk>, i: nat, j: nat)
    requires Ordered(bs) && i < j < |bs|
    ensures bs[i].End() < bs[j].addr
  {
    assert Sep(bs, i, j);
  }

  lemma AddrBelow(bs: seq<Blk>, cs: seq<Blk>, k: nat)
    requires Ordered(bs) && Ordered(cs) && 0 < k < |bs| && k < |cs| && bs[..k] == cs[..k]
    requires forall u :: Covers(bs, u) <==> Covers(cs, u)
    ensures cs[k].addr <= bs[k].addr
  {
    var u := bs[k].addr;
    assert bs[k].Has(u) && Covers(bs, u);
    var i :| 0 <= i < |cs| && cs[i].Has(u);
    if i < k {
      assert cs[i] == cs[..k][i] == bs[..k][i] == bs[i];
      SepIs(bs, i, k);
    } else if i > k {
      SepIs(cs, k, i);
    }
  }

  lemma EndBelow(bs: seq<Blk>, cs: seq<Blk>, k: nat)
    requires Ordered(bs) && Ordered(cs) && 0 < k < |bs| && k < |cs|
    requires bs[k].addr == cs[k].addr
    requires forall u :: Covers(bs, u) <==> Covers(cs, u)
    ensures bs[k].End() <= cs[k].End()
  {
    if cs[k].End() < bs[k].End() {
      CoversAt(bs, k, cs[k].End());
      GapAfter(cs, k);
    }
  }

  lemma CoversAt(bs: seq<Blk>, k: nat, u: int)
    requires k < |bs| && bs[k].Has(u)
    ensures Covers(bs, u)
  {
  }

  lemma GapAfter(cs: seq<Blk>, k: nat)
    requires Ordered(cs) && 0 < k < |cs|
    ensures !Covers(cs, cs[k].End())
  {
    forall i | 0 <= i < |cs| ensures !cs[i].Has(cs[k].End()) {
      if i < k { SepIs(cs, i, k); } else if i > k { SepIs(cs, k, i); }
    }
  }

  /** A further block covers something more. */
  lemma CoversMore(bs: seq<Blk>, k: nat)
    requires Ordered(bs) && 0 < k < |bs|
    ensures Covers(bs, bs[k].addr) && !Covers(bs[..k], bs[k].addr)
  {
    var u := bs[k].addr;
    assert bs[k].Has(u);
    forall i | 0 <= i < k ensures !bs[..k][i].Has(u) { SepIs(bs, i, k); }
  }

  // ----------------------------------------------------------------- splice

  /** Blocks lo up to hi replaced by the single block g. */
  function Splice(bs: seq<Blk>, lo: nat, hi: nat, g: Blk): (r: seq<Blk>)
    requires lo <= hi <= |bs|
    ensures |r| == lo + 1 + (|bs| - hi)
  {
    bs[..lo] + [g] + bs[hi..]
  }

  lemma SpliceAt(bs: seq<Blk>, lo: nat, hi: nat, g: Blk, i: nat)
    requires lo <= hi <= |bs| && i < |Splice(bs, lo, hi, g)|
    ensures Splice(bs, lo, hi, g)[i] == if i < lo then bs[i] else if i == lo then g else bs[i - lo - 1 + hi]
  {
  }

  lemma SpliceOrdered(bs: seq<Blk>, lo: nat, hi: nat, g: Blk)
    requires Ordered(bs) && 0 < lo <= hi <= |bs| && g.size > 0
    requires bs[lo - 1].End() < g.addr
    requires hi < |bs| ==> g.End() < bs[hi].addr
    ensures Ordered(Splice(bs, lo, hi, g)) && Splice(bs, lo, hi, g)[0] == bs[0]
  {
    var r := Splice(bs, lo, hi, g);
    forall i, j | 0 <= i < j < |r| ensures Sep(r, i, j) {
      SpliceAt(bs, lo, hi, g, i);
      SpliceAt(bs, lo, hi, g, j);
      var i', j' := if i < lo then i else i - lo - 1 + hi, if j < lo then j else j - lo - 1 + hi;
      if i < lo {
        assert i < lo - 1 ==> Sep(bs, i, lo - 1);
        if j != lo { assert Sep(bs, i', j'); }
      } else if i == lo {
        assert hi < j' ==> Sep(bs, hi, j');
      } else {
        assert Sep(bs, i', j');
      }
    }
    forall i | 0 <= i < |r| ensures i > 0 ==> r[i].size > 0 {
      SpliceAt(bs, lo, hi, g, i);
    }
    SpliceAt(bs, lo, hi, g, 0);
  }

  lemma SpliceCovers(bs: seq<Blk>, lo: nat, hi: nat, g: Blk, u: int)
    requires lo <= hi <= |bs|
    ensures Covers(Splice(bs, lo, hi, g), u) <==> Covers(bs[..lo], u) || g.Has(u) || Covers(bs[hi..], u)
    ensures Covers(bs, u) <==> Covers(bs[..lo], u) || Covers(bs[lo..hi], u) || Covers(bs[hi..], u)
  {
    CoversConcat(bs[..lo] + [g], bs[hi..], u);
    CoversConcat(bs[..lo], [g], u);
    assert [g][0] == g;
    assert bs == bs[..lo] + bs[lo..hi] + bs[hi..];
    CoversConcat(bs[..lo] + bs[lo..hi], bs[hi..], u);
    CoversConcat(bs[..lo], bs[lo..hi], u);
  }

  lemma CoversConcat(x: seq<Blk>, y: seq<Blk>, u: int)
    ensures Covers(x + y, u) <==> Covers(x, u) || Covers(y, u)
  {
    if Covers(x, u) { var i :| 0 <= i < |x| && x[i].Has(u); assert (x + y)[i].Has(u); }
    if Covers(y, u) { var i :| 0 <= i < |y| && y[i].Has(u); assert (x + y)[|x| + i].Has(u); }
  }

  lemma SpliceFront(bs: seq<Blk>, lo: nat, hi: nat, g: Blk)
    requires lo <= hi <= |bs|
    ensures UnitsTo(Splice(bs, lo, hi, g), lo + 1) == UnitsTo(bs, lo) + g.size
  {
    UnitsShift(bs, 0, Splice(bs, lo, hi, g), 0, lo);
  }

  lemma SpliceRear(bs: seq<Blk>, lo: nat, hi: nat, g: Blk)
    requires lo <= hi <= |bs|
    ensures var r := Splice(bs, lo, hi, g); Units(r) - UnitsTo(r, lo + 1) == Units(bs) - UnitsTo(bs, hi)
  {
    UnitsShift(bs, hi, Splice(bs, lo, hi, g), lo + 1, |bs| - hi);
  }

  lemma SpliceUnits(bs: seq<Blk>, lo: nat, hi: nat, g: Blk)
    requires lo <= hi <= |bs|
    ensures Units(Splice(bs, lo, hi, g)) == Units(bs) - (UnitsTo(bs, hi) - UnitsTo(bs, lo)) + g.size
  {
    SpliceFront(bs, lo, hi, g);
    SpliceRear(bs, lo, hi, g);
  }

  // ---------------------------------------------------------------- release

  /** b lies in the gap after the j-th block and overlaps no block. */
  ghost predicate Gap(bs: seq<Blk>, j: nat, b: Blk) {
    && j < |bs| && b.size > 0
    && bs[j].End() <= b.addr && bs[j].addr < b.addr
    && (j + 1 < |bs| ==> b.End() <= bs[j + 1].addr)
  }

  predicate JoinsUp(bs: seq<Blk>, j: nat, b: Blk) {
    j + 1 < |bs| && b.End() == bs[j + 1].addr
  }

  predicate JoinsDown(bs: seq<Blk>, j: nat, b: Blk)
    requires j < |bs|
  {
    bs[j].End() == b.addr
  }

  function Low(bs: seq<Blk>, j: nat, b: Blk): nat
    requires j < |bs|
  {
    if JoinsDown(bs, j, b) then j else j + 1
  }

  function High(bs: seq<Blk>, j: nat, b: Blk): nat {
    if JoinsUp(bs, j, b) then j + 2 else j + 1
  }

  /** b joined with the neighbours it touches. */
  function Joined(bs: seq<Blk>, j: nat, b: Blk): Blk
    requires j < |bs|
  {
    var up := if JoinsUp(bs, j, b) then b.size + bs[j + 1].size else b.size;
    if JoinsDown(bs, j, b) then Blk(bs[j].addr, bs[j].size + up) else Blk(b.addr, up)
  }

  /** free: b and the neighbours it touches become one block. */
  function Release(bs: seq<Blk>, j: nat, b: Blk): seq<Blk>
    requires j < |bs|
  {
    Splice(bs, Low(bs, j, b), High(bs, j, b), Joined(bs, j, b))
  }

  lemma ReleaseOrdered(bs: seq<Blk>, j: nat, b: Blk)
    requires Ordered(bs) && Gap(bs, j, b)
    ensures Ordered(Release(bs, j, b)) && Release(bs, j, b)[0] == bs[0]
  {
    assert j > 0 ==> Sep(bs, j - 1, j);
    assert j + 1 < |bs| ==> Sep(bs, j, j + 1);
    assert j + 2 < |bs| ==> Sep(bs, j + 1, j + 2);
    SpliceOrdered(bs, Low(bs, j, b), High(bs, j, b), Joined(bs, j, b));
  }

  lemma ReleaseCovers(bs: seq<Blk>, j: nat, b: Blk, u: int)
    requires Ordered(bs) && Gap(bs, j, b)
    ensures Covers(Release(bs, j, b), u) <==> Covers(bs, u) || b.Has(u)
  {
    var lo, hi, g := Low(bs, j, b), High(bs, j, b), Joined(bs, j, b);
    SpliceCovers(bs, lo, hi, g, u);
    var m := bs[lo..hi];
    assert Covers(m, u) || b.Has(u) <==> g.Has(u) by {
      if JoinsDown(bs, j, b) { assert m[0] == bs[j]; }
      if JoinsUp(bs, j, b) { assert m[hi - lo - 1] == bs[j + 1]; }
    }
  }

  lemma ReleaseUnits(bs: seq<Blk>, j: nat, b: Blk)
    requires j < |bs|
    ensures Units(Release(bs, j, b)) == Units(bs) + b.size
  {
    SpliceUnits(bs, Low(bs, j, b), High(bs, j, b), Joined(bs, j, b));
  }

  // ------------------------------------------------------------------- take

  /** malloc's cut: drop the k-th block if it fits exactly, else shorten it. */
  function Take(bs: seq<Blk>, k: nat, n: nat): seq<Blk>
    requires k < |bs| && n <= bs[k].size
  {
    if bs[k].size == n then bs[..k] + bs[k + 1..] else bs[k := Blk(bs[k].addr, bs[k].size - n)]
  }

  lemma TakeOrdered(bs: seq<Blk>, k: nat, n: nat)
    requires Ordered(bs) && 0 < k < |bs| && 0 < n <= bs[k].size
    ensures Ordered(Take(bs, k, n)) && Take(bs, k, n)[0] == bs[0]
  {
    var ts := Take(bs, k, n);
    forall i, j | 0 <= i < j < |ts| ensures Sep(ts, i, j) {
      if bs[k].size == n {
        assert Sep(bs, if i < k then i else i + 1, if j < k then j else j + 1);
      } else {
        assert Sep(bs, i, j);
      }
    }
  }

  lemma TakeCovers(bs: seq<Blk>, k: nat, n: nat, u: int)
    requires Ordered(bs) && 0 < k < |bs| && 0 < n <= bs[k].size
    ensures var b := Blk(bs[k].End() - n, n);
      Covers(bs, u) <==> Covers(Take(bs, k, n), u) || b.Has(u)
    ensures !(Covers(Take(bs, k, n), u) && Blk(bs[k].End() - n, n).Has(u))
  {
    var ts := Take(bs, k, n);
    var b := Blk(bs[k].End() - n, n);
    if b.Has(u) { assert bs[k].Has(u); }
    if Covers(bs, u) {
      var i :| 0 <= i < |bs| && bs[i].Has(u);
      assert i < k ==> Sep(bs, i, k);
      assert i > k ==> Sep(bs, k, i);
      if bs[k].size == n && i > k { assert ts[i - 1].Has(u); } else if i != k { assert ts[i].Has(u); }
      else if bs[k].size != n && !b.Has(u) { assert ts[k].Has(u); }
    }
    if Covers(ts, u) {
      var i :| 0 <= i < |ts| && ts[i].Has(u);
      var i' := if bs[k].size == n && i >= k then i + 1 else i;
      assert bs[i'].Has(u);
      assert i' < k ==> Sep(bs, i', k);
      assert i' > k ==> Sep(bs, k, i');
    }
  }

  lemma TakeUnits(bs: seq<Blk>, k: nat, n: nat)
    requires k < |bs| && n <= bs[k].size
    ensures Units(Take(bs, k, n)) + n == Units(bs)
  {
    if bs[k].size == n {
      DropUnits(bs, k);
    } else {
      var c := Blk(bs[k].addr, bs[k].size - n);
      assert Take(bs, k, n) == Splice(bs, k, k + 1, c);
      SpliceUnits(bs, k, k + 1, c);
    }
  }

  lemma DropUnits(bs: seq<Blk>, k: nat)
    requires k < |bs|
    ensures Units(bs[..k] + bs[k + 1..]) + bs[k].size == Units(bs)
  {
    var ts := bs[..k] + bs[k + 1..];
    assert UnitsTo(ts, k) == UnitsTo(bs, k) by { UnitsShift(bs, 0, ts, 0, k); }
    UnitsShift(bs, k + 1, ts, k, |bs| - k - 1);
  }
}
