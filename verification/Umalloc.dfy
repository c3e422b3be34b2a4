/** user/umalloc.c: the K&R allocator, its headers relinked in place. */
module Umalloc {
  import opened Common
  import opened FreeList

  const NULL := 0
  const MINUNITS := 4096

  /** Header units for a request: room for nbytes after one header unit. */
  function Nunits(nbytes: nat): (n: nat)
    ensures n > 0 && 16 * (n - 1) - 16 < nbytes <= 16 * (n - 1)
  {
    (nbytes + 15) / 16 + 1
  }

  /** The units morecore asks for: what is needed, but 4096 at least. */
  function CoreUnits(nu: nat): (n: nat)
    ensures n >= nu && n >= 4096 && (n == nu || n == 4096)
  {
    if nu < MINUNITS then MINUNITS else nu
  }

  /** morecore asks sbrk for exactly the bytes it records in the new header if
      and only if the request is below 2 GB less two headers. */
  lemma SbrkRequestExact(nbytes: nat)
    requires nbytes < 0x1_0000_0000
    ensures Int32(16 * CoreUnits(Nunits(nbytes))) == 16 * CoreUnits(Nunits(nbytes)) <==> nbytes <= 0x7FFF_FFE0
  {
    var n := Nunits(nbytes);
    assert n <= 0x1000_0001;
    assert n < 0x800_0000 <==> nbytes <= 0x7FFF_FFE0;
  }

  predicate Apart(x: Blk, y: Blk) { x.End() <= y.addr || y.End() <= x.addr }

  function Succ(n: nat, k: nat): nat { if k + 1 < n then k + 1 else 0 }

  function Pred(n: nat, k: nat): int { if k == 0 then n - 1 else k - 1 }

  /** Steps from index k round the circle to index i. */
  function Dist(n: nat, k: nat, i: nat): int { if i >= k then i - k else i - k + n }

  /** The i-th header holds its block's size and points to the next. */
  ghost predicate LinkAt(ptr: map<int, int>, size: map<int, nat>, bs: seq<Blk>, i: nat)
    requires i < |bs|
  {
    && bs[i].addr in size && size[bs[i].addr] == bs[i].size
    && bs[i].addr in ptr && ptr[bs[i].addr] == bs[Succ(|bs|, i)].addr
  }

  /** The headers form the circle bs. */
  ghost predicate Linked(ptr: map<int, int>, size: map<int, nat>, bs: seq<Blk>) {
    forall i | 0 <= i < |bs| :: LinkAt(ptr, size, bs, i)
  }

  ghost predicate ApartAt(bs: seq<Blk>, b: Blk, i: nat)
    requires i < |bs|
  {
    Apart(b, bs[i])
  }

  ghost predicate AllApart(bs: seq<Blk>, b: Blk) {
    forall i | 0 <= i < |bs| :: ApartAt(bs, b, i)
  }

  ghost predicate BothApart(live: map<int, nat>, b: int, c: int)
    requires b in live && c in live
  {
    Apart(Blk(b, live[b]), Blk(c, live[c]))
  }

  /** Live blocks overlap neither one another nor the free list. */
  ghost predicate LiveOk(size: map<int, nat>, bs: seq<Blk>, live: map<int, nat>) {
    && |bs| > 0
    && (forall b | b in live :: live[b] > 0 && bs[0].addr < b && b in size && size[b] == live[b])
    && (forall b | b in live :: AllApart(bs, Blk(b, live[b])))
    && (forall b, c | b in live && c in live && b != c :: BothApart(live, b, c))
  }

  ghost function Pick(m: map<int, nat>): (b: int)
    requires exists b :: b in m
    ensures b in m
  {
    var b :| b in m;
    b
  }

  ghost function Sum(m: map<int, nat>): nat
    decreases |m|
  {
    if forall b :: b !in m then 0
    else
      var b := Pick(m);
      assert (m - {b}).Keys == m.Keys - {b};
      m[b] + Sum(m - {b})
  }

  lemma {:induction false} SumAt(m: map<int, nat>, b: int)
    requires b in m
    ensures Sum(m) == m[b] + Sum(m - {b})
    decreases |m|
  {
    var c := Pick(m);
    if c != b {
      assert (m - {c}).Keys == m.Keys - {c};
      assert (m - {b}).Keys == m.Keys - {b};
      SumAt(m - {c}, b);
      SumAt(m - {b}, c);
      assert m - {c} - {b} == m - {b} - {c};
    }
  }

  lemma SumAdd(m: map<int, nat>, b: int, n: nat)
    requires b !in m
    ensures Sum(m[b := n]) == Sum(m) + n
  {
    SumAt(m[b := n], b);
    assert m[b := n] - {b} == m;
  }

  /** The block after which address x belongs. */
  ghost function Before(bs: seq<Blk>, x: int, k: nat): (j: nat)
    requires k < |bs| && bs[0].addr < x
    ensures j <= k && bs[j].addr < x
  {
    if bs[k].addr < x then k else Before(bs, x, k - 1)
  }

  lemma {:induction false} AboveBefore(bs: seq<Blk>, x: int, k: nat, i: nat)
    requires k < |bs| && bs[0].addr < x && Before(bs, x, k) < i <= k
    ensures x <= bs[i].addr
  {
    if i < k { AboveBefore(bs, x, k - 1, i); }
  }

  lemma GapAt(bs: seq<Blk>, b: Blk)
    requires Ordered(bs) && bs[0].addr < b.addr && b.size > 0 && AllApart(bs, b)
    ensures Gap(bs, Before(bs, b.addr, |bs| - 1), b)
  {
    var j := Before(bs, b.addr, |bs| - 1);
    assert ApartAt(bs, b, j);
    if j + 1 < |bs| {
      AboveBefore(bs, b.addr, |bs| - 1, j + 1);
      assert ApartAt(bs, b, j + 1);
    }
  }

  /** free's test for the right place in the circle holds at exactly one block. */
  lemma StopsAt(bs: seq<Blk>, b: Blk, k: nat)
    requires Ordered(bs) && bs[0].addr < b.addr && b.size > 0 && AllApart(bs, b) && k < |bs|
    ensures var p, q := bs[k].addr, bs[Succ(|bs|, k)].addr;
      ((b.addr > p && b.addr < q) || (p >= q && (b.addr > p || b.addr < q)))
      <==> k == Before(bs, b.addr, |bs| - 1)
  {
    GapAt(bs, b);
    var j := Before(bs, b.addr, |bs| - 1);
    if j < k { AboveBefore(bs, b.addr, |bs| - 1, k); }
    assert k < j ==> Sep(bs, k, j);
    assert k + 1 < j ==> Sep(bs, k + 1, j);
    assert 0 < k ==> Sep(bs, 0, k);
    assert k + 1 < |bs| ==> Sep(bs, k, k + 1);
  }

  /** free's stores, for a block b released after the j-th. */
  ghost predicate FreeStores(ptr: map<int, int>, size: map<int, nat>, bs: seq<Blk>, j: nat, b: Blk,
                             ptr': map<int, int>, size': map<int, nat>)
    requires j < |bs|
  {
    var p, nxt := bs[j].addr, bs[Succ(|bs|, j)];
    var up := b.End() == nxt.addr;
    var n := if up then b.size + nxt.size else b.size;
    var link := if up then bs[Succ(|bs|, Succ(|bs|, j))].addr else nxt.addr;
    && (forall x | x in ptr && x != b.addr && x != p :: x in ptr' && ptr'[x] == ptr[x])
    && (forall x | x in size && x != b.addr && x != p :: x in size' && size'[x] == size[x])
    && p in ptr' && p in size'
    && if bs[j].End() == b.addr then ptr'[p] == link && size'[p] == bs[j].size + n
       else ptr'[p] == b.addr && size'[p] == bs[j].size
            && b.addr in ptr' && b.addr in size' && ptr'[b.addr] == link && size'[b.addr] == n
  }

  lemma FreeLinkedAt(ptr: map<int, int>, size: map<int, nat>, bs: seq<Blk>, j: nat, b: Blk,
                     ptr': map<int, int>, size': map<int, nat>, i: nat)
    requires Ordered(bs) && Gap(bs, j, b) && Linked(ptr, size, bs)
    requires FreeStores(ptr, size, bs, j, b, ptr', size')
    requires i < |Release(bs, j, b)|
    ensures LinkAt(ptr', size', Release(bs, j, b), i)
  {
    var lo, hi, g := Low(bs, j, b), High(bs, j, b), Joined(bs, j, b);
    var rs := Release(bs, j, b);
    SpliceAt(bs, lo, hi, g, i);
    SpliceAt(bs, lo, hi, g, Succ(|rs|, i));
    var i' := if i < lo then i else i - lo - 1 + hi;
    assert j + 1 < |bs| ==> Sep(bs, j, j + 1);
    assert 0 < j ==> Sep(bs, 0, j);
    if i != lo {
      assert LinkAt(ptr, size, bs, i');
      assert i' < j ==> Sep(bs, i', j);
      assert i' > j ==> Sep(bs, j, i');
      assert j + 1 < i' ==> Sep(bs, j + 1, i');
    }
  }

  /** They turn the circle bs into the circle Release(bs, j, b). */
  lemma FreeLinked(ptr: map<int, int>, size: map<int, nat>, bs: seq<Blk>, j: nat, b: Blk,
                   ptr': map<int, int>, size': map<int, nat>)
    requires Ordered(bs) && Gap(bs, j, b) && Linked(ptr, size, bs)
    requires FreeStores(ptr, size, bs, j, b, ptr', size')
    ensures Linked(ptr', size', Release(bs, j, b))
  {
    forall i | 0 <= i < |Release(bs, j, b)| ensures LinkAt(ptr', size', Release(bs, j, b), i) {
      FreeLinkedAt(ptr, size, bs, j, b, ptr', size', i);
    }
  }

  lemma ReleaseApart(bs: seq<Blk>, j: nat, b: Blk, c: Blk)
    requires Ordered(bs) && Gap(bs, j, b) && c.size > 0 && bs[0].addr < c.addr && AllApart(bs, c) && Apart(c, b)
    ensures AllApart(Release(bs, j, b), c)
  {
    var lo, hi, g, rs := Low(bs, j, b), High(bs, j, b), Joined(bs, j, b), Release(bs, j, b);
    forall i | 0 <= i < |rs| ensures ApartAt(rs, c, i) {
      SpliceAt(bs, lo, hi, g, i);
      if i != lo {
        assert ApartAt(bs, c, if i < lo then i else i - lo - 1 + hi);
      } else {
        assert ApartAt(bs, c, j);
        assert j + 1 < |bs| ==> ApartAt(bs, c, j + 1);
      }
    }
  }

  /** Releasing a live block keeps the others apart. */
  lemma FreeLive(size: map<int, nat>, bs: seq<Blk>, live: map<int, nat>, b: int, j: nat, size': map<int, nat>)
    requires Ordered(bs) && LiveOk(size, bs, live) && b in live && Gap(bs, j, Blk(b, live[b]))
    requires forall x | x in size && x != b && x != bs[j].addr :: x in size' && size'[x] == size[x]
    ensures LiveOk(size', Release(bs, j, Blk(b, live[b])), live - {b})
  {
    var rs := Release(bs, j, Blk(b, live[b]));
    var rest := live - {b};
    ReleaseOrdered(bs, j, Blk(b, live[b]));
    forall c | c in rest
      ensures rest[c] > 0 && rs[0].addr < c && c in size' && size'[c] == rest[c] && AllApart(rs, Blk(c, rest[c]))
    {
      assert BothApart(live, c, b);
      assert AllApart(bs, Blk(c, live[c]));
      assert ApartAt(bs, Blk(c, live[c]), j);
      ReleaseApart(bs, j, Blk(b, live[b]), Blk(c, live[c]));
    }
    forall c, e | c in rest && e in rest && c != e ensures BothApart(rest, c, e) {
      assert BothApart(live, c, e);
    }
  }

  // ----------------------------------------------------------------- malloc

  /** malloc's stores, cutting n units off the end of the block at p, whose
      predecessor in the circle is at prevp. */
  function CutPtr(ptr: map<int, int>, size: map<int, nat>, prevp: int, p: int, n: nat): map<int, int>
    requires p in ptr && p in size
  {
    if size[p] == n then ptr[prevp := ptr[p]] else ptr
  }

  function CutSize(size: map<int, nat>, p: int, n: nat): map<int, nat>
    requires p in size && n <= size[p]
  {
    if size[p] == n then size else size[p := size[p] - n][p + size[p] - n := n]
  }

  lemma TakeLinkedAt(ptr: map<int, int>, size: map<int, nat>, bs: seq<Blk>, q: nat, k: nat, n: nat, i: nat)
    requires Ordered(bs) && Linked(ptr, size, bs)
    requires q < |bs| && k == Succ(|bs|, q) && 0 < k && 0 < n <= bs[k].size && LinkAt(ptr, size, bs, k)
    requires i < |Take(bs, k, n)|
    ensures LinkAt(CutPtr(ptr, size, bs[q].addr, bs[k].addr, n), CutSize(size, bs[k].addr, n), Take(bs, k, n), i)
  {
    var i' := if bs[k].size == n && i >= k then i + 1 else i;
    assert LinkAt(ptr, size, bs, i');
    assert LinkAt(ptr, size, bs, k);
    assert i' < k ==> Sep(bs, i', k);
    assert i' > k ==> Sep(bs, k, i');
    assert i' < q ==> Sep(bs, i', q);
    assert i' > q ==> Sep(bs, q, i');
  }

  lemma TakeLinked(ptr: map<int, int>, size: map<int, nat>, bs: seq<Blk>, q: nat, k: nat, n: nat)
    requires Ordered(bs) && Linked(ptr, size, bs)
    requires q < |bs| && k == Succ(|bs|, q) && 0 < k && 0 < n <= bs[k].size && LinkAt(ptr, size, bs, k)
    ensures Linked(CutPtr(ptr, size, bs[q].addr, bs[k].addr, n), CutSize(size, bs[k].addr, n), Take(bs, k, n))
  {
    var ptr', size' := CutPtr(ptr, size, bs[q].addr, bs[k].addr, n), CutSize(size, bs[k].addr, n);
    forall i | 0 <= i < |Take(bs, k, n)| ensures LinkAt(ptr', size', Take(bs, k, n), i) {
      TakeLinkedAt(ptr, size, bs, q, k, n, i);
    }
  }

  lemma TakeApart(bs: seq<Blk>, k: nat, n: nat, c: Blk)
    requires Ordered(bs) && k < |bs| && n <= bs[k].size && AllApart(bs, c)
    ensures AllApart(Take(bs, k, n), c)
  {
    var ts := Take(bs, k, n);
    forall i | 0 <= i < |ts| ensures ApartAt(ts, c, i) {
      assert ApartAt(bs, c, if bs[k].size == n && i >= k then i + 1 else i);
    }
  }

  lemma CutApart(bs: seq<Blk>, k: nat, n: nat)
    requires Ordered(bs) && 0 < k < |bs| && 0 < n <= bs[k].size
    ensures AllApart(Take(bs, k, n), Blk(bs[k].End() - n, n))
  {
    var ts, b := Take(bs, k, n), Blk(bs[k].End() - n, n);
    forall i | 0 <= i < |ts| ensures ApartAt(ts, b, i) {
      var i' := if bs[k].size == n && i >= k then i + 1 else i;
      assert i' < k ==> Sep(bs, i', k);
      assert i' > k ==> Sep(bs, k, i');
    }
  }

  /** Cutting a new live block out of the free list keeps all blocks apart. */
  lemma TakeLive(size: map<int, nat>, bs: seq<Blk>, live: map<int, nat>, k: nat, n: nat)
    requires Ordered(bs) && LiveOk(size, bs, live) && 0 < k < |bs| && 0 < n <= bs[k].size
    requires bs[k].addr in size && size[bs[k].addr] == bs[k].size
    ensures bs[k].End() - n !in live
    ensures LiveOk(CutSize(size, bs[k].addr, n), Take(bs, k, n), live[bs[k].End() - n := n])
  {
    var b, ts, size' := bs[k].End() - n, Take(bs, k, n), CutSize(size, bs[k].addr, n);
    var more := live[b := n];
    TakeOrdered(bs, k, n);
    assert Sep(bs, 0, k);
    forall c | c in live ensures c != b && Apart(Blk(c, live[c]), Blk(b, n)) && AllApart(ts, Blk(c, live[c])) {
      assert AllApart(bs, Blk(c, live[c]));
      assert ApartAt(bs, Blk(c, live[c]), k);
      TakeApart(bs, k, n, Blk(c, live[c]));
    }
    CutApart(bs, k, n);
    forall c, e | c in more && e in more && c != e ensures BothApart(more, c, e) {
      if c != b && e != b { assert BothApart(live, c, e); }
    }
    forall c | c in more
      ensures more[c] > 0 && ts[0].addr < c && c in size' && size'[c] == more[c] && AllApart(ts, Blk(c, more[c]))
    {
      if c != b { assert ApartAt(bs, Blk(c, live[c]), k); }
    }
  }

  /** The two conditional stores of free, as maps. */
  function UpPtr(ptr: map<int, int>, size: map<int, nat>, p: int, bp: int): map<int, int>
    requires bp in size && p in ptr && ptr[p] in ptr
  {
    if bp + size[bp] == ptr[p] then ptr[bp := ptr[ptr[p]]] else ptr[bp := ptr[p]]
  }

  function UpSize(ptr: map<int, int>, size: map<int, nat>, p: int, bp: int): map<int, nat>
    requires bp in size && p in ptr && ptr[p] in size
  {
    if bp + size[bp] == ptr[p] then size[bp := size[bp] + size[ptr[p]]] else size
  }

  function DownPtr(ptr: map<int, int>, size: map<int, nat>, p: int, bp: int): map<int, int>
    requires p in size && bp in ptr
  {
    if p + size[p] == bp then ptr[p := ptr[bp]] else ptr[p := bp]
  }

  function DownSize(size: map<int, nat>, p: int, bp: int): map<int, nat>
    requires p in size && bp in size
  {
    if p + size[p] == bp then size[p := size[p] + size[bp]] else size
  }

  predicate Headers(ptr: map<int, int>, size: map<int, nat>, p: int, bp: int) {
    bp in size && p in ptr && p in size && ptr[p] in ptr && ptr[p] in size
  }

  function FreedPtr(ptr: map<int, int>, size: map<int, nat>, p: int, bp: int): map<int, int>
    requires Headers(ptr, size, p, bp)
  {
    DownPtr(UpPtr(ptr, size, p, bp), UpSize(ptr, size, p, bp), p, bp)
  }

  function FreedSize(ptr: map<int, int>, size: map<int, nat>, p: int, bp: int): map<int, nat>
    requires Headers(ptr, size, p, bp)
  {
    DownSize(UpSize(ptr, size, p, bp), p, bp)
  }

  lemma StoresDone(ptr: map<int, int>, size: map<int, nat>, bs: seq<Blk>, j: nat, b: Blk)
    requires Ordered(bs) && Gap(bs, j, b) && Linked(ptr, size, bs)
    requires b.addr in size && size[b.addr] == b.size
    ensures Headers(ptr, size, bs[j].addr, b.addr)
    ensures var a := bs[j].addr;
      FreeStores(ptr, size, bs, j, b, FreedPtr(ptr, size, a, b.addr), FreedSize(ptr, size, a, b.addr))
  {
    assert LinkAt(ptr, size, bs, j);
    assert LinkAt(ptr, size, bs, Succ(|bs|, j));
  }

  /** The circle and the live blocks agree with the headers in memory. */
  ghost predicate Sound(ptr: map<int, int>, size: map<int, nat>, bs: seq<Blk>, live: map<int, nat>) {
    Ordered(bs) && Linked(ptr, size, bs) && LiveOk(size, bs, live)
  }

  /** Everything free keeps, in one place. */
  lemma FreeKeeps(ptr: map<int, int>, size: map<int, nat>, bs: seq<Blk>, live: map<int, nat>, bp: int, j: nat)
    requires Sound(ptr, size, bs, live) && bp in live && j == Before(bs, bp, |bs| - 1)
    ensures Headers(ptr, size, bs[j].addr, bp)
    ensures var rs, p := Release(bs, j, Blk(bp, live[bp])), bs[j].addr;
      && Sound(FreedPtr(ptr, size, p, bp), FreedSize(ptr, size, p, bp), rs, live - {bp})
      && rs[0] == bs[0]
      && Units(rs) + Sum(live - {bp}) == Units(bs) + Sum(live)
      && j < |rs| && rs[j].addr == p
      && forall u :: Covers(rs, u) <==> Covers(bs, u) || Blk(bp, live[bp]).Has(u)
  {
    var b, p := Blk(bp, live[bp]), bs[j].addr;
    assert AllApart(bs, b);
    GapAt(bs, b);
    StoresDone(ptr, size, bs, j, b);
    FreeLinked(ptr, size, bs, j, b, FreedPtr(ptr, size, p, bp), FreedSize(ptr, size, p, bp));
    FreeLive(size, bs, live, bp, j, FreedSize(ptr, size, p, bp));
    ReleaseOrdered(bs, j, b);
    ReleaseUnits(bs, j, b);
    SumAt(live, bp);
    forall u ensures Covers(Release(bs, j, b), u) <==> Covers(bs, u) || b.Has(u) { ReleaseCovers(bs, j, b, u); }
    SpliceAt(bs, Low(bs, j, b), High(bs, j, b), Joined(bs, j, b), j);
  }

  /** b overlaps no block, free or live. */
  ghost predicate Unowned(bs: seq<Blk>, live: map<int, nat>, b: Blk) {
    && |bs| > 0 && bs[0].addr < b.addr && AllApart(bs, b)
    && forall c | c in live :: Apart(Blk(c, live[c]), b)
  }

  /** morecore's new header, before it is passed to free. */
  lemma CoreAdded(ptr: map<int, int>, size: map<int, nat>, bs: seq<Blk>, live: map<int, nat>, b: Blk)
    requires Sound(ptr, size, bs, live) && b.size > 0 && Unowned(bs, live, b)
    ensures b.addr !in live
    ensures Sound(ptr, size[b.addr := b.size], bs, live[b.addr := b.size])
    ensures Sum(live[b.addr := b.size]) == Sum(live) + b.size
  {
    var size', more := size[b.addr := b.size], live[b.addr := b.size];
    forall c | c in live ensures c != b.addr { assert Apart(Blk(c, live[c]), b); }
    SumAdd(live, b.addr, b.size);
    forall i | 0 <= i < |bs| ensures LinkAt(ptr, size', bs, i) {
      assert LinkAt(ptr, size, bs, i) && ApartAt(bs, b, i);
    }
    forall c | c in more
      ensures more[c] > 0 && bs[0].addr < c && c in size' && size'[c] == more[c] && AllApart(bs, Blk(c, more[c]))
    {
      assert c in live ==> AllApart(bs, Blk(c, live[c]));
    }
    forall c, e | c in more && e in more && c != e ensures BothApart(more, c, e) {
      if c in live && e in live { assert BothApart(live, c, e); }
    }
  }

  /** Everything malloc's cut keeps, in one place. */
  lemma TakeKeeps(ptr: map<int, int>, size: map<int, nat>, bs: seq<Blk>, live: map<int, nat>, q: nat, n: nat)
    requires Sound(ptr, size, bs, live) && q < |bs|
    requires 0 < n <= bs[Succ(|bs|, q)].size && LinkAt(ptr, size, bs, Succ(|bs|, q))
    ensures var k := Succ(|bs|, q); var b := bs[k].End() - n; var ts := Take(bs, k, n);
      && b !in live && bs[0].addr < b
      && Sound(CutPtr(ptr, size, bs[q].addr, bs[k].addr, n), CutSize(size, bs[k].addr, n), ts, live[b := n])
      && ts[0] == bs[0]
      && Units(ts) + Sum(live[b := n]) == Units(bs) + Sum(live)
      && q < |ts| && ts[q].addr == bs[q].addr
      && forall u :: Covers(bs, u) <==> Covers(ts, u) || Blk(b, n).Has(u)
  {
    var k := Succ(|bs|, q);
    assert k > 0;
    assert Sep(bs, 0, k);
    TakeLinked(ptr, size, bs, q, k, n);
    TakeLive(size, bs, live, k, n);
    TakeOrdered(bs, k, n);
    TakeUnits(bs, k, n);
    SumAdd(live, bs[k].End() - n, n);
    forall u ensures Covers(bs, u) <==> Covers(Take(bs, k, n), u) || Blk(bs[k].End() - n, n).Has(u) {
      TakeCovers(bs, k, n, u);
    }
  }

  /** No block of the circle has room for n units. */
  ghost predicate NoFit(bs: seq<Blk>, n: nat) {
    forall i | 0 <= i < |bs| :: bs[i].size < n
  }

  /** Every block with room for n units lies ahead, no further than freep. */
  ghost predicate FitsAhead(bs: seq<Blk>, n: nat, k: nat, f: nat) {
    forall x: nat {:trigger Peek(x)} | Peek(x) :: AllAhead(bs, n, k, f)
  }

  ghost predicate AllAhead(bs: seq<Blk>, n: nat, k: nat, f: nat) {
    forall i | 0 <= i < |bs| && bs[i].size >= n :: Dist(|bs|, k, i) <= Dist(|bs|, k, f)
  }

  lemma FitsStep(bs: seq<Blk>, n: nat, k: nat, f: nat)
    requires k < |bs| && f < |bs| && k != f && FitsAhead(bs, n, k, f) && bs[k].size < n
    ensures FitsAhead(bs, n, Succ(|bs|, k), f) && Dist(|bs|, Succ(|bs|, k), f) < Dist(|bs|, k, f)
  {
    assert Peek(0);
  }

  lemma FitsAll(bs: seq<Blk>, n: nat, f: nat)
    requires f < |bs|
    ensures FitsAhead(bs, n, Succ(|bs|, f), f)
  {
  }

  lemma FitsNone(bs: seq<Blk>, n: nat, f: nat)
    requires f < |bs| && FitsAhead(bs, n, f, f) && bs[f].size < n
    ensures NoFit(bs, n)
  {
    assert Peek(0);
  }

  ghost predicate AllSmall(bs: seq<Blk>, n: nat, at: nat, k: nat) {
    at < |bs| && k < |bs| && forall j: nat {:trigger bs[j]} | j < |bs| &&
      Dist(|bs|, Succ(|bs|, at), j) < Dist(|bs|, Succ(|bs|, at), k) :: bs[j].size < n
  }

  /** No block from the one after index at up to block k, round the circle, has room
      for n units.  Closed, as with Peek. */
  ghost predicate Skipped(bs: seq<Blk>, n: nat, at: nat, k: nat) {
    forall x: nat {:trigger Peek(x)} | Peek(x) :: AllSmall(bs, n, at, k)
  }

  lemma SkippedNone(bs: seq<Blk>, n: nat, at: nat)
    requires at < |bs|
    ensures Skipped(bs, n, at, Succ(|bs|, at))
  {
  }

  lemma SkippedNext(bs: seq<Blk>, n: nat, at: nat, k: nat)
    requires Skipped(bs, n, at, k) && k < |bs| && bs[k].size < n && k != at
    ensures Skipped(bs, n, at, Succ(|bs|, k))
  {
    assert Peek(0);
    var f, k' := Succ(|bs|, at), Succ(|bs|, k);
    forall j: nat | j < |bs| && Dist(|bs|, f, j) < Dist(|bs|, f, k') ensures bs[j].size < n {
      if j != k { assert Dist(|bs|, f, j) < Dist(|bs|, f, k); }
    }
  }

  lemma SameIndex(bs: seq<Blk>, i: nat, j: nat)
    requires Ordered(bs) && i < |bs| && j < |bs|
    ensures bs[i].addr == bs[j].addr <==> i == j
  {
    assert i < j ==> Sep(bs, i, j);
    assert j < i ==> Sep(bs, j, i);
  }

  class Allocator {
    /** The address of the static header `base`, below the heap. */
    const base: int
    /** The s.ptr and s.size fields of the headers in memory. */
    var ptr: map<int, int>
    var size: map<int, nat>
    var freep: int

    /** The circle in address order, freep's place in it, the blocks handed
        out with their sizes, and the units obtained from sbrk. */
    ghost var bs: seq<Blk>
    ghost var at: nat
    ghost var live: map<int, nat>
    ghost var total: nat

    ghost predicate Ready()
      reads this
    {
      && 0 < base
      && Sound(ptr, size, bs, live) && bs[0] == Blk(base, 0)
      && Units(bs) + Sum(live) == total
      && at < |bs| && bs[at].addr == freep
    }

    ghost predicate Valid()
      reads this
    {
      && 0 < base
      && if freep == NULL then bs == [] && live == map[] && total == 0 else Ready()
    }

    constructor (base: int)
      requires 0 < base
      ensures Valid() && this.base == base && live == map[] && total == 0
    {
      this.base := base;
      ptr, size, freep := map[], map[], NULL;
      bs, at, live, total := [], 0, map[], 0;
    }

    /** The search loop of free: walk the circle to the gap bp belongs in. */
    method FindGap(bp: int) returns (p: int)
      requires Ready() && bp in live
      ensures p == bs[Before(bs, bp, |bs| - 1)].addr
    {
      ghost var b := Blk(bp, live[bp]);
      ghost var j := Before(bs, bp, |bs| - 1);
      assert AllApart(bs, b);
      p := freep;
      ghost var k: nat := at;
      assert LinkAt(ptr, size, bs, k);
      while !(bp > p && bp < ptr[p])
        invariant k < |bs| && p == bs[k].addr && LinkAt(ptr, size, bs, k)
        decreases Dist(|bs|, k, j)
      {
        StopsAt(bs, b, k);
        if p >= ptr[p] && (bp > p || bp < ptr[p]) {
          return;
        }
        p := ptr[p];
        k := Succ(|bs|, k);
        assert LinkAt(ptr, size, bs, k);
      }
      StopsAt(bs, b, k);
    }

    /** The stores of free, joining bp with the blocks either side of it. */
    method Relink(p: int, bp: int)
      requires Headers(ptr, size, p, bp)
      modifies this`ptr, this`size, this`freep
      ensures ptr == FreedPtr(old(ptr), old(size), p, bp)
      ensures size == FreedSize(old(ptr), old(size), p, bp)
      ensures freep == p
    {
      if bp + size[bp] == ptr[p] {
        size, ptr := size[bp := size[bp] + size[ptr[p]]], ptr[bp := ptr[ptr[p]]];
      } else {
        ptr := ptr[bp := ptr[p]];
      }
      if p + size[p] == bp {
        size, ptr := size[p := size[p] + size[bp]], ptr[p := ptr[bp]];
      } else {
        ptr := ptr[p := bp];
      }
      freep := p;
    }

    /** free: the block's units, and no others, join the free list. */
    method Free(ap: int)
      requires Ready() && ap - 1 in live
      modifies this
      ensures Ready()
      ensures live == old(live) - {ap - 1} && total == old(total)
      ensures forall u :: Covers(bs, u) <==> Covers(old(bs), u) || Blk(ap - 1, old(live)[ap - 1]).Has(u)
      ensures bs == Release(old(bs), Before(old(bs), ap - 1, |old(bs)| - 1), Blk(ap - 1, old(live)[ap - 1]))
    {
      var bp := ap - 1;
      ghost var j := Before(bs, bp, |bs| - 1);
      var p := FindGap(bp);
      FreeKeeps(ptr, size, bs, live, bp, j);
      Relink(p, bp);
      bs, at, live := Release(bs, j, Blk(bp, live[bp])), j, live - {bp};
    }

    /** morecore: the units from sbrk are freed into the list; the block after
        freep, or freep's own, then has room. */
    method Morecore(nu: nat, brk: Option<int>) returns (p: int)
      requires Ready() && nu > 0
      requires brk.Some? ==> Unowned(bs, live, Blk(brk.value, CoreUnits(nu)))
      modifies this
      ensures Ready() && live == old(live)
      ensures brk.None? ==> p == NULL && bs == old(bs) && at == old(at) && total == old(total)
      ensures brk.Some? ==>
        && p == freep != NULL && total == old(total) + CoreUnits(nu)
        && (forall u :: Covers(bs, u) <==> Covers(old(bs), u) || Blk(brk.value, CoreUnits(nu)).Has(u))
        && !NoFit(bs, nu)
    {
      if brk.None? {
        return NULL;
      }
      var n := CoreUnits(nu);
      var hp := brk.value;
      ghost var b := Blk(hp, n);
      CoreAdded(ptr, size, bs, live, b);
      size := size[hp := n];
      live, total := live[hp := n], total + n;
      ghost var bs0, j := bs, Before(bs, hp, |bs| - 1);
      Free(hp + 1);
      SpliceAt(bs0, Low(bs0, j, b), High(bs0, j, b), Joined(bs0, j, b), Low(bs0, j, b));
      assert live == old(live);
      assert Sep(bs, 0, at) || at == 0;
      return freep;
    }

    /** The stores of malloc once the block at p, after prevp, has room. */
    method CutStores(n: nat, prevp: int, p: int, ghost bs': seq<Blk>, ghost q: nat) returns (a: int)
      requires p in ptr && p in size && size[p] >= n
      modifies this`ptr, this`size, this`freep, this`bs, this`at, this`live
      ensures ptr == CutPtr(old(ptr), old(size), prevp, p, n)
      ensures size == CutSize(old(size), p, n)
      ensures freep == prevp && a == p + old(size)[p] - n
      ensures bs == bs' && at == q && live == old(live)[a := n]
    {
      a := p;
      if size[p] == n {
        ptr := ptr[prevp := ptr[p]];
      } else {
        size := size[p := size[p] - n];
        a := p + size[p];
        size := size[a := n];
      }
      freep := prevp;
      bs, at, live := bs', q, live[a := n];
    }

    method Cut(n: nat, prevp: int, p: int, ghost q: nat) returns (r: int)
      requires Ready() && 0 < n && q < |bs| && prevp == bs[q].addr && p == bs[Succ(|bs|, q)].addr
      requires n <= bs[Succ(|bs|, q)].size
      modifies this
      ensures Ready()
      ensures r > 1 && r - 1 == old(bs)[Succ(|old(bs)|, q)].End() - n && freep == prevp
      ensures r - 1 !in old(live) && live == old(live)[r - 1 := n] && total == old(total)
      ensures forall u :: Covers(old(bs), u) <==> Covers(bs, u) || Blk(r - 1, n).Has(u)
    {
      ghost var k := Succ(|bs|, q);
      assert LinkAt(ptr, size, bs, k);
      TakeKeeps(ptr, size, bs, live, q, n);
      var a := CutStores(n, prevp, p, Take(bs, k, n), q);
      assert Sound(ptr, size, bs, live);
      r := a + 1;
    }

    /** malloc's first call: base becomes a circle of one. */
    method Init()
      requires Valid() && freep == NULL
      modifies this`ptr, this`size, this`freep, this`bs, this`at
      ensures Ready() && bs == [Blk(base, 0)] && at == 0 && freep == base
    {
      ptr, size := ptr[base := base], size[base := 0];
      freep := base;
      bs, at := [Blk(base, 0)], 0;
      assert LinkAt(ptr, size, bs, 0);
      assert UnitsTo(bs, 1) == 0;
    }

    /** malloc: NULL only if nothing fits and sbrk fails; otherwise a block of
        Nunits units that was free, or had just been obtained, and is live now.  If
        something fits, it is the tail of block k, the first from freep on with
        room, and freep is the block before it.
        `wild` is the case in which sbrk succeeds with another size than the one
        that goes into the new header; nothing is promised then. */
    method Malloc(nbytes: uint32, brk: Option<int>) returns (r: int, wild: bool, ghost k: nat)
      requires Valid()
      requires brk.Some? && nbytes <= 0x7FFF_FFE0 ==>
        Unowned(if freep == NULL then [Blk(base, 0)] else bs, live, Blk(brk.value, CoreUnits(Nunits(nbytes))))
      modifies this
      ensures wild <==> NoFit(old(bs), Nunits(nbytes)) && brk.Some? && nbytes > 0x7FFF_FFE0
      ensures !wild ==> Ready()
      ensures !wild ==>
        var n := Nunits(nbytes); var core := Blk(if brk.Some? then brk.value else 0, CoreUnits(n));
        var grew := NoFit(old(bs), n);
        if r == NULL then
          && grew && brk.None?
          && live == old(live) && total == old(total) && forall u :: Covers(bs, u) <==> Covers(old(bs), u)
        else
          && (grew ==> brk.Some?)
          && r - 1 !in old(live) && live == old(live)[r - 1 := n]
          && total == old(total) + (if grew then core.size else 0)
          && forall u :: Covers(old(bs), u) || (grew && core.Has(u)) <==> Covers(bs, u) || Blk(r - 1, n).Has(u)
      ensures !NoFit(old(bs), Nunits(nbytes)) ==>
        && k < |old(bs)| && Skipped(old(bs), Nunits(nbytes), old(at), k) && Nunits(nbytes) <= old(bs)[k].size
        && r - 1 == old(bs)[k].End() - Nunits(nbytes) && freep == old(bs)[Pred(|old(bs)|, k)].addr
    {
      if freep == NULL {
        Init();
      }
      assert forall u :: Covers(bs, u) <==> Covers(old(bs), u);
      r, wild, k := Search(nbytes, brk);
    }

    /** malloc's loop. */
    method Search(nbytes: uint32, brk: Option<int>) returns (r: int, wild: bool, ghost k: nat)
      requires Ready()
      requires brk.Some? && nbytes <= 0x7FFF_FFE0 ==> Unowned(bs, live, Blk(brk.value, CoreUnits(Nunits(nbytes))))
      modifies this
      ensures wild <==> NoFit(old(bs), Nunits(nbytes)) && brk.Some? && nbytes > 0x7FFF_FFE0
      ensures !wild ==> Ready()
      ensures !wild ==>
        var n := Nunits(nbytes); var core := Blk(if brk.Some? then brk.value else 0, CoreUnits(n));
        var grew := NoFit(old(bs), n);
        if r == NULL then
          && grew && brk.None?
          && live == old(live) && total == old(total) && forall u :: Covers(bs, u) <==> Covers(old(bs), u)
        else
          && (grew ==> brk.Some?)
          && r - 1 !in old(live) && live == old(live)[r - 1 := n]
          && total == old(total) + (if grew then core.size else 0)
          && forall u :: Covers(old(bs), u) || (grew && core.Has(u)) <==> Covers(bs, u) || Blk(r - 1, n).Has(u)
      ensures !NoFit(old(bs), Nunits(nbytes)) ==>
        && k < |old(bs)| && Skipped(old(bs), Nunits(nbytes), old(at), k) && Nunits(nbytes) <= old(bs)[k].size
        && r - 1 == old(bs)[k].End() - Nunits(nbytes) && freep == old(bs)[Pred(|old(bs)|, k)].addr
    {
      wild := false;
      var nunits := Nunits(nbytes);
      SbrkRequestExact(nbytes);
      var prevp := freep;
      ghost var q: nat, grew := at, false;
      assert LinkAt(ptr, size, bs, q);
      FitsAll(bs, nunits, at);
      SkippedNone(bs, nunits, at);
      k := Succ(|bs|, q);
      var p := ptr[prevp];
      while true
        invariant Ready() && q < |bs| && k == Succ(|bs|, q) && prevp == bs[q].addr && p == bs[k].addr
        invariant Skipped(bs, nunits, at, k)
        invariant live == old(live) && !wild
        invariant FitsAhead(bs, nunits, k, at)
        invariant grew ==> !NoFit(bs, nunits) && brk.Some? && NoFit(old(bs), nunits) && nbytes <= 0x7FFF_FFE0
        invariant !grew ==> bs == old(bs) && at == old(at)
        invariant total == old(total) + (if grew then CoreUnits(nunits) else 0)
        invariant forall u :: Covers(bs, u) <==>
                    Covers(old(bs), u) || (grew && Blk(brk.value, CoreUnits(nunits)).Has(u))
        decreases !grew, Dist(|bs|, k, at)
      {
        assert LinkAt(ptr, size, bs, k);
        SameIndex(bs, k, at);
        if size[p] >= nunits {
          assert !NoFit(bs, nunits);
          r := Cut(nunits, prevp, p, q);
          return;
        }
        if p == freep {
          FitsNone(bs, nunits, at);
          if brk.Some? && Int32(16 * CoreUnits(nunits)) != 16 * CoreUnits(nunits) {
            return NULL, true, k;
          }
          p := Morecore(nunits, brk);
          if p == NULL {
            return NULL, false, k;
          }
          grew := true;
          k := at;
          FitsAll(bs, nunits, at);
          SkippedNone(bs, nunits, at);
        } else {
          FitsStep(bs, nunits, k, at);
          SkippedNext(bs, nunits, at, k);
        }
        assert LinkAt(ptr, size, bs, k);
        prevp, p := p, ptr[p];
        q, k := k, Succ(|bs|, k);
      }
    }
  }
}
