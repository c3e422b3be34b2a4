/** kernel/kalloc.c and kernel/vm.c: the page pool and the operations on user
    page tables. */
module Vm {
  import opened Common
  import opened Sv39
  import opened PageTree
  import opened PageMaps
  import opened PageCount

  datatype Mapping = Mapped | NoMemory | Panics

  class Memory {
    /** `end` and PHYSTOP. */
    const end: nat
    const phystop: nat
    var mem: Mem
    var freelist: nat
    ghost var role: Roles
    ghost var free: seq<nat>

    /** A whole page of the memory between the kernel and PHYSTOP. */
    ghost predicate InPool(p: nat) { 0 < end <= p && p + PGSIZE <= phystop && p % PGSIZE == 0 }

    ghost predicate Valid()
      reads this
    {
      && (forall p: nat {:trigger InPool(p)} :: InPool(p) <==> p in role)
      && TreeInv(mem, role) && Chain(mem, free, freelist) && FreeOk(role, free)
    }

    /** kinit: the pool is all the whole pages of the range, and all are free. */
    constructor (end: nat, phystop: nat)
      requires end > 0
      ensures Valid() && this.end == end && this.phystop == phystop && forall p | p in role :: role[p] == Free
    {
      this.end, this.phystop := end, phystop;
      mem, freelist, role, free := map[], 0, map[], [];
      new;
      Freerange(end, phystop);
    }

    /** Every page is free. */
    ghost predicate AllFree()
      reads this
    {
      Chain(mem, free, freelist) && FreeOk(role, free) && forall p | p in role :: role[p] == Free && p in mem
    }

    /** freerange: every whole page of the range joins the pool, and the free list. */
    method Freerange(lo: nat, hi: nat)
      requires AllFree() && 0 < end <= lo && hi <= phystop && forall q | q in role :: q < lo || hi <= q
      modifies this`mem, this`freelist, this`role, this`free
      ensures AllFree() && TreeInv(mem, role)
      ensures forall q: nat :: q in role <==> q in old(role) || (lo <= q && q + PGSIZE <= hi && q % PGSIZE == 0)
    {
      var p := Pages(lo) * PGSIZE;
      while p + PGSIZE <= hi
        invariant lo <= p && p % PGSIZE == 0 && AllFree()
        invariant forall q: nat :: q in role <==> q in old(role) || (lo <= q < p && q + PGSIZE <= hi && q % PGSIZE == 0)
      {
        var ok := Kfree(p);
        role := role[p := Free];
        assert free[0] == p;
        forall q: nat | q % PGSIZE == 0 ensures q < p + PGSIZE <==> q < p || q == p { NextPage(p, q); }
        NextPage(p, p);
        p := p + PGSIZE;
      }
    }

    /** kfree: fill the page and push it; false means panic. */
    method Kfree(pa: nat) returns (ok: bool)
      requires Chain(mem, free, freelist) && pa !in free
      modifies this`mem, this`freelist, this`free
      ensures ok <==> pa % PGSIZE == 0 && end <= pa < phystop
      ensures ok && end > 0 ==> Chain(mem, free, freelist)
      ensures ok ==> mem == old(mem)[pa := Link(old(freelist))] && freelist == pa && free == [pa] + old(free)
      ensures !ok ==> mem == old(mem) && freelist == old(freelist) && free == old(free)
    {
      if pa % PGSIZE != 0 || pa < end || pa >= phystop {
        return false;
      }
      ChainIn(mem, free, freelist);
      ChainFrame(mem, mem[pa := Link(freelist)], free, freelist);
      mem := mem[pa := Link(freelist)];
      freelist := pa;
      free := [pa] + free;
      assert free[1..] == old(free);
      return true;
    }

    /** kalloc: pop the head of the free list; 0 when there is none. */
    method Kalloc(junk: seq<nat>) returns (pa: nat)
      requires Valid()
      modifies this`mem, this`freelist, this`role, this`free
      ensures Valid()
      ensures old(free) == [] ==> pa == 0 && mem == old(mem) && role == old(role) && free == []
      ensures old(free) != [] ==>
        && pa == old(free)[0] && pa != 0 && free == old(free)[1..]
        && role == old(role)[pa := Held] && mem == old(mem)[pa := Data(junk)]
      ensures SameMaps(old(mem), mem, old(role))
    {
      pa := freelist;
      if pa == 0 {
        assert free == [];
        return;
      }
      ChainIn(mem, free, freelist);
      freelist := mem[pa].next;
      OffTreeKeeps(mem, role, pa, Data(junk), Held);
      ChainFrame(mem, mem[pa := Data(junk)], free[1..], freelist);
      mem := mem[pa := Data(junk)];
      ghost var was := free;
      free := free[1..];
      role := role[pa := Held];
      assert forall p :: p in was <==> p == pa || p in free;
    }

    /** kfree of a held page: the pool takes it back. */
    method Release(pa: nat) returns (ok: bool)
      requires Valid() && pa in role && (role[pa] == Held || role[pa].Leaf?)
      modifies this`mem, this`freelist, this`role, this`free
      ensures Valid() && ok
      ensures role == old(role)[pa := Free] && mem == old(mem)[pa := Link(old(freelist))] && free == [pa] + old(free)
      ensures SameMaps(old(mem), mem, old(role))
    {
      assert InPool(pa);
      OffTreeKeeps(mem, role, pa, Link(freelist), Free);
      ok := Kfree(pa);
      role := role[pa := Free];
      assert forall p :: p in free <==> p == pa || p in old(free);
    }

    /** One turn of walk: the table that entry idx of pt names, built if need be; 0 if
        it is not there. */
    method Descend(r: nat, pt: nat, idx: nat, alloc: bool) returns (n: nat)
      requires Valid() && IsRoot(role, r) && pt in role && (role[pt].Root? || role[pt].Mid?) && idx < ENTRIES
      modifies this`mem, this`freelist, this`role, this`free
      ensures Valid() && IsRoot(role, r) && Grows(old(mem), old(role), mem, role) && SameMaps(old(mem), mem, old(role))
      ensures n == 0 || !alloc ==> mem == old(mem) && role == old(role) && free == old(free)
      ensures n == 0 ==> !At(mem, pt, idx).v && (alloc ==> free == []) && ChildRole(role, pt, idx) !in Tables(role)
      ensures n != 0 ==> n in role && role[n] == ChildRole(old(role), pt, idx)
      ensures n != 0 ==> TookSet(old(role), |old(free)|, role, |free|, {ChildRole(old(role), pt, idx)}, 0)
    {
      assert Typed(mem, role, pt) && EntryOk(mem, role, pt, idx);
      ChildThere(mem, role, pt, idx);
      var pte := Decode(mem[pt].pte[idx]);
      if pte.v {
        assert InPool(pte.pa);
        GrowsRefl(mem, role);
        TookNothing(role, |free|);
        TookPresent(role, |free|, role, |free|, {}, 0, ChildRole(role, pt, idx));
        assert {} + {ChildRole(role, pt, idx)} == {ChildRole(role, pt, idx)};
        return pte.pa;
      }
      if !alloc {
        GrowsRefl(mem, role);
        return 0;
      }
      n := Grow(pt, idx);
      if n != 0 { TookTable(old(role), |old(free)|, role, n, role[n]); }
      RootsStay(old(mem), old(role), mem, role, r);
    }

    /** walk: the table page and index of va's entry.  Building missing tables
        leaves every map as it was; without alloc nothing changes at all. */
    method Walk(r: nat, va: nat, alloc: bool) returns (found: bool, l: nat, i: nat)
      requires Valid() && IsRoot(role, r) && va < MAXVPN * PGSIZE
      modifies this`mem, this`freelist, this`role, this`free
      ensures Valid() && IsRoot(role, r)
      ensures Grows(old(mem), old(role), mem, role) && SameMaps(old(mem), mem, old(role))
      ensures found ==> LowPage(mem, role, r, Split(va / PGSIZE), l) && i == Split(va / PGSIZE).i0
      ensures !alloc ==> mem == old(mem) && role == old(role) && free == old(free)
      ensures !found ==> !Lookup(mem, r, Split(va / PGSIZE)).v && (alloc ==> free == [])
      ensures found && alloc ==> Took(old(role), |old(free)|, role, |free|, r, va / PGSIZE, 1, 0)
      ensures !found && alloc ==> Lacks(old(role), |old(free)|, r, va / PGSIZE, 1, 0)
    {
      ghost var v := Split(va / PGSIZE);
      PXSplits(va);
      var pt := r;
      var level := 2;
      GrowsRefl(mem, role);
      TookNothing(role, |free|);
      while level > 0
        invariant 0 <= level <= 2 && Valid() && IsRoot(role, r)
        invariant Grows(old(mem), old(role), mem, role) && SameMaps(old(mem), mem, old(role))
        invariant pt in role
        invariant role[pt] == if level == 2 then Root else if level == 1 then Mid(r, v.i2) else Low(r, v.i2, v.i1)
        invariant level == 2 ==> pt == r
        invariant TookSet(old(role), |old(free)|, role, |free|, Through(r, v, level), 0)
        invariant !alloc ==> mem == old(mem) && role == old(role) && free == old(free)
      {
        var idx := PX(level, va);
        ghost var m1, r1, f1 := mem, role, |free|;
        var n := Descend(r, pt, idx, alloc);
        GrowsTrans(old(mem), old(role), m1, r1, mem, role);
        SameMapsTrans(old(mem), old(role), m1, r1, mem);
        ThroughNext(r, v);
        if n == 0 {
          assert BackOk(mem, role, pt);
          if alloc { WalkLacks(old(role), |old(free)|, role, r, va / PGSIZE, level); }
          return false, 0, 0;
        }
        TookTrans(old(role), |old(free)|, r1, f1, role, |free|, Through(r, v, level), {ChildRole(r1, pt, idx)}, 0, 0);
        pt := n;
        level := level - 1;
      }
      WalkTook(old(role), |old(free)|, role, |free|, r, va / PGSIZE);
      return true, pt, PX(0, va);
    }

    /** uvmcreate: a root with an empty map, from the pool; 0 when it is empty. */
    method Uvmcreate() returns (r: nat)
      requires Valid()
      modifies this`mem, this`freelist, this`role, this`free
      ensures Valid() && SameMaps(old(mem), mem, old(role))
      ensures r == 0 ==> mem == old(mem) && role == old(role) && free == old(free) == []
      ensures r != 0 ==>
        && r in old(role) && old(role)[r] == Free && role == old(role)[r := Root]
        && Space(mem, role, r, 0) && forall v: Vpn | v.Ok() :: Lookup(mem, r, v) == NOPTE
    {
      r := Kalloc([]);
      if r != 0 {
        RootKeeps(mem, role, r);
        ChainIn(mem, free, freelist);
        ChainFrame(mem, mem[r := EmptyTable()], free, freelist);
        mem := mem[r := EmptyTable()];
        role := role[r := Root];
      }
    }

    /** Page n of space r cannot be mapped: it does not exist, or it is mapped. */
    ghost predicate Blocked(m: Mem, r: nat, n: nat) { n >= MAXVPN || Lookup(m, r, Split(n)).v }

    ghost predicate NoneBlocked(m: Mem, r: nat, v0: nat, k: nat) {
      forall n: nat {:trigger Blocked(m, r, n)} | v0 <= n < v0 + k :: !Blocked(m, r, n)
    }

    lemma NoneBlockedNext(m: Mem, r: nat, v0: nat, k: nat, n: nat)
      requires NoneBlocked(m, r, v0, k) && !Blocked(m, r, n) && n == v0 + k
      ensures NoneBlocked(m, r, v0, k + 1)
    {
    }

    /** One iteration of mappages. */
    method MapPage(r: nat, va: nat, pa: nat, rwx: nat, hi: nat, ghost n: nat) returns (res: Mapping)
      requires Valid() && IsRoot(role, r) && va == n * PGSIZE && 0 < rwx < 8 && hi < 64
      modifies this`mem, this`freelist, this`role, this`free
      ensures Valid() && IsRoot(role, r) && Grows(old(mem), old(role), mem, role)
      ensures res.Panics? <==> Blocked(old(mem), r, n)
      ensures res.Mapped? ==> MapsRange(old(mem), mem, old(role), r, n, 1, PageOf(pa), rwx, hi)
      ensures !res.Mapped? ==> SameMaps(old(mem), mem, old(role))
      ensures res.NoMemory? ==> free == [] && Lacks(old(role), |old(free)|, r, n, 1, 0)
      ensures res.Mapped? ==> Took(old(role), |old(free)|, role, |free|, r, n, 1, 0)
    {
      assert va / PGSIZE == n;
      if va >= MAXVPN * PGSIZE {
        GrowsRefl(mem, role);
        return Panics;
      }
      SplitOk(n);
      var found, l, i := Walk(r, va, true);
      if !found {
        return NoMemory;
      }
      ghost var m1, r1 := mem, role;
      LowHolds(mem, role, r, Split(n), l);
      if Decode(mem[l].pte[i]).v {
        return Panics;
      }
      ghost var e := Pte(PageOf(pa), true, rwx, hi);
      MapOne(mem, role, r, n, l, PageOf(pa), rwx, hi);
      PutGrows(old(mem), old(role), mem, role, l, i, e);
      Store(l, i, Encode(Pte(pa, true, rwx, hi)), e);
      MapsAfter(old(mem), old(role), m1, r1, mem, r, n, PageOf(pa), rwx, hi);
      return Mapped;
    }

    /** mappages: the first `done` pages of the range are mapped; all of them on
        success, on failure the pool is empty, and it panics exactly on a range
        that is empty or not made of pages and at a page that is blocked. */
    method Mappages(r: nat, va: nat, size: nat, pa: nat, rwx: nat, hi: nat) returns (res: Mapping, ghost done: nat)
      requires Valid() && IsRoot(role, r) && 0 < rwx < 8 && hi < 64
      modifies this`mem, this`freelist, this`role, this`free
      ensures Valid() && IsRoot(role, r) && Grows(old(mem), old(role), mem, role)
      ensures MapsRange(old(mem), mem, old(role), r, va / PGSIZE, done, PageOf(pa), rwx, hi)
      ensures NoneBlocked(old(mem), r, va / PGSIZE, done)
      ensures done <= size / PGSIZE && (res.Mapped? ==> done == size / PGSIZE)
      ensures res.NoMemory? ==> done < size / PGSIZE && free == []
      ensures res.NoMemory? ==> Lacks(old(role), |old(free)|, r, va / PGSIZE, size / PGSIZE, 0)
      ensures res.Mapped? ==> Took(old(role), |old(free)|, role, |free|, r, va / PGSIZE, size / PGSIZE, 0)
      ensures res.Panics? <==>
        || va % PGSIZE != 0 || size % PGSIZE != 0 || size == 0
        || (done < size / PGSIZE && Blocked(old(mem), r, va / PGSIZE + done))
    {
      if va % PGSIZE != 0 || size % PGSIZE != 0 || size == 0 {
        GrowsRefl(mem, role);
        return Panics, 0;
      }
      var last := va + size - PGSIZE;
      ghost var n;
      res, done, n := MapRun(r, va, last, pa, rwx, hi, va / PGSIZE, size / PGSIZE);
    }

    /** Its loop, over np pages from page v0 on. */
    method MapRun(r: nat, va: nat, last: nat, pa: nat, rwx: nat, hi: nat, ghost v0: nat, ghost np: nat)
      returns (res: Mapping, ghost done: nat, ghost n: nat)
      requires Valid() && IsRoot(role, r) && 0 < rwx < 8 && hi < 64
      requires va == v0 * PGSIZE && last == va + (np - 1) * PGSIZE && np > 0
      modifies this`mem, this`freelist, this`role, this`free
      ensures Valid() && IsRoot(role, r) && Grows(old(mem), old(role), mem, role)
      ensures MapsRange(old(mem), mem, old(role), r, v0, done, PageOf(pa), rwx, hi)
      ensures NoneBlocked(old(mem), r, v0, done)
      ensures done <= np && (res.Mapped? <==> done == np) && (res.NoMemory? ==> free == [])
      ensures n == v0 + done && (res.Panics? <==> done < np && Blocked(old(mem), r, n))
      ensures res.NoMemory? ==> Lacks(old(role), |old(free)|, r, v0, np, 0)
      ensures res.Mapped? ==> Took(old(role), |old(free)|, role, |free|, r, v0, np, 0)
    {
      var a, pa' := va, pa;
      done, n := 0, v0;
      GrowsRefl(mem, role);
      TookNone(role, |free|, r, v0);
      ghost var m0, r0, f0 := mem, role, |free|;
      while true
        invariant Valid() && IsRoot(role, r) && Grows(m0, r0, mem, role)
        invariant done < np && n == v0 + done && a == n * PGSIZE && pa' == pa + done * PGSIZE
        invariant MapsRange(m0, mem, r0, r, v0, done, PageOf(pa), rwx, hi)
        invariant NoneBlocked(m0, r, v0, done)
        invariant Took(r0, f0, role, |free|, r, v0, done, 0)
        decreases np - done
      {
        res := MapNext(r, a, pa', rwx, hi, v0, done, n, pa, m0, r0, f0, np);
        if !res.Mapped? {
          return;
        }
        NoneBlockedNext(m0, r, v0, done, n);
        done, n := done + 1, n + 1;
        if a == last {
          assert done == np;
          return;
        }
        a, pa' := a + PGSIZE, pa' + PGSIZE;
      }
    }

    /** One turn of it, which began in (m0, r0) and has mapped k pages. */
    method MapNext(r: nat, a: nat, pa': nat, rwx: nat, hi: nat, ghost v0: nat, ghost k: nat, ghost n: nat,
                   ghost pa: nat, ghost m0: Mem, ghost r0: Roles, ghost f0: nat, ghost np: nat)
      returns (res: Mapping)
      requires k < np && Valid() && IsRoot(role, r) && IsRoot(r0, r) && 0 < rwx < 8 && hi < 64
      requires Took(r0, f0, role, |free|, r, v0, k, 0)
      requires n == v0 + k && a == n * PGSIZE && pa' == pa + k * PGSIZE
      requires Grows(m0, r0, mem, role) && MapsRange(m0, mem, r0, r, v0, k, PageOf(pa), rwx, hi)
      modifies this`mem, this`freelist, this`role, this`free
      ensures Valid() && IsRoot(role, r) && Grows(m0, r0, mem, role)
      ensures MapsRange(m0, mem, r0, r, v0, if res.Mapped? then k + 1 else k, PageOf(pa), rwx, hi)
      ensures (res.Panics? <==> Blocked(m0, r, n)) && (res.NoMemory? ==> free == [])
      ensures res.NoMemory? ==> Lacks(r0, f0, r, v0, np, 0)
      ensures res.Mapped? ==> Took(r0, f0, role, |free|, r, v0, k + 1, 0)
    {
      ghost var m1, r1, f1 := mem, role, |free|;
      StillBlocked(m0, mem, r0, r, v0, k, n, PageOf(pa), rwx, hi);
      PageOfNext(pa, k);
      res := MapPage(r, a, pa', rwx, hi, n);
      GrowsTrans(m0, r0, m1, r1, mem, role);
      if res.NoMemory? { LacksNext(r0, f0, r1, f1, r, v0, k, n, 0, 0, np, 0); }
      if res.Mapped? {
        TookNext(r0, f0, r1, f1, role, |free|, r, v0, k, n, 0, 0, 0);
        MapsJoin(m0, r0, m1, r1, mem, r, v0, k, PageOf(pa), rwx, hi);
      } else {
        MapsSame(m0, r0, m1, r1, mem, r, v0, k, PageOf(pa), rwx, hi);
      }
    }

    lemma StillBlocked(m0: Mem, m1: Mem, r0: Roles, r: nat, v0: nat, k: nat, n: nat, pa: nat, rwx: nat, hi: nat)
      requires IsRoot(r0, r) && MapsRange(m0, m1, r0, r, v0, k, pa, rwx, hi) && n == v0 + k
      ensures Blocked(m1, r, n) <==> Blocked(m0, r, n)
    {
      if n < MAXVPN {
        SplitOk(n);
        Beyond(m0, m1, r0, r, v0, k, pa, rwx, hi, n);
      }
    }

    /** `*pte = w`, into a lowest table. */
    method Store(l: nat, i: nat, w: nat, ghost e: Pte)
      requires l in role && role[l].Low? && l in mem && mem[l].Table? && i < |mem[l].pte| && w == Encode(e)
      requires Chain(mem, free, freelist) && FreeOk(role, free)
      modifies this`mem
      ensures mem == Put(old(mem), l, i, e) && Chain(mem, free, freelist)
    {
      ChainIn(mem, free, freelist);
      ChainFrame(mem, Put(mem, l, i, e), free, freelist);
      mem := mem[l := Table(mem[l].pte[i := w])];
    }

    /** One iteration of uvmunmap. */
    method UnmapPage(r: nat, va: nat, doFree: bool)
      requires Valid() && IsRoot(role, r) && va < MAXVPN * PGSIZE
      requires MappedAs(mem, role, r, va / PGSIZE, doFree)
      modifies this`mem, this`freelist, this`role, this`free
      ensures Valid() && IsRoot(role, r)
      ensures Sheds(old(mem), old(role), mem, role, r, va / PGSIZE, 1)
      ensures ClearsRange(old(mem), mem, old(role), r, va / PGSIZE, 1)
    {
      ghost var n := va / PGSIZE;
      var found, l, i := Walk(r, va, false);
      LowHolds(mem, role, r, Split(n), l);
      var pa := Decode(mem[l].pte[i]).pa;
      LeafAt(mem, role, r, Split(n));
      if doFree {
        var ok := Release(pa);
      }
      ClearOne(mem, role, r, n, l);
      Store(l, i, 0, NOPTE);
      ShedsOne(old(mem), old(role), mem, role, r, n, l, pa, doFree);
    }

    /** The same, as a turn of a loop that began in (m0, r0) and has unmapped k
        pages from page v0 on. */
    method UnmapNext(r: nat, a: nat, doFree: bool, ghost v0: nat, ghost k: nat, ghost m0: Mem, ghost r0: Roles)
      requires Valid() && IsRoot(role, r) && TreeInv(m0, r0) && IsRoot(r0, r)
      requires a < MAXVPN * PGSIZE && a / PGSIZE == v0 + k && MappedAs(m0, r0, r, v0 + k, doFree)
      requires Sheds(m0, r0, mem, role, r, v0, k) && ClearsRange(m0, mem, r0, r, v0, k)
      modifies this`mem, this`freelist, this`role, this`free
      ensures Valid() && IsRoot(role, r)
      ensures Sheds(m0, r0, mem, role, r, v0, k + 1) && ClearsRange(m0, mem, r0, r, v0, k + 1)
    {
      ghost var m1, r1 := mem, role;
      SplitOk(v0 + k);
      StillMapped(m0, r0, mem, role, r, v0, k, v0 + k, doFree);
      UnmapPage(r, a, doFree);
      ClearsJoin(m0, r0, m1, r1, mem, role, r, v0, k);
    }

    /** uvmunmap: exactly the range is unmapped; with doFree its pages, and no
        others, go back to the pool. */
    method Uvmunmap(r: nat, va: nat, npages: nat, doFree: bool)
      requires Valid() && IsRoot(role, r) && va % PGSIZE == 0 && va / PGSIZE + npages <= MAXVPN
      requires forall n | va / PGSIZE <= n < va / PGSIZE + npages :: MappedAs(mem, role, r, n, doFree)
      modifies this`mem, this`freelist, this`role, this`free
      ensures Valid() && IsRoot(role, r)
      ensures Sheds(old(mem), old(role), mem, role, r, va / PGSIZE, npages)
      ensures ClearsRange(old(mem), mem, old(role), r, va / PGSIZE, npages)
    {
      ghost var v0 := va / PGSIZE;
      var a := va;
      ghost var k := 0;
      ShedsNone(mem, role, r, v0);
      while a < va + npages * PGSIZE
        invariant 0 <= k <= npages && a == va + k * PGSIZE
        invariant Valid() && IsRoot(role, r)
        invariant Sheds(old(mem), old(role), mem, role, r, v0, k)
        invariant ClearsRange(old(mem), mem, old(role), r, v0, k)
      {
        PageAt(va, v0, k, npages);
        UnmapNext(r, a, doFree, v0, k, old(mem), old(role));
        k := k + 1;
        a := a + PGSIZE;
      }
      PageAt(va, v0, k, npages);
    }

    /** mappages of the one page n, which is not mapped. */
    method MapOnePage(r: nat, va: nat, ghost n: nat, pa: nat, rwx: nat, hi: nat) returns (ok: bool)
      requires Valid() && IsRoot(role, r) && va == n * PGSIZE && !Blocked(mem, r, n) && 0 < rwx < 8 && hi < 64
      modifies this`mem, this`freelist, this`role, this`free
      ensures Valid() && IsRoot(role, r) && Grows(old(mem), old(role), mem, role)
      ensures MapsRange(old(mem), mem, old(role), r, n, if ok then 1 else 0, PageOf(pa), rwx, hi)
      ensures ok ==> Took(old(role), |old(free)|, role, |free|, r, n, 1, 0)
      ensures !ok ==> Lacks(old(role), |old(free)|, r, n, 1, 0)
    {
      assert va / PGSIZE == n;
      var res;
      ghost var done;
      res, done := Mappages(r, va, PGSIZE, pa, rwx, hi);
      ok := res.Mapped?;
    }

    /** kfree of the page pa, taken in (m0, r0), when mapping it has failed. */
    method GiveBack(r: nat, pa: nat, ghost m0: Mem, ghost r0: Roles, ghost m1: Mem, ghost r1: Roles)
      requires Valid() && pa in role && role[pa] == Held && IsRoot(r0, r)
      requires TreeInv(m0, r0) && pa in r0 && r0[pa] == Free && pa in m0 && SameMaps(m0, m1, r0)
      requires r1 == r0[pa := Held] && pa in m1 && m1 == m0[pa := m1[pa]]
      requires Grows(m1, r1, mem, role) && SameMaps(m1, mem, r1)
      modifies this`mem, this`freelist, this`role, this`free
      ensures Valid() && IsRoot(role, r) && Grows(m0, r0, mem, role) && SameMaps(m0, mem, r0)
    {
      ghost var m2, r2 := mem, role;
      var freed := Release(pa);
      HeldThenFree(m0, r0, m1, r1, m2, r2, mem, role, pa);
      UndoneMaps(m0, r0, m1, r1, m2, r2, mem);
      RootsStay(m0, r0, mem, role, r);
    }

    /** The page pa, mapped at page n, is a user page from now on. */
    ghost method Own(r: nat, n: nat, pa: nat)
      requires Valid() && pa in role && role[pa] == Held && pa in mem && mem[pa].Data?
      requires IsRoot(role, r) && Split(n).Ok()
      requires Lookup(mem, r, Split(n)).v && Lookup(mem, r, Split(n)).pa == pa
      modifies this`role
      ensures Valid() && IsRoot(role, r) && role == old(role)[pa := Leaf(r, Split(n))]
      ensures Tables(role) == Tables(old(role))
    {
      OwnKeeps(mem, role, pa, r, Split(n));
      ghost var r2 := role;
      role := role[pa := Leaf(r, Split(n))];
      SameTables(r2, role, pa);
    }

    /** The body shared by uvmalloc and uvmcopy: a fresh page with the given
        contents, mapped at va; on failure the page is given back. */
    method AllocPage(r: nat, va: nat, ghost n: nat, rwx: nat, hi: nat, words: seq<nat>) returns (ok: bool)
      requires Valid() && IsRoot(role, r) && va == n * PGSIZE && n < MAXVPN && 0 < rwx < 8 && hi < 64
      requires !Lookup(mem, r, Split(n)).v
      modifies this`mem, this`freelist, this`role, this`free
      ensures Valid() && IsRoot(role, r)
      ensures ok ==> Adds(old(mem), old(role), mem, role, r, n, 1)
      ensures ok ==> LeafLike(mem, role, r, n, rwx, hi, Data(words))
      ensures !ok ==> Grows(old(mem), old(role), mem, role) && SameMaps(old(mem), mem, old(role))
      ensures ok ==> Took(old(role), |old(free)|, role, |free|, r, n, 1, 1)
      ensures !ok ==> Lacks(old(role), |old(free)|, r, n, 1, 1)
    {
      PagesBelow(n, 0);
      SplitOk(n);
      var pa := Kalloc(words);
      if pa == 0 {
        GrowsRefl(mem, role);
        LacksEmpty(role, r, n);
        return false;
      }
      ghost var m1, r1, f1 := mem, role, |free|;
      SameTables(old(role), role, pa);
      assert InPool(pa) && !Blocked(mem, r, n);
      ok := MapOnePage(r, va, n, pa, rwx, hi);
      assert Kept(m1, r1, mem, role, pa);
      if !ok {
        LacksLeaf(old(role), f1 + 1, r1, r, n);
        MapsNone(m1, mem, r1, r, n, pa, rwx, hi);
        GiveBack(r, pa, old(mem), old(role), m1, r1);
        return;
      }
      MapsOwned(old(mem), old(role), m1, r1, mem, role, r, n, pa, rwx, hi);
      ghost var r2 := role;
      Own(r, n, pa);
      TookLeaf(old(role), f1 + 1, r1, r2, |free|, role, r, n);
    }

    /** uvmalloc: the new pages are zeroed, owned and mapped with the requested
        permissions; on failure every map is exactly what it was. */
    method Uvmalloc(r: nat, oldsz: nat, newsz: nat, xperm: nat) returns (sz: nat, ok: bool)
      requires Valid() && IsRoot(role, r) && Space(mem, role, r, Pages(oldsz))
      requires newsz <= USERTOP * PGSIZE && xperm < 8
      modifies this`mem, this`freelist, this`role, this`free
      ensures Valid() && IsRoot(role, r)
      ensures newsz < oldsz ==> ok && sz == oldsz && mem == old(mem) && role == old(role) && free == old(free)
      ensures newsz >= oldsz && ok ==>
        && sz == newsz && Space(mem, role, r, Pages(newsz))
        && Adds(old(mem), old(role), mem, role, r, Pages(oldsz), Pages(newsz) - Pages(oldsz))
        && forall m | Pages(oldsz) <= m < Pages(newsz) ::
          LeafLike(mem, role, r, m, WithRead(xperm), 1, Data(Repeat<nat>(0, ENTRIES)))
      ensures !ok ==>
        && sz == 0 && Grows(old(mem), old(role), mem, role) && SameMaps(old(mem), mem, old(role))
        && Space(mem, role, r, Pages(oldsz))
      ensures newsz >= oldsz ==> Pages(oldsz) <= Pages(newsz)
      ensures newsz >= oldsz ==>
        var needs := Needs(old(role), r, Pages(oldsz), Pages(newsz) - Pages(oldsz));
        (ok <==> |old(free)| >= needs) && (ok ==> |free| == |old(free)| - needs)
    {
      if newsz < oldsz {
        return oldsz, true;
      }
      PagesUpTo(oldsz, newsz);
      ghost var np := Pages(newsz) - Pages(oldsz);
      LacksNeeds(role, |free|, r, Pages(oldsz), np);
      var got := AddPages(r, Pages(oldsz), newsz, WithRead(xperm), Repeat<nat>(0, ENTRIES), np, Pages(newsz));
      if got { TookNeeds(old(role), |old(free)|, role, |free|, r, Pages(oldsz), np); }
      return if got then newsz else 0, got;
    }

    /** uvmalloc's loop from page v0 on. */
    method AddPages(r: nat, v0: nat, newsz: nat, rwx: nat, words: seq<nat>, ghost np: nat, ghost top: nat)
      returns (ok: bool)
      requires Valid() && IsRoot(role, r) && Space(mem, role, r, v0)
      requires v0 + np == top == Pages(newsz) <= USERTOP && 0 < rwx < 8
      modifies this`mem, this`freelist, this`role, this`free
      ensures Valid() && IsRoot(role, r)
      ensures ok ==>
        && Space(mem, role, r, top) && Adds(old(mem), old(role), mem, role, r, v0, np)
        && forall m | v0 <= m < top :: LeafLike(mem, role, r, m, rwx, 1, Data(words))
      ensures !ok ==>
        Grows(old(mem), old(role), mem, role) && SameMaps(old(mem), mem, old(role)) && Space(mem, role, r, v0)
      ensures ok <==> !Lacks(old(role), |old(free)|, r, v0, np, np)
      ensures ok ==> Took(old(role), |old(free)|, role, |free|, r, v0, np, np)
    {
      var a := v0 * PGSIZE;
      ghost var k, n, f0 := 0, v0, |free|;
      AddsNone(mem, role, r, v0);
      TookNone(role, |free|, r, v0);
      while a < newsz
        invariant a == n * PGSIZE && n == v0 + k && k <= np
        invariant Valid() && IsRoot(role, r) && Adds(old(mem), old(role), mem, role, r, v0, k)
        invariant Took(old(role), f0, role, |free|, r, v0, k, k)
        invariant forall m | v0 <= m < n :: LeafLike(mem, role, r, m, rwx, 1, Data(words))
      {
        PagesBelow(n, newsz);
        ok := AddOrUndo(r, a, v0, k, n, rwx, words, old(mem), old(role), f0, np);
        if !ok {
          return;
        }
        k, n := k + 1, n + 1;
        a := a + PGSIZE;
      }
      PagesBelow(n, newsz);
      AddsDone(old(mem), old(role), f0, mem, role, |free|, r, v0, k, np, top);
      return true;
    }

    /** One turn of uvmalloc's loop, which began in (m0, r0) at page v0 and has added
        k of np pages: page n as well, or all of them are taken back. */
    method AddOrUndo(r: nat, a: nat, v0: nat, ghost k: nat, ghost n: nat, rwx: nat, words: seq<nat>, ghost m0: Mem,
                     ghost r0: Roles, ghost f0: nat, ghost np: nat)
      returns (got: bool)
      requires Valid() && IsRoot(role, r) && TreeInv(m0, r0) && IsRoot(r0, r) && Space(m0, r0, r, v0)
      requires a == n * PGSIZE && n == v0 + k < USERTOP && 0 < rwx < 8 && Adds(m0, r0, mem, role, r, v0, k)
      requires forall m | v0 <= m < n :: LeafLike(mem, role, r, m, rwx, 1, Data(words))
      requires Took(r0, f0, role, |free|, r, v0, k, k) && k < np
      modifies this`mem, this`freelist, this`role, this`free
      ensures Valid() && IsRoot(role, r)
      ensures got ==> Took(r0, f0, role, |free|, r, v0, k + 1, k + 1) && Adds(m0, r0, mem, role, r, v0, k + 1)
      ensures got ==> forall m | v0 <= m < n + 1 :: LeafLike(mem, role, r, m, rwx, 1, Data(words))
      ensures !got ==> Lacks(r0, f0, r, v0, np, np) && Space(mem, role, r, v0)
      ensures !got ==> Grows(m0, r0, mem, role) && SameMaps(m0, mem, r0)
    {
      got := AddPage(r, a, v0, k, n, rwx, words, m0, r0, f0, np);
      if !got {
        Undo(r, v0, a / PGSIZE - v0, k, m0, r0);
      }
    }

    /** The page itself. */
    method AddPage(r: nat, a: nat, ghost v0: nat, ghost k: nat, ghost n: nat, rwx: nat, words: seq<nat>, ghost m0: Mem,
                   ghost r0: Roles, ghost f0: nat, ghost np: nat)
      returns (got: bool)
      requires Valid() && IsRoot(role, r) && TreeInv(m0, r0) && IsRoot(r0, r) && Space(m0, r0, r, v0)
      requires a == n * PGSIZE && n == v0 + k < USERTOP && 0 < rwx < 8 && Adds(m0, r0, mem, role, r, v0, k)
      requires forall m | v0 <= m < n :: LeafLike(mem, role, r, m, rwx, 1, Data(words))
      requires Took(r0, f0, role, |free|, r, v0, k, k) && k < np
      modifies this`mem, this`freelist, this`role, this`free
      ensures Valid() && IsRoot(role, r)
      ensures got ==> Took(r0, f0, role, |free|, r, v0, k + 1, k + 1)
      ensures !got ==> Lacks(r0, f0, r, v0, np, np)
      ensures Adds(m0, r0, mem, role, r, v0, if got then k + 1 else k)
      ensures got ==> forall m | v0 <= m < n + 1 :: LeafLike(mem, role, r, m, rwx, 1, Data(words))
    {
      ghost var m1, r1, f1 := mem, role, |free|;
      AddsSpace(m0, r0, mem, role, r, v0, k, n);
      assert SpaceAt(mem, role, r, n, n);
      got := AllocPage(r, a, n, rwx, 1, words);
      if got {
        TookNext(r0, f0, r1, f1, role, |free|, r, v0, k, n, k, 1, k + 1);
        LeavesStay(m1, r1, mem, role, r, v0, n, rwx, 1, Data(words));
        AddsJoin(m0, r0, m1, r1, mem, role, r, v0, k);
      } else {
        LacksNext(r0, f0, r1, f1, r, v0, k, n, k, 1, np, np);
        GrowsThenAdds(m0, r0, m1, r1, mem, role, r, v0, k);
      }
    }

    /** Unmap and free the k pages added since (m0, r0). */
    method Undo(r: nat, v0: nat, j: nat, ghost k: nat, ghost m0: Mem, ghost r0: Roles)
      requires Valid() && TreeInv(m0, r0) && IsRoot(r0, r) && IsRoot(role, r) && v0 + k <= USERTOP && j == k
      requires Adds(m0, r0, mem, role, r, v0, k) && Space(m0, r0, r, v0)
      modifies this`mem, this`freelist, this`role, this`free
      ensures Valid() && IsRoot(role, r) && Grows(m0, r0, mem, role) && SameMaps(m0, mem, r0) && Space(mem, role, r, v0)
    {
      NothingAbove(m0, r0, r, v0, v0 + k);
      forall n | v0 <= n < v0 + k ensures MappedAs(mem, role, r, n, true) {
        AddedOwned(m0, r0, mem, role, r, v0, k, n);
      }
      ghost var m1, r1 := mem, role;
      assert v0 * PGSIZE / PGSIZE == v0;
      Uvmunmap(r, v0 * PGSIZE, j, true);
      AddThenShed(m0, r0, m1, r1, mem, role, r, v0, k);
      GrowsSpace(m0, r0, mem, role, r, v0);
    }

    /** uvmdealloc: the pages above newsz go back to the pool. */
    method Uvmdealloc(r: nat, oldsz: nat, newsz: nat) returns (sz: nat)
      requires Valid() && IsRoot(role, r) && Space(mem, role, r, Pages(oldsz))
      modifies this`mem, this`freelist, this`role, this`free
      ensures Valid() && IsRoot(role, r) && sz == if newsz < oldsz then newsz else oldsz
      ensures Space(mem, role, r, Pages(sz))
      ensures Sheds(old(mem), old(role), mem, role, r, Pages(sz), Pages(oldsz) - Pages(sz))
      ensures ClearsRange(old(mem), mem, old(role), r, Pages(sz), Pages(oldsz) - Pages(sz))
    {
      if newsz >= oldsz {
        ShedsNone(mem, role, r, Pages(oldsz));
        return oldsz;
      }
      ShedsNone(mem, role, r, Pages(newsz));
      if Pages(newsz) < Pages(oldsz) {
        var np := Pages(oldsz) - Pages(newsz);
        forall n | Pages(newsz) <= n < Pages(newsz) + np ensures MappedAs(mem, role, r, n, true) {
          assert SpaceAt(mem, role, r, Pages(oldsz), n);
        }
        assert Pages(newsz) * PGSIZE / PGSIZE == Pages(newsz);
        ghost var m1, r1 := mem, role;
        Uvmunmap(r, Pages(newsz) * PGSIZE, np, true);
        ShedsSpace(m1, r1, mem, role, r, Pages(newsz), np);
      }
      return newsz;
    }

    /** uvmcopy: the child gets fresh pages with the parent's contents and flags;
        on failure it is left with none. */
    method Uvmcopy(parent: nat, child: nat, sz: nat) returns (ok: bool)
      requires Valid() && IsRoot(role, parent) && IsRoot(role, child) && parent != child
      requires Space(mem, role, parent, Pages(sz)) && Space(mem, role, child, 0)
      modifies this`mem, this`freelist, this`role, this`free
      ensures Valid() && IsRoot(role, parent) && IsRoot(role, child)
      ensures ok ==>
        && Space(mem, role, child, Pages(sz)) && Adds(old(mem), old(role), mem, role, child, 0, Pages(sz))
        && forall m | 0 <= m < Pages(sz) :: CopyOf(old(mem), old(role), mem, role, parent, child, m)
      ensures !ok ==>
        && Grows(old(mem), old(role), mem, role) && SameMaps(old(mem), mem, old(role)) && Space(mem, role, child, 0)
      ensures ok <==> |old(free)| >= Needs(old(role), child, 0, Pages(sz))
      ensures ok ==> |free| == |old(free)| - Needs(old(role), child, 0, Pages(sz))
    {
      LacksNeeds(role, |free|, child, 0, Pages(sz));
      ok := CopyPages(parent, child, sz, Pages(sz));
      if ok { TookNeeds(old(role), |old(free)|, role, |free|, child, 0, Pages(sz)); }
    }

    /** Its loop, over np pages. */
    method CopyPages(parent: nat, child: nat, sz: nat, ghost np: nat) returns (ok: bool)
      requires Valid() && IsRoot(role, parent) && IsRoot(role, child) && parent != child
      requires Space(mem, role, parent, np) && Space(mem, role, child, 0) && np == Pages(sz)
      modifies this`mem, this`freelist, this`role, this`free
      ensures Valid() && IsRoot(role, parent) && IsRoot(role, child)
      ensures ok ==>
        && Space(mem, role, child, np) && Adds(old(mem), old(role), mem, role, child, 0, np)
        && forall m | 0 <= m < np :: CopyOf(old(mem), old(role), mem, role, parent, child, m)
      ensures !ok ==>
        && Grows(old(mem), old(role), mem, role) && SameMaps(old(mem), mem, old(role)) && Space(mem, role, child, 0)
      ensures ok <==> !Lacks(old(role), |old(free)|, child, 0, np, np)
      ensures ok ==> Took(old(role), |old(free)|, role, |free|, child, 0, np, np)
    {
      var i := 0;
      ghost var k, f0 := 0, |free|;
      AddsNone(mem, role, child, 0);
      TookNone(role, |free|, child, 0);
      while i < sz
        invariant i == k * PGSIZE && k <= np
        invariant Valid() && IsRoot(role, parent) && IsRoot(role, child)
        invariant Adds(old(mem), old(role), mem, role, child, 0, k)
        invariant Took(old(role), f0, role, |free|, child, 0, k, k)
        invariant forall m | 0 <= m < k :: CopyOf(old(mem), old(role), mem, role, parent, child, m)
      {
        PagesBelow(k, sz);
        ok := CopyOrUndo(parent, child, i, k, np, old(mem), old(role), f0);
        if !ok {
          return;
        }
        k := k + 1;
        i := i + PGSIZE;
      }
      PagesBelow(k, sz);
      AddsDone(old(mem), old(role), f0, mem, role, |free|, child, 0, k, np, np);
      return true;
    }

    /** One turn of uvmcopy's loop, which began in (m0, r0): page k as well, or all of
        them are taken back. */
    method CopyOrUndo(parent: nat, child: nat, i: nat, ghost k: nat, ghost np: nat, ghost m0: Mem, ghost r0: Roles,
                      ghost f0: nat)
      returns (got: bool)
      requires Valid() && IsRoot(role, parent) && IsRoot(role, child) && parent != child && i == k * PGSIZE && k < np
      requires TreeInv(m0, r0) && IsRoot(r0, parent) && IsRoot(r0, child) && np <= USERTOP
      requires Space(m0, r0, parent, np) && Space(m0, r0, child, 0) && Adds(m0, r0, mem, role, child, 0, k)
      requires forall m | 0 <= m < k :: CopyOf(m0, r0, mem, role, parent, child, m)
      requires Took(r0, f0, role, |free|, child, 0, k, k)
      modifies this`mem, this`freelist, this`role, this`free
      ensures Valid() && IsRoot(role, child) && IsRoot(role, parent)
      ensures got ==> Adds(m0, r0, mem, role, child, 0, k + 1) && Took(r0, f0, role, |free|, child, 0, k + 1, k + 1)
      ensures got ==> forall m | 0 <= m < k + 1 :: CopyOf(m0, r0, mem, role, parent, child, m)
      ensures !got ==> Lacks(r0, f0, child, 0, np, np) && Space(mem, role, child, 0)
      ensures !got ==> Grows(m0, r0, mem, role) && SameMaps(m0, mem, r0)
    {
      got := CopyPage(parent, child, i, k, np, m0, r0, f0);
      if !got {
        Undo(child, 0, i / PGSIZE, k, m0, r0);
        RootsStay(m0, r0, mem, role, parent);
      }
    }

    /** The page itself. */
    method CopyPage(parent: nat, child: nat, i: nat, ghost k: nat, ghost np: nat, ghost m0: Mem, ghost r0: Roles,
                    ghost f0: nat)
      returns (got: bool)
      requires Valid() && IsRoot(role, parent) && IsRoot(role, child) && parent != child && i == k * PGSIZE && k < np
      requires TreeInv(m0, r0) && IsRoot(r0, parent) && IsRoot(r0, child)
      requires Space(m0, r0, parent, np) && Space(m0, r0, child, 0) && Adds(m0, r0, mem, role, child, 0, k)
      requires forall m | 0 <= m < k :: CopyOf(m0, r0, mem, role, parent, child, m)
      requires Took(r0, f0, role, |free|, child, 0, k, k)
      modifies this`mem, this`freelist, this`role, this`free
      ensures Valid() && IsRoot(role, child) && (got ==> IsRoot(role, parent))
      ensures Adds(m0, r0, mem, role, child, 0, if got then k + 1 else k)
      ensures got ==> Took(r0, f0, role, |free|, child, 0, k + 1, k + 1)
      ensures !got ==> Lacks(r0, f0, child, 0, np, np)
      ensures got ==> forall m | 0 <= m < k + 1 :: CopyOf(m0, r0, mem, role, parent, child, m)
    {
      ghost var m1, r1, f1 := mem, role, |free|;
      SplitOk(k);
      assert SpaceAt(m0, r0, parent, np, k);
      SourceStays(m0, r0, mem, role, parent, child, k);
      AddsSpace(m0, r0, mem, role, child, 0, k, k);
      assert SpaceAt(mem, role, child, k, k);
      var rwx, hi, words := ReadPage(parent, i, k);
      got := AllocPage(child, i, k, rwx, hi, words);
      if got {
        TookNext(r0, f0, r1, f1, role, |free|, child, 0, k, k, k, 1, k + 1);
        CopiesStay(m0, r0, m1, r1, mem, role, parent, child, k);
        assert AddAt(m1, r1, mem, role, child, k, 1, parent);
        AddsJoin(m0, r0, m1, r1, mem, role, child, 0, k);
      } else {
        LacksNext(r0, f0, r1, f1, child, 0, k, k, k, 1, np, np);
        GrowsThenAdds(m0, r0, m1, r1, mem, role, child, 0, k);
      }
    }

    /** The entry and the contents of user page k. */
    method ReadPage(r: nat, va: nat, ghost k: nat) returns (rwx: nat, hi: nat, words: seq<nat>)
      requires Valid() && IsRoot(role, r) && va == k * PGSIZE && k < USERTOP && MappedAs(mem, role, r, k, true)
      modifies this`mem, this`freelist, this`role, this`free
      ensures Valid() && mem == old(mem) && role == old(role) && free == old(free)
      ensures var e := Lookup(mem, r, Split(k)); e.pa in mem && mem[e.pa] == Data(words) && e.rwx == rwx && e.hi == hi
      ensures 0 < rwx < 8 && hi < 64
    {
      assert va / PGSIZE == k;
      SplitOk(k);
      var found, l, j := Walk(r, va, false);
      LowHolds(mem, role, r, Split(k), l);
      var pte := Decode(mem[l].pte[j]);
      WordEncodes(mem[l].pte[j]);
      assert Typed(mem, role, pte.pa) && EntryOk(mem, role, l, j);
      return pte.rwx, pte.hi, mem[pte.pa].words;
    }

    /** freewalk: exactly the table pages under p join the free list. */
    method Freewalk(p: nat, ghost m0: Mem)
      requires TreeInv(m0, role) && p in role && Level(role[p]) >= 0 && Chain(mem, free, freelist)
      requires forall q: nat {:trigger InPool(q)} | q in role :: InPool(q)
      requires forall q {:trigger Intact(mem, m0, free, q)} | q in role && Under(role, p, q) :: Intact(mem, m0, free, q)
      requires NoLeaves(m0, role, p)
      modifies this`mem, this`freelist, this`free
      ensures Chain(mem, free, freelist)
      ensures forall q :: q in free <==> q in old(free) || (q in role && Under(role, p, q))
      ensures forall q | q in old(mem) && !(q in role && Under(role, p, q)) :: q in mem && mem[q] == old(mem)[q]
      decreases Level(role[p]), 1
    {
      var i := 0;
      ghost var mm, ff := mem, free;
      assert Typed(m0, role, p) && Intact(mem, m0, free, p) && InPool(p);
      while i < ENTRIES
        invariant 0 <= i <= ENTRIES && Chain(mem, free, freelist) && Walked(m0, role, p, i, mm, ff, mem, free)
      {
        FreeEntry(p, i, m0, mm, ff);
        i := i + 1;
      }
      FreeRoot(p, m0, mm, ff);
    }

    /** The rest of freewalk. */
    method FreeRoot(p: nat, ghost m0: Mem, ghost mm: Mem, ghost ff: seq<nat>)
      requires TreeInv(m0, role) && p in role && Level(role[p]) >= 0 && Chain(mem, free, freelist) && InPool(p)
      requires Intact(mm, m0, ff, p) && Walked(m0, role, p, ENTRIES, mm, ff, mem, free)
      modifies this`mem, this`freelist, this`free
      ensures Chain(mem, free, freelist)
      ensures forall q :: q in free <==> q in ff || (q in role && Under(role, p, q))
      ensures forall q | q in mm && !(q in role && Under(role, p, q)) :: q in mem && mem[q] == mm[q]
    {
      forall q | q in role ensures Under(role, p, q) <==> q == p || Done(role, p, ENTRIES, q) {
        AllDone(m0, role, p, q);
      }
      var ok := Kfree(p);
    }

    /** One turn of freewalk's loop, which began in (mm, ff). */
    method FreeEntry(p: nat, i: nat, ghost m0: Mem, ghost mm: Mem, ghost ff: seq<nat>)
      requires TreeInv(m0, role) && p in role && Level(role[p]) >= 0 && i < ENTRIES && Chain(mem, free, freelist)
      requires forall q: nat {:trigger InPool(q)} | q in role :: InPool(q)
      requires forall q {:trigger Intact(mm, m0, ff, q)} | q in role && Under(role, p, q) :: Intact(mm, m0, ff, q)
      requires NoLeaves(m0, role, p) && Walked(m0, role, p, i, mm, ff, mem, free)
      modifies this`mem, this`freelist, this`free
      ensures Chain(mem, free, freelist) && Walked(m0, role, p, i + 1, mm, ff, mem, free)
      decreases Level(role[p]), 0
    {
      var pte := Decode(mem[p].pte[i]);
      assert EntryOk(m0, role, p, i) && Intact(mm, m0, ff, p);
      if pte.v && pte.rwx == 0 {
        var child := pte.pa;
        BranchIntact(m0, role, p, i, mm, ff, mem, free);
        ghost var m1, f1 := mem, free;
        Freewalk(child, m0);
        BranchWalked(m0, role, p, i, mm, ff, m1, f1, mem, free);
        ChainIn(mem, free, freelist);
        ChainFrame(mem, mem[p := Table(mem[p].pte[i := 0])], free, freelist);
        mem := mem[p := Table(mem[p].pte[i := 0])];
      } else {
        NoLeafHere(m0, role, p, i);
        SkipWalked(m0, role, p, i, mm, ff, mem, free);
      }
    }

    /** uvmfree: every page of the process, user pages and tables alike, goes
        back to the pool, and no other page is touched. */
    method Uvmfree(r: nat, sz: nat)
      requires Valid() && IsRoot(role, r) && Space(mem, role, r, Pages(sz))
      requires forall v: Vpn | v.Ok() && Num(v) >= USERTOP :: !Lookup(mem, r, v).v
      modifies this`mem, this`freelist, this`role, this`free
      ensures Valid() && role.Keys == old(role).Keys
      ensures forall q {:trigger Returned(old(mem), old(role), mem, role, r, q)} | q in old(role) ::
                Returned(old(mem), old(role), mem, role, r, q)
      ensures forall r', v: Vpn | IsRoot(old(role), r') && r' != r && v.Ok() ::
        Lookup(mem, r', v) == Lookup(old(mem), r', v)
    {
      ghost var n := Pages(sz);
      ShedsNone(mem, role, r, 0);
      if sz > 0 {
        forall m | 0 <= m < 0 + n ensures MappedAs(mem, role, r, m, true) { assert SpaceAt(mem, role, r, n, m); }
        Uvmunmap(r, 0, Pages(sz), true);
      }
      ghost var m1, r1 := mem, role;
      forall v: Vpn | v.Ok() ensures !Lookup(mem, r, v).v { AllCleared(old(mem), old(role), mem, r, n, v); }
      FreeTables(r);
      UnmappedThenFreed(old(mem), old(role), m1, r1, mem, r, n);
    }

    /** uvmfree's freewalk of the root of an empty map. */
    method FreeTables(r: nat)
      requires Valid() && IsRoot(role, r) && forall v: Vpn | v.Ok() :: !Lookup(mem, r, v).v
      modifies this`mem, this`freelist, this`role, this`free
      ensures Valid() && role == FreedRoles(old(role), r)
      ensures forall q | q in old(mem) && !(q in old(role) && Under(old(role), r, q)) ::
        q in mem && mem[q] == old(mem)[q]
      ensures forall q | q in old(role) && Under(old(role), r, q) :: q in mem
      ensures forall q | q in old(role) && old(role)[q].Leaf? :: old(role)[q].root != r
      ensures forall r', v: Vpn | IsRoot(old(role), r') && r' != r && v.Ok() ::
        Lookup(mem, r', v) == Lookup(old(mem), r', v)
    {
      EmptyTree(mem, role, r);
      forall q | q in role && Under(role, r, q) ensures Intact(mem, mem, free, q) { assert Typed(mem, role, q); }
      ghost var m1 := mem;
      Freewalk(r, m1);
      ChainIn(mem, free, freelist);
      FreedTree(m1, role, mem, r);
      role := FreedRoles(role, r);
    }

    /** One missing table page: kalloc, memset, and the store that links it. */
    method Grow(q: nat, i: nat) returns (n: nat)
      requires Valid() && q in role && (role[q].Root? || role[q].Mid?) && i < ENTRIES && !At(mem, q, i).v
      modifies this`mem, this`freelist, this`role, this`free
      ensures Valid()
      ensures Grows(old(mem), old(role), mem, role) && SameMaps(old(mem), mem, old(role))
      ensures n == 0 ==> mem == old(mem) && role == old(role) && free == old(free) == []
      ensures n != 0 ==>
        && n in old(role) && old(role)[n] == Free && |old(free)| == |free| + 1
        && role == old(role)[n := ChildRole(old(role), q, i)]
    {
      assert Typed(mem, role, q);
      ChainIn(mem, free, freelist);
      ghost var c := ChildRole(role, q, i);
      n := Kalloc([]);
      if n == 0 {
        GrowsRefl(mem, role);
        return;
      }
      assert InPool(n);
      GrewKept(old(mem), old(role), mem, role, q, i, n);
      ghost var m1, r1 := mem, role;
      Attach(q, i, n);
      SameMapsHeld(old(mem), old(role), m1, r1, mem, n);
      assert r1 == old(role)[n := Held] && ChildRole(r1, q, i) == c;
    }

    /** memset, and the store that links the page n. */
    method Attach(q: nat, i: nat, n: nat)
      requires Valid() && CanHang(mem, role, q, i, n)
      modifies this`mem, this`role
      ensures Valid() && mem == Hang(old(mem), q, i, n) && role == old(role)[n := ChildRole(old(role), q, i)]
      ensures SameMaps(old(mem), mem, old(role))
    {
      assert InPool(n);
      GrowKeeps(mem, role, q, i, n);
      ChainIn(mem, free, freelist);
      ChainFrame(mem, Hang(mem, q, i, n), free, freelist);
      mem := Hang(mem, q, i, n);
      role := role[n := ChildRole(role, q, i)];
    }
  }

  lemma SameMapsHeld(m0: Mem, r0: Roles, m1: Mem, r1: Roles, m2: Mem, n: nat)
    requires n in r0 && r0[n] == Free && r1 == r0[n := Held] && SameMaps(m0, m1, r0) && SameMaps(m1, m2, r1)
    ensures SameMaps(m0, m2, r0)
  {
    forall r, v: Vpn | IsRoot(r0, r) && v.Ok() ensures Lookup(m2, r, v) == Lookup(m0, r, v) { assert IsRoot(r1, r); }
  }

  /** All np pages from v0 up to top have been added. */
  lemma AddsDone(m0: Mem, r0: Roles, f0: nat, m1: Mem, r1: Roles, f1: nat, r: nat, v0: nat, k: nat, np: nat, top: nat)
    requires IsRoot(r0, r) && Space(m0, r0, r, v0) && Adds(m0, r0, m1, r1, r, v0, k)
    requires Took(r0, f0, r1, f1, r, v0, k, k) && k == np && top == v0 + np <= USERTOP
    ensures Space(m1, r1, r, top) && Adds(m0, r0, m1, r1, r, v0, np) && !Lacks(r0, f0, r, v0, np, np)
    ensures Took(r0, f0, r1, f1, r, v0, np, np)
  {
    AddsSpace(m0, r0, m1, r1, r, v0, np, top);
    TookNotLacks(r0, f0, r1, f1, r, v0, np, np);
  }

  lemma PageAt(va: nat, v0: nat, k: nat, n: nat)
    requires va % PGSIZE == 0 && v0 == va / PGSIZE
    ensures (va + k * PGSIZE) / PGSIZE == v0 + k && (va + k * PGSIZE < va + n * PGSIZE <==> k < n)
  {
    DivIs(va + k * PGSIZE, PGSIZE, v0 + k, 0);
  }

  /** The pages below the next page are those below this one, and this one. */
  lemma NextPage(p: nat, q: nat)
    requires p % PGSIZE == 0 && q % PGSIZE == 0
    ensures q < p + PGSIZE <==> q < p || q == p
    ensures (p + PGSIZE) % PGSIZE == 0
  {
    var a, b := p / PGSIZE, q / PGSIZE;
    assert p == a * PGSIZE && q == b * PGSIZE;
    if q > p { assert b * PGSIZE >= (a + 1) * PGSIZE; }
  }

  lemma PageOfNext(pa: nat, k: nat)
    ensures PageOf(pa + k * PGSIZE) == PageOf(pa) + k * PGSIZE
  {
    assert (pa + k * PGSIZE) / PGSIZE == pa / PGSIZE + k;
  }
}
