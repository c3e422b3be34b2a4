/** What the operations of kernel/kalloc.c and kernel/vm.c do to the pool and
    to the maps of all page tables, as relations between memories. */
module PageMaps {
  import opened Common
  import opened Sv39
  import opened PageTree

  /** The free list threads through the first word of each free page. */
  ghost predicate Chain(mem: Mem, free: seq<nat>, head: nat) {
    if free == [] then head == 0
    else
      && head == free[0] && head != 0 && head in mem && mem[head].Link?
      && head !in free[1..] && Chain(mem, free[1..], mem[head].next)
  }

  lemma {:induction false} ChainFrame(mem: Mem, mem': Mem, free: seq<nat>, head: nat)
    requires Chain(mem, free, head)
    requires forall p | p in free :: p in mem && p in mem' && mem'[p] == mem[p]
    ensures Chain(mem', free, head)
    decreases |free|
  {
    if free != [] { ChainFrame(mem, mem', free[1..], mem[head].next); }
  }

  lemma {:induction false} ChainIn(mem: Mem, free: seq<nat>, head: nat)
    requires Chain(mem, free, head)
    ensures forall p | p in free :: p in mem
    decreases |free|
  {
    if free != [] { ChainIn(mem, free[1..], mem[head].next); }
  }

  ghost predicate FreeOk(role: Roles, free: seq<nat>) {
    && (forall p | p in free :: p in role && role[p] == Free)
    && (forall p | p in role && role[p] == Free :: p in free)
  }

  /** Page p keeps its role, or was free and is now a table page; user and held
      pages keep their contents. */
  ghost predicate Kept(mem: Mem, role: Roles, mem': Mem, role': Roles, p: nat)
    requires p in role
  {
    && p in role' && p in mem && p in mem'
    && (role'[p] == role[p] || (role[p] == Free && (role'[p].Mid? || role'[p].Low?)))
    && (role[p].Leaf? || role[p].Held? ==> mem'[p] == mem[p])
  }

  ghost predicate SameMaps(mem: Mem, mem': Mem, role: Roles) {
    forall r, v: Vpn | IsRoot(role, r) && v.Ok() :: Lookup(mem', r, v) == Lookup(mem, r, v)
  }

  ghost predicate Grows(mem: Mem, role: Roles, mem': Mem, role': Roles) {
    role'.Keys == role.Keys && forall p {:trigger Kept(mem, role, mem', role', p)} | p in role ::
      Kept(mem, role, mem', role', p)
  }

  lemma GrowsRefl(mem: Mem, role: Roles)
    requires TreeInv(mem, role)
    ensures Grows(mem, role, mem, role)
  {
    forall p | p in role ensures Kept(mem, role, mem, role, p) { assert Typed(mem, role, p); }
  }

  lemma GrowsTrans(m0: Mem, r0: Roles, m1: Mem, r1: Roles, m2: Mem, r2: Roles)
    requires Grows(m0, r0, m1, r1) && Grows(m1, r1, m2, r2)
    ensures Grows(m0, r0, m2, r2)
  {
    forall p | p in r0 ensures Kept(m0, r0, m2, r2, p) {
      assert Kept(m0, r0, m1, r1, p) && Kept(m1, r1, m2, r2, p);
    }
  }

  lemma RootsStay(m0: Mem, r0: Roles, m1: Mem, r1: Roles, r: nat)
    requires Grows(m0, r0, m1, r1)
    ensures IsRoot(r0, r) <==> IsRoot(r1, r)
  {
    if r in r0 { assert Kept(m0, r0, m1, r1, r); }
  }

  lemma SameMapsTrans(m0: Mem, r0: Roles, m1: Mem, r1: Roles, m2: Mem)
    requires Grows(m0, r0, m1, r1) && SameMaps(m0, m1, r0) && SameMaps(m1, m2, r1)
    ensures SameMaps(m0, m2, r0)
  {
    forall r, v: Vpn | IsRoot(r0, r) && v.Ok() ensures Lookup(m2, r, v) == Lookup(m0, r, v) {
      RootsStay(m0, r0, m1, r1, r);
    }
  }

  // ------------------------------------------------------------ page ranges

  /** The entry at (r', v) once k pages from v0 on are mapped to consecutive
      pages from pa, in the tree r only. */
  ghost function RangeEntry(mem: Mem, r: nat, v0: nat, k: nat, pa: nat, rwx: nat, hi: nat, r': nat, v: Vpn): Pte {
    if r' == r && v0 <= Num(v) < v0 + k then Pte(pa + (Num(v) - v0) * PGSIZE, true, rwx, hi) else Lookup(mem, r', v)
  }

  ghost predicate MapsRange(mem: Mem, mem': Mem, role: Roles, r: nat, v0: nat, k: nat, pa: nat, rwx: nat, hi: nat) {
    forall r', v: Vpn | IsRoot(role, r') && v.Ok() ::
      Lookup(mem', r', v) == RangeEntry(mem, r, v0, k, pa, rwx, hi, r', v)
  }

  ghost function ClearedEntry(mem: Mem, r: nat, v0: nat, k: nat, r': nat, v: Vpn): Pte {
    if r' == r && v0 <= Num(v) < v0 + k then NOPTE else Lookup(mem, r', v)
  }

  ghost predicate ClearsRange(mem: Mem, mem': Mem, role: Roles, r: nat, v0: nat, k: nat) {
    forall r', v: Vpn | IsRoot(role, r') && v.Ok() :: Lookup(mem', r', v) == ClearedEntry(mem, r, v0, k, r', v)
  }

  lemma IsSplit(v: Vpn, n: nat)
    requires v.Ok()
    ensures v == Split(n) <==> Num(v) == n
  {
    SplitNum(n);
    NumSplit(v);
  }

  /** Storing the entry of one page maps that page. */
  lemma MapOne(mem: Mem, role: Roles, r: nat, n: nat, l: nat, pa: nat, rwx: nat, hi: nat)
    requires TreeInv(mem, role) && LowPage(mem, role, r, Split(n), l) && !Lookup(mem, r, Split(n)).v
    requires 0 < rwx < 8 && hi < 64 && pa % PGSIZE == 0
    requires l in mem && mem[l].Table? && |mem[l].pte| == ENTRIES
    ensures var mem' := Put(mem, l, Split(n).i0, Pte(pa, true, rwx, hi));
      TreeInv(mem', role) && MapsRange(mem, mem', role, r, n, 1, pa, rwx, hi)
  {
    var e := Pte(pa, true, rwx, hi);
    var mem' := Put(mem, l, Split(n).i0, e);
    LeafAt(mem, role, r, Split(n));
    PutKeeps(mem, role, r, Split(n), l, e);
    forall r', v: Vpn | IsRoot(role, r') && v.Ok()
      ensures Lookup(mem', r', v) == RangeEntry(mem, r, n, 1, pa, rwx, hi, r', v)
    {
      PutLookup(mem, role, r, Split(n), l, e, r', v);
      IsSplit(v, n);
    }
  }

  /** Maps after growing the tables. */
  lemma MapsAfter(m0: Mem, r0: Roles, m1: Mem, r1: Roles, m2: Mem, r: nat, n: nat, pa: nat, rwx: nat, hi: nat)
    requires Grows(m0, r0, m1, r1) && SameMaps(m0, m1, r0) && MapsRange(m1, m2, r1, r, n, 1, pa, rwx, hi)
    ensures MapsRange(m0, m2, r0, r, n, 1, pa, rwx, hi)
  {
    forall r', v: Vpn | IsRoot(r0, r') && v.Ok()
      ensures Lookup(m2, r', v) == RangeEntry(m0, r, n, 1, pa, rwx, hi, r', v)
    {
      RootsStay(m0, r0, m1, r1, r');
      assert Lookup(m2, r', v) == RangeEntry(m1, r, n, 1, pa, rwx, hi, r', v);
    }
  }

  /** k pages and then one more. */
  lemma MapsJoin(m0: Mem, r0: Roles, m1: Mem, r1: Roles, m2: Mem, r: nat, v0: nat, k: nat, pa: nat, rwx: nat, hi: nat)
    requires Grows(m0, r0, m1, r1) && MapsRange(m0, m1, r0, r, v0, k, pa, rwx, hi)
    requires MapsRange(m1, m2, r1, r, v0 + k, 1, pa + k * PGSIZE, rwx, hi)
    ensures MapsRange(m0, m2, r0, r, v0, k + 1, pa, rwx, hi)
  {
    forall r', v: Vpn | IsRoot(r0, r') && v.Ok()
      ensures Lookup(m2, r', v) == RangeEntry(m0, r, v0, k + 1, pa, rwx, hi, r', v)
    {
      RootsStay(m0, r0, m1, r1, r');
      assert Lookup(m2, r', v) == RangeEntry(m1, r, v0 + k, 1, pa + k * PGSIZE, rwx, hi, r', v);
      assert Lookup(m1, r', v) == RangeEntry(m0, r, v0, k, pa, rwx, hi, r', v);
    }
  }

  lemma MapsSame(m0: Mem, r0: Roles, m1: Mem, r1: Roles, m2: Mem, r: nat, v0: nat, k: nat, pa: nat, rwx: nat, hi: nat)
    requires Grows(m0, r0, m1, r1) && MapsRange(m0, m1, r0, r, v0, k, pa, rwx, hi) && SameMaps(m1, m2, r1)
    ensures MapsRange(m0, m2, r0, r, v0, k, pa, rwx, hi)
  {
    forall r', v: Vpn | IsRoot(r0, r') && v.Ok()
      ensures Lookup(m2, r', v) == RangeEntry(m0, r, v0, k, pa, rwx, hi, r', v)
    {
      RootsStay(m0, r0, m1, r1, r');
      assert Lookup(m1, r', v) == RangeEntry(m0, r, v0, k, pa, rwx, hi, r', v);
    }
  }

  lemma Beyond(m0: Mem, m1: Mem, role: Roles, r: nat, v0: nat, k: nat, pa: nat, rwx: nat, hi: nat, n: nat)
    requires IsRoot(role, r) && MapsRange(m0, m1, role, r, v0, k, pa, rwx, hi)
    requires n >= v0 + k && Split(n).Ok()
    ensures Lookup(m1, r, Split(n)) == Lookup(m0, r, Split(n))
  {
    SplitNum(n);
    assert Lookup(m1, r, Split(n)) == RangeEntry(m0, r, v0, k, pa, rwx, hi, r, Split(n));
  }

  /** A store into a lowest table is not seen by pages outside the tables. */
  lemma PutGrows(m0: Mem, r0: Roles, m1: Mem, r1: Roles, l: nat, i: nat, e: Pte)
    requires Grows(m0, r0, m1, r1) && TreeInv(m1, r1) && l in r1 && r1[l].Low?
    requires l in m1 && m1[l].Table? && i < |m1[l].pte|
    ensures Grows(m0, r0, Put(m1, l, i, e), r1)
  {
    var m2 := Put(m1, l, i, e);
    forall p | p in r0 ensures Kept(m0, r0, m2, r1, p) { assert Kept(m0, r0, m1, r1, p); }
  }

  /** The owner of a mapping is the page the mapping names. */
  lemma LeafAt(mem: Mem, role: Roles, r: nat, v: Vpn)
    requires TreeInv(mem, role)
    ensures forall p | p in role && role[p] == Leaf(r, v) :: Lookup(mem, r, v).v && Lookup(mem, r, v).pa == p
  {
    forall p | p in role && role[p] == Leaf(r, v) ensures Lookup(mem, r, v).v && Lookup(mem, r, v).pa == p {
      assert BackOk(mem, role, p);
    }
  }

  // ------------------------------------------------------------- unmapping

  ghost predicate InRange(role: Role, r: nat, v0: nat, k: nat) {
    role.Leaf? && role.root == r && v0 <= Num(role.v) < v0 + k
  }

  /** Page n of tree r is mapped, and the page it names belongs to the mapping
      exactly when `owned`. */
  ghost predicate MappedAs(mem: Mem, role: Roles, r: nat, n: nat, owned: bool) {
    var e := Lookup(mem, r, Split(n));
    && e.v
    && if owned then e.pa in role && role[e.pa] == Leaf(r, Split(n)) else forall p | p in role ::
      role[p] != Leaf(r, Split(n))
  }

  ghost predicate ShedAt(mem: Mem, role: Roles, mem': Mem, role': Roles, r: nat, v0: nat, k: nat, p: nat)
    requires p in role
  {
    && p in role' && p in mem && p in mem'
    && if InRange(role[p], r, v0, k) then role'[p] == Free
       else role'[p] == role[p] && (role[p].Leaf? || role[p].Held? ==> mem'[p] == mem[p])
  }

  /** The user pages owned in the range are free; every other page keeps its
      role, and its contents unless it is a table or free page. */
  ghost predicate Sheds(mem: Mem, role: Roles, mem': Mem, role': Roles, r: nat, v0: nat, k: nat) {
    && role'.Keys == role.Keys
    && forall p {:trigger ShedAt(mem, role, mem', role', r, v0, k, p)} | p in role ::
      ShedAt(mem, role, mem', role', r, v0, k, p)
  }

  lemma ShedsNone(mem: Mem, role: Roles, r: nat, v0: nat)
    requires TreeInv(mem, role)
    ensures Sheds(mem, role, mem, role, r, v0, 0)
  {
    forall p | p in role ensures ShedAt(mem, role, mem, role, r, v0, 0, p) { assert Typed(mem, role, p); }
  }

  lemma ClearOne(mem: Mem, role: Roles, r: nat, n: nat, l: nat)
    requires TreeInv(mem, role) && LowPage(mem, role, r, Split(n), l)
    requires l in mem && mem[l].Table? && |mem[l].pte| == ENTRIES
    requires forall p | p in role :: role[p] != Leaf(r, Split(n))
    ensures TreeInv(Put(mem, l, Split(n).i0, NOPTE), role)
    ensures ClearsRange(mem, Put(mem, l, Split(n).i0, NOPTE), role, r, n, 1)
  {
    var mem' := Put(mem, l, Split(n).i0, NOPTE);
    PutKeeps(mem, role, r, Split(n), l, NOPTE);
    forall r', v: Vpn | IsRoot(role, r') && v.Ok() ensures Lookup(mem', r', v) == ClearedEntry(mem, r, n, 1, r', v) {
      PutLookup(mem, role, r, Split(n), l, NOPTE, r', v);
      IsSplit(v, n);
    }
  }

  lemma ClearsJoin(m0: Mem, r0: Roles, m1: Mem, r1: Roles, m2: Mem, r2: Roles, r: nat, v0: nat, k: nat)
    requires Sheds(m0, r0, m1, r1, r, v0, k) && ClearsRange(m0, m1, r0, r, v0, k)
    requires Sheds(m1, r1, m2, r2, r, v0 + k, 1) && ClearsRange(m1, m2, r1, r, v0 + k, 1)
    ensures Sheds(m0, r0, m2, r2, r, v0, k + 1) && ClearsRange(m0, m2, r0, r, v0, k + 1)
  {
    forall p | p in r0 ensures ShedAt(m0, r0, m2, r2, r, v0, k + 1, p) {
      assert ShedAt(m0, r0, m1, r1, r, v0, k, p) && ShedAt(m1, r1, m2, r2, r, v0 + k, 1, p);
    }
    forall r', v: Vpn | IsRoot(r0, r') && v.Ok() ensures Lookup(m2, r', v) == ClearedEntry(m0, r, v0, k + 1, r', v) {
      assert ShedAt(m0, r0, m1, r1, r, v0, k, r');
      assert Lookup(m2, r', v) == ClearedEntry(m1, r, v0 + k, 1, r', v);
      assert Lookup(m1, r', v) == ClearedEntry(m0, r, v0, k, r', v);
    }
  }

  lemma StillMapped(m0: Mem, r0: Roles, m1: Mem, r1: Roles, r: nat, v0: nat, k: nat, n: nat, owned: bool)
    requires IsRoot(r0, r) && Sheds(m0, r0, m1, r1, r, v0, k) && ClearsRange(m0, m1, r0, r, v0, k)
    requires n >= v0 + k && Split(n).Ok() && MappedAs(m0, r0, r, n, owned)
    ensures MappedAs(m1, r1, r, n, owned)
  {
    SplitNum(n);
    assert Lookup(m1, r, Split(n)) == ClearedEntry(m0, r, v0, k, r, Split(n));
    if owned {
      assert ShedAt(m0, r0, m1, r1, r, v0, k, Lookup(m0, r, Split(n)).pa);
    } else {
      forall p | p in r1 ensures r1[p] != Leaf(r, Split(n)) { assert ShedAt(m0, r0, m1, r1, r, v0, k, p); }
    }
  }

  lemma SplitOk(n: nat)
    requires n < MAXVPN
    ensures Split(n).Ok()
  {
  }

  // ------------------------------------------------------- user address space

  /** TRAPFRAME's page number: user memory lies below it. */
  const USERTOP := MAXVPN - 2

  /** PGROUNDUP(sz) / PGSIZE. */
  function Pages(sz: nat): nat { (sz + PGSIZE - 1) / PGSIZE }

  lemma PagesBelow(n: nat, sz: nat)
    ensures n * PGSIZE < sz <==> n < Pages(sz)
    ensures n * PGSIZE / PGSIZE == n && n * PGSIZE % PGSIZE == 0
  {
  }

  lemma PagesUpTo(oldsz: nat, newsz: nat)
    requires oldsz <= newsz <= USERTOP * PGSIZE
    ensures Pages(oldsz) <= Pages(newsz) <= USERTOP
  {
  }

  ghost predicate SpaceAt(mem: Mem, role: Roles, r: nat, n: nat, m: nat) {
    if m < n then MappedAs(mem, role, r, m, true) else !Lookup(mem, r, Split(m)).v
  }

  /** A process of n pages: pages 0 up to n are mapped and owned, the rest of
      the user range is not mapped. */
  ghost predicate Space(mem: Mem, role: Roles, r: nat, n: nat) {
    && n <= USERTOP
    && forall m {:trigger SpaceAt(mem, role, r, n, m)} | 0 <= m < USERTOP :: SpaceAt(mem, role, r, n, m)
  }

  ghost predicate AddAt(mem: Mem, role: Roles, mem': Mem, role': Roles, r: nat, v0: nat, k: nat, p: nat)
    requires p in role
  {
    && p in role' && p in mem && p in mem'
    && (role'[p] == role[p] || (role[p] == Free && (role'[p].Mid? || role'[p].Low? || InRange(role'[p], r, v0, k))))
    && (role[p].Leaf? || role[p].Held? ==> mem'[p] == mem[p])
  }

  ghost predicate AddMap(mem: Mem, mem': Mem, role': Roles, r: nat, v0: nat, k: nat, r': nat, v: Vpn) {
    if r' == r && v0 <= Num(v) < v0 + k then
      var e := Lookup(mem', r, v);
      e.v && e.pa in role' && role'[e.pa] == Leaf(r, v)
    else Lookup(mem', r', v) == Lookup(mem, r', v)
  }

  /** k fresh user pages are mapped from v0 on; every other mapping, role and
      user page is as before, apart from free pages that became tables. */
  ghost predicate Adds(mem: Mem, role: Roles, mem': Mem, role': Roles, r: nat, v0: nat, k: nat) {
    && role'.Keys == role.Keys
    && (forall p {:trigger AddAt(mem, role, mem', role', r, v0, k, p)} | p in role ::
          AddAt(mem, role, mem', role', r, v0, k, p))
    && (forall r', v: Vpn {:trigger AddMap(mem, mem', role', r, v0, k, r', v)} | IsRoot(role, r') && v.Ok() ::
          AddMap(mem, mem', role', r, v0, k, r', v))
  }

  /** Page m of tree r is owned, with these flags and contents. */
  ghost predicate LeafLike(mem: Mem, role: Roles, r: nat, m: nat, rwx: nat, hi: nat, page: Page) {
    var e := Lookup(mem, r, Split(m));
    && e.v && e.rwx == rwx && e.hi == hi
    && e.pa in role && role[e.pa] == Leaf(r, Split(m)) && e.pa in mem && mem[e.pa] == page
  }

  lemma AddsNone(mem: Mem, role: Roles, r: nat, v0: nat)
    requires TreeInv(mem, role)
    ensures Adds(mem, role, mem, role, r, v0, 0)
  {
    forall p | p in role ensures AddAt(mem, role, mem, role, r, v0, 0, p) { assert Typed(mem, role, p); }
  }

  lemma AddsJoin(m0: Mem, r0: Roles, m1: Mem, r1: Roles, m2: Mem, r2: Roles, r: nat, v0: nat, k: nat)
    requires Adds(m0, r0, m1, r1, r, v0, k) && Adds(m1, r1, m2, r2, r, v0 + k, 1)
    ensures Adds(m0, r0, m2, r2, r, v0, k + 1)
  {
    forall p | p in r0 ensures AddAt(m0, r0, m2, r2, r, v0, k + 1, p) {
      assert AddAt(m0, r0, m1, r1, r, v0, k, p) && AddAt(m1, r1, m2, r2, r, v0 + k, 1, p);
    }
    forall r', v: Vpn | IsRoot(r0, r') && v.Ok() ensures AddMap(m0, m2, r2, r, v0, k + 1, r', v) {
      assert AddAt(m0, r0, m1, r1, r, v0, k, r');
      assert AddMap(m0, m1, r1, r, v0, k, r', v) && AddMap(m1, m2, r2, r, v0 + k, 1, r', v);
      if r' == r && v0 <= Num(v) < v0 + k {
        assert AddAt(m1, r1, m2, r2, r, v0 + k, 1, Lookup(m1, r, v).pa);
      }
    }
  }

  lemma GrowsThenAdds(m0: Mem, r0: Roles, m1: Mem, r1: Roles, m2: Mem, r2: Roles, r: nat, v0: nat, k: nat)
    requires Adds(m0, r0, m1, r1, r, v0, k) && Grows(m1, r1, m2, r2) && SameMaps(m1, m2, r1)
    ensures Adds(m0, r0, m2, r2, r, v0, k)
  {
    forall p | p in r0 ensures AddAt(m0, r0, m2, r2, r, v0, k, p) {
      assert AddAt(m0, r0, m1, r1, r, v0, k, p) && Kept(m1, r1, m2, r2, p);
    }
    forall r', v: Vpn | IsRoot(r0, r') && v.Ok() ensures AddMap(m0, m2, r2, r, v0, k, r', v) {
      assert AddAt(m0, r0, m1, r1, r, v0, k, r');
      assert AddMap(m0, m1, r1, r, v0, k, r', v);
      if r' == r && v0 <= Num(v) < v0 + k { assert Kept(m1, r1, m2, r2, Lookup(m1, r, v).pa); }
    }
  }

  /** Undoing: shedding what was added restores every map exactly. */
  lemma AddThenShed(m0: Mem, r0: Roles, m1: Mem, r1: Roles, m2: Mem, r2: Roles, r: nat, v0: nat, k: nat)
    requires TreeInv(m0, r0) && Adds(m0, r0, m1, r1, r, v0, k)
    requires Sheds(m1, r1, m2, r2, r, v0, k) && ClearsRange(m1, m2, r1, r, v0, k)
    requires IsRoot(r0, r) && v0 + k <= MAXVPN
    requires forall n | v0 <= n < v0 + k :: !Lookup(m0, r, Split(n)).v
    ensures Grows(m0, r0, m2, r2) && SameMaps(m0, m2, r0)
  {
    forall p | p in r0 ensures Kept(m0, r0, m2, r2, p) {
      assert AddAt(m0, r0, m1, r1, r, v0, k, p) && ShedAt(m1, r1, m2, r2, r, v0, k, p);
      if r0[p].Leaf? { NotShed(m0, r0, r, v0, k, p); }
    }
    forall r', v: Vpn | IsRoot(r0, r') && v.Ok() ensures Lookup(m2, r', v) == Lookup(m0, r', v) {
      assert AddAt(m0, r0, m1, r1, r, v0, k, r');
      assert AddMap(m0, m1, r1, r, v0, k, r', v);
      assert Lookup(m2, r', v) == ClearedEntry(m1, r, v0, k, r', v);
      if r' == r && v0 <= Num(v) < v0 + k {
        NumSplit(v);
        assert !Lookup(m0, r, Split(Num(v))).v;
        NoneIsZero(m0, r0, r, v);
      }
    }
  }

  lemma NotShed(mem: Mem, role: Roles, r: nat, v0: nat, k: nat, p: nat)
    requires TreeInv(mem, role) && p in role && role[p].Leaf?
    requires forall n | v0 <= n < v0 + k :: !Lookup(mem, r, Split(n)).v
    ensures !InRange(role[p], r, v0, k)
  {
    assert BackOk(mem, role, p);
    NumSplit(role[p].v);
  }

  lemma AddedOwned(m0: Mem, r0: Roles, m1: Mem, r1: Roles, r: nat, v0: nat, k: nat, n: nat)
    requires Adds(m0, r0, m1, r1, r, v0, k) && IsRoot(r0, r) && v0 <= n < v0 + k && n < MAXVPN
    ensures MappedAs(m1, r1, r, n, true)
  {
    SplitNum(n);
    SplitOk(n);
    assert AddMap(m0, m1, r1, r, v0, k, r, Split(n));
  }

  /** Pages mapped before stay as they were. */
  lemma LeafStays(m0: Mem, r0: Roles, m1: Mem, r1: Roles, r: nat, v0: nat, k: nat, r': nat, m: nat, rwx: nat, hi: nat,
                  page: Page)
    requires Adds(m0, r0, m1, r1, r, v0, k) && IsRoot(r0, r') && m < MAXVPN && (r' != r || m < v0)
    requires LeafLike(m0, r0, r', m, rwx, hi, page)
    ensures LeafLike(m1, r1, r', m, rwx, hi, page)
  {
    SplitNum(m);
    SplitOk(m);
    assert AddMap(m0, m1, r1, r, v0, k, r', Split(m));
    assert AddAt(m0, r0, m1, r1, r, v0, k, Lookup(m0, r', Split(m)).pa);
  }

  lemma LeavesStay(m0: Mem, r0: Roles, m1: Mem, r1: Roles, r: nat, v0: nat, n: nat, rwx: nat, hi: nat, page: Page)
    requires Adds(m0, r0, m1, r1, r, n, 1) && IsRoot(r0, r) && n < MAXVPN && LeafLike(m1, r1, r, n, rwx, hi, page)
    requires forall m | v0 <= m < n :: LeafLike(m0, r0, r, m, rwx, hi, page)
    ensures forall m | v0 <= m < n + 1 :: LeafLike(m1, r1, r, m, rwx, hi, page)
  {
    forall m | v0 <= m < n + 1 ensures LeafLike(m1, r1, r, m, rwx, hi, page) {
      if m < n { LeafStays(m0, r0, m1, r1, r, n, 1, r, m, rwx, hi, page); }
    }
  }

  lemma NothingAbove(mem: Mem, role: Roles, r: nat, n: nat, top: nat)
    requires Space(mem, role, r, n) && top <= USERTOP
    ensures forall m | n <= m < top :: !Lookup(mem, r, Split(m)).v
  {
    forall m | n <= m < top ensures !Lookup(mem, r, Split(m)).v { assert SpaceAt(mem, role, r, n, m); }
  }

  lemma AddsSpace(m0: Mem, r0: Roles, m1: Mem, r1: Roles, r: nat, v0: nat, k: nat, n: nat)
    requires IsRoot(r0, r) && Space(m0, r0, r, v0) && Adds(m0, r0, m1, r1, r, v0, k) && n == v0 + k <= USERTOP
    ensures Space(m1, r1, r, n)
  {
    forall m | 0 <= m < USERTOP ensures SpaceAt(m1, r1, r, n, m) {
      SplitNum(m);
      SplitOk(m);
      assert SpaceAt(m0, r0, r, v0, m);
      assert AddMap(m0, m1, r1, r, v0, k, r, Split(m));
      if m < v0 { assert AddAt(m0, r0, m1, r1, r, v0, k, Lookup(m0, r, Split(m)).pa); }
    }
  }

  lemma ShedsSpace(m0: Mem, r0: Roles, m1: Mem, r1: Roles, r: nat, v0: nat, k: nat)
    requires IsRoot(r0, r) && Space(m0, r0, r, v0 + k) && Sheds(m0, r0, m1, r1, r, v0, k)
    requires ClearsRange(m0, m1, r0, r, v0, k)
    ensures Space(m1, r1, r, v0)
  {
    forall m | 0 <= m < USERTOP ensures SpaceAt(m1, r1, r, v0, m) {
      SplitNum(m);
      SplitOk(m);
      assert SpaceAt(m0, r0, r, v0 + k, m);
      assert Lookup(m1, r, Split(m)) == ClearedEntry(m0, r, v0, k, r, Split(m));
      if m < v0 { assert ShedAt(m0, r0, m1, r1, r, v0, k, Lookup(m0, r, Split(m)).pa); }
    }
  }

  lemma GrowKeeps(mem: Mem, role: Roles, q: nat, i: nat, n: nat)
    requires CanHang(mem, role, q, i, n)
    ensures TreeInv(Hang(mem, q, i, n), role[n := ChildRole(role, q, i)])
    ensures SameMaps(mem, Hang(mem, q, i, n), role)
  {
    HangKeeps(mem, role, q, i, n);
    forall r, v: Vpn | IsRoot(role, r) && v.Ok() ensures Lookup(Hang(mem, q, i, n), r, v) == Lookup(mem, r, v) {
      HangLookup(mem, role, q, i, n, r, v);
    }
  }

  // ------------------------------------------------------ one page at a time

  /** A page taken, held while tables grew, and given back. */
  lemma HeldThenFree(m0: Mem, r0: Roles, m1: Mem, r1: Roles, m2: Mem, r2: Roles, m3: Mem, r3: Roles, pa: nat)
    requires TreeInv(m0, r0) && pa in r0 && r0[pa] == Free && pa in m0
    requires r1 == r0[pa := Held] && pa in m1 && m1 == m0[pa := m1[pa]]
    requires Grows(m1, r1, m2, r2) && r3 == r2[pa := Free] && pa in m3 && m3 == m2[pa := m3[pa]]
    ensures Grows(m0, r0, m3, r3)
  {
    forall p | p in r0 ensures Kept(m0, r0, m3, r3, p) {
      assert Typed(m0, r0, p);
      assert Kept(m1, r1, m2, r2, p);
    }
  }

  lemma MapsNone(m1: Mem, m2: Mem, r1: Roles, r: nat, n: nat, pa: nat, rwx: nat, hi: nat)
    requires MapsRange(m1, m2, r1, r, n, 0, pa, rwx, hi)
    ensures SameMaps(m1, m2, r1)
  {
    forall r', v: Vpn | IsRoot(r1, r') && v.Ok() ensures Lookup(m2, r', v) == Lookup(m1, r', v) {
      assert Lookup(m2, r', v) == RangeEntry(m1, r, n, 0, pa, rwx, hi, r', v);
    }
  }

  lemma UndoneMaps(m0: Mem, r0: Roles, m1: Mem, r1: Roles, m2: Mem, r2: Roles, m3: Mem)
    requires forall p | p in r0 && r0[p] == Root :: p in r1 && r1[p] == Root
    requires Grows(m1, r1, m2, r2) && SameMaps(m0, m1, r0) && SameMaps(m1, m2, r1) && SameMaps(m2, m3, r2)
    ensures SameMaps(m0, m3, r0)
  {
    forall r, v: Vpn | IsRoot(r0, r) && v.Ok() ensures Lookup(m3, r, v) == Lookup(m0, r, v) {
      assert Kept(m1, r1, m2, r2, r);
      assert Lookup(m3, r, v) == Lookup(m2, r, v);
    }
  }

  /** A held page mapped at page n becomes the user page of that mapping. */
  lemma MapsOwned(m0: Mem, r0: Roles, m1: Mem, r1: Roles, m2: Mem, r2: Roles, r: nat, n: nat, pa: nat, rwx: nat,
                  hi: nat)
    requires TreeInv(m0, r0) && IsRoot(r0, r) && Split(n).Ok() && pa in r0 && r0[pa] == Free
    requires r1 == r0[pa := Held] && pa in m1 && m1 == m0[pa := m1[pa]] && SameMaps(m0, m1, r0)
    requires Grows(m1, r1, m2, r2) && MapsRange(m1, m2, r1, r, n, 1, pa, rwx, hi)
    ensures var r3 := r2[pa := Leaf(r, Split(n))];
      && Adds(m0, r0, m2, r3, r, n, 1) && LeafLike(m2, r3, r, n, rwx, hi, m1[pa])
    ensures Lookup(m2, r, Split(n)) == Pte(pa, true, rwx, hi)
  {
    var r3 := r2[pa := Leaf(r, Split(n))];
    SplitNum(n);
    assert Kept(m1, r1, m2, r2, pa);
    assert Lookup(m2, r, Split(n)) == RangeEntry(m1, r, n, 1, pa, rwx, hi, r, Split(n));
    forall p | p in r0 ensures AddAt(m0, r0, m2, r3, r, n, 1, p) {
      assert Typed(m0, r0, p);
      assert Kept(m1, r1, m2, r2, p);
    }
    forall r', v: Vpn | IsRoot(r0, r') && v.Ok() ensures AddMap(m0, m2, r3, r, n, 1, r', v) {
      assert Lookup(m2, r', v) == RangeEntry(m1, r, n, 1, pa, rwx, hi, r', v);
      IsSplit(v, n);
    }
  }

  lemma GrowsSpace(m0: Mem, r0: Roles, m1: Mem, r1: Roles, r: nat, n: nat)
    requires IsRoot(r0, r) && Space(m0, r0, r, n) && Grows(m0, r0, m1, r1) && SameMaps(m0, m1, r0)
    ensures Space(m1, r1, r, n)
  {
    forall m | 0 <= m < USERTOP ensures SpaceAt(m1, r1, r, n, m) {
      SplitOk(m);
      assert SpaceAt(m0, r0, r, n, m);
      if m < n { assert Kept(m0, r0, m1, r1, Lookup(m0, r, Split(m)).pa); }
    }
  }

  /** PTE_R added to the requested permission bits. */
  /** The permissions with the read bit, and otherwise the same. */
  function WithRead(xperm: nat): (rwx: nat)
    ensures rwx % 2 == 1 && rwx / 2 == xperm / 2
  {
    if xperm % 2 == 0 then xperm + 1 else xperm
  }

  // ------------------------------------------------------------------- copy

  /** Page m of the child is a page of its own with the contents and flags that
      page m of the parent had in (m0, r0), taken from the pool. */
  ghost predicate CopyOf(m0: Mem, r0: Roles, m1: Mem, r1: Roles, parent: nat, child: nat, m: nat) {
    var e := Lookup(m0, parent, Split(m));
    && e.pa in m0 && LeafLike(m1, r1, child, m, e.rwx, e.hi, m0[e.pa])
    && Lookup(m1, child, Split(m)).pa in r0 && r0[Lookup(m1, child, Split(m)).pa] == Free
  }

  /** While the child grows, the parent's page k is still what it was. */
  lemma SourceStays(m0: Mem, r0: Roles, m1: Mem, r1: Roles, parent: nat, child: nat, k: nat)
    requires Adds(m0, r0, m1, r1, child, 0, k) && IsRoot(r0, parent) && parent != child && Split(k).Ok()
    requires MappedAs(m0, r0, parent, k, true)
    ensures Lookup(m1, parent, Split(k)) == Lookup(m0, parent, Split(k)) && MappedAs(m1, r1, parent, k, true)
    ensures var pa := Lookup(m0, parent, Split(k)).pa; pa in m0 && pa in m1 && m1[pa] == m0[pa]
  {
    assert AddMap(m0, m1, r1, child, 0, k, parent, Split(k));
    assert AddAt(m0, r0, m1, r1, child, 0, k, Lookup(m0, parent, Split(k)).pa);
  }

  lemma CopiesStay(m0: Mem, r0: Roles, m1: Mem, r1: Roles, m2: Mem, r2: Roles, parent: nat, child: nat, k: nat)
    requires IsRoot(r0, parent) && parent != child && IsRoot(r1, child) && k < MAXVPN
    requires Adds(m0, r0, m1, r1, child, 0, k) && Adds(m1, r1, m2, r2, child, k, 1)
    requires forall m | 0 <= m < k :: CopyOf(m0, r0, m1, r1, parent, child, m)
    requires MappedAs(m0, r0, parent, k, true) && TreeInv(m1, r1) && !Lookup(m1, child, Split(k)).v
    requires var e := Lookup(m1, parent, Split(k)); e.pa in m1 && LeafLike(m2, r2, child, k, e.rwx, e.hi, m1[e.pa])
    ensures forall m | 0 <= m < k + 1 :: CopyOf(m0, r0, m2, r2, parent, child, m)
  {
    forall m | 0 <= m < k + 1 ensures CopyOf(m0, r0, m2, r2, parent, child, m) {
      if m < k {
        assert CopyOf(m0, r0, m1, r1, parent, child, m);
        var e := Lookup(m0, parent, Split(m));
        LeafStays(m1, r1, m2, r2, child, k, 1, child, m, e.rwx, e.hi, m0[e.pa]);
        SplitOk(m);
        SplitNum(m);
        assert AddMap(m1, m2, r2, child, k, 1, child, Split(m));
      } else {
        SplitOk(k);
        SourceStays(m0, r0, m1, r1, parent, child, k);
        LeafAt(m1, r1, child, Split(k));
        FreshPage(m0, r0, m1, r1, m2, r2, child, k);
      }
    }
  }

  lemma FreshPage(m0: Mem, r0: Roles, m1: Mem, r1: Roles, m2: Mem, r2: Roles, child: nat, k: nat)
    requires Adds(m0, r0, m1, r1, child, 0, k) && Adds(m1, r1, m2, r2, child, k, 1)
    requires MappedAs(m2, r2, child, k, true)
    requires forall p | p in r1 :: r1[p] != Leaf(child, Split(k))
    ensures var pa := Lookup(m2, child, Split(k)).pa; pa in r0 && r0[pa] == Free
  {
    var pa := Lookup(m2, child, Split(k)).pa;
    assert AddAt(m1, r1, m2, r2, child, k, 1, pa);
    assert AddAt(m0, r0, m1, r1, child, 0, k, pa);
  }

  // -------------------------------------------------------- freeing the tree

  ghost function Level(role: Role): int {
    match role
    case Root => 2
    case Mid(_, _) => 1
    case Low(_, _, _) => 0
    case _ => -1
  }

  /** q is p or a table page below p. */
  ghost predicate Under(role: Roles, p: nat, q: nat)
    requires p in role && q in role
  {
    || q == p
    || (role[p].Root? && (role[q].Mid? || role[q].Low?) && role[q].root == p)
    || (role[p].Mid? && role[q].Low? && role[q].root == role[p].root && role[q].i2 == role[p].i2)
  }

  /** q lies below p, under one of p's first i entries. */
  ghost predicate Done(role: Roles, p: nat, i: nat, q: nat)
    requires p in role && q in role
  {
    || (role[p].Root? && (role[q].Mid? || role[q].Low?) && role[q].root == p && role[q].i2 < i)
    || (role[p].Mid? && role[q].Low? && role[q].root == role[p].root && role[q].i2 == role[p].i2 && role[q].i1 < i)
  }

  ghost predicate Intact(mem: Mem, m0: Mem, free: seq<nat>, q: nat) {
    q in mem && q in m0 && mem[q] == m0[q] && q !in free
  }

  lemma BranchUnder(m0: Mem, role: Roles, p: nat, i: nat, q: nat)
    requires TreeInv(m0, role) && p in role && q in role && i < ENTRIES && Level(role[p]) > 0
    requires At(m0, p, i).v && At(m0, p, i).pa in role
    ensures Under(role, At(m0, p, i).pa, q) ==> Under(role, p, q) && q != p && !Done(role, p, i, q)
    ensures Done(role, p, i + 1, q) <==> Done(role, p, i, q) || Under(role, At(m0, p, i).pa, q)
    ensures Level(role[At(m0, p, i).pa]) == Level(role[p]) - 1
  {
    assert EntryOk(m0, role, p, i) && BackOk(m0, role, q) && BackOk(m0, role, p);
  }

  lemma NoBranch(m0: Mem, role: Roles, p: nat, i: nat, q: nat)
    requires TreeInv(m0, role) && p in role && q in role && i < ENTRIES && !At(m0, p, i).v
    ensures Done(role, p, i + 1, q) <==> Done(role, p, i, q)
  {
    assert BackOk(m0, role, q) && BackOk(m0, role, p);
  }

  lemma NoLeafHere(m0: Mem, role: Roles, p: nat, i: nat)
    requires TreeInv(m0, role) && p in role && i < ENTRIES && Level(role[p]) >= 0
    requires role[p].Low? ==> !At(m0, p, i).v
    requires !(At(m0, p, i).v && At(m0, p, i).rwx == 0)
    ensures !At(m0, p, i).v
  {
    assert EntryOk(m0, role, p, i);
  }

  lemma AllDone(m0: Mem, role: Roles, p: nat, q: nat)
    requires TreeInv(m0, role) && p in role && q in role
    ensures Under(role, p, q) <==> q == p || Done(role, p, ENTRIES, q)
  {
    assert BackOk(m0, role, q);
  }

  /** No lowest table under p has an entry. */
  ghost predicate NoLeaves(m0: Mem, role: Roles, p: nat)
    requires p in role
  {
    forall q, i {:trigger At(m0, q, i)} | q in role && role[q].Low? && Under(role, p, q) && 0 <= i < ENTRIES ::
      !At(m0, q, i).v
  }

  /** freewalk of p has dealt with its first i entries, starting from (mm, ff). */
  ghost predicate Walked(m0: Mem, role: Roles, p: nat, i: nat, mm: Mem, ff: seq<nat>, mem: Mem, free: seq<nat>)
    requires p in role
  {
    && p in mem && mem[p].Table? && |mem[p].pte| == ENTRIES
    && (forall j | i <= j < ENTRIES :: Decode(mem[p].pte[j]) == At(m0, p, j))
    && (forall q :: q in free <==> q in ff || (q in role && Done(role, p, i, q)))
    && (forall q | q in mm && q != p && !(q in role && Done(role, p, i, q)) :: q in mem && mem[q] == mm[q])
  }

  /** The branch at entry i is as it was. */
  lemma BranchIntact(m0: Mem, role: Roles, p: nat, i: nat, mm: Mem, ff: seq<nat>, mem: Mem, free: seq<nat>)
    requires TreeInv(m0, role) && p in role && i < ENTRIES && Level(role[p]) > 0 && At(m0, p, i).v
    requires At(m0, p, i).pa in role
    requires Walked(m0, role, p, i, mm, ff, mem, free) && NoLeaves(m0, role, p)
    requires forall q {:trigger Intact(mm, m0, ff, q)} | q in role && Under(role, p, q) :: Intact(mm, m0, ff, q)
    ensures Level(role[At(m0, p, i).pa]) == Level(role[p]) - 1 && NoLeaves(m0, role, At(m0, p, i).pa)
    ensures forall q | q in role && Under(role, At(m0, p, i).pa, q) :: Intact(mem, m0, free, q)
  {
    var child := At(m0, p, i).pa;
    BranchUnder(m0, role, p, i, p);
    forall q | q in role && Under(role, child, q) ensures Under(role, p, q) && Intact(mem, m0, free, q) {
      BranchUnder(m0, role, p, i, q);
      assert Intact(mm, m0, ff, q);
    }
  }

  /** The branch at entry i is gone, and the entry is cleared. */
  lemma BranchWalked(m0: Mem, role: Roles, p: nat, i: nat, mm: Mem, ff: seq<nat>, m1: Mem, f1: seq<nat>, mem: Mem,
                     free: seq<nat>)
    requires TreeInv(m0, role) && p in role && i < ENTRIES && Level(role[p]) > 0 && At(m0, p, i).v
    requires At(m0, p, i).pa in role
    requires Walked(m0, role, p, i, mm, ff, m1, f1) && p !in ff
    requires forall q :: q in free <==> q in f1 || (q in role && Under(role, At(m0, p, i).pa, q))
    requires forall q | q in m1 && !(q in role && Under(role, At(m0, p, i).pa, q)) :: q in mem && mem[q] == m1[q]
    ensures p in mem && mem[p].Table? && |mem[p].pte| == ENTRIES && p !in free
    ensures Walked(m0, role, p, i + 1, mm, ff, mem[p := Table(mem[p].pte[i := 0])], free)
  {
    var child, k := At(m0, p, i).pa, i + 1;
    BranchUnder(m0, role, p, i, p);
    forall q | q in role ensures Done(role, p, k, q) <==> Done(role, p, i, q) || Under(role, child, q) {
      BranchUnder(m0, role, p, i, q);
    }
  }

  lemma SkipWalked(m0: Mem, role: Roles, p: nat, i: nat, mm: Mem, ff: seq<nat>, mem: Mem, free: seq<nat>)
    requires TreeInv(m0, role) && p in role && i < ENTRIES && !At(m0, p, i).v
    requires Walked(m0, role, p, i, mm, ff, mem, free)
    ensures Walked(m0, role, p, i + 1, mm, ff, mem, free)
  {
    var k := i + 1;
    forall q | q in role ensures Done(role, p, k, q) <==> Done(role, p, i, q) { NoBranch(m0, role, p, i, q); }
  }

  /** q belongs to the process whose root table is r. */
  ghost predicate Belongs(role: Roles, r: nat, q: nat)
    requires q in role
  {
    q == r || ((role[q].Mid? || role[q].Low? || role[q].Leaf?) && role[q].root == r)
  }

  ghost predicate Returned(m0: Mem, r0: Roles, m1: Mem, r1: Roles, r: nat, q: nat)
    requires q in r0
  {
    && q in r1 && q in m0 && q in m1
    && if Belongs(r0, r, q) then r1[q] == Free
       else r1[q] == r0[q] && (r0[q].Leaf? || r0[q].Held? ==> m1[q] == m0[q])
  }

  ghost function FreedRoles(role: Roles, r: nat): Roles
    requires r in role
  {
    map q | q in role :: if Under(role, r, q) then Free else role[q]
  }

  lemma AllCleared(m0: Mem, r0: Roles, m1: Mem, r: nat, n: nat, v: Vpn)
    requires IsRoot(r0, r) && Space(m0, r0, r, n) && ClearsRange(m0, m1, r0, r, 0, n) && v.Ok()
    requires forall v: Vpn | v.Ok() && Num(v) >= USERTOP :: !Lookup(m0, r, v).v
    ensures !Lookup(m1, r, v).v
  {
    NumSplit(v);
    assert Lookup(m1, r, v) == ClearedEntry(m0, r, 0, n, r, v);
    if Num(v) < USERTOP { assert SpaceAt(m0, r0, r, n, Num(v)); }
  }

  /** With nothing mapped, the lowest tables hold no entry and no user page is
      owned. */
  lemma EmptyTree(mem: Mem, role: Roles, r: nat)
    requires TreeInv(mem, role) && IsRoot(role, r)
    requires forall v: Vpn | v.Ok() :: !Lookup(mem, r, v).v
    ensures NoLeaves(mem, role, r) && forall q | q in role && role[q].Leaf? :: role[q].root != r
  {
    forall q, i {:trigger At(mem, q, i)} | q in role && role[q].Low? && Under(role, r, q) && 0 <= i < ENTRIES
      ensures !At(mem, q, i).v
    {
      assert BackOk(mem, role, q);
      var v := Vpn(role[q].i2, role[q].i1, i);
      LowHolds(mem, role, r, v, q);
    }
    forall q | q in role && role[q].Leaf? ensures role[q].root != r { assert BackOk(mem, role, q); }
  }

  lemma OwnedBelow(mem: Mem, role: Roles, r: nat, n: nat, q: nat)
    requires TreeInv(mem, role) && IsRoot(role, r) && Space(mem, role, r, n) && q in role && role[q].Leaf?
    requires role[q].root == r
    requires forall v: Vpn | v.Ok() && Num(v) >= USERTOP :: !Lookup(mem, r, v).v
    ensures InRange(role[q], r, 0, n)
  {
    assert BackOk(mem, role, q);
    NumSplit(role[q].v);
    if Num(role[q].v) < USERTOP { assert SpaceAt(mem, role, r, n, Num(role[q].v)); }
  }

  /** With tree r gone, the other trees are as they were. */
  lemma FreedTree(m0: Mem, role: Roles, m1: Mem, r: nat)
    requires TreeInv(m0, role) && IsRoot(role, r)
    requires forall q | q in role && role[q].Leaf? :: role[q].root != r
    requires forall q | q in role && Under(role, r, q) :: q in m1
    requires forall q | q in role && !Under(role, r, q) :: q in m0 ==> q in m1 && m1[q] == m0[q]
    ensures TreeInv(m1, FreedRoles(role, r))
    ensures forall r', v: Vpn | IsRoot(role, r') && r' != r && v.Ok() :: Lookup(m1, r', v) == Lookup(m0, r', v)
  {
    var role' := FreedRoles(role, r);
    forall r', v: Vpn | IsRoot(role, r') && r' != r && v.Ok() ensures Lookup(m1, r', v) == Lookup(m0, r', v) {
      WalkRoles(m0, role, r', v);
      OffTree(m0, role, m1, r, r', v);
    }
    forall q | q in role' ensures Typed(m1, role', q) { assert Typed(m0, role, q); }
    forall q, i | q in role' && 0 <= i < ENTRIES ensures EntryOk(m1, role', q, i) {
      assert Typed(m0, role, q) && EntryOk(m0, role, q, i);
    }
    forall q | q in role' ensures BackOk(m1, role', q) { FreedBack(m0, role, m1, r, q); }
  }

  lemma OffTree(m0: Mem, role: Roles, m1: Mem, r: nat, r': nat, v: Vpn)
    requires TreeInv(m0, role) && IsRoot(role, r) && IsRoot(role, r') && r' != r && v.Ok()
    requires forall q | q in role && !Under(role, r, q) :: q in m0 ==> q in m1 && m1[q] == m0[q]
    ensures At(m1, r', v.i2) == At(m0, r', v.i2)
    ensures var e2 := At(m0, r', v.i2); e2.v ==> At(m1, e2.pa, v.i1) == At(m0, e2.pa, v.i1)
    ensures Lookup(m1, r', v) == Lookup(m0, r', v)
  {
    WalkRoles(m0, role, r', v);
    assert Typed(m0, role, r') && !Under(role, r, r');
    var e2 := At(m0, r', v.i2);
    if e2.v {
      assert Typed(m0, role, e2.pa) && !Under(role, r, e2.pa);
      var e1 := At(m0, e2.pa, v.i1);
      if e1.v { assert Typed(m0, role, e1.pa) && !Under(role, r, e1.pa); }
    }
  }

  lemma FreedBack(m0: Mem, role: Roles, m1: Mem, r: nat, q: nat)
    requires TreeInv(m0, role) && IsRoot(role, r) && q in role
    requires forall p | p in role && role[p].Leaf? :: role[p].root != r
    requires forall p | p in role && !Under(role, r, p) :: p in m0 ==> p in m1 && m1[p] == m0[p]
    ensures BackOk(m1, FreedRoles(role, r), q)
  {
    assert BackOk(m0, role, q);
    if !Under(role, r, q) {
      match role[q]
      case Mid(r', i2) => OffTree(m0, role, m1, r, r', Vpn(i2, 0, 0));
      case Low(r', i2, i1) => OffTree(m0, role, m1, r, r', Vpn(i2, i1, 0));
      case Leaf(r', v) => OffTree(m0, role, m1, r, r', v);
      case _ =>
    }
  }

  /** A zeroed page becomes the root of an empty tree. */
  lemma RootKeeps(mem: Mem, role: Roles, n: nat)
    requires TreeInv(mem, role) && n in role && role[n] == Held
    ensures TreeInv(mem[n := EmptyTable()], role[n := Root]) && SameMaps(mem, mem[n := EmptyTable()], role)
    ensures forall v: Vpn | v.Ok() :: Lookup(mem[n := EmptyTable()], n, v) == NOPTE
    ensures Space(mem[n := EmptyTable()], role[n := Root], n, 0)
  {
    var mem', role' := mem[n := EmptyTable()], role[n := Root];
    OffTreeKeeps(mem, role, n, EmptyTable(), Held);
    assert role[n := Held] == role;
    forall i: nat | i < ENTRIES ensures At(mem', n, i) == NOPTE { RepeatAt<nat>(0, ENTRIES, i); }
    forall p | p in role' ensures Typed(mem', role', p) && BackOk(mem', role', p) {
      assert Typed(mem', role, p) && BackOk(mem', role, p);
    }
    forall p, i | p in role' && 0 <= i < ENTRIES ensures EntryOk(mem', role', p, i) {
      assert EntryOk(mem', role, p, i);
    }
    forall m | 0 <= m < USERTOP ensures SpaceAt(mem', role', n, 0, m) { SplitOk(m); }
  }

  /** The user pages unmapped, and then the tables freed: the whole process is
      returned, and the other trees are as they were. */
  lemma UnmappedThenFreed(m0: Mem, r0: Roles, m1: Mem, r1: Roles, m2: Mem, r: nat, n: nat)
    requires TreeInv(m0, r0) && IsRoot(r0, r) && Space(m0, r0, r, n)
    requires forall v: Vpn | v.Ok() && Num(v) >= USERTOP :: !Lookup(m0, r, v).v
    requires Sheds(m0, r0, m1, r1, r, 0, n) && ClearsRange(m0, m1, r0, r, 0, n) && r in r1
    requires forall q | q in m1 && !(q in r1 && Under(r1, r, q)) :: q in m2 && m2[q] == m1[q]
    requires forall q | q in r1 && Under(r1, r, q) :: q in m2
    requires forall q | q in r1 && r1[q].Leaf? :: r1[q].root != r
    requires forall r', v: Vpn | IsRoot(r1, r') && r' != r && v.Ok() :: Lookup(m2, r', v) == Lookup(m1, r', v)
    ensures FreedRoles(r1, r).Keys == r0.Keys
    ensures forall q | q in r0 :: Returned(m0, r0, m2, FreedRoles(r1, r), r, q)
    ensures forall r', v: Vpn | IsRoot(r0, r') && r' != r && v.Ok() :: Lookup(m2, r', v) == Lookup(m0, r', v)
  {
    var r2 := FreedRoles(r1, r);
    assert r2.Keys == r1.Keys;
    assert ShedAt(m0, r0, m1, r1, r, 0, n, r);
    forall q | q in r0 ensures Returned(m0, r0, m2, r2, r, q) {
      assert ShedAt(m0, r0, m1, r1, r, 0, n, q);
      if r0[q].Leaf? && r0[q].root == r { OwnedBelow(m0, r0, r, n, q); }
    }
    forall r', v: Vpn | IsRoot(r0, r') && r' != r && v.Ok() ensures Lookup(m2, r', v) == Lookup(m0, r', v) {
      assert ShedAt(m0, r0, m1, r1, r, 0, n, r');
      assert Lookup(m1, r', v) == ClearedEntry(m0, r, 0, n, r', v);
    }
  }

  /** One page unmapped, and freed if its owner was the mapping. */
  lemma ShedsOne(m0: Mem, r0: Roles, m1: Mem, r1: Roles, r: nat, n: nat, l: nat, pa: nat, freed: bool)
    requires TreeInv(m0, r0) && MappedAs(m0, r0, r, n, freed) && pa == Lookup(m0, r, Split(n)).pa && l in r0
    requires r0[l].Low?
    requires r1 == if freed then r0[pa := Free] else r0
    requires l in m1 && forall p | p in m0 && p != l && (p != pa || !freed) :: p in m1 && m1[p] == m0[p]
    requires pa in m0 ==> pa in m1
    ensures Sheds(m0, r0, m1, r1, r, n, 1)
  {
    SplitNum(n);
    assert r1.Keys == r0.Keys;
    forall p | p in r0 ensures ShedAt(m0, r0, m1, r1, r, n, 1, p) {
      assert Typed(m0, r0, p);
      if r0[p].Leaf? {
        assert BackOk(m0, r0, p);
        IsSplit(r0[p].v, n);
      }
    }
  }

  lemma GrewKept(m0: Mem, r0: Roles, m1: Mem, r1: Roles, q: nat, i: nat, n: nat)
    requires TreeInv(m0, r0) && CanHang(m1, r1, q, i, n) && n in r0 && r0[n] == Free && r1 == r0[n := Held]
    requires forall p | p in m0 && p != n :: p in m1 && m1[p] == m0[p]
    ensures Grows(m0, r0, Hang(m1, q, i, n), r1[n := ChildRole(r1, q, i)])
  {
    var m2, r2 := Hang(m1, q, i, n), r1[n := ChildRole(r1, q, i)];
    forall p | p in r0 ensures Kept(m0, r0, m2, r2, p) { assert Typed(m0, r0, p); }
  }
}
