/** Three levels of page-table pages in physical memory.  Every page of the
    pool has exactly one role, so free pages, table pages and user pages
    partition the pool, and a table page belongs to one slot of one tree. */
module PageTree {
  import opened Common
  import opened Sv39

  /** What a physical page holds, by its use: a free-list link, 512 encoded
      entries, or data. */
  datatype Page = Link(next: nat) | Table(pte: seq<nat>) | Data(words: seq<nat>)

  type Mem = map<nat, Page>

  datatype Role =
    | Free
    | Held                            // handed out by kalloc, outside every tree
    | Root
    | Mid(root: nat, i2: nat)
    | Low(root: nat, i2: nat, i1: nat)
    | Leaf(root: nat, v: Vpn)         // a user page mapped at v

  type Roles = map<nat, Role>

  /** A zeroed page, used as a table. */
  function EmptyTable(): Page { Table(Repeat<nat>(0, ENTRIES)) }

  /** Entry i of table p. */
  function At(mem: Mem, p: nat, i: nat): Pte {
    if p in mem && mem[p].Table? && i < |mem[p].pte| then Decode(mem[p].pte[i]) else NOPTE
  }

  /** The flat map a tree denotes: the entry for each page number. */
  function Lookup(mem: Mem, r: nat, v: Vpn): Pte {
    var e2 := At(mem, r, v.i2);
    if !e2.v then NOPTE
    else
      var e1 := At(mem, e2.pa, v.i1);
      if !e1.v then NOPTE else At(mem, e1.pa, v.i0)
  }

  function Put(mem: Mem, p: nat, i: nat, e: Pte): Mem
    requires p in mem && mem[p].Table? && i < |mem[p].pte|
  {
    mem[p := Table(mem[p].pte[i := Encode(e)])]
  }

  lemma PutAt(mem: Mem, p: nat, i: nat, e: Pte, q: nat, j: nat)
    requires p in mem && mem[p].Table? && i < |mem[p].pte| && e.Ok()
    ensures At(Put(mem, p, i, e), q, j) == if q == p && j == i then e else At(mem, q, j)
  {
    EntryDecodes(e);
  }

  // -------------------------------------------------------------- invariant

  ghost predicate Typed(mem: Mem, role: Roles, p: nat)
    requires p in role
  {
    && p in mem
    && (role[p].Root? || role[p].Mid? || role[p].Low? ==> mem[p].Table? && |mem[p].pte| == ENTRIES)
    && (role[p].Leaf? ==> mem[p].Data?)
  }

  /** A valid entry of an upper table names the table page of that slot; a
      valid entry of a lowest table is a leaf; an invalid entry is zero. */
  ghost predicate EntryOk(mem: Mem, role: Roles, p: nat, i: nat)
    requires p in role
  {
    var e := At(mem, p, i);
    match role[p]
    case Root => if e.v then e.rwx == 0 && e.pa in role && role[e.pa] == Mid(p, i) else e == NOPTE
    case Mid(r, i2) => if e.v then e.rwx == 0 && e.pa in role && role[e.pa] == Low(r, i2, i) else e == NOPTE
    case Low(_, _, _) => LeafEntry(e)
    case _ => true
  }

  predicate LeafEntry(e: Pte) { if e.v then e.rwx != 0 else e == NOPTE }

  /** A table or user page is reached through its slot. */
  ghost predicate BackOk(mem: Mem, role: Roles, p: nat)
    requires p in role
  {
    match role[p]
    case Mid(r, i2) => i2 < ENTRIES && r in role && role[r] == Root && At(mem, r, i2).v && At(mem, r, i2).pa == p
    case Low(r, i2, i1) =>
      && i2 < ENTRIES && i1 < ENTRIES && r in role && role[r] == Root && At(mem, r, i2).v
      && At(mem, At(mem, r, i2).pa, i1).v && At(mem, At(mem, r, i2).pa, i1).pa == p
    case Leaf(r, v) => v.Ok() && r in role && role[r] == Root && Lookup(mem, r, v).v && Lookup(mem, r, v).pa == p
    case _ => true
  }

  ghost predicate TreeInv(mem: Mem, role: Roles) {
    && (forall p {:trigger Typed(mem, role, p)} | p in role :: Typed(mem, role, p))
    && (forall p, i {:trigger EntryOk(mem, role, p, i)} | p in role && 0 <= i < ENTRIES :: EntryOk(mem, role, p, i))
    && (forall p {:trigger BackOk(mem, role, p)} | p in role :: BackOk(mem, role, p))
  }

  ghost predicate IsRoot(role: Roles, r: nat) { r in role && role[r] == Root }

  /** The table page that holds the entry for v, if it exists. */
  ghost predicate LowPage(mem: Mem, role: Roles, r: nat, v: Vpn, l: nat) {
    && v.Ok() && IsRoot(role, r) && l in role && role[l] == Low(r, v.i2, v.i1)
  }

  lemma WalkRoles(mem: Mem, role: Roles, r: nat, v: Vpn)
    requires TreeInv(mem, role) && IsRoot(role, r) && v.Ok()
    ensures At(mem, r, v.i2).v ==>
      && At(mem, r, v.i2).pa in role && role[At(mem, r, v.i2).pa] == Mid(r, v.i2)
      && (At(mem, At(mem, r, v.i2).pa, v.i1).v ==>
            && At(mem, At(mem, r, v.i2).pa, v.i1).pa in role
            && role[At(mem, At(mem, r, v.i2).pa, v.i1).pa] == Low(r, v.i2, v.i1))
  {
    assert EntryOk(mem, role, r, v.i2);
    var e2 := At(mem, r, v.i2);
    if e2.v { assert EntryOk(mem, role, e2.pa, v.i1); }
  }

  lemma LowHolds(mem: Mem, role: Roles, r: nat, v: Vpn, l: nat)
    requires TreeInv(mem, role) && LowPage(mem, role, r, v, l)
    ensures Lookup(mem, r, v) == At(mem, l, v.i0)
    ensures l in mem && mem[l].Table? && |mem[l].pte| == ENTRIES
  {
    assert BackOk(mem, role, l) && Typed(mem, role, l);
  }

  lemma NoneIsZero(mem: Mem, role: Roles, r: nat, v: Vpn)
    requires TreeInv(mem, role) && IsRoot(role, r) && v.Ok()
    ensures !Lookup(mem, r, v).v ==> Lookup(mem, r, v) == NOPTE
  {
    WalkRoles(mem, role, r, v);
    var e2 := At(mem, r, v.i2);
    if e2.v && At(mem, e2.pa, v.i1).v { assert EntryOk(mem, role, At(mem, e2.pa, v.i1).pa, v.i0); }
  }

  // ------------------------------------------------------- writing one entry

  /** Distinct pages never share an entry: a store into the entry for (r, v)
      changes the map at (r, v) and nowhere else, in this tree or any other. */
  lemma PutLookup(mem: Mem, role: Roles, r: nat, v: Vpn, l: nat, e: Pte, r': nat, v': Vpn)
    requires TreeInv(mem, role) && LowPage(mem, role, r, v, l) && IsRoot(role, r') && v'.Ok() && e.Ok()
    requires l in mem && mem[l].Table? && |mem[l].pte| == ENTRIES
    ensures Lookup(Put(mem, l, v.i0, e), r', v') == if r' == r && v' == v then e else Lookup(mem, r', v')
  {
    WalkRoles(mem, role, r', v');
    assert BackOk(mem, role, l);
    var e2 := At(mem, r', v'.i2);
    PutAt(mem, l, v.i0, e, r', v'.i2);
    PutAt(mem, l, v.i0, e, e2.pa, v'.i1);
    PutAt(mem, l, v.i0, e, At(mem, e2.pa, v'.i1).pa, v'.i0);
  }

  lemma PutTyped(mem: Mem, role: Roles, l: nat, i: nat, e: Pte)
    requires TreeInv(mem, role) && l in role && role[l].Low? && i < ENTRIES && LeafEntry(e) && e.Ok()
    requires l in mem && mem[l].Table? && |mem[l].pte| == ENTRIES
    ensures var mem' := Put(mem, l, i, e);
      && (forall p | p in role :: Typed(mem', role, p))
      && (forall p, j | p in role && 0 <= j < ENTRIES :: EntryOk(mem', role, p, j))
  {
    var mem' := Put(mem, l, i, e);
    forall p | p in role ensures Typed(mem', role, p) { assert Typed(mem, role, p); }
    forall p, j | p in role && 0 <= j < ENTRIES ensures EntryOk(mem', role, p, j) {
      assert EntryOk(mem, role, p, j);
      PutAt(mem, l, i, e, p, j);
    }
  }

  /** A leaf entry may be stored or cleared while no user page is owned through
      it. */
  lemma PutKeeps(mem: Mem, role: Roles, r: nat, v: Vpn, l: nat, e: Pte)
    requires TreeInv(mem, role) && LowPage(mem, role, r, v, l) && LeafEntry(e) && e.Ok()
    requires l in mem && mem[l].Table? && |mem[l].pte| == ENTRIES
    requires forall p | p in role :: role[p] != Leaf(r, v)
    ensures TreeInv(Put(mem, l, v.i0, e), role)
  {
    var mem' := Put(mem, l, v.i0, e);
    PutTyped(mem, role, l, v.i0, e);
    forall p | p in role ensures BackOk(mem', role, p) {
      assert BackOk(mem, role, p);
      match role[p]
      case Leaf(r', v') => PutLookup(mem, role, r, v, l, e, r', v');
      case Mid(r', i2') => PutAt(mem, l, v.i0, e, r', i2');
      case Low(r', i2', i1') =>
        WalkRoles(mem, role, r', Vpn(i2', i1', 0));
        PutAt(mem, l, v.i0, e, r', i2');
        PutAt(mem, l, v.i0, e, At(mem, r', i2').pa, i1');
      case _ =>
    }
  }

  // ------------------------------------------------------------ role changes

  /** A mapped page becomes owned by its mapping, or stops being so. */
  lemma OwnKeeps(mem: Mem, role: Roles, p: nat, r: nat, v: Vpn)
    requires TreeInv(mem, role) && p in role && role[p] == Held && p in mem && mem[p].Data?
    requires IsRoot(role, r) && v.Ok() && Lookup(mem, r, v).v && Lookup(mem, r, v).pa == p
    ensures TreeInv(mem, role[p := Leaf(r, v)])
  {
    OffTreeKeeps(mem, role, p, mem[p], Leaf(r, v));
    assert mem[p := mem[p]] == mem;
  }

  /** A page outside the tables may change its contents and its role. */
  lemma OffTreeKeeps(mem: Mem, role: Roles, p: nat, page: Page, now: Role)
    requires TreeInv(mem, role) && p in role && !role[p].Root? && !role[p].Mid? && !role[p].Low?
    requires now.Free? || now.Held? || (now.Leaf? && page.Data? && now.v.Ok() && IsRoot(role, now.root) &&
      Lookup(mem, now.root, now.v).v && Lookup(mem, now.root, now.v).pa == p)
    ensures TreeInv(mem[p := page], role[p := now])
    ensures forall r, v: Vpn | IsRoot(role, r) && v.Ok() :: Lookup(mem[p := page], r, v) == Lookup(mem, r, v)
  {
    var mem', role' := mem[p := page], role[p := now];
    forall r, v: Vpn | IsRoot(role, r) && v.Ok() ensures Lookup(mem', r, v) == Lookup(mem, r, v) {
      WalkRoles(mem, role, r, v);
    }
    forall q | q in role' ensures Typed(mem', role', q) { assert Typed(mem, role, q); }
    forall q, i | q in role' && 0 <= i < ENTRIES ensures EntryOk(mem', role', q, i) {
      if q != p { assert EntryOk(mem, role, q, i); }
    }
    forall q | q in role' ensures BackOk(mem', role', q) {
      assert BackOk(mem, role, q);
      if q != p && role[q].Low? { WalkRoles(mem, role, role[q].root, Vpn(role[q].i2, role[q].i1, 0)); }
    }
  }

  // --------------------------------------------------------- new table pages

  ghost function ChildRole(role: Roles, q: nat, i: nat): Role
    requires q in role && (role[q].Root? || role[q].Mid?)
  {
    if role[q].Root? then Mid(q, i) else Low(role[q].root, role[q].i2, i)
  }

  /** The store that hangs the zeroed page n in an empty slot of table q. */
  function Hang(mem: Mem, q: nat, i: nat, n: nat): Mem
    requires q in mem && mem[q].Table? && i < |mem[q].pte| && q != n
  {
    Put(mem[n := EmptyTable()], q, i, Pte(n, true, 0, 0))
  }

  ghost predicate CanHang(mem: Mem, role: Roles, q: nat, i: nat, n: nat) {
    && TreeInv(mem, role)
    && q in role && (role[q].Root? || role[q].Mid?) && q in mem && mem[q].Table? && |mem[q].pte| == ENTRIES
    && i < ENTRIES && !At(mem, q, i).v
    && n in role && role[n] == Held && n % PGSIZE == 0
  }

  lemma HangAt(mem: Mem, role: Roles, q: nat, i: nat, n: nat, p: nat, j: nat)
    requires CanHang(mem, role, q, i, n)
    ensures At(Hang(mem, q, i, n), p, j) ==
      if p == n then NOPTE else if p == q && j == i then Pte(n, true, 0, 0) else At(mem, p, j)
  {
    PutAt(mem[n := EmptyTable()], q, i, Pte(n, true, 0, 0), p, j);
    if p == n && j < ENTRIES { RepeatAt<nat>(0, ENTRIES, j); }
  }

  /** Growing the tree leaves every tree's map unchanged. */
  lemma HangLookup(mem: Mem, role: Roles, q: nat, i: nat, n: nat, r: nat, v: Vpn)
    requires CanHang(mem, role, q, i, n) && IsRoot(role, r) && v.Ok()
    ensures Lookup(Hang(mem, q, i, n), r, v) == Lookup(mem, r, v)
  {
    WalkRoles(mem, role, r, v);
    var e2 := At(mem, r, v.i2);
    HangAt(mem, role, q, i, n, r, v.i2);
    HangAt(mem, role, q, i, n, e2.pa, v.i1);
    HangAt(mem, role, q, i, n, At(mem, e2.pa, v.i1).pa, v.i0);
    HangAt(mem, role, q, i, n, n, v.i1);
    HangAt(mem, role, q, i, n, n, v.i0);
  }

  lemma HangBack(mem: Mem, role: Roles, q: nat, i: nat, n: nat, p: nat)
    requires CanHang(mem, role, q, i, n) && p in role
    ensures BackOk(Hang(mem, q, i, n), role[n := ChildRole(role, q, i)], p)
  {
    var mem' := Hang(mem, q, i, n);
    assert BackOk(mem, role, p) && BackOk(mem, role, q);
    HangAt(mem, role, q, i, n, q, i);
    if p == n {
      if role[q].Mid? { HangAt(mem, role, q, i, n, role[q].root, role[q].i2); }
    } else {
      match role[p]
      case Mid(r, i2) => HangAt(mem, role, q, i, n, r, i2);
      case Low(r, i2, i1) =>
        WalkRoles(mem, role, r, Vpn(i2, i1, 0));
        HangAt(mem, role, q, i, n, r, i2);
        HangAt(mem, role, q, i, n, At(mem, r, i2).pa, i1);
      case Leaf(r, v) => HangLookup(mem, role, q, i, n, r, v);
      case _ =>
    }
  }

  lemma HangKeeps(mem: Mem, role: Roles, q: nat, i: nat, n: nat)
    requires CanHang(mem, role, q, i, n)
    ensures TreeInv(Hang(mem, q, i, n), role[n := ChildRole(role, q, i)])
  {
    var mem', role' := Hang(mem, q, i, n), role[n := ChildRole(role, q, i)];
    forall p | p in role' ensures Typed(mem', role', p) { assert Typed(mem, role, p); }
    forall p, j | p in role' && 0 <= j < ENTRIES ensures EntryOk(mem', role', p, j) {
      HangAt(mem, role, q, i, n, p, j);
      assert EntryOk(mem, role, p, j);
    }
    forall p | p in role' ensures BackOk(mem', role', p) { HangBack(mem, role, q, i, n, p); }
  }
}
