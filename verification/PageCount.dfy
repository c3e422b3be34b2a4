/** How many pages an operation on a page table takes from the pool: one for each
    user page, and one for each table that is not there yet. */
module PageCount {
  import opened Common
  import opened Sv39
  import opened PageTree

  /** The tables below the roots that there are. */
  ghost function Tables(role: Roles): set<Role> {
    set p | p in role && (role[p].Mid? || role[p].Low?) :: role[p]
  }

  /** The tables on the way to page v of tree r. */
  ghost function Path(r: nat, v: Vpn): set<Role> { {Mid(r, v.i2), Low(r, v.i2, v.i1)} }

  /** Those on the way to k pages from v0 on. */
  ghost function Paths(r: nat, v0: nat, k: nat): set<Role> {
    if k == 0 then {} else Paths(r, v0, k - 1) + Path(r, Split(v0 + k - 1))
  }

  /** The pages it takes to map k fresh user pages from v0 on. */
  ghost function Needs(role: Roles, r: nat, v0: nat, k: nat): nat { k + |Paths(r, v0, k) - Tables(role)| }

  ghost predicate Takes(r0: Roles, f0: nat, r1: Roles, f1: nat, ts: set<Role>, k: nat) {
    Tables(r1) == Tables(r0) + ts && f1 + k + |ts - Tables(r0)| == f0
  }

  /** From r0 with f0 free pages to r1 with f1, these tables were made sure of and k
      user pages taken.  Closed, as with Peek. */
  ghost predicate TookSet(r0: Roles, f0: nat, r1: Roles, f1: nat, ts: set<Role>, k: nat) {
    forall n: nat {:trigger Peek(n)} | Peek(n) :: Takes(r0, f0, r1, f1, ts, k)
  }

  /** Fewer than f0 free pages would do. */
  ghost predicate LacksSet(r0: Roles, f0: nat, ts: set<Role>, k: nat) {
    forall n: nat {:trigger Peek(n)} | Peek(n) :: f0 < k + |ts - Tables(r0)|
  }

  lemma TookNothing(r0: Roles, f0: nat)
    ensures TookSet(r0, f0, r0, f0, {}, 0)
  {
    assert {} - Tables(r0) == {};
  }

  lemma CardMore(x: set<Role>, y: set<Role>)
    ensures |x + y| == |x| + |y - x|
  {
    assert x + y == x + (y - x);
  }

  lemma CardLess(x: set<Role>, y: set<Role>)
    requires x <= y
    ensures |x| <= |y|
  {
    assert y == x + (y - x);
  }

  lemma SplitMissing(t: set<Role>, x: set<Role>, y: set<Role>)
    ensures |(x + y) - t| == |x - t| + |y - (t + x)| && t + (x + y) == t + x + y
  {
    CardMore(x - t, y - t);
    assert (x + y) - t == (x - t) + (y - t) && (y - t) - (x - t) == y - (t + x);
  }

  lemma OneMissing(t: set<Role>, ts: set<Role>, x: Role)
    ensures |ts + {x} - t| == |ts - t| + if x in t + ts then 0 else 1
    ensures x in t + ts ==> t + (ts + {x}) == t + ts
  {
    if x in t + ts {
      assert ts + {x} - t == ts - t;
    } else {
      assert ts + {x} - t == (ts - t) + {x};
    }
  }

  lemma TookTrans(r0: Roles, f0: nat, r1: Roles, f1: nat, r2: Roles, f2: nat, x: set<Role>, y: set<Role>,
    a: nat, b: nat)
    requires TookSet(r0, f0, r1, f1, x, a) && TookSet(r1, f1, r2, f2, y, b)
    ensures TookSet(r0, f0, r2, f2, x + y, a + b)
  {
    assert Peek(0);
    SplitMissing(Tables(r0), x, y);
  }

  /** A step that fails for want of pages fails the whole. */
  lemma LacksThen(r0: Roles, f0: nat, r1: Roles, f1: nat, x: set<Role>, y: set<Role>, z: set<Role>,
    a: nat, b: nat, c: nat)
    requires TookSet(r0, f0, r1, f1, x, a) && LacksSet(r1, f1, y, b) && x + y <= z && a + b <= c
    ensures LacksSet(r0, f0, z, c)
  {
    assert Peek(0);
    SplitMissing(Tables(r0), x, y);
    CardLess(x + y - Tables(r0), z - Tables(r0));
  }

  /** A free page becomes the table x. */
  lemma TookTable(r0: Roles, f0: nat, r1: Roles, n: nat, x: Role)
    requires n in r0 && r0[n] == Free && (x.Mid? || x.Low?) && r1 == r0[n := x] && x !in Tables(r0) && f0 > 0
    ensures TookSet(r0, f0, r1, f0 - 1, {x}, 0)
  {
    assert r1[n] == x;
    forall y ensures y in Tables(r1) <==> y in Tables(r0) + {x} {
      if y in Tables(r0) {
        var p :| p in r0 && (r0[p].Mid? || r0[p].Low?) && r0[p] == y;
        assert p in r1 && r1[p] == y;
      }
    }
    assert {x} - Tables(r0) == {x};
  }

  lemma TookPresent(r0: Roles, f0: nat, r1: Roles, f1: nat, ts: set<Role>, k: nat, x: Role)
    requires TookSet(r0, f0, r1, f1, ts, k) && x in Tables(r1)
    ensures TookSet(r0, f0, r1, f1, ts + {x}, k)
  {
    assert Peek(0);
    OneMissing(Tables(r0), ts, x);
  }

  lemma LacksTable(r0: Roles, f0: nat, r1: Roles, ts: set<Role>, x: Role)
    requires TookSet(r0, f0, r1, 0, ts, 0) && x !in Tables(r1)
    ensures LacksSet(r0, f0, ts + {x}, 0)
  {
    assert Peek(0);
    OneMissing(Tables(r0), ts, x);
  }

  /** A page that is no table before or after. */
  lemma SameTables(r0: Roles, r1: Roles, n: nat)
    requires n in r0 && n in r1 && r1 == r0[n := r1[n]] && !r0[n].Mid? && !r0[n].Low? && !r1[n].Mid? && !r1[n].Low?
    ensures Tables(r1) == Tables(r0)
  {
    forall y | y in Tables(r0) ensures y in Tables(r1) {
      var p :| p in r0 && (r0[p].Mid? || r0[p].Low?) && r0[p] == y;
      assert p in r1 && r1[p] == y;
    }
  }

  lemma {:induction false} PathsMore(r: nat, v0: nat, j: nat, k: nat)
    requires j <= k
    ensures Paths(r, v0, j) <= Paths(r, v0, k)
    decreases k - j
  {
    if j < k { PathsMore(r, v0, j + 1, k); }
  }

  /** Three pages for each user page are always enough. */
  lemma {:induction false} PathsFew(r: nat, v0: nat, k: nat)
    ensures |Paths(r, v0, k)| <= 2 * k
  {
    if k > 0 {
      PathsFew(r, v0, k - 1);
      var p := Path(r, Split(v0 + k - 1));
      CardMore(Paths(r, v0, k - 1), p);
      assert p == {Mid(r, Split(v0 + k - 1).i2)} + {Low(r, Split(v0 + k - 1).i2, Split(v0 + k - 1).i1)};
      CardLess(p - Paths(r, v0, k - 1), p);
    }
  }

  lemma NeedsFew(role: Roles, r: nat, v0: nat, k: nat)
    ensures Needs(role, r, v0, k) <= 3 * k
  {
    PathsFew(r, v0, k);
    CardLess(Paths(r, v0, k) - Tables(role), Paths(r, v0, k));
  }

  /** An entry that is not valid has no table, and one that is has its table. */
  lemma MidThere(mem: Mem, role: Roles, r: nat, i: nat)
    requires TreeInv(mem, role) && IsRoot(role, r) && i < ENTRIES
    ensures At(mem, r, i).v <==> Mid(r, i) in Tables(role)
  {
    assert EntryOk(mem, role, r, i);
    if Mid(r, i) in Tables(role) {
      var p :| p in role && (role[p].Mid? || role[p].Low?) && role[p] == Mid(r, i);
      assert BackOk(mem, role, p);
    }
  }

  lemma LowThere(mem: Mem, role: Roles, m: nat, i: nat)
    requires TreeInv(mem, role) && m in role && role[m].Mid? && i < ENTRIES
    ensures At(mem, m, i).v <==> Low(role[m].root, role[m].i2, i) in Tables(role)
  {
    var x := Low(role[m].root, role[m].i2, i);
    assert EntryOk(mem, role, m, i) && BackOk(mem, role, m);
    if x in Tables(role) {
      var p :| p in role && (role[p].Mid? || role[p].Low?) && role[p] == x;
      assert BackOk(mem, role, p);
    }
  }

  lemma ChildThere(mem: Mem, role: Roles, q: nat, i: nat)
    requires TreeInv(mem, role) && q in role && (role[q].Root? || role[q].Mid?) && i < ENTRIES
    ensures At(mem, q, i).v <==> ChildRole(role, q, i) in Tables(role)
  {
    if role[q].Root? { MidThere(mem, role, q, i); } else { LowThere(mem, role, q, i); }
  }

  /** The tables below the root and above level l on the way to page v. */
  ghost function Through(r: nat, v: Vpn, l: nat): set<Role> {
    if l == 2 then {} else if l == 1 then {Mid(r, v.i2)} else Path(r, v)
  }

  lemma ThroughNext(r: nat, v: Vpn)
    ensures Through(r, v, 2) + {Mid(r, v.i2)} == Through(r, v, 1)
    ensures Through(r, v, 1) + {Low(r, v.i2, v.i1)} == Through(r, v, 0)
  {
  }

  /** walk finds no page for the table below level l. */
  lemma WalkLacks(r0: Roles, f0: nat, r1: Roles, r: nat, n: nat, l: nat)
    requires 1 <= l <= 2 && TookSet(r0, f0, r1, 0, Through(r, Split(n), l), 0)
    requires var v := Split(n); (if l == 2 then Mid(r, v.i2) else Low(r, v.i2, v.i1)) !in Tables(r1)
    ensures Lacks(r0, f0, r, n, 1, 0)
  {
    var v := Split(n);
    ThroughNext(r, v);
    LacksTable(r0, f0, r1, Through(r, v, l), if l == 2 then Mid(r, v.i2) else Low(r, v.i2, v.i1));
    OnePath(r, n);
    assert Peek(0);
    CardLess(Through(r, v, l - 1) - Tables(r0), Path(r, v) - Tables(r0));
  }

  lemma WalkTook(r0: Roles, f0: nat, r1: Roles, f1: nat, r: nat, n: nat)
    requires TookSet(r0, f0, r1, f1, Through(r, Split(n), 0), 0)
    ensures Took(r0, f0, r1, f1, r, n, 1, 0)
  {
    OnePath(r, n);
    assert Peek(0);
  }

  lemma OnePath(r: nat, n: nat)
    ensures Paths(r, n, 1) == Path(r, Split(n))
  {
    assert Paths(r, n, 0) == {};
  }

  // ------------------------------------------------------- runs of user pages

  /** From r0 with f0 free pages to r1 with f1, the tables for pages v0 up to v0 + k
      of tree r were made sure of, and a user pages taken.  Closed, as with Peek. */
  ghost predicate Took(r0: Roles, f0: nat, r1: Roles, f1: nat, r: nat, v0: nat, k: nat, a: nat) {
    forall n: nat {:trigger Peek(n)} | Peek(n) :: Takes(r0, f0, r1, f1, Paths(r, v0, k), a)
  }

  /** f0 free pages are too few for that. */
  ghost predicate Lacks(r0: Roles, f0: nat, r: nat, v0: nat, k: nat, a: nat) {
    forall n: nat {:trigger Peek(n)} | Peek(n) :: f0 < a + |Paths(r, v0, k) - Tables(r0)|
  }

  lemma TookNone(r0: Roles, f0: nat, r: nat, v0: nat)
    ensures Took(r0, f0, r0, f0, r, v0, 0, 0)
  {
    TookNothing(r0, f0);
    assert Peek(0);
  }

  lemma TookSets(r0: Roles, f0: nat, r1: Roles, f1: nat, r: nat, v0: nat, k: nat, a: nat)
    ensures Took(r0, f0, r1, f1, r, v0, k, a) <==> TookSet(r0, f0, r1, f1, Paths(r, v0, k), a)
  {
    assert Peek(0);
  }

  lemma LacksSets(r0: Roles, f0: nat, r: nat, v0: nat, k: nat, a: nat)
    ensures Lacks(r0, f0, r, v0, k, a) <==> LacksSet(r0, f0, Paths(r, v0, k), a)
  {
    assert Peek(0);
  }

  /** Page n more, after the k pages up to it with a user pages taken. */
  lemma TookNext(r0: Roles, f0: nat, r1: Roles, f1: nat, r2: Roles, f2: nat, r: nat, v0: nat, k: nat, n: nat, a: nat,
                 b: nat, c: nat)
    requires Took(r0, f0, r1, f1, r, v0, k, a) && Took(r1, f1, r2, f2, r, n, 1, b) && n == v0 + k && c == a + b
    ensures Took(r0, f0, r2, f2, r, v0, k + 1, c)
  {
    var x, y := Paths(r, v0, k), Path(r, Split(n));
    OnePath(r, n);
    assert Paths(r, v0, k + 1) == x + y;
    TookSets(r0, f0, r1, f1, r, v0, k, a);
    TookSets(r1, f1, r2, f2, r, n, 1, b);
    TookTrans(r0, f0, r1, f1, r2, f2, x, y, a, b);
    TookSets(r0, f0, r2, f2, r, v0, k + 1, c);
  }

  /** Page n cannot be had, and so not np pages with c user pages. */
  lemma LacksNext(r0: Roles, f0: nat, r1: Roles, f1: nat, r: nat, v0: nat, k: nat, n: nat, a: nat, b: nat, np: nat,
                  c: nat)
    requires Took(r0, f0, r1, f1, r, v0, k, a) && Lacks(r1, f1, r, n, 1, b) && n == v0 + k < v0 + np && a + b <= c
    ensures Lacks(r0, f0, r, v0, np, c)
  {
    var x, y, z := Paths(r, v0, k), Path(r, Split(n)), Paths(r, v0, np);
    OnePath(r, n);
    PathsMore(r, v0, k + 1, np);
    TookSets(r0, f0, r1, f1, r, v0, k, a);
    LacksSets(r1, f1, r, n, 1, b);
    LacksThen(r0, f0, r1, f1, x, y, z, a, b, c);
    LacksSets(r0, f0, r, v0, np, c);
  }

  /** A user page was taken first, and then the tables. */
  lemma TookLeaf(r0: Roles, f0: nat, r1: Roles, r2: Roles, f2: nat, r3: Roles, r: nat, n: nat)
    requires f0 > 0 && Tables(r1) == Tables(r0) && Took(r1, f0 - 1, r2, f2, r, n, 1, 0) && Tables(r3) == Tables(r2)
    ensures Took(r0, f0, r3, f2, r, n, 1, 1)
  {
    assert Peek(0);
  }

  lemma LacksLeaf(r0: Roles, f0: nat, r1: Roles, r: nat, n: nat)
    requires f0 > 0 && Tables(r1) == Tables(r0) && Lacks(r1, f0 - 1, r, n, 1, 0)
    ensures Lacks(r0, f0, r, n, 1, 1)
  {
    assert Peek(0);
  }

  lemma LacksEmpty(r0: Roles, r: nat, n: nat)
    ensures Lacks(r0, 0, r, n, 1, 1)
  {
  }

  lemma TookNotLacks(r0: Roles, f0: nat, r1: Roles, f1: nat, r: nat, v0: nat, k: nat, a: nat)
    requires Took(r0, f0, r1, f1, r, v0, k, a)
    ensures !Lacks(r0, f0, r, v0, k, a)
  {
    assert Peek(0);
  }

  lemma TookNeeds(r0: Roles, f0: nat, r1: Roles, f1: nat, r: nat, v0: nat, k: nat)
    requires Took(r0, f0, r1, f1, r, v0, k, k)
    ensures f1 + Needs(r0, r, v0, k) == f0
  {
    assert Peek(0);
  }

  lemma LacksNeeds(r0: Roles, f0: nat, r: nat, v0: nat, k: nat)
    ensures Lacks(r0, f0, r, v0, k, k) <==> f0 < Needs(r0, r, v0, k)
  {
    assert Peek(0);
  }
}
