/** Types, constants and list facts that several parts of the kernel share. */
module Common {
  datatype Option<T> = None | Some(value: T)

  const U32 := 0x1_0000_0000
  const BSIZE := 1024
  const MAXOPBLOCKS := 10

  type byte = b: int | 0 <= b < 0x100
  type uint32 = v: int | 0 <= v < 0x1_0000_0000

  /** Always true.  A predicate stated as `forall k | Peek(k) :: ...` opens only
      where Peek is asserted, so proofs that hand it on need not look inside. */
  ghost predicate Peek(k: nat) { true }

  /** Conversion to a 32-bit int. */
  function Int32(x: int): (r: int)
    ensures -0x8000_0000 <= r < 0x8000_0000
    ensures -0x8000_0000 <= x < 0x8000_0000 ==> r == x
  {
    if -0x8000_0000 <= x < 0x8000_0000 then x else (x + 0x8000_0000) % 0x1_0000_0000 - 0x8000_0000
  }

  // ----------------------------------------------------------- repetition

  function Repeat<T>(x: T, n: nat): (s: seq<T>)
    ensures |s| == n
  {
    if n == 0 then [] else Repeat(x, n - 1) + [x]
  }

  lemma {:induction false} RepeatAt<T>(x: T, n: nat, i: nat)
    requires i < n
    ensures Repeat(x, n)[i] == x
  {
    if i < n - 1 { RepeatAt(x, n - 1, i); }
  }

  // --------------------------------------------------- lists without repeats

  predicate Distinct<T(==)>(s: seq<T>) {
    s == [] || (s[0] !in s[1..] && Distinct(s[1..]))
  }

  lemma {:induction false} DistinctApart<T>(l: seq<T>, r: seq<T>)
    requires Distinct(l + r)
    ensures Distinct(l) && Distinct(r) && forall x | x in l :: x !in r
  {
    if l == [] {
      assert l + r == r;
    } else {
      assert (l + r)[1..] == l[1..] + r;
      DistinctApart(l[1..], r);
    }
  }

  lemma {:induction false} DistinctJoin<T>(l: seq<T>, r: seq<T>)
    requires Distinct(l) && Distinct(r) && forall x | x in l :: x !in r
    ensures Distinct(l + r)
  {
    if l == [] {
      assert l + r == r;
    } else {
      assert (l + r)[1..] == l[1..] + r;
      DistinctJoin(l[1..], r);
    }
  }

  lemma DistinctParts<T>(l: seq<T>, b: T, r: seq<T>)
    requires Distinct(l + [b] + r)
    ensures Distinct(l) && Distinct(r) && Distinct(l + r)
    ensures b !in l && b !in r && b !in l + r && (forall x | x in l :: x !in r)
    ensures forall x :: x in l + [b] + r <==> x in l + r || x == b
  {
    DistinctApart(l + [b], r);
    DistinctApart(l, [b]);
    assert b in l + [b] && b in [b];
    forall x | x in l ensures x !in r && x != b { assert x in l + [b]; }
    DistinctJoin(l, r);
  }

  lemma {:induction false} DistinctPairs<T>(s: seq<T>)
    ensures Distinct(s) <==> forall i, j | 0 <= i < j < |s| :: s[i] != s[j]
  {
    if s != [] {
      var r := s[1..];
      DistinctPairs(r);
      assert forall i | 0 <= i < |r| :: r[i] == s[i + 1];
      assert (forall i, j | 0 <= i < j < |s| :: s[i] != s[j]) ==> forall i | 0 <= i < |r| :: r[i] != s[0];
    }
  }

  ghost function Elems<T>(s: seq<T>): set<T> { set x | x in s }

  lemma {:induction false} SetOfDistinct<T>(s: seq<T>)
    requires Distinct(s)
    ensures |Elems(s)| == |s|
  {
    if s != [] {
      SetOfDistinct(s[1..]);
      assert Elems(s) == {s[0]} + Elems(s[1..]);
    }
  }

  lemma {:induction false} BelowCard(s: set<nat>, n: nat)
    requires forall x | x in s :: x < n
    ensures |s| <= n
  {
    if n > 0 {
      BelowCard(s - {n - 1}, n - 1);
      if n - 1 in s { assert s == (s - {n - 1}) + {n - 1}; } else { assert s == s - {n - 1}; }
    } else {
      assert s == {};
    }
  }

  /** Distinct numbers below n: at most n of them. */
  lemma DistinctBelow(s: seq<nat>, n: nat)
    requires Distinct(s) && forall x | x in s :: x < n
    ensures |s| <= n
  {
    SetOfDistinct(s);
    BelowCard(Elems(s), n);
  }

  // ------------------------------------------------------------- counting

  lemma SubsetCard(x: set<nat>, y: set<nat>)
    requires x <= y
    ensures |x| <= |y|
  {
    assert y == x + (y - x);
  }

  lemma {:induction false} FreshNat(s: set<nat>) returns (t: nat)
    ensures t !in s
  {
    var n := 0;
    while n in s
      invariant forall x: nat | x < n :: x in s
      decreases |s| - n
    {
      RangeCard(s, n + 1);
      n := n + 1;
    }
    t := n;
  }

  /** A set with every number below n has at least n elements. */
  lemma {:induction false} RangeCard(s: set<nat>, n: nat)
    requires forall x: nat | x < n :: x in s
    ensures |s| >= n
  {
    if n > 0 {
      RangeCard(s - {n - 1}, n - 1);
      assert s == (s - {n - 1}) + {n - 1};
    }
  }

  /** A map has at most as many values as keys, and as many if it is injective. */
  lemma {:induction false} ValuesCard(m: map<nat, nat>)
    ensures |m.Values| <= |m|
    ensures (forall x, y | x in m && y in m && x != y :: m[x] != m[y]) ==> |m.Values| == |m|
    decreases |m|
  {
    if m == map[] {
      assert m.Values == {};
    } else {
      var x :| x in m;
      var r := m - {x};
      assert r.Keys == m.Keys - {x} && |r| == |r.Keys| && |m| == |m.Keys|;
      ValuesCard(r);
      ValuesDrop(m, x);
    }
  }

  lemma ValuesDrop(m: map<nat, nat>, x: nat)
    requires x in m
    ensures m.Values == (m - {x}).Values + {m[x]}
  {
    var r := m - {x};
    forall v | v in m.Values ensures v in r.Values + {m[x]} {
      var y :| y in m && m[y] == v;
      assert y == x || y in r;
    }
    forall v | v in r.Values ensures v in m.Values {
      var y :| y in r && r[y] == v;
      assert y in m;
    }
  }

  // ------------------------------------------------------- wrapping counters

  /** x is q * m + r with 0 <= r < m in one way only. */
  lemma DivIs(x: nat, m: nat, q: nat, r: nat)
    requires m > 0 && x == q * m + r && r < m
    ensures x / m == q && x % m == r
  {
    var d := x / m;
    assert x == d * m + x % m;
    if d < q { Above(m, d, q, x % m, r); }
    if q < d { Above(m, q, d, r, x % m); }
  }

  lemma Above(m: nat, a: nat, b: nat, r: nat, r': nat)
    requires a < b && r < m
    ensures a * m + r < b * m + r'
  {
    assert b * m >= (a + 1) * m == a * m + m;
  }

  lemma ModAdd(m: nat, a: nat, b: nat)
    requires m > 0
    ensures (a * m + b) % m == b % m
  {
    var q, r := b / m, b % m;
    assert a * m + b == (a + q) * m + r;
    DivIs(a * m + b, m, a + q, r);
  }

  /** A counter kept modulo `wrap` indexes a ring of `size` slots like the full
      count, if the ring divides the wrap. */
  lemma RingIndex(x: nat, size: nat, wrap: nat, times: nat)
    requires size > 0 && times > 0 && wrap == size * times
    ensures wrap > 0 && x % wrap % size == x % size && (x % wrap + 1) % wrap == (x + 1) % wrap
  {
    var q, r := x / wrap, x % wrap;
    assert wrap > 0 && x == q * wrap + r;
    assert q * wrap == (q * times) * size;
    ModAdd(size, q * times, r);
    assert x + 1 == q * wrap + (r + 1);
    ModAdd(wrap, q, r + 1);
  }

  /** Fewer than `size` steps apart is a different slot. */
  lemma OtherSlot(k: nat, n: nat, size: nat)
    requires k < n < k + size
    ensures k % size != n % size
  {
    var q, r := k / size, k % size;
    assert k == q * size + r;
    if r + (n - k) < size {
      DivIs(n, size, q, r + (n - k));
    } else {
      assert n == (q + 1) * size + (r + (n - k) - size);
      DivIs(n, size, q + 1, r + (n - k) - size);
    }
  }
}
