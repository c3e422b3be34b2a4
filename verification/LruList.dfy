/** A circular doubly linked list threaded through arrays of indices, with a
    header node, as the buffer cache keeps its buffers (kernel/bio.c). */
module LruList {
  import opened Common

  ghost predicate LinkAt(next: seq<nat>, prev: seq<nat>, a: nat, b: nat) {
    a < |next| && b < |prev| && next[a] == b && prev[b] == a
  }

  /** From a through the nodes s to c, consistently in both directions. */
  ghost predicate Path(next: seq<nat>, prev: seq<nat>, a: nat, s: seq<nat>, c: nat)
    decreases |s|
  {
    if s == [] then LinkAt(next, prev, a, c) else LinkAt(next, prev, a, s[0]) && Path(next, prev, s[0], s[1..], c)
  }

  function Last(a: nat, s: seq<nat>): nat { if s == [] then a else s[|s| - 1] }

  function First(s: seq<nat>, c: nat): nat { if s == [] then c else s[0] }

  lemma {:induction false} PathSplit(next: seq<nat>, prev: seq<nat>, a: nat, l: seq<nat>, b: nat, r: seq<nat>, c: nat)
    ensures Path(next, prev, a, l + [b] + r, c) <==> Path(next, prev, a, l, b) && Path(next, prev, b, r, c)
    decreases |l|
  {
    if l == [] {
      assert l + [b] + r == [b] + r && ([b] + r)[1..] == r;
    } else {
      assert (l + [b] + r)[1..] == l[1..] + [b] + r;
      PathSplit(next, prev, l[0], l[1..], b, r, c);
    }
  }

  lemma {:induction false} PathEnds(next: seq<nat>, prev: seq<nat>, a: nat, s: seq<nat>, c: nat)
    requires Path(next, prev, a, s, c)
    ensures a < |next| && First(s, c) < |prev| && next[a] == First(s, c)
    ensures c < |prev| && Last(a, s) < |next| && prev[c] == Last(a, s)
    decreases |s|
  {
    if s != [] { PathEnds(next, prev, s[0], s[1..], c); }
  }

  lemma PathStep(next: seq<nat>, prev: seq<nat>, a: nat, s: seq<nat>, c: nat, i: nat)
    requires Path(next, prev, a, s, c) && i < |s|
    ensures s[i] < |next| && s[i] < |prev|
    ensures next[s[i]] == if i + 1 < |s| then s[i + 1] else c
    ensures prev[s[i]] == if i == 0 then a else s[i - 1]
  {
    assert s == s[..i] + [s[i]] + s[i + 1..];
    PathSplit(next, prev, a, s[..i], s[i], s[i + 1..], c);
    PathEnds(next, prev, a, s[..i], s[i]);
    PathEnds(next, prev, s[i], s[i + 1..], c);
  }

  lemma {:induction false} PathFrame(next: seq<nat>, prev: seq<nat>, next': seq<nat>, prev': seq<nat>, a: nat,
                                     s: seq<nat>, c: nat)
    requires Path(next, prev, a, s, c) && |next'| == |next| && |prev'| == |prev|
    requires forall x | 0 <= x < |next| && (x == a || x in s) :: next'[x] == next[x]
    requires forall x | 0 <= x < |prev| && (x == c || x in s) :: prev'[x] == prev[x]
    ensures Path(next', prev', a, s, c)
    decreases |s|
  {
    if s != [] { PathFrame(next, prev, next', prev', s[0], s[1..], c); }
  }

  /** Redirecting the end of a path. */
  lemma {:induction false} Retarget(next: seq<nat>, prev: seq<nat>, a: nat, l: seq<nat>, b: nat, y: nat)
    requires Path(next, prev, a, l, b) && Distinct(l) && a !in l && y !in l && y < |prev| && Last(a, l) < |next|
    ensures Path(next[Last(a, l) := y], prev[y := Last(a, l)], a, l, y)
    decreases |l|
  {
    if l != [] {
      assert Last(l[0], l[1..]) == Last(a, l) && (l[1..] != [] ==> Last(a, l) in l[1..]);
      Retarget(next, prev, l[0], l[1..], b, y);
    }
  }

  /** The first two stores of brelse's move take b out of the list. */
  lemma Unlink(next: seq<nat>, prev: seq<nat>, h: nat, l: seq<nat>, b: nat, r: seq<nat>)
    requires Path(next, prev, h, l, b) && Path(next, prev, b, r, h)
    requires Distinct(l) && Distinct(r) && h !in l && h !in r && (forall x | x in l :: x !in r) && b !in r
    ensures b < |next| && b < |prev| && prev[b] < |next| && next[b] < |prev|
    ensures Path(next[prev[b] := next[b]], prev[next[b] := prev[b]], h, l + r, h)
  {
    PathEnds(next, prev, h, l, b);
    PathEnds(next, prev, b, r, h);
    var x, y := prev[b], next[b];
    Retarget(next, prev, h, l, b, y);
    if r == [] {
      assert l + r == l;
    } else {
      assert x == h || x in l;
      assert x !in r && y == r[0] && y !in r[1..];
      PathFrame(next, prev, next[x := y], prev[y := x], y, r[1..], h);
      assert l + r == l + [y] + r[1..];
      PathSplit(next[x := y], prev[y := x], h, l, y, r[1..], h);
    }
  }

  /** The four stores that put b behind the header. */
  lemma PushFront(next: seq<nat>, prev: seq<nat>, h: nat, b: nat, o: seq<nat>)
    requires Path(next, prev, h, o, h) && Distinct(o) && h !in o && b !in o && b != h && b < |next| == |prev|
    ensures h < |next| && next[h] < |prev|
    ensures Path(next[b := next[h]][h := b], prev[b := h][next[h] := b], h, [b] + o, h)
  {
    PathEnds(next, prev, h, o, h);
    var y := next[h];
    if o != [] { PathStep(next, prev, h, o, h, 0); }
    var next', prev' := next[b := y][h := b], prev[b := h][y := b];
    assert ([b] + o)[1..] == o;
    if o != [] { PathFrame(next, prev, next', prev', o[0], o[1..], h); }
  }

  // ------------------------------------------------------------ recency

  /** s runs from the most to the least recently stamped. */
  ghost predicate Newest(stamp: seq<nat>, s: seq<nat>) {
    s == [] || (s[0] < |stamp| && (forall x | x in s[1..] ::
      x < |stamp| && stamp[x] < stamp[s[0]]) && Newest(stamp, s[1..]))
  }

  lemma {:induction false} NewestSplit(stamp: seq<nat>, l: seq<nat>, b: nat, r: seq<nat>)
    requires Newest(stamp, l + [b] + r)
    ensures Newest(stamp, l + r) && b < |stamp|
    ensures forall x | x in l :: x < |stamp| && stamp[b] < stamp[x]
  {
    var s := l + [b] + r;
    if l == [] {
      assert s[1..] == r && l + r == r;
    } else {
      assert s[1..] == l[1..] + [b] + r && (l + r)[1..] == l[1..] + r;
      NewestSplit(stamp, l[1..], b, r);
      assert s[|l|] == b;
      assert forall x | x in l[1..] + r :: x in s[1..];
    }
  }

  lemma {:induction false} NewestFrame(stamp: seq<nat>, stamp': seq<nat>, s: seq<nat>)
    requires Newest(stamp, s) && |stamp'| == |stamp| && forall x | x in s && x < |stamp| :: stamp'[x] == stamp[x]
    ensures Newest(stamp', s)
  {
    if s != [] { NewestFrame(stamp, stamp', s[1..]); }
  }

  lemma NewestPush(stamp: seq<nat>, b: nat, t: nat, s: seq<nat>)
    requires Newest(stamp, s) && b < |stamp| && b !in s && forall x | x in s :: x < |stamp| && stamp[x] < t
    ensures Newest(stamp[b := t], [b] + s)
  {
    NewestFrame(stamp, stamp[b := t], s);
    assert ([b] + s)[1..] == s;
  }
}
