/** Sv39 page tables (section 4.4 of the RISC-V Privileged Architecture,
    version 20211203) held in physical pages, and the flat map they denote. */
module Sv39 {
  import opened Common

  const PGSIZE := 4096
  const ENTRIES := 512
  const MAXVPN := 0x400_0000      // MAXVA / PGSIZE

  // ---------------------------------------------------------------- entries

  /** A page-table entry, field by field: the page it names, PTE_V, the three
      permission bits R, W, X, and the six flag bits above them (PTE_U first). */
  datatype Pte = Pte(pa: nat, v: bool, rwx: nat, hi: nat) {
    predicate Ok() { pa % PGSIZE == 0 && rwx < 8 && hi < 64 }
  }

  const NOPTE := Pte(0, false, 0, 0)

  /** PA2PTE(pa) | flags. */
  function Encode(e: Pte): nat {
    e.pa / 4096 * 1024 + e.hi * 16 + e.rwx * 2 + (if e.v then 1 else 0)
  }

  /** PTE2PA and PTE_FLAGS, bit by bit. */
  function Decode(w: nat): Pte {
    Pte(w / 1024 * 4096, w % 2 == 1, w / 2 % 8, w / 16 % 64)
  }

  function PageOf(pa: nat): nat { pa / PGSIZE * PGSIZE }

  /** An entry stored and read back is the same, but for the offset of its
      address within the page. */
  lemma EntryDecodes(e: Pte)
    requires e.rwx < 8 && e.hi < 64
    ensures Decode(Encode(e)) == e.(pa := PageOf(e.pa)) && (e.Ok() ==> Decode(Encode(e)) == e)
  {
    var q, b := e.pa / 4096, if e.v then 1 else 0;
    Fields(Encode(e), q, e.hi, e.rwx, b);
  }

  lemma Fields(x: nat, q: nat, hi: nat, rwx: nat, v: nat)
    requires x == q * 1024 + hi * 16 + rwx * 2 + v && hi < 64 && rwx < 8 && v < 2
    ensures x / 1024 == q && x % 2 == v && x / 2 % 8 == rwx && x / 16 % 64 == hi
  {
    DivIs(x, 1024, q, hi * 16 + rwx * 2 + v);
    DivIs(x, 2, q * 512 + hi * 8 + rwx, v);
    DivIs(x / 2, 8, q * 64 + hi, rwx);
    DivIs(x, 16, q * 64 + hi, rwx * 2 + v);
    DivIs(x / 16, 64, q, hi);
  }

  lemma WordEncodes(w: nat)
    ensures Decode(w).Ok() && Encode(Decode(w)) == w
  {
    var h, q := w / 2, w / 16;
    assert w / 1024 == q / 64;
    assert q == h / 8;
  }

  // -------------------------------------------------------- virtual addresses

  /** A virtual page number as its three 9-bit indices. */
  datatype Vpn = Vpn(i2: nat, i1: nat, i0: nat) {
    predicate Ok() { i2 < ENTRIES && i1 < ENTRIES && i0 < ENTRIES }
  }

  function Split(n: nat): Vpn { Vpn(n / 0x4_0000, n / 0x200 % 0x200, n % 0x200) }

  function Pow2(k: nat): (r: nat)
    ensures r > 0
  {
    if k == 0 then 1 else 2 * Pow2(k - 1)
  }

  /** Bit k of a word. */
  function Bit(w: nat, k: nat): nat { w / Pow2(k) % 2 }

  /** The flags are the bits of the word that the architecture gives them, and the
      page number is the rest from bit 10 on. */
  lemma FlagBits(w: nat)
    ensures var e := Decode(w);
      && (e.v <==> Bit(w, 0) == 1) && e.rwx == Bit(w, 1) + 2 * Bit(w, 2) + 4 * Bit(w, 3) && e.hi % 2 == Bit(w, 4)
      && e.pa == w / Pow2(10) * Pow2(12)
  {
    Pow2At12();
    assert Pow2(1) == 2 && Pow2(2) == 4 && Pow2(3) == 8 && Pow2(4) == 16 && Pow2(5) == 32 && Pow2(10) == 1024;
    ThreeBits(w / 2);
    Shifts(w);
  }

  lemma Shifts(w: nat)
    ensures w / 4 == w / 2 / 2 && w / 8 == w / 2 / 4
    ensures w / 16 % 64 % 2 == w / 16 % 2
  {
  }

  lemma ThreeBits(x: nat)
    ensures x % 8 == x % 2 + 2 * (x / 2 % 2) + 4 * (x / 4 % 2)
  {
    var y := x / 2;
    var z := y / 2;
    assert z == x / 4 && z / 2 == x / 8;
    assert x == 2 * y + x % 2 && y == 2 * z + y % 2 && z == 2 * (z / 2) + z % 2;
  }

  /** PX(level, va). */
  function PX(level: nat, va: nat): nat { va / Pow2(12 + 9 * level) % 0x200 }

  lemma PXSplits(va: nat)
    requires va < MAXVPN * PGSIZE
    ensures Split(va / PGSIZE) == Vpn(PX(2, va), PX(1, va), PX(0, va)) && Split(va / PGSIZE).Ok()
  {
    Pow2At12();
    assert va / 0x4000_0000 == va / 0x1000 / 0x4_0000;
    assert va / 0x20_0000 == va / 0x1000 / 0x200;
  }

  lemma Pow2At12()
    ensures Pow2(12) == 0x1000 && Pow2(21) == 0x20_0000 && Pow2(30) == 0x4000_0000
  {
    assert Pow2(6) == 64;
    assert Pow2(12) == 0x1000;
    assert Pow2(18) == 0x4_0000;
    assert Pow2(21) == 0x20_0000;
    assert Pow2(27) == 0x800_0000;
    assert Pow2(30) == 0x4000_0000;
  }

  function Num(v: Vpn): nat { (v.i2 * 0x200 + v.i1) * 0x200 + v.i0 }

  /** Page numbers and index triples correspond one to one. */
  lemma SplitNum(n: nat)
    ensures Num(Split(n)) == n
  {
    assert n / 0x4_0000 == n / 0x200 / 0x200;
  }

  lemma NumSplit(v: Vpn)
    requires v.Ok()
    ensures Split(Num(v)) == v
  {
    var n, h := Num(v), v.i2 * 0x200 + v.i1;
    assert n / 0x200 == h;
    assert n / 0x4_0000 == n / 0x200 / 0x200 == h / 0x200;
  }
}
