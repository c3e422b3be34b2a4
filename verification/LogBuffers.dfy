/** kernel/log.c on top of kernel/bio.c: the blocks of the log's device as
    processes see them through the buffer cache, while log_write pins the
    buffers of logged blocks and only install_trans releases them.

    Every step a process can take on a buffer (bget, acquiresleep, a change under
    the lock, log_write's bpin, releasesleep, the drop of a reference) is a method
    that keeps `Attached()`, so the steps of different processes may follow one
    another in any order. */
module LogBuffers {
  import opened Common
  import opened Blocks
  import opened Wal
  import opened BufferCache

  /** Every buffer in use takes at least NBUF references. */
  lemma FullNeeds(refcnt: seq<nat>, tickets: map<nat, nat>)
    requires RefsOk(refcnt, tickets) && forall c | 0 <= c < NBUF :: refcnt[c] > 0
    ensures |tickets| >= NBUF
  {
    forall c: nat | c < NBUF ensures c in tickets.Values {
      assert RefAt(refcnt, tickets, c);
      var t :| t in Holders(tickets, c);
    }
    RangeCard(tickets.Values, NBUF);
    ValuesCard(tickets);
  }

  lemma TicketsCard(tickets: map<nat, nat>, t: nat, b: nat)
    requires t !in tickets
    ensures |tickets[t := b]| == |tickets| + 1
  {
    assert tickets[t := b].Keys == tickets.Keys + {t} && |tickets| == |tickets.Keys|;
    assert |tickets[t := b]| == |tickets[t := b].Keys|;
  }

  class Device {
    const dev: nat
    const bc: Cache
    /** What the device holds, and every block write issued to it so far. */
    ghost var disk: Disk
    ghost var writes: seq<Write>
    /** The logged blocks: what was logged last, and the pin that bpin took. */
    ghost var cache: map<nat, Block>
    ghost var pin: map<nat, nat>

    ghost predicate JoinAt(b: nat)
      reads this, bc
    {
      b < |disk| && DiskAt(bc.blank, bc.disk, Key(dev, b)) == disk[b]
      && (b in cache && !bc.Busy(Key(dev, b)) ==> bc.Latest(Key(dev, b)) == cache[b])
    }

    ghost predicate PinAt(b: nat)
      reads this, bc
    {
      b < |disk| && b in pin && b in cache && bc.Pinned(pin[b], Key(dev, b))
    }

    ghost predicate PinOf(p: nat)
      reads this, bc
    {
      && p in bc.pins && p in bc.want
      && (bc.want[p].dev == dev ==> bc.want[p].blockno in pin && pin[bc.want[p].blockno] == p)
    }

    /** Each logged block has its pin, no other block of the device has one, and a
        logged block's buffer holds what was logged unless someone is changing it. */
    ghost predicate Joined()
      reads this, bc
    {
      && dev != 0 && bc.Valid() && pin.Keys == cache.Keys
      && (forall b: nat {:trigger JoinAt(b)} | b < |disk| :: JoinAt(b))
      && (forall b: nat {:trigger PinAt(b)} | b in pin :: PinAt(b))
      && (forall p: nat {:trigger PinOf(p)} | p in bc.pins :: PinOf(p))
    }

    /** The same, for proofs that hand it on without looking inside. */
    ghost predicate Attached()
      reads this, bc
    {
      forall k: nat {:trigger Peek(k)} | Peek(k) :: Joined()
    }

    lemma Open()
      requires Attached()
      ensures Joined()
    {
      assert Peek(0);
    }

    lemma Close()
      requires Joined()
      ensures Attached()
    {
    }

    constructor (dev: nat, bc: Cache, ghost disk: Disk)
      requires dev != 0 && bc.Valid() && bc.pins == {}
      requires forall b | 0 <= b < |disk| :: DiskAt(bc.blank, bc.disk, Key(dev, b)) == disk[b]
      ensures Attached() && this.dev == dev && this.bc == bc && this.disk == disk && cache == map[] && writes == []
    {
      this.dev, this.bc, this.disk := dev, bc, disk;
      writes, cache, pin := [], map[], map[];
    }

    /** The contents of block b as the log accounts for them. */
    ghost function Bread(b: nat): Block
      reads this
      requires b < |disk|
    {
      if b in cache then cache[b] else disk[b]
    }

    ghost predicate Held(h: nat, pid: nat, t: nat, b: nat)
      reads this, bc
    {
      bc.Holds(h, pid, t, Key(dev, b))
    }

    ghost predicate Busy(b: nat)
      reads this, bc
    {
      bc.Busy(Key(dev, b))
    }

    /** A logged block is in a buffer of its own, which bget cannot give away. */
    lemma LoggedStays(b: nat)
      requires Joined() && b in cache
      ensures b in pin && pin[b] in bc.pins && pin[b] in bc.tickets && bc.tickets[pin[b]] < NBUF
      ensures var h := bc.tickets[pin[b]];
        && bc.key[h] == Key(dev, b) && bc.valid[h] && bc.refcnt[h] > 0 && bc.data[h] == bc.Latest(Key(dev, b))
        && (forall c | 0 <= c < NBUF && bc.key[c] == Key(dev, b) :: c == h)
        && h in PinnedBufs(bc.tickets, bc.pins)
    {
      assert PinAt(b);
      bc.PinnedStays(pin[b], Key(dev, b));
      PinnedHas(bc.tickets, bc.pins, pin[b]);
    }

    /** The holder of a lock has a reference that is not a pin. */
    lemma HeldByTicket(h: nat, pid: nat, t: nat, b: nat)
      requires Attached() && Held(h, pid, t, b)
      ensures t !in bc.pins
    {
      Open();
      assert LockAt(bc.lock, bc.valid, bc.tickets, bc.pins, bc.lockTicket, h);
    }

    /** And that reference is to the block it has locked. */
    lemma HeldWants(h: nat, pid: nat, t: nat, b: nat)
      requires Attached() && Held(h, pid, t, b)
      ensures h < NBUF && t in bc.want && bc.want[t] == Key(dev, b)
    {
      Open();
      assert TicketAt(bc.key, bc.tickets, bc.want, t);
    }

    lemma LockCount()
      requires Attached()
      ensures |bc.lock| == NBUF
    {
      Open();
    }

    lemma NoLock(t: nat)
      requires Attached() && t !in bc.tickets
      ensures forall h: nat | h < NBUF && h in bc.lockTicket :: bc.lockTicket[h] != t
    {
      Open();
      forall h: nat | h < NBUF && h in bc.lockTicket ensures bc.lockTicket[h] != t {
        assert LockAt(bc.lock, bc.valid, bc.tickets, bc.pins, bc.lockTicket, h);
      }
    }

    lemma LoggedFound(b: nat)
      requires Attached() && b in cache
      ensures !bc.Full(Key(dev, b))
    {
      Open();
      LoggedStays(b);
    }

    /** What bread returns for any block of the device is what the log accounts
        for: the last logged contents, or else the disk's. */
    lemma ReadsLatest(b: nat)
      requires Attached() && b < |disk| && !Busy(b)
      ensures bc.Latest(Key(dev, b)) == Bread(b)
    {
      Open();
      assert JoinAt(b);
      if b !in cache {
        forall p | p in bc.pins && p in bc.want ensures bc.want[p] != Key(dev, b) { assert PinOf(p); }
        bc.IdleReads(Key(dev, b));
      }
    }

    /** The logged blocks' pins are the only references in the cache. */
    ghost predicate Alone()
      reads this, bc
    {
      bc.tickets.Keys == pin.Values
    }

    /** No one holds the sleep-lock of a block of the device. */
    ghost predicate Quiet()
      reads this, bc
    {
      forall b: nat :: !Busy(b)
    }

    /** Blocks b and c are the only ones locked. */
    ghost predicate Only(b: nat, c: nat)
      reads this, bc
    {
      forall x: nat :: Busy(x) <==> x == b || x == c
    }

    /** bget finds a buffer while there are fewer references than buffers. */
    lemma Room(b: nat)
      requires Attached()
      ensures |bc.tickets| < NBUF ==> !bc.Full(Key(dev, b))
    {
      Open();
      if bc.Full(Key(dev, b)) { FullNeeds(bc.refcnt, bc.tickets); }
    }

    lemma AloneDrop(b: nat)
      requires Attached() && Alone() && b in cache
      ensures b in pin && (bc.tickets - {pin[b]}).Keys == (pin - {b}).Values && |cache - {b}| < |cache|
    {
      Open();
      assert PinAt(b);
      ValuesDrop(pin, b);
      var r := pin - {b};
      forall c | c in r ensures r[c] != pin[b] { LoggedApart(b, c); }
      assert (cache - {b}).Keys == cache.Keys - {b} && |cache| == |cache.Keys|;
    }

    /** Logged blocks are in different buffers. */
    lemma LoggedApart(b: nat, c: nat)
      requires Joined() && b in cache && c in cache && b != c
      ensures b in pin && c in pin && pin[b] in bc.tickets && pin[c] in bc.tickets
      ensures pin[b] != pin[c] && bc.tickets[pin[b]] != bc.tickets[pin[c]]
    {
      LoggedStays(b);
      LoggedStays(c);
    }

    /** If the log's pins are the only references, bget finds a buffer for a block
        not in the log exactly when fewer than NBUF blocks are logged. */
    lemma FullExactly(b: nat)
      requires Attached() && Alone() && b !in cache
      ensures bc.Full(Key(dev, b)) <==> |cache| >= NBUF
    {
      Open();
      assert |pin| == |pin.Keys| && |cache| == |cache.Keys|;
      if bc.Full(Key(dev, b)) {
        FullNeeds(bc.refcnt, bc.tickets);
        ValuesCard(pin);
        assert |bc.tickets| == |bc.tickets.Keys|;
      }
      if |cache| >= NBUF {
        forall c: nat | c < NBUF ensures bc.key[c] != Key(dev, b) && bc.refcnt[c] > 0 {
          var l := AllLogged(c);
          LoggedStays(l);
        }
      }
    }

    /** With NBUF blocks logged, every buffer has one. */
    lemma AllLogged(c: nat) returns (b: nat)
      requires Joined() && |cache| >= NBUF && c < NBUF
      ensures b in cache && b in pin && pin[b] in bc.tickets && bc.tickets[pin[b]] == c
    {
      forall l | l in pin ensures pin[l] in bc.tickets && bc.tickets[pin[l]] < NBUF { LoggedStays(l); }
      var bufs := map l | l in pin :: bc.tickets[pin[l]];
      forall l, m | l in bufs && m in bufs && l != m ensures bufs[l] != bufs[m] { LoggedApart(l, m); }
      ValuesCard(bufs);
      assert bufs.Keys == pin.Keys && |bufs| == |bufs.Keys| && |cache| == |cache.Keys|;
      if c !in bufs.Values {
        BelowCard(bufs.Values + {c}, NBUF);
        assert false;
      }
      b :| b in bufs && bufs[b] == c;
    }

    // ------------------------------------------------- steps of any process

    /** bget, up to its release of bcache.lock. */
    method Get(b: nat, ghost t: nat) returns (ok: bool, h: nat)
      requires Attached() && b < |disk| && t !in bc.tickets
      modifies bc`key, bc`valid, bc`refcnt, bc`tickets, bc`want, bc`place
      ensures Attached() && t !in bc.pins
      ensures !ok <==> old(bc.Full(Key(dev, b)))
      ensures !ok ==> bc.tickets == old(bc.tickets) && bc.want == old(bc.want) && bc.Full(Key(dev, b))
      ensures ok ==> h < NBUF && bc.tickets == old(bc.tickets)[t := h] && bc.want == old(bc.want)[t := Key(dev, b)]
      ensures ok && !Busy(b) ==> h < |bc.lock| && bc.lock[h] == 0
      ensures forall c :: Busy(c) == old(Busy(c))
      ensures forall g: nat, q: nat, u: nat, c: nat {:trigger Held(g, q, u, c)} ::
        old(Held(g, q, u, c)) ==> Held(g, q, u, c)
    {
      Open();
      ok, h := bc.Bget(dev, b, t);
      if ok && !Busy(b) { assert BufferCache.PlaceAt(bc.key, bc.place, h); }
      forall c: nat | c < |disk| ensures JoinAt(c) { assert old(JoinAt(c)); }
      forall c: nat | c in pin ensures PinAt(c) { assert old(PinAt(c)); }
      forall p: nat | p in bc.pins ensures PinOf(p) { assert old(PinOf(p)); }
      Close();
    }

    /** acquiresleep when it succeeds, and the rest of bread. */
    method Lock(h: nat, pid: nat, ghost t: nat, ghost b: nat)
      requires Attached() && b < |disk| && pid != 0 && h < |bc.lock| && bc.lock[h] == 0
      requires t in bc.tickets && bc.tickets[t] == h && t !in bc.pins && t in bc.want && bc.want[t] == Key(dev, b)
      modifies bc`lock, bc`valid, bc`data, bc`lockTicket
      ensures Attached() && Held(h, pid, t, b) && bc.data[h] == Bread(b) && bc.lockTicket == old(bc.lockTicket)[h := t]
      ensures forall c :: Busy(c) <==> old(Busy(c)) || c == b
      ensures forall g: nat, q: nat, u: nat, c: nat {:trigger Held(g, q, u, c)} :: old(Held(g, q, u, c)) ==>
        g != h && Held(g, q, u, c) && bc.data[g] == old(bc.data)[g]
    {
      Open();
      assert TicketAt(bc.key, bc.tickets, bc.want, t) && BufferCache.PlaceAt(bc.key, bc.place, h);
      ReadsLatest(b);
      bc.Bread(h, pid, t);
      forall g: nat, q: nat, u: nat, c: nat | old(Held(g, q, u, c)) ensures g != h && Held(g, q, u, c) {
        assert g < NBUF && g != h;
        assert bc.lock[g] == q && bc.lockTicket[g] == u;
      }
      forall c: nat | c < |disk| ensures JoinAt(c) { assert old(JoinAt(c)); }
      forall c: nat | c in pin ensures PinAt(c) { assert old(PinAt(c)); }
      forall p: nat | p in bc.pins ensures PinOf(p) { assert old(PinOf(p)); }
      Close();
    }

    /** A change by the holder of the lock. */
    method Edit(h: nat, ghost pid: nat, ghost t: nat, ghost b: nat, d: Block)
      requires Attached() && b < |disk| && Held(h, pid, t, b)
      modifies bc`data
      ensures Attached() && bc.data == old(bc.data)[h := d]
    {
      Open();
      bc.Modify(h, d);
      assert Busy(b) by { assert BufferCache.PlaceAt(bc.key, bc.place, h); }
      forall c: nat | c < |disk| ensures JoinAt(c) { assert old(JoinAt(c)); }
      forall c: nat | c in pin ensures PinAt(c) { assert old(PinAt(c)); }
      forall p: nat | p in bc.pins ensures PinOf(p) { assert old(PinOf(p)); }
      Close();
    }

    /** log_write's record of a changed buffer: bpin, unless the block is already
        in the log. */
    method Record(h: nat, ghost pid: nat, ghost t: nat, ghost b: nat, append: bool, ghost p: nat)
      requires Attached() && b < |disk| && Held(h, pid, t, b) && (append <==> b !in cache) && p !in bc.tickets
      modifies this`cache, this`pin, bc`refcnt, bc`tickets, bc`want, bc`pins
      ensures Attached() && cache == old(cache)[b := bc.data[h]]
      ensures pin == if append then old(pin)[b := p] else old(pin)
      ensures bc.tickets == if append then old(bc.tickets)[p := h] else old(bc.tickets)
    {
      Open();
      assert LockAt(bc.lock, bc.valid, bc.tickets, bc.pins, bc.lockTicket, h);
      assert BufferCache.PlaceAt(bc.key, bc.place, h);
      if append {
        forall c | c in pin ensures pin[c] != p { LoggedStays(c); }
        bc.Bpin(h, p);
        pin := pin[b := p];
      }
      cache := cache[b := bc.data[h]];
      forall c: nat | c < |disk| ensures JoinAt(c) { assert old(JoinAt(c)); }
      forall c: nat | c in pin ensures PinAt(c) { if c != b || !append { assert old(PinAt(c)); } }
      forall q: nat | q in bc.pins ensures PinOf(q) { if q != p || !append { assert old(PinOf(q)); } }
      Close();
    }

    /** releasesleep by a holder whose change, if any, has been logged. */
    method Unlock(h: nat, pid: nat, ghost t: nat, ghost b: nat)
      requires Attached() && b < |disk| && Held(h, pid, t, b) && bc.data[h] == Bread(b)
      modifies bc`lock, bc`lockTicket
      ensures Attached() && bc.lockTicket == old(bc.lockTicket) - {h}
      ensures forall c :: Busy(c) <==> old(Busy(c)) && c != b
      ensures forall g: nat, q: nat, u: nat, c: nat {:trigger Held(g, q, u, c)} ::
        old(Held(g, q, u, c)) && g != h ==> Held(g, q, u, c)
    {
      Open();
      assert JoinAt(b) && BufferCache.PlaceAt(bc.key, bc.place, h);
      if b in cache { LoggedStays(b); }
      var _ := bc.Unlock(h, pid);
      forall c: nat | c < |disk| ensures JoinAt(c) { assert old(JoinAt(c)); }
      forall c: nat | c in pin ensures PinAt(c) { assert old(PinAt(c)); }
      forall p: nat | p in bc.pins ensures PinOf(p) { assert old(PinOf(p)); }
      Close();
    }

    /** The drop of a reference under bcache.lock. */
    method Drop(h: nat, ghost t: nat)
      requires Attached() && t in bc.tickets && bc.tickets[t] == h && t !in bc.pins
      requires h in bc.lockTicket ==> bc.lockTicket[h] != t
      modifies bc`refcnt, bc`next, bc`prev, bc`order, bc`stamp, bc`freed, bc`clock, bc`tickets
      ensures Attached() && bc.tickets == old(bc.tickets) - {t}
      ensures forall g: nat, q: nat, u: nat, c: nat {:trigger Held(g, q, u, c)} ::
        old(Held(g, q, u, c)) ==> Held(g, q, u, c)
    {
      Open();
      bc.Drop(h, t);
      forall c: nat | c < |disk| ensures JoinAt(c) { assert old(JoinAt(c)); }
      forall c: nat | c in pin ensures PinAt(c) { assert old(PinAt(c)); }
      forall p: nat | p in bc.pins ensures PinOf(p) { assert old(PinOf(p)); }
      Close();
    }

    // --------------------------------------------------- steps of the commit

    /** A change by the holder of the lock, then bwrite. */
    method Write(h: nat, pid: nat, ghost t: nat, ghost b: nat, d: Block)
      requires Attached() && b < |disk| && Held(h, pid, t, b)
      modifies this`disk, this`writes, bc`data, bc`disk
      ensures Attached() && disk == old(disk)[b := d] && writes == old(writes) + [Wal.Write(b, d)]
      ensures bc.data == old(bc.data)[h := d] && forall c :: Busy(c) == old(Busy(c))
    {
      Open();
      Edit(h, pid, t, b, d);
      Open();
      label edited:
      assert BufferCache.PlaceAt(bc.key, bc.place, h);
      var _ := bc.Bwrite(h, pid);
      disk, writes := disk[b := d], writes + [Wal.Write(b, d)];
      forall c: nat | c < |disk| ensures JoinAt(c) { assert old@edited(JoinAt(c)); }
      forall c: nat | c in pin ensures PinAt(c) { assert old@edited(PinAt(c)); }
      forall p: nat | p in bc.pins ensures PinOf(p) { assert old@edited(PinOf(p)); }
      Close();
    }

    /** bunpin of a logged block that its holder has written home. */
    method Unpin(h: nat, ghost pid: nat, ghost t: nat, ghost b: nat)
      requires Attached() && b in cache && Held(h, pid, t, b)
      modifies this`cache, this`pin, bc`refcnt, bc`tickets, bc`pins, bc`freed, bc`clock
      ensures Attached() && b in old(pin) && cache == old(cache) - {b} && pin == old(pin) - {b}
      ensures old(pin)[b] in old(bc.pins) && bc.pins == old(bc.pins) - {old(pin)[b]}
      ensures bc.tickets == old(bc.tickets) - {old(pin)[b]} && forall c :: Busy(c) == old(Busy(c))
      ensures forall g: nat, q: nat, u: nat, c: nat {:trigger Held(g, q, u, c)} ::
        old(Held(g, q, u, c)) ==> Held(g, q, u, c)
    {
      Open();
      LoggedStays(b);
      ghost var p := pin[b];
      assert old(PinAt(b));
      forall g: nat, q: nat, u: nat, c: nat | Held(g, q, u, c) ensures u != p {
        assert LockAt(bc.lock, bc.valid, bc.tickets, bc.pins, bc.lockTicket, g);
      }
      bc.Bunpin(h, p);
      cache, pin := cache - {b}, pin - {b};
      forall c: nat | c < |disk| ensures JoinAt(c) { assert old(JoinAt(c)); }
      forall c: nat | c in pin ensures PinAt(c) { assert old(PinAt(c)); }
      forall q: nat | q in bc.pins ensures PinOf(q) { assert old(PinOf(q)); }
      Close();
    }

    // --------------------------------------------------- bread and brelse

    /** bread of a block whose buffer no one has locked; false is bget's panic. */
    method Fetch(b: nat, pid: nat, ghost t: nat) returns (ok: bool, h: nat)
      requires Attached() && b < |disk| && !Busy(b) && pid != 0 && t !in bc.tickets
      modifies bc`key, bc`valid, bc`refcnt, bc`tickets, bc`want, bc`place, bc`lock, bc`data, bc`lockTicket
      ensures Attached() && (!ok <==> old(bc.Full(Key(dev, b))))
      ensures ok ==> Held(h, pid, t, b) && bc.data[h] == Bread(b) && bc.tickets == old(bc.tickets)[t := h]
      ensures ok ==> forall c :: Busy(c) <==> old(Busy(c)) || c == b
      ensures forall g: nat, q: nat, u: nat, c: nat {:trigger Held(g, q, u, c)} :: old(Held(g, q, u, c)) ==>
        Held(g, q, u, c) && bc.data[g] == old(bc.data)[g]
    {
      ok, h := Get(b, t);
      if ok {
        Lock(h, pid, t, b);
      }
    }

    /** brelse. */
    method Release(h: nat, pid: nat, ghost t: nat, ghost b: nat)
      requires Attached() && b < |disk| && Held(h, pid, t, b) && bc.data[h] == Bread(b)
      modifies bc`lock, bc`lockTicket, bc`refcnt, bc`next, bc`prev, bc`order, bc`stamp, bc`freed, bc`clock, bc`tickets
      ensures Attached() && bc.tickets == old(bc.tickets) - {t}
      ensures forall c :: Busy(c) <==> old(Busy(c)) && c != b
      ensures forall g: nat, q: nat, u: nat, c: nat {:trigger Held(g, q, u, c)} ::
        old(Held(g, q, u, c)) && g != h ==> Held(g, q, u, c)
    {
      HeldByTicket(h, pid, t, b);
      Unlock(h, pid, t, b);
      Drop(h, t);
    }

    /** The two breads of a turn of write_log or install_trans. */
    method FetchPair(b: nat, c: nat, pid: nat, ghost t: nat, ghost u: nat) returns (ok: bool, g: nat, h: nat)
      requires Attached() && Quiet() && b < |disk| && c < |disk| && b != c && pid != 0
      requires t !in bc.tickets && u !in bc.tickets && t != u
      modifies bc`key, bc`valid, bc`refcnt, bc`tickets, bc`want, bc`place, bc`lock, bc`data, bc`lockTicket
      ensures Attached()
      ensures c in cache ==> (!ok <==> old(bc.Full(Key(dev, b))))
      ensures |old(bc.tickets)| + 1 < NBUF ==> ok
      ensures ok ==> g != h && Held(g, pid, t, b) && Held(h, pid, u, c)
      ensures ok ==> bc.data[g] == Bread(b) && bc.data[h] == Bread(c)
      ensures ok ==> bc.tickets == old(bc.tickets)[t := g][u := h] && Only(b, c)
    {
      Room(b);
      h := 0;
      ok, g := Fetch(b, pid, t);
      if ok {
        Room(c);
        TicketsCard(old(bc.tickets), t, g);
        if c in cache { LoggedFound(c); }
        ok, h := Fetch(c, pid, u);
        assert ok ==> Held(g, pid, t, b) && Held(h, pid, u, c);
      }
    }

    /** The two brelses of a turn. */
    method ReleasePair(g: nat, h: nat, pid: nat, ghost t: nat, ghost u: nat, ghost b: nat, ghost c: nat)
      requires Attached() && b < |disk| && c < |disk| && Only(b, c)
      requires g != h && Held(g, pid, t, b) && Held(h, pid, u, c) && bc.data[g] == Bread(b) && bc.data[h] == Bread(c)
      modifies bc`lock, bc`lockTicket, bc`refcnt, bc`next, bc`prev, bc`order, bc`stamp, bc`freed, bc`clock, bc`tickets
      ensures Attached() && Quiet() && bc.tickets == old(bc.tickets) - {t} - {u}
    {
      Release(g, pid, t, b);
      Release(h, pid, u, c);
    }
  }
}
