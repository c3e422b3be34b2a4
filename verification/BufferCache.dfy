/** kernel/bio.c: a fixed set of buffers on one recency list, shared by all
    processes.  Each method is one section under bcache.lock, or one step of the
    process that holds the buffer's sleep-lock, so the methods may follow one
    another in any order. */
module BufferCache {
  import opened Common
  import opened Blocks
  import opened LruList

  const NBUF := 30
  const HEAD: nat := NBUF

  datatype Key = Key(dev: nat, blockno: nat)

  // ------------------------------------------------------------- invariant

  /** The list holds every buffer exactly once. */
  ghost predicate ListOk(next: seq<nat>, prev: seq<nat>, order: seq<nat>) {
    && |next| == |prev| == NBUF + 1 && Path(next, prev, HEAD, order, HEAD) && Distinct(order)
    && (forall x | x in order :: x < NBUF) && (forall b | 0 <= b < NBUF :: b in order)
  }

  /** The list is in order of last move to the front. */
  ghost predicate RecencyOk(order: seq<nat>, stamp: seq<nat>) {
    |stamp| == NBUF && Newest(stamp, order)
  }

  /** The two together, for proofs that hand them on without looking inside. */
  ghost predicate Linked(next: seq<nat>, prev: seq<nat>, order: seq<nat>, stamp: seq<nat>, clock: nat) {
    && |stamp| == NBUF && (forall b | 0 <= b < NBUF :: stamp[b] < clock)
    && forall k: nat {:trigger Peek(k)} | Peek(k) :: ListOk(next, prev, order) && RecencyOk(order, stamp)
  }

  ghost predicate TimelyAt(refcnt: seq<nat>, freed: seq<nat>, stamp: seq<nat>, b: nat) {
    b < |refcnt| && b < |freed| && b < |stamp| && (refcnt[b] == 0 ==> freed[b] == stamp[b])
  }

  ghost predicate TimelyOk(refcnt: seq<nat>, freed: seq<nat>, stamp: seq<nat>) {
    forall b: nat {:trigger TimelyAt(refcnt, freed, stamp, b)} | b < NBUF :: TimelyAt(refcnt, freed, stamp, b)
  }

  lemma TimelyRef(refcnt: seq<nat>, freed: seq<nat>, stamp: seq<nat>, b: nat, r: nat)
    requires TimelyOk(refcnt, freed, stamp) && b < |refcnt| && r > 0
    ensures TimelyOk(refcnt[b := r], freed, stamp)
  {
    var refcnt' := refcnt[b := r];
    forall c: nat | c < NBUF ensures TimelyAt(refcnt', freed, stamp, c) { assert TimelyAt(refcnt, freed, stamp, c); }
  }

  lemma TimelyLast(refcnt: seq<nat>, freed: seq<nat>, stamp: seq<nat>, b: nat, f: nat, s: nat)
    requires TimelyOk(refcnt, freed, stamp) && b < NBUF && |refcnt| == |freed| == |stamp| == NBUF
    ensures TimelyOk(refcnt[b := 0], freed[b := f], stamp[b := s]) <==> f == s
  {
    var refcnt', freed', stamp' := refcnt[b := 0], freed[b := f], stamp[b := s];
    assert TimelyAt(refcnt', freed', stamp', b) <==> f == s;
    forall c: nat | c < NBUF && c != b ensures TimelyAt(refcnt', freed', stamp', c) {
      assert TimelyAt(refcnt, freed, stamp, c);
    }
  }

  ghost function Holders(tickets: map<nat, nat>, b: nat): set<nat> {
    set t | t in tickets && tickets[t] == b
  }

  ghost predicate RefAt(refcnt: seq<nat>, tickets: map<nat, nat>, b: nat) {
    b < |refcnt| && refcnt[b] == |Holders(tickets, b)|
  }

  /** refcnt counts the outstanding references (`tickets`) to each buffer. */
  ghost predicate RefsOk(refcnt: seq<nat>, tickets: map<nat, nat>) {
    |refcnt| == NBUF && forall b: nat {:trigger RefAt(refcnt, tickets, b)} | b < NBUF :: RefAt(refcnt, tickets, b)
  }

  ghost predicate TicketAt(key: seq<Key>, tickets: map<nat, nat>, want: map<nat, Key>, t: nat) {
    t in tickets && t in want && tickets[t] < |key| && key[tickets[t]] == want[t]
  }

  /** A referenced buffer still holds the block that was asked for. */
  ghost predicate KeysOk(key: seq<Key>, tickets: map<nat, nat>, want: map<nat, Key>) {
    |key| == NBUF && forall t {:trigger TicketAt(key, tickets, want, t)} | t in tickets ::
      TicketAt(key, tickets, want, t)
  }

  /** The buffers that bpin protects. */
  ghost function PinnedBufs(tickets: map<nat, nat>, pins: set<nat>): set<nat> {
    set p | p in pins && p in tickets :: tickets[p]
  }

  ghost predicate PinAt(tickets: map<nat, nat>, valid: seq<bool>, p: nat) {
    p in tickets && tickets[p] < |valid| && valid[tickets[p]]
  }

  /** A pin is one of the references, to a buffer that has been read. */
  ghost predicate PinsOk(tickets: map<nat, nat>, pins: set<nat>, valid: seq<bool>) {
    |valid| == NBUF && forall p {:trigger PinAt(tickets, valid, p)} | p in pins :: PinAt(tickets, valid, p)
  }

  ghost predicate LockAt(lock: seq<nat>, valid: seq<bool>, tickets: map<nat, nat>, pins: set<nat>,
                         lockTicket: map<nat, nat>, b: nat)
  {
    b < |lock| && b < |valid| &&
    if lock[b] == 0 then b !in lockTicket
    else
      && valid[b] && b in lockTicket && lockTicket[b] in tickets && tickets[lockTicket[b]] == b
      && lockTicket[b] !in pins
  }

  /** Whoever holds a sleep-lock also holds a reference that is not a pin, and
      has read the block. */
  ghost predicate LocksOk(lock: seq<nat>, valid: seq<bool>, tickets: map<nat, nat>, pins: set<nat>,
                          lockTicket: map<nat, nat>)
  {
    && |lock| == |valid| == NBUF
    && forall b: nat {:trigger LockAt(lock, valid, tickets, pins, lockTicket, b)} | b < NBUF ::
      LockAt(lock, valid, tickets, pins, lockTicket, b)
  }

  ghost predicate PlaceAt(key: seq<Key>, place: map<Key, nat>, b: nat) {
    b < |key| && (key[b].dev != 0 ==> key[b] in place && place[key[b]] == b)
  }

  ghost predicate PlaceOf(key: seq<Key>, place: map<Key, nat>, k: Key) {
    k.dev != 0 && k in place && place[k] < |key| && key[place[k]] == k
  }

  /** At most one buffer per block of a real device, recorded in `place`. */
  ghost predicate PlacesOk(key: seq<Key>, place: map<Key, nat>) {
    && |key| == NBUF
    && (forall b: nat {:trigger PlaceAt(key, place, b)} | b < NBUF :: PlaceAt(key, place, b))
    && (forall k {:trigger PlaceOf(key, place, k)} | k in place :: PlaceOf(key, place, k))
  }

  function DiskAt(blank: Block, disk: map<Key, Block>, k: Key): Block { if k in disk then disk[k] else blank }

  ghost predicate CleanAt(blank: Block, disk: map<Key, Block>, key: seq<Key>, valid: seq<bool>, data: seq<Block>,
                          lock: seq<nat>, pinned: set<nat>, b: nat)
  {
    && b < |key| && b < |valid| && b < |data| && b < |lock|
    && (key[b].dev != 0 && valid[b] && lock[b] == 0 && b !in pinned ==> data[b] == DiskAt(blank, disk, key[b]))
  }

  /** A buffer neither locked nor pinned has nothing the disk does not have. */
  ghost predicate CleanOk(blank: Block, disk: map<Key, Block>, key: seq<Key>, valid: seq<bool>, data: seq<Block>,
                          lock: seq<nat>, pinned: set<nat>)
  {
    && |key| == |valid| == |data| == |lock| == NBUF
    && forall b: nat {:trigger CleanAt(blank, disk, key, valid, data, lock, pinned, b)} | b < NBUF ::
      CleanAt(blank, disk, key, valid, data, lock, pinned, b)
  }

  /** What a reader of block k should see. */
  ghost function LatestOf(blank: Block, disk: map<Key, Block>, valid: seq<bool>, data: seq<Block>,
                          place: map<Key, nat>, k: Key): Block
  {
    if k in place && place[k] < |valid| && place[k] < |data| && valid[place[k]] then data[place[k]]
    else DiskAt(blank, disk, k)
  }

  /** Some process holds the sleep-lock of the buffer of block k. */
  ghost predicate BusyAt(lock: seq<nat>, place: map<Key, nat>, k: Key) {
    k in place && place[k] < |lock| && lock[place[k]] != 0
  }

  lemma HoldersAdd(tickets: map<nat, nat>, t: nat, b: nat, c: nat)
    requires t !in tickets
    ensures |Holders(tickets[t := b], c)| == |Holders(tickets, c)| + if c == b then 1 else 0
  {
    assert Holders(tickets[t := b], c) == Holders(tickets, c) + if c == b then {t} else {};
  }

  lemma HoldersDrop(tickets: map<nat, nat>, t: nat, c: nat)
    requires t in tickets
    ensures |Holders(tickets, c)| == |Holders(tickets - {t}, c)| + if c == tickets[t] then 1 else 0
  {
    assert Holders(tickets, c) == Holders(tickets - {t}, c) + if c == tickets[t] then {t} else {};
  }

  lemma PinnedHas(tickets: map<nat, nat>, pins: set<nat>, p: nat)
    requires p in pins && p in tickets
    ensures tickets[p] in PinnedBufs(tickets, pins)
  {
  }

  /** One more reference, for block k, which buffer b holds from now on. */
  lemma AddRef(key: seq<Key>, refcnt: seq<nat>, tickets: map<nat, nat>, want: map<nat, Key>, t: nat, b: nat, k: Key)
    requires RefsOk(refcnt, tickets) && KeysOk(key, tickets, want)
    requires t !in tickets && b < NBUF && (key[b] == k || refcnt[b] == 0)
    ensures RefsOk(refcnt[b := refcnt[b] + 1], tickets[t := b])
    ensures KeysOk(key[b := k], tickets[t := b], want[t := k])
  {
    var refcnt', key', tickets', want' := refcnt[b := refcnt[b] + 1], key[b := k], tickets[t := b], want[t := k];
    forall c: nat | c < NBUF ensures RefAt(refcnt', tickets', c) {
      assert RefAt(refcnt, tickets, c);
      HoldersAdd(tickets, t, b, c);
    }
    if refcnt[b] == 0 { Unheld(refcnt, tickets, b); }
    forall u | u in tickets' ensures TicketAt(key', tickets', want', u) {
      if u != t { assert TicketAt(key, tickets, want, u); }
    }
  }

  /** That reference belongs to no pin and to no lock. */
  lemma AddTicket(lock: seq<nat>, valid: seq<bool>, tickets: map<nat, nat>, pins: set<nat>, lockTicket: map<nat, nat>,
                  t: nat, b: nat)
    requires LocksOk(lock, valid, tickets, pins, lockTicket) && PinsOk(tickets, pins, valid) && t !in tickets
    ensures LocksOk(lock, valid, tickets[t := b], pins, lockTicket) && PinsOk(tickets[t := b], pins, valid)
    ensures t !in pins
    ensures PinnedBufs(tickets[t := b], pins) == PinnedBufs(tickets, pins)
  {
    var tickets' := tickets[t := b];
    forall c: nat | c < NBUF ensures LockAt(lock, valid, tickets', pins, lockTicket, c) {
      assert LockAt(lock, valid, tickets, pins, lockTicket, c);
    }
    forall p | p in pins ensures PinAt(tickets', valid, p) && p != t { assert PinAt(tickets, valid, p); }
    forall p | p in pins ensures tickets'[p] == tickets[p] && p in tickets { assert PinAt(tickets, valid, p); }
  }

  /** An unreferenced buffer, as bget recycles it, is neither locked nor pinned. */
  lemma Idle(refcnt: seq<nat>, lock: seq<nat>, valid: seq<bool>, tickets: map<nat, nat>, pins: set<nat>,
             lockTicket: map<nat, nat>, b: nat)
    requires RefsOk(refcnt, tickets) && LocksOk(lock, valid, tickets, pins, lockTicket) && PinsOk(tickets, pins, valid)
    requires b < NBUF && refcnt[b] == 0
    ensures lock[b] == 0 && b !in PinnedBufs(tickets, pins)
    ensures LocksOk(lock, valid[b := false], tickets, pins, lockTicket) && PinsOk(tickets, pins, valid[b := false])
  {
    Unheld(refcnt, tickets, b);
    assert LockAt(lock, valid, tickets, pins, lockTicket, b);
    var valid' := valid[b := false];
    forall c: nat | c < NBUF ensures LockAt(lock, valid', tickets, pins, lockTicket, c) {
      assert LockAt(lock, valid, tickets, pins, lockTicket, c);
    }
    forall p | p in pins ensures PinAt(tickets, valid', p) { assert PinAt(tickets, valid, p); }
  }

  /** One reference less. */
  lemma DropRef(key: seq<Key>, refcnt: seq<nat>, tickets: map<nat, nat>, want: map<nat, Key>, t: nat)
    requires RefsOk(refcnt, tickets) && KeysOk(key, tickets, want) && t in tickets
    ensures var b := tickets[t];
      && b < NBUF && refcnt[b] > 0
      && RefsOk(refcnt[b := refcnt[b] - 1], tickets - {t}) && KeysOk(key, tickets - {t}, want)
  {
    assert TicketAt(key, tickets, want, t);
    var b := tickets[t];
    HoldersDrop(tickets, t, b);
    assert RefAt(refcnt, tickets, b);
    var refcnt', tickets' := refcnt[b := refcnt[b] - 1], tickets - {t};
    forall c: nat | c < NBUF ensures RefAt(refcnt', tickets', c) {
      assert RefAt(refcnt, tickets, c);
      HoldersDrop(tickets, t, c);
    }
    forall u | u in tickets' ensures TicketAt(key, tickets', want, u) { assert TicketAt(key, tickets, want, u); }
  }

  /** The reference dropped is a pin, or one that carries no lock. */
  lemma DropTicket(lock: seq<nat>, valid: seq<bool>, tickets: map<nat, nat>, pins: set<nat>, lockTicket: map<nat, nat>,
                   t: nat)
    requires LocksOk(lock, valid, tickets, pins, lockTicket) && PinsOk(tickets, pins, valid) && t in tickets
    requires tickets[t] < NBUF && (t in pins || tickets[t] !in lockTicket || lockTicket[tickets[t]] != t)
    ensures LocksOk(lock, valid, tickets - {t}, pins - {t}, lockTicket) && PinsOk(tickets - {t}, pins - {t}, valid)
    ensures var pinned := PinnedBufs(tickets - {t}, pins - {t});
      PinnedBufs(tickets, pins) - {tickets[t]} <= pinned <= PinnedBufs(tickets, pins)
    ensures t !in pins ==> PinnedBufs(tickets - {t}, pins - {t}) == PinnedBufs(tickets, pins)
  {
    var tickets', pins' := tickets - {t}, pins - {t};
    assert LockAt(lock, valid, tickets, pins, lockTicket, tickets[t]);
    forall c: nat | c < NBUF ensures LockAt(lock, valid, tickets', pins', lockTicket, c) {
      assert LockAt(lock, valid, tickets, pins, lockTicket, c);
    }
    forall p | p in pins' ensures PinAt(tickets', valid, p) { assert PinAt(tickets, valid, p); }
    forall c | c in PinnedBufs(tickets, pins) && (c != tickets[t] || t !in pins)
      ensures c in PinnedBufs(tickets', pins')
    {
      var p :| p in pins && p in tickets && tickets[p] == c;
      PinnedHas(tickets', pins', p);
    }
  }

  /** A reference becomes a pin. */
  lemma AddPin(lock: seq<nat>, valid: seq<bool>, tickets: map<nat, nat>, pins: set<nat>, lockTicket: map<nat, nat>,
               t: nat, b: nat)
    requires LocksOk(lock, valid, tickets, pins, lockTicket) && PinsOk(tickets, pins, valid)
    requires t !in tickets && b < NBUF && valid[b]
    ensures LocksOk(lock, valid, tickets[t := b], pins + {t}, lockTicket) && PinsOk(tickets[t := b], pins + {t}, valid)
    ensures PinnedBufs(tickets[t := b], pins + {t}) == PinnedBufs(tickets, pins) + {b}
  {
    var tickets', pins' := tickets[t := b], pins + {t};
    AddTicket(lock, valid, tickets, pins, lockTicket, t, b);
    forall c: nat | c < NBUF ensures LockAt(lock, valid, tickets', pins', lockTicket, c) {
      assert LockAt(lock, valid, tickets, pins, lockTicket, c);
    }
    forall p | p in pins' ensures PinAt(tickets', valid, p) {
      if p != t { assert PinAt(tickets, valid, p); }
    }
    PinnedHas(tickets', pins', t);
    forall c | c in PinnedBufs(tickets, pins) ensures c in PinnedBufs(tickets', pins') {
      var p :| p in pins && p in tickets && tickets[p] == c;
      PinnedHas(tickets', pins', p);
    }
    forall c | c in PinnedBufs(tickets', pins') && c != b ensures c in PinnedBufs(tickets, pins) {
      var p :| p in pins' && p in tickets' && tickets'[p] == c;
      assert PinAt(tickets, valid, p);
      PinnedHas(tickets, pins, p);
    }
  }

  /** A buffer without references is named by no ticket. */
  lemma Unheld(refcnt: seq<nat>, tickets: map<nat, nat>, b: nat)
    requires RefsOk(refcnt, tickets) && b < NBUF && refcnt[b] == 0
    ensures forall t | t in tickets :: tickets[t] != b
  {
    assert RefAt(refcnt, tickets, b);
    forall t | t in tickets ensures tickets[t] != b { assert t !in Holders(tickets, b); }
  }

  lemma LockedIsHeld(refcnt: seq<nat>, tickets: map<nat, nat>, lock: seq<nat>, valid: seq<bool>, pins: set<nat>,
                     lockTicket: map<nat, nat>, b: nat)
    requires RefsOk(refcnt, tickets) && LocksOk(lock, valid, tickets, pins, lockTicket) && b < NBUF && lock[b] != 0
    ensures b in lockTicket && lockTicket[b] in tickets && tickets[lockTicket[b]] == b && valid[b] && refcnt[b] > 0
  {
    assert LockAt(lock, valid, tickets, pins, lockTicket, b) && RefAt(refcnt, tickets, b);
    assert lockTicket[b] in Holders(tickets, b);
  }

  /** Taking the lock of a referenced buffer, and giving it up. */
  lemma LockKeeps(lock: seq<nat>, valid: seq<bool>, tickets: map<nat, nat>, pins: set<nat>, lockTicket: map<nat, nat>,
                  b: nat, pid: nat, t: nat)
    requires LocksOk(lock, valid, tickets, pins, lockTicket) && PinsOk(tickets, pins, valid)
    requires b < NBUF && lock[b] == 0 && pid != 0 && t in tickets && tickets[t] == b && t !in pins
    ensures LocksOk(lock[b := pid], valid[b := true], tickets, pins, lockTicket[b := t])
    ensures PinsOk(tickets, pins, valid[b := true])
  {
    var lock', valid', lockTicket' := lock[b := pid], valid[b := true], lockTicket[b := t];
    forall c: nat | c < NBUF ensures LockAt(lock', valid', tickets, pins, lockTicket', c) {
      assert LockAt(lock, valid, tickets, pins, lockTicket, c);
    }
    forall p | p in pins ensures PinAt(tickets, valid', p) { assert PinAt(tickets, valid, p); }
  }

  lemma UnlockKeeps(lock: seq<nat>, valid: seq<bool>, tickets: map<nat, nat>, pins: set<nat>, lockTicket: map<nat, nat>,
                    b: nat)
    requires LocksOk(lock, valid, tickets, pins, lockTicket) && b < NBUF
    ensures LocksOk(lock[b := 0], valid, tickets, pins, lockTicket - {b})
  {
    var lock', lockTicket' := lock[b := 0], lockTicket - {b};
    forall c: nat | c < NBUF ensures LockAt(lock', valid, tickets, pins, lockTicket', c) {
      assert LockAt(lock, valid, tickets, pins, lockTicket, c);
    }
  }

  /** Cleanliness concerns only the buffer b whose state changes. */
  lemma CleanKeeps(blank: Block, disk: map<Key, Block>, key: seq<Key>, valid: seq<bool>, data: seq<Block>,
                   lock: seq<nat>, pinned: set<nat>, v: bool, d: Block, l: nat, pinned': set<nat>, b: nat)
    requires CleanOk(blank, disk, key, valid, data, lock, pinned) && b < NBUF && pinned - {b} <= pinned'
    requires CleanAt(blank, disk, key, valid[b := v], data[b := d], lock[b := l], pinned', b)
    ensures CleanOk(blank, disk, key, valid[b := v], data[b := d], lock[b := l], pinned')
  {
    var valid', data', lock' := valid[b := v], data[b := d], lock[b := l];
    forall c: nat | c < NBUF ensures CleanAt(blank, disk, key, valid', data', lock', pinned', c) {
      assert CleanAt(blank, disk, key, valid, data, lock, pinned, c);
    }
  }

  /** Writing out a buffer. */
  lemma WriteKeeps(blank: Block, disk: map<Key, Block>, key: seq<Key>, valid: seq<bool>, data: seq<Block>,
                   lock: seq<nat>, pinned: set<nat>, place: map<Key, nat>, b: nat)
    requires PlacesOk(key, place) && CleanOk(blank, disk, key, valid, data, lock, pinned) && b < NBUF && valid[b]
    ensures CleanOk(blank, disk[key[b] := data[b]], key, valid, data, lock, pinned)
    ensures forall j: Key | j.dev != 0 ::
      LatestOf(blank, disk[key[b] := data[b]], valid, data, place, j) == LatestOf(blank, disk, valid, data, place, j)
  {
    var disk' := disk[key[b] := data[b]];
    assert PlaceAt(key, place, b);
    forall c: nat | c < NBUF ensures CleanAt(blank, disk', key, valid, data, lock, pinned, c) {
      assert CleanAt(blank, disk, key, valid, data, lock, pinned, c) && PlaceAt(key, place, c);
    }
  }

  /** Setting the data of the buffer of a block. */
  lemma LatestSet(blank: Block, disk: map<Key, Block>, key: seq<Key>, valid: seq<bool>, data: seq<Block>,
                  place: map<Key, nat>, b: nat, d: Block, j: Key)
    requires PlacesOk(key, place) && |valid| == |data| == NBUF && b < NBUF
    ensures LatestOf(blank, disk, valid[b := true], data[b := d], place, j)
      == if j == key[b] && j.dev != 0 then d else LatestOf(blank, disk, valid, data, place, j)
  {
    assert PlaceAt(key, place, b);
    if j in place { assert PlaceOf(key, place, j); }
  }

  /** Setting the lock of the buffer of a block. */
  lemma BusySet(key: seq<Key>, lock: seq<nat>, place: map<Key, nat>, b: nat, l: nat, j: Key)
    requires PlacesOk(key, place) && |lock| == NBUF && b < NBUF
    ensures BusyAt(lock[b := l], place, j) <==> if j == key[b] && j.dev != 0 then l != 0 else BusyAt(lock, place, j)
  {
    assert PlaceAt(key, place, b);
    if j in place { assert PlaceOf(key, place, j); }
  }

  /** The recorded places once buffer b is given to block k. */
  ghost function Moved(key: seq<Key>, place: map<Key, nat>, b: nat, k: Key): map<Key, nat>
    requires b < |key|
  {
    var rest := map j | j in place && j != key[b] :: place[j];
    if k.dev != 0 then rest[k := b] else rest
  }

  /** Recycling a buffer that is neither locked nor pinned loses nothing. */
  lemma RecycleKeeps(blank: Block, disk: map<Key, Block>, key: seq<Key>, valid: seq<bool>, data: seq<Block>,
                     lock: seq<nat>, pinned: set<nat>, place: map<Key, nat>, b: nat, k: Key)
    requires PlacesOk(key, place) && CleanOk(blank, disk, key, valid, data, lock, pinned)
    requires b < NBUF && lock[b] == 0 && b !in pinned && forall c | 0 <= c < NBUF :: key[c] != k
    ensures PlacesOk(key[b := k], Moved(key, place, b, k))
    ensures CleanOk(blank, disk, key[b := k], valid[b := false], data, lock, pinned)
    ensures var valid', place' := valid[b := false], Moved(key, place, b, k);
      forall j :: LatestOf(blank, disk, valid', data, place', j) == LatestOf(blank, disk, valid, data, place, j)
    ensures forall j :: BusyAt(lock, Moved(key, place, b, k), j) == BusyAt(lock, place, j)
  {
    var key', place', valid' := key[b := k], Moved(key, place, b, k), valid[b := false];
    forall c: nat | c < NBUF
      ensures PlaceAt(key', place', c) && CleanAt(blank, disk, key', valid', data, lock, pinned, c)
    {
      assert PlaceAt(key, place, c) && CleanAt(blank, disk, key, valid, data, lock, pinned, c);
      assert PlaceAt(key, place, b);
    }
    forall j | j in place' ensures PlaceOf(key', place', j) {
      if j in place { assert PlaceOf(key, place, j); }
    }
    assert PlaceAt(key, place, b) && CleanAt(blank, disk, key, valid, data, lock, pinned, b);
    forall j
      ensures LatestOf(blank, disk, valid', data, place', j) == LatestOf(blank, disk, valid, data, place, j)
      ensures BusyAt(lock, place', j) == BusyAt(lock, place, j)
    {
      if j in place { assert PlaceOf(key, place, j); }
    }
  }

  lemma NewestGrow(st: seq<nat>, o: seq<nat>, b: nat)
    requires Newest(st, o) && |st| == b && (forall x | x in o :: x < b) && forall x | 0 <= x < b :: st[x] == x
    ensures Newest(st + [b], [b] + o)
  {
    NewestExtend(st, o, b);
    assert ([b] + o)[1..] == o;
  }

  lemma {:induction false} NewestExtend(st: seq<nat>, o: seq<nat>, b: nat)
    requires Newest(st, o)
    ensures Newest(st + [b], o)
  {
    if o != [] { NewestExtend(st, o[1..], b); }
  }

  lemma InSeq(order: seq<nat>, i: nat)
    requires i < |order|
    ensures order[i] in order
  {
  }

  lemma InOrder(order: seq<nat>, b: nat) returns (l: seq<nat>, r: seq<nat>)
    requires b in order
    ensures order == l + [b] + r
  {
    var i :| 0 <= i < |order| && order[i] == b;
    l, r := order[..i], order[i + 1..];
  }

  /** brelse's six stores move b to the front and leave the rest in order. */
  lemma MoveToFront(next: seq<nat>, prev: seq<nat>, order: seq<nat>, b: nat, l: seq<nat>, r: seq<nat>)
    requires ListOk(next, prev, order) && order == l + [b] + r
    ensures b < NBUF && prev[b] < |next| && next[b] < |prev|
    ensures var next1, prev1 := next[prev[b] := next[b]], prev[next[b] := prev[b]];
      && next1[HEAD] < |prev|
      && ListOk(next1[b := next1[HEAD]][HEAD := b], prev1[b := HEAD][next1[HEAD] := b], [b] + (l + r))
  {
    PathSplit(next, prev, HEAD, l, b, r, HEAD);
    DistinctParts(l, b, r);
    assert b in order && (forall x | x in l :: x in l + r) && (forall x | x in r :: x in l + r);
    Unlink(next, prev, HEAD, l, b, r);
    var next1, prev1 := next[prev[b] := next[b]], prev[next[b] := prev[b]];
    PushFront(next1, prev1, HEAD, b, l + r);
    assert ([b] + (l + r))[1..] == l + r;
    forall c | 0 <= c < NBUF ensures c in [b] + (l + r) { assert c in order; }
  }

  /** b has moved to the front and the rest is in the same order. */
  ghost predicate Fronted(was: seq<nat>, order: seq<nat>, b: nat) {
    exists l, r :: was == l + [b] + r && order == [b] + (l + r)
  }

  /** An entry was moved to the front before those ahead of it. */
  lemma Oldest(order: seq<nat>, stamp: seq<nat>, i: nat)
    requires Newest(stamp, order) && i < |order| && forall j | 0 <= j < |order| :: order[j] < |stamp|
    ensures forall j | 0 <= j <= i :: stamp[order[i]] <= stamp[order[j]]
  {
    var l, b, r := order[..i], order[i], order[i + 1..];
    assert order == l + [b] + r;
    NewestSplit(stamp, l, b, r);
    forall j | 0 <= j <= i ensures stamp[b] <= stamp[order[j]] {
      if j < i { assert order[j] == l[j]; }
    }
  }

  lemma Restamp(order: seq<nat>, stamp: seq<nat>, clock: nat, b: nat, l: seq<nat>, r: seq<nat>)
    requires RecencyOk(order, stamp) && order == l + [b] + r && Distinct(order)
    requires (forall x | x in order :: x < NBUF) && forall c | 0 <= c < NBUF :: stamp[c] < clock
    ensures b < NBUF && RecencyOk([b] + (l + r), stamp[b := clock])
  {
    NewestSplit(stamp, l, b, r);
    DistinctParts(l, b, r);
    assert b in order && forall x | x in l + r :: x in order;
    NewestPush(stamp, b, clock, l + r);
  }

  // ----------------------------------------------------------------- bcache

  class Cache {
    /** What a block never written holds. */
    const blank: Block
    var disk: map<Key, Block>
    var next: seq<nat>
    var prev: seq<nat>
    var key: seq<Key>
    var valid: seq<bool>
    var refcnt: seq<nat>
    /** Sleep-locks: the holder's pid, or 0. */
    var lock: seq<nat>
    var data: seq<Block>
    ghost var order: seq<nat>
    /** When each buffer was last moved to the front, and when its last
        reference was last dropped. */
    ghost var stamp: seq<nat>
    ghost var freed: seq<nat>
    ghost var clock: nat
    ghost var tickets: map<nat, nat>
    ghost var want: map<nat, Key>
    /** The references that bpin took. */
    ghost var pins: set<nat>
    ghost var lockTicket: map<nat, nat>
    ghost var place: map<Key, nat>

    ghost predicate Valid()
      reads this
    {
      && Linked(next, prev, order, stamp, clock) && |freed| == NBUF
      && RefsOk(refcnt, tickets) && KeysOk(key, tickets, want) && PinsOk(tickets, pins, valid)
      && LocksOk(lock, valid, tickets, pins, lockTicket)
      && PlacesOk(key, place) && CleanOk(blank, disk, key, valid, data, lock, PinnedBufs(tickets, pins))
    }

    ghost function Latest(k: Key): Block
      reads this
    {
      LatestOf(blank, disk, valid, data, place, k)
    }

    ghost predicate Busy(k: Key)
      reads this
    {
      BusyAt(lock, place, k)
    }

    /** bget for block k would panic: k is not cached and every buffer is in use. */
    ghost predicate Full(k: Key)
      reads this
    {
      forall c | 0 <= c < NBUF && c < |key| && c < |refcnt| :: key[c] != k && refcnt[c] > 0
    }

    /** The process pid holds the sleep-lock of buffer b, by its reference t to
        block k. */
    ghost predicate Holds(b: nat, pid: nat, t: nat, k: Key)
      reads this
    {
      && b < |lock| && b < |key| && b < |data| && pid != 0 && lock[b] == pid && key[b] == k
      && b in lockTicket && lockTicket[b] == t && t in tickets && tickets[t] == b
    }

    /** The reference p keeps block k in the cache. */
    ghost predicate Pinned(p: nat, k: Key)
      reads this
    {
      p in pins && p in want && want[p] == k
    }

    /** A pinned block's buffer is in use, so bget cannot give it away, and holds
        the block's latest contents. */
    lemma PinnedStays(p: nat, k: Key)
      requires Valid() && Pinned(p, k) && k.dev != 0
      ensures p in tickets && tickets[p] < NBUF && key[tickets[p]] == k && valid[tickets[p]] && refcnt[tickets[p]] > 0
      ensures data[tickets[p]] == Latest(k) && forall c | 0 <= c < NBUF && key[c] == k :: c == tickets[p]
    {
      assert PinAt(tickets, valid, p) && TicketAt(key, tickets, want, p);
      var b := tickets[p];
      assert p in Holders(tickets, b) && RefAt(refcnt, tickets, b) && PlaceAt(key, place, b);
      forall c | 0 <= c < NBUF && key[c] == k ensures c == b { assert PlaceAt(key, place, c); }
    }

    /** A block whose buffer is neither locked nor pinned reads as on disk. */
    lemma IdleReads(k: Key)
      requires Valid() && k.dev != 0 && !Busy(k) && forall p | p in pins && p in want :: want[p] != k
      ensures Latest(k) == DiskAt(blank, disk, k)
    {
      if k in place {
        var b, pinned := place[k], PinnedBufs(tickets, pins);
        assert PlaceOf(key, place, k);
        forall p | p in pins ensures p in tickets && tickets[p] != b {
          assert PinAt(tickets, valid, p) && TicketAt(key, tickets, want, p);
        }
        assert lock[b] == 0 && b !in pinned;
        assert CleanAt(blank, disk, key, valid, data, lock, pinned, b);
      }
    }

    /** Every unreferenced buffer sits where its last release put it. */
    ghost predicate Timely()
      reads this
    {
      TimelyOk(refcnt, freed, stamp)
    }

    /** binit. */
    constructor (blank: Block, disk: map<Key, Block>)
      ensures Valid() && Timely() && this.blank == blank && this.disk == disk
      ensures tickets == map[] && pins == {} && forall k :: Latest(k) == DiskAt(blank, disk, k) && !Busy(k)
    {
      this.blank, this.disk := blank, disk;
      var n: seq<nat>, p: seq<nat> := Repeat(HEAD, NBUF + 1), Repeat(HEAD, NBUF + 1);
      ghost var o: seq<nat>, st: seq<nat> := [], [];
      var b: nat := 0;
      while b < NBUF
        invariant b <= NBUF && |n| == |p| == NBUF + 1 && Path(n, p, HEAD, o, HEAD) && Distinct(o)
        invariant (forall x | x in o :: x < b) && (forall x | 0 <= x < b :: x in o)
        invariant |st| == b && Newest(st, o) && forall x | 0 <= x < b :: st[x] == x
      {
        PushFront(n, p, HEAD, b, o);
        NewestGrow(st, o, b);
        n := n[b := n[HEAD]];
        p := p[b := HEAD];
        p := p[n[HEAD] := b];
        n := n[HEAD := b];
        ghost var o0 := o;
        o, st := [b] + o, st + [b];
        assert o[1..] == o0;
        b := b + 1;
      }
      next, prev, order, stamp, freed, clock := n, p, o, st, st, NBUF;
      key, valid, data := Repeat(Key(0, 0), NBUF), Repeat(false, NBUF), Repeat(blank, NBUF);
      refcnt, lock := Repeat<nat>(0, NBUF), Repeat<nat>(0, NBUF);
      tickets, want, pins, lockTicket, place := map[], map[], {}, map[], map[];
      forall c: nat | c < NBUF
        ensures Repeat(Key(0, 0), NBUF)[c] == Key(0, 0) && Repeat<nat>(0, NBUF)[c] == 0 && !Repeat(false, NBUF)[c]
      {
        RepeatAt(Key(0, 0), NBUF, c);
        RepeatAt<nat>(0, NBUF, c);
        RepeatAt(false, NBUF, c);
      }
    }

    /** bget's first scan. */
    method FindCached(k: Key) returns (found: bool, b: nat)
      requires Valid()
      ensures found ==> b < NBUF && key[b] == k
      ensures !found ==> forall c | 0 <= c < NBUF :: key[c] != k
    {
      assert Peek(0);
      PathEnds(next, prev, HEAD, order, HEAD);
      b := next[HEAD];
      ghost var i := 0;
      assert 0 in order;
      InSeq(order, 0);
      while b != HEAD
        invariant 0 <= i <= |order| && (b == HEAD <==> i == |order|) && (i < |order| ==> b == order[i])
        invariant forall j | 0 <= j < i :: order[j] < NBUF && key[order[j]] != k
        decreases |order| - i
      {
        assert b in order;
        if key[b] == k {
          return true, b;
        }
        PathStep(next, prev, HEAD, order, HEAD, i);
        b, i := next[b], i + 1;
        if i < |order| { InSeq(order, i); }
      }
      forall c | 0 <= c < NBUF ensures key[c] != k { assert c in order; }
      return false, b;
    }

    /** bget's second scan, backwards. */
    method FindVictim() returns (found: bool, b: nat)
      requires Valid()
      ensures found ==> b < NBUF && refcnt[b] == 0 && forall c | 0 <= c < NBUF && refcnt[c] == 0 :: stamp[b] <= stamp[c]
      ensures !found ==> forall c | 0 <= c < NBUF :: refcnt[c] > 0
    {
      assert Peek(0);
      PathEnds(next, prev, HEAD, order, HEAD);
      b := prev[HEAD];
      ghost var i := |order|;
      assert 0 in order;
      InSeq(order, i - 1);
      while b != HEAD
        invariant 0 <= i <= |order| && (b == HEAD <==> i == 0) && (i > 0 ==> b == order[i - 1])
        invariant forall j | i <= j < |order| :: order[j] < NBUF && refcnt[order[j]] > 0
        decreases i
      {
        i := i - 1;
        assert b in order;
        if refcnt[b] == 0 {
          forall j: nat | j < |order| ensures order[j] < NBUF { InSeq(order, j); }
          Oldest(order, stamp, i);
          forall c | 0 <= c < NBUF && refcnt[c] == 0 ensures stamp[b] <= stamp[c] { assert c in order; }
          return true, b;
        }
        PathStep(next, prev, HEAD, order, HEAD, i);
        b := prev[b];
        if i > 0 { InSeq(order, i - 1); }
      }
      forall c | 0 <= c < NBUF ensures refcnt[c] > 0 { assert c in order; }
      return false, b;
    }

    /** bget's stores into the recycled buffer, for the reference t. */
    method Recycle(b: nat, k: Key, ghost t: nat)
      requires b < |key| == |valid| == |refcnt|
      modifies this`key, this`valid, this`refcnt, this`place, this`tickets, this`want
      ensures key == old(key)[b := k] && valid == old(valid)[b := false] && refcnt == old(refcnt)[b := 1]
      ensures place == Moved(old(key), old(place), b, k)
      ensures tickets == old(tickets)[t := b] && want == old(want)[t := k]
    {
      place := Moved(key, place, b, k);
      key := key[b := k];
      valid := valid[b := false];
      refcnt := refcnt[b := 1];
      tickets, want := tickets[t := b], want[t := k];
    }

    method Ref(b: nat, ghost t: nat)
      requires b < |key| == |refcnt|
      modifies this`refcnt, this`tickets, this`want
      ensures refcnt == old(refcnt)[b := old(refcnt)[b] + 1]
      ensures tickets == old(tickets)[t := b] && want == old(want)[t := key[b]]
    {
      refcnt, tickets, want := refcnt[b := refcnt[b] + 1], tickets[t := b], want[t := key[b]];
    }

    method Deref(b: nat, ghost t: nat)
      requires b < |refcnt| && refcnt[b] > 0
      modifies this`refcnt, this`tickets
      ensures refcnt == old(refcnt)[b := old(refcnt)[b] - 1] && tickets == old(tickets) - {t}
    {
      refcnt, tickets := refcnt[b := refcnt[b] - 1], tickets - {t};
    }

    /** The bookkeeping of a pin t that is gone. */
    ghost method Unpin(b: nat, t: nat)
      requires b < |refcnt| == |freed|
      modifies this`pins, this`freed, this`clock
      ensures pins == old(pins) - {t}
      ensures freed == if refcnt[b] == 0 then old(freed)[b := old(clock)] else old(freed)
      ensures clock >= old(clock)
    {
      pins := pins - {t};
      if refcnt[b] == 0 { freed, clock := freed[b := clock], clock + 1; }
    }

    /** bget up to its release of bcache.lock, for the reference t.  It fails
        (panics) exactly when the block is not cached and every buffer is in use.
        A recycled buffer had no reference and, of those, was moved to the front
        longest ago. */
    method Bget(dev: nat, blockno: nat, ghost t: nat) returns (ok: bool, b: nat)
      requires Valid() && t !in tickets
      modifies this`key, this`valid, this`refcnt, this`tickets, this`want, this`place
      ensures Valid() && (old(Timely()) ==> Timely()) && t !in pins
      ensures !ok <==> old(Full(Key(dev, blockno)))
      ensures !ok ==> refcnt == old(refcnt) && key == old(key) && valid == old(valid)
      ensures !ok ==> tickets == old(tickets) && want == old(want)
      ensures ok ==> b < NBUF && key == old(key)[b := Key(dev, blockno)]
      ensures ok ==> refcnt == old(refcnt)[b := old(refcnt)[b] + 1]
      ensures ok ==> tickets == old(tickets)[t := b] && want == old(want)[t := Key(dev, blockno)]
      ensures ok && old(key)[b] != Key(dev, blockno) ==>
        && old(refcnt)[b] == 0 && lock[b] == 0
        && (forall c | 0 <= c < NBUF && old(refcnt)[c] == 0 :: stamp[b] <= stamp[c])
        && (old(Timely()) ==> forall c | 0 <= c < NBUF && old(refcnt)[c] == 0 :: freed[b] <= freed[c])
      ensures forall k :: Latest(k) == old(Latest(k)) && Busy(k) == old(Busy(k))
    {
      var k := Key(dev, blockno);
      ok, b := FindCached(k);
      if ok {
        AddRef(key, refcnt, tickets, want, t, b, k);
        AddTicket(lock, valid, tickets, pins, lockTicket, t, b);
        assert key[b := k] == key;
        if Timely() { TimelyRef(refcnt, freed, stamp, b, refcnt[b] + 1); }
        Ref(b, t);
        return;
      }
      AddTicket(lock, valid, tickets, pins, lockTicket, t, 0);
      ok, b := FindVictim();
      if ok {
        if Timely() {
          forall c: nat | c < NBUF ensures refcnt[c] == 0 ==> freed[c] == stamp[c] {
            assert TimelyAt(refcnt, freed, stamp, c);
          }
        }
        Steal(b, k, t);
      }
    }

    /** bget's choice of an unreferenced buffer for a block that is not cached. */
    method Steal(b: nat, k: Key, ghost t: nat)
      requires Valid() && t !in tickets && b < NBUF && refcnt[b] == 0 && forall c | 0 <= c < NBUF :: key[c] != k
      modifies this`key, this`valid, this`refcnt, this`tickets, this`want, this`place
      ensures Valid() && (old(Timely()) ==> Timely()) && lock[b] == 0
      ensures key == old(key)[b := k] && refcnt == old(refcnt)[b := 1]
      ensures tickets == old(tickets)[t := b] && want == old(want)[t := k]
      ensures forall j :: Latest(j) == old(Latest(j)) && Busy(j) == old(Busy(j))
    {
      AddRef(key, refcnt, tickets, want, t, b, k);
      Idle(refcnt, lock, valid, tickets, pins, lockTicket, b);
      AddTicket(lock, valid[b := false], tickets, pins, lockTicket, t, b);
      RecycleKeeps(blank, disk, key, valid, data, lock, PinnedBufs(tickets, pins), place, b, k);
      if Timely() { TimelyRef(refcnt, freed, stamp, b, 1); }
      Recycle(b, k, t);
    }

    /** The stores of acquiresleep and of a read from disk. */
    method Load(b: nat, pid: nat, ghost t: nat)
      requires b < |lock| == |valid| == |data| == |key|
      modifies this`lock, this`valid, this`data, this`lockTicket
      ensures lock == old(lock)[b := pid] && lockTicket == old(lockTicket)[b := t] && valid == old(valid)[b := true]
      ensures data == if old(valid)[b] then old(data) else old(data)[b := DiskAt(blank, disk, key[b])]
    {
      lock, lockTicket := lock[b := pid], lockTicket[b := t];
      if !valid[b] {
        data := data[b := DiskAt(blank, disk, key[b])];
        valid := valid[b := true];
      }
    }

    /** acquiresleep at the moment it succeeds, and the rest of bread: whatever
        happened since bget, the buffer holds the block asked for, and its data
        are the latest contents. */
    method Bread(b: nat, pid: nat, ghost t: nat)
      requires Valid() && b < NBUF && t in tickets && tickets[t] == b && t !in pins && pid != 0 && lock[b] == 0
      modifies this`lock, this`valid, this`data, this`lockTicket
      ensures Valid() && (old(Timely()) ==> Timely()) && lock == old(lock)[b := pid]
      ensures lockTicket == old(lockTicket)[b := t]
      ensures t in want && Holds(b, pid, t, want[t]) && valid == old(valid)[b := true]
      ensures want[t].dev != 0 ==> data[b] == Latest(want[t])
      ensures forall c | 0 <= c < NBUF && c != b :: data[c] == old(data)[c]
      ensures forall k :: Latest(k) == old(Latest(k))
      ensures forall k :: Busy(k) <==> old(Busy(k)) || (k == want[t] && k.dev != 0)
    {
      ghost var pinned := PinnedBufs(tickets, pins);
      assert TicketAt(key, tickets, want, t) && CleanAt(blank, disk, key, valid, data, lock, pinned, b);
      LockKeeps(lock, valid, tickets, pins, lockTicket, b, pid, t);
      ghost var d := if valid[b] then data[b] else DiskAt(blank, disk, key[b]);
      CleanKeeps(blank, disk, key, valid, data, lock, pinned, true, d, pid, pinned, b);
      ghost var valid', data', lock' := valid[b := true], data[b := d], lock[b := pid];
      forall k
        ensures LatestOf(blank, disk, valid', data', place, k) == LatestOf(blank, disk, valid, data, place, k)
        ensures BusyAt(lock', place, k) <==> BusyAt(lock, place, k) || (k == key[b] && k.dev != 0)
      {
        LatestSet(blank, disk, key, valid, data, place, b, d, k);
        BusySet(key, lock, place, b, pid, k);
      }
      assert PlaceAt(key, place, b);
      Load(b, pid, t);
      assert valid == valid' && data == data';
    }

    /** The holder of the lock changes the buffer's data. */
    method Modify(b: nat, c: Block)
      requires Valid() && b < NBUF && lock[b] != 0
      modifies this`data
      ensures Valid() && (old(Timely()) ==> Timely()) && data == old(data)[b := c]
      ensures forall k :: Latest(k) == if k == key[b] && k.dev != 0 then c else old(Latest(k))
    {
      LockedIsHeld(refcnt, tickets, lock, valid, pins, lockTicket, b);
      ghost var pinned := PinnedBufs(tickets, pins);
      CleanKeeps(blank, disk, key, valid, data, lock, pinned, true, c, lock[b], pinned, b);
      forall k { LatestSet(blank, disk, key, valid, data, place, b, c, k); }
      assert valid[b := true] == valid && lock[b := lock[b]] == lock;
      data := data[b := c];
    }

    /** bwrite; false is its panic. */
    method Bwrite(b: nat, pid: nat) returns (ok: bool)
      requires Valid() && b < NBUF && pid != 0
      modifies this`disk
      ensures Valid() && (old(Timely()) ==> Timely()) && (ok <==> lock[b] == pid)
      ensures disk == if ok then old(disk)[key[b] := data[b]] else old(disk)
      ensures forall k: Key | k.dev != 0 :: Latest(k) == old(Latest(k))
    {
      if lock[b] != pid {
        return false;
      }
      LockedIsHeld(refcnt, tickets, lock, valid, pins, lockTicket, b);
      WriteKeeps(blank, disk, key, valid, data, lock, PinnedBufs(tickets, pins), place, b);
      disk := disk[key[b] := data[b]];
      return true;
    }

    /** The buffer can do without its lock: it is pinned, or as on disk. */
    ghost predicate Settled(b: nat)
      reads this
      requires b < |key| && b < |data|
    {
      b in PinnedBufs(tickets, pins) || key[b].dev == 0 || data[b] == DiskAt(blank, disk, key[b])
    }

    /** The stores of brelse that move b behind the header. */
    method MoveFront(b: nat)
      requires Linked(next, prev, order, stamp, clock) && |freed| == NBUF && b < NBUF
      modifies this`next, this`prev, this`order, this`stamp, this`freed, this`clock
      ensures Linked(next, prev, order, stamp, clock)
      ensures stamp == old(stamp)[b := old(clock)] && freed == old(freed)[b := old(clock)]
      ensures Fronted(old(order), order, b)
    {
      assert Peek(0);
      ghost var l, r := InOrder(order, b);
      MoveToFront(next, prev, order, b, l, r);
      Restamp(order, stamp, clock, b, l, r);
      order, stamp, freed, clock := [b] + (l + r), stamp[b := clock], freed[b := clock], clock + 1;
      next, prev := next[prev[b] := next[b]], prev[next[b] := prev[b]];
      next, prev := next[b := next[HEAD]][HEAD := b], prev[b := HEAD][next[HEAD] := b];
    }

    /** brelse up to releasesleep; false is its panic. */
    method Unlock(b: nat, pid: nat) returns (ok: bool)
      requires Valid() && b < NBUF && pid != 0 && (lock[b] == pid ==> Settled(b))
      modifies this`lock, this`lockTicket
      ensures Valid() && (old(Timely()) ==> Timely()) && (ok <==> old(lock)[b] == pid)
      ensures lock == if ok then old(lock)[b := 0] else old(lock)
      ensures lockTicket == if ok then old(lockTicket) - {b} else old(lockTicket)
      ensures ok ==> forall k :: Busy(k) <==> old(Busy(k)) && !(k == key[b] && k.dev != 0)
    {
      if lock[b] != pid {
        return false;
      }
      ghost var pinned := PinnedBufs(tickets, pins);
      LockedIsHeld(refcnt, tickets, lock, valid, pins, lockTicket, b);
      UnlockKeeps(lock, valid, tickets, pins, lockTicket, b);
      CleanKeeps(blank, disk, key, valid, data, lock, pinned, valid[b], data[b], 0, pinned, b);
      forall k { BusySet(key, lock, place, b, 0, k); }
      assert valid[b := valid[b]] == valid && data[b := data[b]] == data;
      lock, lockTicket := lock[b := 0], lockTicket - {b};
      return true;
    }

    /** One reference less, not a pin and not a lock's. */
    method Unref(b: nat, ghost t: nat)
      requires Valid() && t in tickets && tickets[t] == b && t !in pins
      requires b in lockTicket ==> lockTicket[b] != t
      modifies this`refcnt, this`tickets
      ensures Valid() && b < NBUF && old(refcnt)[b] > 0
      ensures refcnt == old(refcnt)[b := old(refcnt)[b] - 1] && tickets == old(tickets) - {t}
    {
      DropRef(key, refcnt, tickets, want, t);
      DropTicket(lock, valid, tickets, pins, lockTicket, t);
      assert pins - {t} == pins;
      Deref(b, t);
    }

    /** The rest of brelse, under bcache.lock: the reference t goes.  The last
        reference to go moves the buffer to the front and keeps the others in
        order. */
    method Drop(b: nat, ghost t: nat)
      requires Valid() && t in tickets && tickets[t] == b && t !in pins
      requires b in lockTicket ==> lockTicket[b] != t
      modifies this`refcnt, this`next, this`prev, this`order, this`stamp, this`freed, this`clock, this`tickets
      ensures Valid() && (old(Timely()) ==> Timely()) && b < NBUF
      ensures old(refcnt)[b] > 0 && refcnt == old(refcnt)[b := old(refcnt)[b] - 1] && tickets == old(tickets) - {t}
      ensures refcnt[b] > 0 ==> order == old(order)
      ensures refcnt[b] == 0 ==> Fronted(old(order), order, b)
    {
      assert TicketAt(key, tickets, want, t);
      ghost var r, f, s := refcnt, freed, stamp;
      Unref(b, t);
      if refcnt[b] == 0 {
        if TimelyOk(r, f, s) { TimelyLast(r, f, s, b, clock, clock); }
        MoveFront(b);
      } else {
        if TimelyOk(r, f, s) { TimelyRef(r, f, s, b, refcnt[b]); }
      }
    }

    /** brelse, when nothing comes between its two sections. */
    method Brelse(b: nat, pid: nat) returns (ok: bool)
      requires Valid() && b < NBUF && pid != 0 && (lock[b] == pid ==> Settled(b))
      modifies this`lock, this`refcnt, this`next, this`prev, this`order, this`stamp, this`freed, this`clock,
               this`tickets, this`lockTicket
      ensures Valid() && (old(Timely()) ==> Timely()) && (ok <==> old(lock)[b] == pid)
      ensures !ok ==> refcnt == old(refcnt) && tickets == old(tickets) && lock == old(lock)
      ensures ok ==> b in old(lockTicket) && tickets == old(tickets) - {old(lockTicket)[b]}
      ensures ok ==> lock == old(lock)[b := 0] && lockTicket == old(lockTicket) - {b}
      ensures ok ==> forall k :: Busy(k) <==> old(Busy(k)) && !(k == key[b] && k.dev != 0)
    {
      if lock[b] == pid { LockedIsHeld(refcnt, tickets, lock, valid, pins, lockTicket, b); }
      assert LockAt(lock, valid, tickets, pins, lockTicket, b);
      ghost var t := if b in lockTicket then lockTicket[b] else 0;
      ok := Unlock(b, pid);
      if ok {
        Drop(b, t);
      }
    }

    /** bpin by a process that has the buffer, for the reference t. */
    method Bpin(b: nat, ghost t: nat)
      requires Valid() && b < NBUF && valid[b] && t !in tickets
      modifies this`refcnt, this`tickets, this`want, this`pins
      ensures Valid() && (old(Timely()) ==> Timely()) && refcnt == old(refcnt)[b := old(refcnt)[b] + 1]
      ensures tickets == old(tickets)[t := b] && want == old(want)[t := key[b]]
      ensures pins == old(pins) + {t} && b in PinnedBufs(tickets, pins) && Pinned(t, key[b])
    {
      ghost var pinned := PinnedBufs(tickets, pins);
      AddRef(key, refcnt, tickets, want, t, b, key[b]);
      AddPin(lock, valid, tickets, pins, lockTicket, t, b);
      CleanKeeps(blank, disk, key, valid, data, lock, pinned, valid[b], data[b], lock[b], pinned + {b}, b);
      assert key[b := key[b]] == key && valid[b := valid[b]] == valid && data[b := data[b]] == data;
      assert lock[b := lock[b]] == lock;
      if Timely() { TimelyRef(refcnt, freed, stamp, b, refcnt[b] + 1); }
      Ref(b, t);
      pins := pins + {t};
    }

    /** bunpin of a pin t.  It never moves the buffer, so dropping the last
        reference here, and only that, breaks the order of release. */
    method Bunpin(b: nat, ghost t: nat)
      requires Valid() && b < NBUF && t in pins && t in tickets && tickets[t] == b
      requires lock[b] != 0 || key[b].dev == 0 || data[b] == DiskAt(blank, disk, key[b])
      modifies this`refcnt, this`tickets, this`pins, this`freed, this`clock
      ensures Valid() && old(refcnt)[b] > 0 && refcnt == old(refcnt)[b := old(refcnt)[b] - 1]
      ensures tickets == old(tickets) - {t} && pins == old(pins) - {t}
      ensures old(Timely()) ==> (Timely() <==> refcnt[b] > 0)
    {
      ghost var pinned, pinned' := PinnedBufs(tickets, pins), PinnedBufs(tickets - {t}, pins - {t});
      DropRef(key, refcnt, tickets, want, t);
      DropTicket(lock, valid, tickets, pins, lockTicket, t);
      CleanKeeps(blank, disk, key, valid, data, lock, pinned, valid[b], data[b], lock[b], pinned', b);
      assert valid[b := valid[b]] == valid && data[b := data[b]] == data && lock[b := lock[b]] == lock;
      if Timely() {
        if refcnt[b] > 1 {
          TimelyRef(refcnt, freed, stamp, b, refcnt[b] - 1);
        } else {
          TimelyLast(refcnt, freed, stamp, b, clock, stamp[b]);
          assert stamp[b := stamp[b]] == stamp;
        }
      }
      Deref(b, t);
      Unpin(b, t);
    }
  }
}
