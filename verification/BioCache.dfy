/** bio.c's list: buffers doubly linked in a ring through the cache's head. */
module BioCache {
  import opened Common
  import opened BioSpec

  class Buf {
    var dev: nat
    var block_no: nat
    var valid: bool
    var link_no: nat
    var data: Data
    /** The flag of its sleep lock. */
    var holding: bool
    var next: Buf?
    var prior: Buf?

    /** A static buffer: all zero. */
    constructor ()
      ensures dev == 0 && block_no == 0 && !valid && link_no == 0 && !holding
    {
      dev, block_no, valid, link_no, data, holding := 0, 0, false, 0, [], false;
    }
  }

  ghost function SlotOf(b: Buf): Slot
    reads b
  {
    Slot(Id(b.dev, b.block_no), b.valid, b.link_no, b.data)
  }

  ghost predicate Holds(buffers: seq<Buf>, slots: seq<Slot>)
    reads buffers
  {
    |slots| == |buffers| && forall k :: 0 <= k < |buffers| ==> slots[k] == SlotOf(buffers[k])
  }

  /** Place j of the ring from the head, through the list, back to the head. */
  ghost function RingAt(head: Buf, buffers: seq<Buf>, order: seq<nat>, j: nat): Buf
    requires Perm(order, |buffers|) && j <= |buffers| + 1
  {
    if 0 < j <= |buffers| then buffers[order[j - 1]] else head
  }

  ghost function Ring(head: Buf, buffers: seq<Buf>, order: seq<nat>): (r: seq<Buf>)
    requires Perm(order, |buffers|)
    ensures |r| == |buffers| + 2
    ensures forall j :: 0 <= j < |r| ==> r[j] == RingAt(head, buffers, order, j)
  {
    seq(|buffers| + 2, j requires 0 <= j < |buffers| + 2 => RingAt(head, buffers, order, j))
  }

  ghost predicate Linked(ring: seq<Buf>)
    reads ring
  {
    forall i {:trigger LinkAt(ring, i)} :: 0 <= i < |ring| - 1 ==> LinkAt(ring, i)
  }

  /** Buffers i and i + 1 point at each other. */
  ghost predicate LinkAt(ring: seq<Buf>, i: nat)
    reads ring
    requires i < |ring| - 1
  {
    ring[i].next == ring[i + 1] && ring[i + 1].prior == ring[i]
  }

  ghost predicate Distinct(head: Buf, buffers: seq<Buf>) {
    && (forall i :: 0 <= i < |buffers| ==> buffers[i] != head)
    && (forall i, j :: 0 <= i < j < |buffers| ==> buffers[i] != buffers[j])
  }

  /** binit's loop; the sleep lock of the last buffer is set up too. */
  method LinkAll(h: Buf, bufs: seq<Buf>)
    requires Distinct(h, bufs) && 0 < |bufs|
    modifies h`next, h`prior, bufs`next, bufs`prior, bufs`holding
    ensures Linked([h] + bufs + [h])
    ensures forall k :: 0 <= k < |bufs| ==> !bufs[k].holding
  {
    ghost var ring := [h] + bufs + [h];
    var cursor := bufs[0];
    h.next := cursor;
    cursor.prior := h;
    cursor.holding := false;
    var i := 1;
    while i < |bufs|
      invariant 1 <= i <= |bufs| && cursor == bufs[i - 1]
      invariant LinkedTo(ring, i)
      invariant forall k :: 0 <= k < i ==> !bufs[k].holding
    {
      label before:
      cursor.next := bufs[i];
      bufs[i].prior := cursor;
      bufs[i].holding := false;
      forall j {:trigger LinkAt(ring, j)} | 0 <= j < i ensures LinkAt(ring, j) { assert old@before(LinkAt(ring, j)); }
      cursor := bufs[i];
      i := i + 1;
    }
    label last:
    cursor.next := h;
    h.prior := cursor;
    forall j {:trigger LinkAt(ring, j)} | 0 <= j < |bufs| ensures LinkAt(ring, j) { assert old@last(LinkAt(ring, j)); }
  }

  /** The first n links of a ring. */
  ghost predicate LinkedTo(ring: seq<Buf>, n: nat)
    reads ring
    requires n < |ring|
  {
    forall j {:trigger LinkAt(ring, j)} :: 0 <= j < n ==> LinkAt(ring, j)
  }

  /** Only the two ends of a ring are the same buffer. */
  ghost predicate Apart(r: seq<Buf>) {
    |r| >= 2 && r[0] == r[|r| - 1] && forall i, j :: 0 <= i < j < |r| - 1 ==> r[i] != r[j]
  }

  lemma RingApart(head: Buf, buffers: seq<Buf>, order: seq<nat>)
    requires Distinct(head, buffers) && Perm(order, |buffers|)
    ensures var r := Ring(head, buffers, order); Apart(r) && forall x :: x in r ==> x == head || x in buffers
  {
    var r := Ring(head, buffers, order);
    forall i, j | 0 <= i < j < |r| - 1 ensures r[i] != r[j] {
      if i > 0 { assert order[i - 1] != order[j - 1]; }
    }
    forall i | 0 <= i < |r| ensures r[i] == head || r[i] in buffers {
      if 0 < i < |r| - 1 { assert r[i] == buffers[order[i - 1]]; }
    }
  }

  /** Out of its place in the ring, and in again behind the head. */
  method Unlink(b: Buf, head: Buf, ghost r: seq<Buf>, ghost p: nat)
    requires Apart(r) && Linked(r) && 0 < p < |r| - 1 && b == r[p] && head == r[0]
    modifies r`next, r`prior
    ensures Moved(r, p)
  {
    assert LinkAt(r, 0) && LinkAt(r, p - 1) && LinkAt(r, p);
    b.prior.next := b.next;
    b.next.prior := b.prior;
    b.next := head.next;
    b.prior := head;
    head.next.prior := b;
    head.next := b;
    forall j {:trigger LinkAt(r, j)} | 0 < j < |r| - 1 && j != p - 1 && j != p ensures LinkAt(r, j) { assert old(LinkAt(r, j)); }
  }

  /** Stores to the fields that say what a buffer caches. */
  method StoreSlot(b: Buf, dev: nat, block_no: nat, valid: bool, link_no: nat)
    modifies b`dev, b`block_no, b`valid, b`link_no
    ensures SlotOf(b) == Slot(Id(dev, block_no), valid, link_no, b.data)
  {
    b.dev := dev;
    b.block_no := block_no;
    b.valid := valid;
    b.link_no := link_no;
  }

  /** The pointers of ring r with its place p unlinked and linked again behind the head. */
  ghost predicate Moved(r: seq<Buf>, p: nat)
    reads r
    requires 0 < p < |r| - 1
  {
    var second := if p == 1 then r[2] else r[1];
    && r[0].next == r[p] && r[p].prior == r[0]
    && r[p].next == second && second.prior == r[p]
    && (p > 1 ==> r[p - 1].next == r[p + 1] && r[p + 1].prior == r[p - 1])
    && forall j {:trigger LinkAt(r, j)} :: 0 < j < |r| - 1 && j != p - 1 && j != p ==> LinkAt(r, j)
  }

  lemma ToFrontAt(order: seq<nat>, i: nat, j: nat)
    requires i < |order| && j < |order|
    ensures |ToFront(order, i)| == |order|
    ensures ToFront(order, i)[j] == if j == 0 then order[i] else if j <= i then order[j - 1] else order[j]
  {
  }

  lemma RingToFront(head: Buf, buffers: seq<Buf>, order: seq<nat>, i: nat, j: nat)
    requires i < |buffers| && Perm(order, |buffers|) && Perm(ToFront(order, i), |buffers|) && j <= |buffers| + 1
    ensures var r := Ring(head, buffers, order);
      Ring(head, buffers, ToFront(order, i))[j] == if j == 0 || j > i + 1 then r[j] else if j == 1 then r[i + 1] else r[j - 1]
  {
    if 0 < j <= |buffers| { ToFrontAt(order, i, j - 1); }
    hide ToFront, Perm;
  }

  /** Those are the pointers of the list with that place at the front. */
  lemma Relinked(head: Buf, buffers: seq<Buf>, order: seq<nat>, i: nat)
    requires i < |buffers| && Perm(order, |buffers|) && Perm(ToFront(order, i), |buffers|)
    requires Moved(Ring(head, buffers, order), i + 1)
    ensures Linked(Ring(head, buffers, ToFront(order, i)))
  {
    var r, r' := Ring(head, buffers, order), Ring(head, buffers, ToFront(order, i));
    forall j {:trigger LinkAt(r', j)} | 0 <= j < |r'| - 1 ensures LinkAt(r', j) {
      RingToFront(head, buffers, order, i, j);
      RingToFront(head, buffers, order, i, j + 1);
      if j > i + 1 { assert LinkAt(r, j); }
      if 1 < j <= i { assert LinkAt(r, j - 1); }
    }
  }

  /** The disk below the driver: what virtio_disk_rw reads and writes. */
  class Disk {
    var blocks: map<Id, Data>

    function Read(id: Id): Data
      reads this
    {
      if id in blocks then blocks[id] else []
    }

    /** virtio_disk_rw(b, write), as one transfer. */
    method Rw(b: Buf, write: bool)
      modifies this, b`data
      ensures if write then blocks == old(blocks)[Id(b.dev, b.block_no) := b.data] && b.data == old(b.data)
              else blocks == old(blocks) && b.data == Read(Id(b.dev, b.block_no))
    {
      if write {
        blocks := blocks[Id(b.dev, b.block_no) := b.data];
      } else {
        b.data := Read(Id(b.dev, b.block_no));
      }
    }
  }

  class BufCache {
    const head: Buf
    /** The array `buffers`. */
    const buffers: seq<Buf>
    /** What the buffers hold, and the list from head.next on. */
    ghost var c: Cache

    ghost predicate Valid()
      reads this, head, buffers
    {
      && Distinct(head, buffers) && Holds(buffers, c.slots) && Perm(c.order, |buffers|)
      && Linked(Ring(head, buffers, c.order))
    }

    /** binit over the static buffers. */
    constructor (h: Buf, bufs: seq<Buf>)
      requires Distinct(h, bufs) && 0 < |bufs|
      modifies h, bufs
      ensures head == h && buffers == bufs && Valid()
      ensures c.order == seq(|bufs|, i => i)
      ensures forall k :: 0 <= k < |bufs| ==> !bufs[k].holding && c.slots[k] == old(SlotOf(bufs[k]))
    {
      head := h;
      buffers := bufs;
      c := Cache(seq(|bufs|, k requires 0 <= k < |bufs| reads bufs => SlotOf(bufs[k])), seq(|bufs|, i => i));
      new;
      LinkAll(h, bufs);
      assert Ring(h, bufs, c.order) == [h] + bufs + [h];
    }

    /** The first loop of bget. */
    method FindCached(dev: nat, block_no: nat) returns (b: Buf?, ghost i: nat)
      requires Valid()
      ensures b == null ==> Hit(c, Id(dev, block_no), 0) == None
      ensures b != null ==> i < |buffers| && b == buffers[c.order[i]] && Hit(c, Id(dev, block_no), 0) == Some(i)
    {
      ghost var ring, n := Ring(head, buffers, c.order), |buffers|;
      assert LinkAt(ring, 0);
      var cursor := head.next;
      i := 0;
      while cursor != head
        invariant 0 <= i <= n && cursor == ring[i + 1]
        invariant Hit(c, Id(dev, block_no), 0) == Hit(c, Id(dev, block_no), i)
        decreases n - i
      {
        assert cursor == buffers[c.order[i]] && c.slots[c.order[i]] == SlotOf(cursor);
        if cursor.dev == dev && cursor.block_no == block_no { return cursor, i; }
        assert LinkAt(ring, i + 1);
        cursor := cursor.next;
        i := i + 1;
      }
      b := null;
    }

    /** The second loop of bget. */
    method FindUnused() returns (b: Buf?, ghost i: nat)
      requires Valid()
      ensures b == null ==> Victim(c, |buffers|) == None
      ensures b != null ==> i < |buffers| && b == buffers[c.order[i]] && Victim(c, |buffers|) == Some(i)
    {
      ghost var ring, n := Ring(head, buffers, c.order), |buffers|;
      assert LinkAt(ring, n);
      var cursor := head.prior;
      i := n;
      while cursor != head
        invariant 0 <= i <= n && cursor == ring[i]
        invariant Victim(c, n) == Victim(c, i)
        decreases i
      {
        assert cursor == buffers[c.order[i - 1]] && c.slots[c.order[i - 1]] == SlotOf(cursor);
        if cursor.link_no == 0 { return cursor, i - 1; }
        assert LinkAt(ring, i - 1);
        cursor := cursor.prior;
        i := i - 1;
      }
      b := null;
    }

    /** Stores to the fields of one buffer. */
    method SetSlot(b: Buf, ghost k: nat, dev: nat, block_no: nat, valid: bool, link_no: nat)
      requires Valid() && k < |buffers| && b == buffers[k]
      modifies this`c, b`dev, b`block_no, b`valid, b`link_no
      ensures Valid() && c == old(c).(slots := old(c).slots[k := Slot(Id(dev, block_no), valid, link_no, b.data)])
    {
      ghost var ring := Ring(head, buffers, c.order);
      StoreSlot(b, dev, block_no, valid, link_no);
      forall j {:trigger LinkAt(ring, j)} | 0 <= j < |ring| - 1 ensures LinkAt(ring, j) { assert old(LinkAt(ring, j)); }
      c := c.(slots := c.slots[k := Slot(Id(dev, block_no), valid, link_no, b.data)]);
    }

    /** bget up to the sleep lock: the buffer, with a reference more, or null when all are
        referenced. */
    method Bget(dev: nat, block_no: nat) returns (b: Buf?, ghost k: Option<nat>)
      requires Valid()
      modifies this`c, buffers
      ensures Valid() && (c, k) == Get(old(c), Id(dev, block_no))
      ensures if k.Some? then k.value < |buffers| && b == buffers[k.value] else b == null
    {
      ghost var i;
      b, i := FindCached(dev, block_no);
      if b != null {
        k := Some(c.order[i]);
        SetSlot(b, c.order[i], dev, block_no, b.valid, b.link_no + 1);
        return;
      }
      b, i := FindUnused();
      if b == null { return b, None; }
      k := Some(c.order[i]);
      SetSlot(b, c.order[i], dev, block_no, false, b.link_no + 1);
    }

    /** brelease after the sleep lock is given up: place i loses a reference, and goes to
        the front when that was the last. */
    method Brelease(b: Buf, ghost i: nat)
      requires Valid() && i < |buffers| && b == buffers[c.order[i]] && b.link_no > 0
      modifies this`c, head, buffers
      ensures Valid() && c == Put(old(c), i)
    {
      SetSlot(b, c.order[i], b.dev, b.block_no, b.valid, b.link_no - 1);
      if b.link_no == 0 { MoveFirst(b, i); }
    }

    /** The buffer at place i unlinked, and linked again behind the head. */
    method MoveFirst(b: Buf, ghost i: nat)
      requires Valid() && i < |buffers| && b == buffers[c.order[i]]
      modifies this`c, head`next, head`prior, buffers`next, buffers`prior
      ensures Valid() && c == old(c).(order := ToFront(old(c).order, i))
    {
      hide Linked, Moved, Distinct, Apart;
      RingApart(head, buffers, c.order);
      Unlink(b, head, Ring(head, buffers, c.order), i + 1);
      ToFrontPerm(c.order, |buffers|, i);
      Relinked(head, buffers, c.order, i);
      c := c.(order := ToFront(c.order, i));
    }

    /** bread: the buffer comes back valid, for the block asked for; a buffer that was so
        already keeps its data, any other gets the disk's; it has a reference more; no other
        buffer changes. */
    method Bread(disk: Disk, dev: nat, block_no: nat) returns (b: Buf?, ghost k: Option<nat>)
      requires Valid()
      modifies this`c, buffers, disk
      ensures Valid() && disk.blocks == old(disk.blocks)
      ensures var (got, at) := Get(old(c), Id(dev, block_no));
        && k == at
        && (k.None? ==> b == null && c == got)
        && (k.Some? ==> k.value < |buffers| && b == buffers[k.value] && c == Filled(got, k.value, disk.Read(Id(dev, block_no))))
      ensures b != null ==> b in buffers && b.valid && b.dev == dev && b.block_no == block_no && b.link_no == old(b.link_no) + 1
      ensures b != null ==>
        b.data == if old(b.valid && b.dev == dev && b.block_no == block_no) then old(b.data) else old(disk.Read(Id(dev, block_no)))
      ensures forall x :: x in buffers && x != b ==> x.data == old(x.data) && x.valid == old(x.valid) && x.dev == old(x.dev) && x.block_no == old(x.block_no) && x.link_no == old(x.link_no)
    {
      b, k := Bget(dev, block_no);
      ReadSlots(old(c), Id(dev, block_no), disk.Read(Id(dev, block_no)));
      if b == null { return; }
      hide Get, Linked, Perm, Filled;
      GetNames(old(c), Id(dev, block_no));
      FillBuf(disk, b, k.value);
    }

    /** The rest of bread: valid data is left alone. */
    method FillBuf(disk: Disk, b: Buf, ghost k: nat)
      requires Valid() && k < |buffers| && b == buffers[k]
      modifies this`c, disk, b`data, b`valid
      ensures Valid() && disk.blocks == old(disk.blocks) && c == Filled(old(c), k, disk.Read(old(c).slots[k].id))
    {
      ghost var ring := Ring(head, buffers, c.order);
      assert c.slots[k] == SlotOf(b);
      if b.valid { return; }
      disk.Rw(b, false);
      b.valid := true;
      c := c.(slots := c.slots[k := SlotOf(b)]);
      forall j {:trigger LinkAt(ring, j)} | 0 <= j < |ring| - 1 ensures LinkAt(ring, j) { assert old(LinkAt(ring, j)); }
      forall j | 0 <= j < |buffers| ensures c.slots[j] == SlotOf(buffers[j]) { assert old(c).slots[j] == old(SlotOf(buffers[j])); }
    }

    /** bwrite. */
    method Bwrite(disk: Disk, b: Buf, ghost k: nat)
      requires Valid() && k < |buffers| && b == buffers[k]
      modifies disk, b`data
      ensures Valid() && c == old(c) && disk.blocks == old(disk.blocks)[c.slots[k].id := c.slots[k].data]
    {
      ghost var ring := Ring(head, buffers, c.order);
      disk.Rw(b, true);
      forall j {:trigger LinkAt(ring, j)} | 0 <= j < |ring| - 1 ensures LinkAt(ring, j) { assert old(LinkAt(ring, j)); }
    }
  }

  /** Buffer k made valid, from the disk when it was not. */
  ghost function Filled(c: Cache, k: nat, data: Data): Cache
    requires k < |c.slots|
  {
    if c.slots[k].valid then c else c.(slots := c.slots[k := c.slots[k].(valid := true, data := data)])
  }

  /** What bread leaves in the buffers, slot by slot. */
  lemma ReadSlots(c: Cache, id: Id, data: Data)
    requires Shape(c)
    ensures var (got, k) := Get(c, id);
      && (k.None? ==> got == c)
      && (k.Some? ==>
            var r := Filled(got, k.value, data);
            && |r.slots| == |c.slots| && r.slots[k.value].valid && r.slots[k.value].id == id && r.slots[k.value].links == c.slots[k.value].links + 1
            && r.slots[k.value].data == (if c.slots[k.value].valid && c.slots[k.value].id == id then c.slots[k.value].data else data)
            && forall j :: 0 <= j < |c.slots| && j != k.value ==> r.slots[j] == c.slots[j])
  {
    var hit := Hit(c, id, 0);
    if hit.None? && Victim(c, |c.order|).Some? { assert c.slots[c.order[Victim(c, |c.order|).value]].id != id; }
  }

  lemma GetNames(c: Cache, id: Id)
    requires Shape(c)
    ensures var (c', k) := Get(c, id); k.Some? ==> c'.slots[k.value].id == id
  {
  }
}
