/** The driver's shared state (`static struct disk`) as a value, and each driver
    routine as a function on it.  VirtioDriver proves the in-place code against these
    functions; VirtioMachine uses them as the atomic effects of its steps. */
module VirtioQueue {
  import opened Common
  import Arith

  /** NUM, the queue size: the ring slot of a free-running 16-bit index is the index
      modulo NUM, so NUM has to divide 65536 (that is, be a power of two). */
  type QueueSize = n: nat | 3 <= n <= 65536 && 65536 % n == 0 witness 4
  const NUM: QueueSize

  /** BSIZE, the bytes of a buffer: a positive multiple of the 512-byte sector. */
  type BlockSize = n: nat | 512 <= n && n % 512 == 0 witness 1024
  const BSIZE: BlockSize
  const REQ_SIZE := 16 // sizeof(struct virtio_blk_req)
  const IDX_MOD := 65536

  datatype Addr = Null | OpsAddr(i: nat) | DataAddr(b: nat) | StatusAddr(i: nat)
  datatype Flags = Flags(next: bool, write: bool)
  datatype Desc = Desc(addr: Addr, len: nat, flags: Flags, next: nat)
  datatype Op = Op(write: bool, reserved: nat, sector: nat)
  datatype Info = Info(b: Option<nat>, status: nat)
  datatype Chan = FreeChan | BufChan(b: nat)
  datatype Triple = Chain(i0: nat, i1: nat, i2: nat)

  /** idx[3]: three different descriptors. */
  type Chain = c: Triple | GoodChain(c) witness Chain(0, 1, 2)

  predicate GoodChain(c: Triple) {
    c.i0 < NUM && c.i1 < NUM && c.i2 < NUM && c.i0 != c.i1 && c.i1 != c.i2 && c.i0 != c.i2
  }

  const ZERO_DESC := Desc(Null, 0, Flags(false, false), 0)

  datatype Queue = Queue(
    desc: seq<Desc>, free: seq<bool>, info: seq<Info>, ops: seq<Op>,
    avail: seq<nat>, availIdx: nat, // avail->ring, avail->idx
    used: seq<nat>, usedIdx: nat,   // used->ring[..].id, used->idx
    seen: nat,                      // disk.used_idx
    woken: seq<Chan>)               // channels passed to wakeup, in call order
  {
    ghost predicate Shape() {
      && |desc| == |free| == |info| == |ops| == |avail| == |used| == NUM
      && availIdx < IDX_MOD && usedIdx < IDX_MOD && seen < IDX_MOD
    }
  }

  /** idx % NUM, by repeated subtraction; SlotOfMod says it is the modulus. */
  function SlotOf(idx: nat): (r: nat)
    ensures r < NUM
  {
    if idx < NUM then idx else SlotOf(idx - NUM)
  }

  lemma {:induction false} SlotOfMod(idx: nat)
    ensures SlotOf(idx) == idx % NUM
    decreases idx
  {
    if idx < NUM {
      Arith.DivModUnique(idx, NUM, 0, idx);
    } else {
      SlotOfMod(idx - NUM);
      Arith.ModAddMultiple(idx - NUM, NUM, 1);
    }
  }

  ghost function FreeSet(free: seq<bool>): set<nat> { set i: nat | i < |free| && free[i] }
  ghost function BusySet(free: seq<bool>): set<nat> { set i: nat | i < |free| && !free[i] }

  /** A descriptor that is free holds all zeroes. */
  ghost predicate FreeZero(q: Queue)
    requires q.Shape()
  {
    forall i: nat :: i < NUM && q.free[i] ==> q.desc[i] == ZERO_DESC
  }

  // ---- alloc_desc, free_desc, free_chain, alloc3_desc ------------------------

  /** The least free index at or after `from`, or |free|. */
  ghost function FirstFree(free: seq<bool>, from: nat): (i: nat)
    requires from <= |free|
    ensures from <= i <= |free|
    ensures i < |free| ==> free[i]
    ensures forall j :: from <= j < i ==> !free[j]
    decreases |free| - from
  {
    if from == |free| || free[from] then from else FirstFree(free, from + 1)
  }

  ghost function AllocDesc(q: Queue): (r: (Queue, Option<nat>))
    requires q.Shape()
    ensures r.0.Shape()
  {
    var i := FirstFree(q.free, 0);
    if i < NUM then (q.(free := q.free[i := false]), Some(i)) else (q, None)
  }

  /** free_desc; None is either of its panics. */
  ghost function FreeDesc(q: Queue, i: nat): (r: Option<Queue>)
    requires q.Shape()
    ensures r.Some? ==> r.value.Shape()
  {
    if i >= NUM || q.free[i] then None
    else Some(q.(desc := q.desc[i := ZERO_DESC], free := q.free[i := true],
                 woken := q.woken + [FreeChan]))
  }

  /** free_chain: following `next` while the flag says so.  It always stops, because a
      descriptor met twice is free the second time, which is a panic (None). */
  ghost function FreeChainFrom(q: Queue, i: nat): (r: Option<Queue>)
    requires q.Shape()
    ensures r.Some? ==> r.value.Shape()
    decreases BusySet(q.free)
  {
    match FreeDesc(q, i)
    case None => None
    case Some(q1) =>
      assert i in BusySet(q.free) && i !in BusySet(q1.free);
      if q.desc[i].flags.next then FreeChainFrom(q1, q.desc[i].next) else Some(q1)
  }

  /** The descriptors a chain visits, in order: what free_chain is meant to free. */
  ghost predicate Linked(desc: seq<Desc>, path: seq<nat>)
    requires |desc| == NUM
  {
    && 0 < |path|
    && (forall k :: 0 <= k < |path| ==> path[k] < NUM)
    && (forall k :: 0 <= k < |path| ==> (desc[path[k]].flags.next <==> k + 1 < |path|))
    && (forall k :: 0 <= k < |path| - 1 ==> desc[path[k]].next == path[k + 1])
  }

  /** alloc3_desc, with the roll-back of a partial allocation. */
  ghost function Alloc3(q: Queue): (r: (Queue, Option<Chain>))
    requires q.Shape()
    ensures r.0.Shape()
  {
    var (q1, a) := AllocDesc(q);
    if a.None? then (q1, None) else
    var (q2, b) := AllocDesc(q1);
    if b.None? then (Undo(q2, [a.value]), None) else
    var (q3, c) := AllocDesc(q2);
    if c.None? then (Undo(q3, [a.value, b.value]), None)
    else (q3, Some(Chain(a.value, b.value, c.value)))
  }

  /** The roll-back loop: free_desc on each of `ids`, stopping at a panic. */
  ghost function Undo(q: Queue, ids: seq<nat>): (r: Queue)
    requires q.Shape()
    ensures r.Shape()
    decreases |ids|
  {
    if ids == [] || FreeDesc(q, ids[0]).None? then q else Undo(FreeDesc(q, ids[0]).value, ids[1..])
  }

  // ---- virtio_disk_rw's formatting, publishing and clean-up -------------------

  ghost function Format(q: Queue, c: Chain, b: nat, write: bool, sector: nat): (r: Queue)
    requires q.Shape()
    ensures r.Shape()
  {
    q.(ops := q.ops[c.i0 := Op(write, 0, sector)],
       desc := q.desc[c.i0 := Desc(OpsAddr(c.i0), REQ_SIZE, Flags(true, false), c.i1)]
                     [c.i1 := Desc(DataAddr(b), BSIZE, Flags(true, !write), c.i2)]
                     [c.i2 := Desc(StatusAddr(c.i0), 1, Flags(false, true), 0)],
       info := q.info[c.i0 := Info(Some(b), 0xff)])
  }

  ghost function PutAvail(q: Queue, h: nat): (r: Queue)
    requires q.Shape()
    ensures r.Shape()
  {
    q.(avail := q.avail[SlotOf(q.availIdx) := h])
  }

  ghost function BumpAvail(q: Queue): (r: Queue)
    requires q.Shape()
    ensures r.Shape()
  {
    q.(availIdx := (q.availIdx + 1) % IDX_MOD)
  }

  /** info[head].b = 0, then free_chain(head). */
  ghost function Finish(q: Queue, h: nat): (r: Option<Queue>)
    requires q.Shape() && h < NUM
    ensures r.Some? ==> r.value.Shape()
  {
    FreeChainFrom(q.(info := q.info[h := q.info[h].(b := None)]), h)
  }

  // ---- the body of virtio_disk_intr's loop ------------------------------------

  /** One used entry: the status check, the buffer lookup, wakeup and the index.  The
      result carries the buffer to release; None is the status panic, an id outside
      info[], or a null buffer. */
  ghost function TakeUsed(q: Queue): (r: Option<(Queue, nat)>)
    requires q.Shape()
    ensures r.Some? ==> r.value.0.Shape()
  {
    var id := q.used[SlotOf(q.seen)];
    if id >= NUM || q.info[id].status != 0 || q.info[id].b.None? then None
    else
      var b := q.info[id].b.value;
      Some((q.(woken := q.woken + [BufChan(b)], seen := (q.seen + 1) % IDX_MOD), b))
  }

  // ---- what the device reads and writes ----------------------------------------

  datatype Req = Req(write: bool, sector: nat, b: nat, statusAt: nat)

  /** The request a device following section 5.2.6 of VIRTIO 1.1 finds at head `h`: a
      read-only header with its reserved word 0, a data descriptor whose direction matches
      the header, and a one-byte device-writable status.  None when the chain is malformed. */
  ghost function Decode(q: Queue, h: nat): Option<Req>
    requires q.Shape()
  {
    if h >= NUM then None else
    var d0 := q.desc[h];
    if !(d0.addr.OpsAddr? && d0.addr.i < NUM && d0.len == REQ_SIZE && d0.flags == Flags(true, false) && d0.next < NUM) then None else
    var op := q.ops[d0.addr.i];
    if op.reserved != 0 then None else
    var d1 := q.desc[d0.next];
    if !(d1.addr.DataAddr? && d1.len == BSIZE && d1.flags == Flags(true, !op.write) && d1.next < NUM) then None else
    var d2 := q.desc[d1.next];
    if !(d2.addr.StatusAddr? && d2.addr.i < NUM && d2.len == 1 && d2.flags == Flags(false, true)) then None else
    Some(Req(op.write, op.sector, d1.addr.b, d2.addr.i))
  }

  ghost function PutStatus(q: Queue, i: nat): (r: Queue)
    requires q.Shape() && i < NUM
    ensures r.Shape()
  {
    q.(info := q.info[i := q.info[i].(status := 0)])
  }

  ghost function PutUsed(q: Queue, h: nat): (r: Queue)
    requires q.Shape()
    ensures r.Shape()
  {
    q.(used := q.used[SlotOf(q.usedIdx) := h])
  }

  ghost function BumpUsed(q: Queue): (r: Queue)
    requires q.Shape()
    ensures r.Shape()
  {
    q.(usedIdx := (q.usedIdx + 1) % IDX_MOD)
  }

  // ---- properties ---------------------------------------------------------------

  lemma FreeSetUpdate(free: seq<bool>, i: nat, v: bool)
    requires i < |free|
    ensures FreeSet(free[i := v]) == if v then FreeSet(free) + {i} else FreeSet(free) - {i}
  {
  }

  lemma FreeDescUndoesAlloc(q: Queue, i: nat)
    requires q.Shape() && i < NUM && q.free[i] && q.desc[i] == ZERO_DESC
    ensures FreeDesc(q.(free := q.free[i := false]), i) == Some(q.(woken := q.woken + [FreeChan]))
  {
    assert q.free[i := false][i := true] == q.free;
    assert q.desc[i := ZERO_DESC] == q.desc;
  }

  /** The state alloc3_desc leaves: three distinct free descriptors taken and nothing
      else touched, or, exactly when fewer than three are free, no change at all apart
      from one wakeup of the free channel for each descriptor handed back. */
  ghost predicate Alloc3Post(q: Queue, q': Queue, c: Option<Chain>)
    requires q.Shape() && q'.Shape()
  {
    match c
    case Some(c) =>
      && 3 <= |FreeSet(q.free)|
      && c.i0 < c.i1 < c.i2
      && FreeSet(q'.free) == FreeSet(q.free) - {c.i0, c.i1, c.i2}
      && {c.i0, c.i1, c.i2} <= FreeSet(q.free)
      && q' == q.(free := q.free[c.i0 := false][c.i1 := false][c.i2 := false])
    case None =>
      && |FreeSet(q.free)| < 3
      && q' == q.(woken := q.woken + seq(|FreeSet(q.free)|, _ => FreeChan))
  }

  lemma AllocDescSpec(q: Queue)
    requires q.Shape()
    ensures var (q1, a) := AllocDesc(q);
            match a
            case None => FreeSet(q.free) == {} && q1 == q
            case Some(i) =>
              && i in FreeSet(q.free) && (forall j :: 0 <= j < i ==> !q.free[j])
              && q1 == q.(free := q.free[i := false])
              && FreeSet(q1.free) == FreeSet(q.free) - {i}
              && |FreeSet(q1.free)| == |FreeSet(q.free)| - 1
  {
    var i := FirstFree(q.free, 0);
    if i < NUM { FreeSetUpdate(q.free, i, false); }
  }

  lemma Alloc3Spec(q: Queue)
    requires q.Shape() && FreeZero(q)
    ensures Alloc3Post(q, Alloc3(q).0, Alloc3(q).1)
  {
    hide AllocDesc, FirstFree;
    AllocDescSpec(q);
    var (q1, a) := AllocDesc(q);
    if a.Some? {
      AllocDescSpec(q1);
      var (q2, b) := AllocDesc(q1);
      FreeDescUndoesAlloc(q, a.value);
      if b.None? {
        assert Undo(q1, [a.value]) == Undo(FreeDesc(q1, a.value).value, []);
      } else {
        AllocDescSpec(q2);
        if AllocDesc(q2).1.None? { UndoTwo(q, a.value, b.value); }
      }
    }
  }

  lemma UndoTwo(q: Queue, i: nat, j: nat)
    requires q.Shape() && FreeZero(q) && i < NUM && j < NUM && i != j && q.free[i] && q.free[j]
    ensures var q2 := q.(free := q.free[i := false][j := false]);
            Undo(q2, [i, j]) == q.(woken := q.woken + [FreeChan, FreeChan])
  {
    var q2 := q.(free := q.free[i := false][j := false]);
    var q3 := FreeDesc(q2, i).value;
    assert q3.free == q.free[j := false] && q3.desc == q.desc;
    assert [i, j][1..] == [j];
    assert FreeDesc(q3, j).Some?;
    var q4 := FreeDesc(q3, j).value;
    assert q4.free == q.free && q4.desc == q.desc;
    assert Undo(q3, [j]) == Undo(q4, []) == q4;
    assert q.woken + [FreeChan] + [FreeChan] == q.woken + [FreeChan, FreeChan];
  }

  /** free_chain on a linked path of busy, distinct descriptors frees exactly that path,
      with one wakeup each and without reaching either panic; and it is only on such a
      path that it gets through. */
  lemma {:induction false} FreeChainFrees(q: Queue, path: seq<nat>)
    requires q.Shape() && Linked(q.desc, path)
    requires forall j, k :: 0 <= j < k < |path| ==> path[j] != path[k]
    requires forall k :: 0 <= k < |path| ==> !q.free[path[k]]
    ensures var r := FreeChainFrom(q, path[0]);
            && r.Some?
            && (forall i: nat :: i < NUM ==> r.value.free[i] == (q.free[i] || i in path))
            && (forall i: nat :: i < NUM ==> r.value.desc[i] == if i in path then ZERO_DESC else q.desc[i])
            && r.value == q.(desc := r.value.desc, free := r.value.free,
                             woken := q.woken + seq(|path|, _ => FreeChan))
    decreases |path|
  {
    var q1 := FreeDesc(q, path[0]).value;
    var rest := path[1..];
    assert forall i :: i in path <==> i == path[0] || i in rest;
    if |path| > 1 {
      assert forall k :: 0 <= k < |rest| ==> rest[k] == path[k + 1];
      FreeChainFrees(q1, rest);
      assert q.woken + [FreeChan] + seq(|rest|, _ => FreeChan) == q.woken + seq(|path|, _ => FreeChan);
    }
  }

  /** The converse: whenever free_chain gets through without a panic, it walked a linked
      path of distinct busy descriptors and freed exactly those. */
  lemma {:induction false} FreeChainOnlyFrees(q: Queue, i: nat) returns (path: seq<nat>)
    requires q.Shape() && FreeChainFrom(q, i).Some?
    ensures Linked(q.desc, path) && path[0] == i
    ensures forall j, k :: 0 <= j < k < |path| ==> path[j] != path[k]
    ensures forall k :: 0 <= k < |path| ==> !q.free[path[k]]
    decreases BusySet(q.free)
  {
    var q1 := FreeDesc(q, i).value;
    assert i in BusySet(q.free) && i !in BusySet(q1.free);
    if q.desc[i].flags.next {
      var rest := FreeChainOnlyFrees(q1, q.desc[i].next);
      path := [i] + rest;
      assert q1.free[i];
      assert forall k :: 0 <= k < |rest| ==> rest[k] != i;
      assert forall k :: 1 <= k < |path| ==> path[k] == rest[k - 1] && q.desc[path[k]] == q1.desc[path[k]];
    } else {
      path := [i];
    }
  }

  /** Round trip: the device reads back from the descriptors exactly the request the
      driver formatted, whatever else the queue holds. */
  lemma DecodeFormat(q: Queue, c: Chain, b: nat, write: bool, sector: nat)
    requires q.Shape()
    ensures Decode(Format(q, c, b, write, sector), c.i0) == Some(Req(write, sector, b, c.i0))
  {
  }

  /** The ring slot of a 16-bit index is the slot of the unbounded count it stands for. */
  lemma SlotOfIndex(n: nat)
    ensures SlotOf(n % IDX_MOD) == SlotOf(n)
  {
    SlotOfMod(n);
    SlotOfMod(n % IDX_MOD);
    Arith.ModOfMod(n, IDX_MOD, NUM);
  }
}
