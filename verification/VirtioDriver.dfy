/** The driver's routines as they run under vdisk_lock, on the arrays of `struct disk`.
    Each is proved to take the abstract queue exactly where the function of VirtioQueue
    that VirtioMachine's steps use would take it. */
module VirtioDriver {
  import opened Common
  import opened VirtioQueue
  import VQ = VirtioQueue

  class Disk {
    const desc: array<Desc>
    const free: array<bool>
    const info: array<Info>
    const ops: array<Op>
    const avail: array<nat> // avail->ring
    const used: array<nat>  // used->ring[..].id, written by the device
    const busy: array<bool> // b->disk of every buffer b
    var availIdx: nat
    var usedIdx: nat
    var seen: nat
    var woken: seq<Chan> // the calls of wakeup

    ghost predicate Valid()
      reads this
    {
      && desc.Length == free.Length == info.Length == ops.Length == avail.Length == used.Length == NUM
      && avail != used && free != busy
      && availIdx < IDX_MOD && usedIdx < IDX_MOD && seen < IDX_MOD
    }

    ghost function Abs(): (q: Queue)
      requires Valid()
      reads this, desc, free, info, ops, avail, used
      ensures q.Shape()
    {
      Queue(desc[..], free[..], info[..], ops[..], avail[..], availIdx, used[..], usedIdx, seen, woken)
    }

    /** What virtio_disk_init sets up: zeroed queue memory, all descriptors free. */
    constructor (buffers: nat)
      ensures Valid() && fresh(desc) && fresh(free) && fresh(info) && fresh(ops) && fresh(avail) && fresh(used) && fresh(busy)
      ensures busy.Length == buffers && forall b :: 0 <= b < buffers ==> !busy[b]
      ensures Abs() == Queue(seq(NUM, _ => ZERO_DESC), seq(NUM, _ => true), seq(NUM, _ => Info(None, 0)),
                             seq(NUM, _ => Op(false, 0, 0)), seq(NUM, _ => 0), 0, seq(NUM, _ => 0), 0, 0, [])
    {
      desc := new Desc[NUM](_ => ZERO_DESC);
      free := new bool[NUM](_ => true);
      info := new Info[NUM](_ => Info(None, 0));
      ops := new Op[NUM](_ => Op(false, 0, 0));
      avail := new nat[NUM](_ => 0);
      used := new nat[NUM](_ => 0);
      busy := new bool[buffers](_ => false);
      availIdx, usedIdx, seen, woken := 0, 0, 0, [];
    }

    /** alloc_desc; -1 when nothing is free. */
    method AllocDesc() returns (i: int)
      requires Valid()
      modifies free
      ensures Valid()
      ensures VQ.AllocDesc(old(Abs())) == (Abs(), if i == -1 then None else Some(i)) && -1 <= i < NUM
    {
      for k := 0 to NUM
        invariant free[..] == old(free[..])
        invariant FirstFree(free[..], 0) == FirstFree(free[..], k)
      {
        if free[k] {
          free[k] := false;
          return k;
        }
      }
      return -1;
    }

    /** free_desc; false stands for either of its panics. */
    method FreeDesc(i: nat) returns (ok: bool)
      requires Valid()
      modifies desc, free, this`woken
      ensures Valid()
      ensures VQ.FreeDesc(old(Abs()), i) == if ok then Some(Abs()) else None
    {
      if i >= NUM || free[i] { return false; }
      desc[i] := ZERO_DESC;
      free[i] := true;
      woken := woken + [FreeChan];
      return true;
    }

    /** free_chain.  The flag and the link are read before the descriptor is cleared. */
    method FreeChain(head: nat) returns (ok: bool)
      requires Valid()
      modifies desc, free, this`woken
      ensures Valid()
      ensures FreeChainFrom(old(Abs()), head) == if ok then Some(Abs()) else None
    {
      var i: nat := head;
      while true
        invariant Valid()
        invariant FreeChainFrom(Abs(), i) == FreeChainFrom(old(Abs()), head)
        decreases BusySet(free[..])
      {
        if i >= NUM { return false; }
        ghost var q := Abs();
        var next, link: nat := desc[i].flags.next, desc[i].next;
        ok := FreeDesc(i);
        if !ok { return; }
        assert i in BusySet(q.free) && i !in BusySet(free[..]);
        if !next { return true; }
        i := link;
      }
    }

    /** The roll-back of alloc3_desc: free_desc on idx[0..n]. */
    method HandBack(idx: array<int>, n: nat, ghost ids: seq<nat>)
      requires Valid() && n == |ids| <= 2 <= idx.Length
      requires forall k :: 0 <= k < n ==> ids[k] == idx[k] && ids[k] < NUM && !free[ids[k]]
      requires n == 2 ==> ids[0] != ids[1]
      modifies desc, free, this`woken
      ensures Valid() && Abs() == Undo(old(Abs()), ids)
    {
      ghost var left := ids;
      var j := 0;
      while j < n
        invariant 0 <= j <= n && Valid() && left == ids[j..]
        invariant Undo(Abs(), left) == Undo(old(Abs()), ids)
        invariant forall k :: j <= k < n ==> !free[ids[k]]
      {
        var freed := FreeDesc(idx[j]);
        left := left[1..];
        j := j + 1;
      }
    }

    /** alloc3_desc: three descriptors into idx[], or none, handing back what it took. */
    method Alloc3Desc(idx: array<int>) returns (ok: bool)
      requires Valid() && idx.Length == 3
      modifies idx, desc, free, this`woken
      ensures Valid()
      ensures ok ==> 0 <= idx[0] && 0 <= idx[1] && 0 <= idx[2] && GoodChain(Triple.Chain(idx[0], idx[1], idx[2]))
      ensures Alloc3(old(Abs())) == (Abs(), if ok then Some(Triple.Chain(idx[0], idx[1], idx[2])) else None)
    {
      ghost var q := [Abs()];
      ghost var ids: seq<nat> := [];
      var i := 0;
      while i < 3
        invariant 0 <= i <= 3 && Valid() && |ids| == i
        invariant Took(q, ids) && q[0] == old(Abs()) && q[i] == Abs()
        invariant forall k :: 0 <= k < i ==> ids[k] == idx[k]
      {
        var d := AllocDesc();
        idx[i] := d;
        TookDistinct(q, ids);
        if d < 0 {
          TookPartly(q, ids);
          HandBack(idx, i, ids);
          return false;
        }
        ids, q := ids + [d as nat], q + [Abs()];
        i := i + 1;
      }
      TookDistinct(q, ids);
      TookAll(q, ids);
      return true;
    }

    /** virtio_disk_rw from the request header to info[].b = b. */
    method FormatRequest(c: Chain, b: nat, write: bool, sector: nat)
      requires Valid() && b < busy.Length
      modifies ops, desc, info, busy
      ensures Valid() && Abs() == Format(old(Abs()), c, b, write, sector)
      ensures busy[..] == old(busy[..])[b := true]
    {
      ops[c.i0] := Op(write, 0, sector);
      desc[c.i0] := Desc(OpsAddr(c.i0), REQ_SIZE, Flags(true, false), c.i1);
      desc[c.i1] := Desc(DataAddr(b), BSIZE, Flags(false, !write), c.i2);
      desc[c.i1] := desc[c.i1].(flags := desc[c.i1].flags.(next := true));
      info[c.i0] := info[c.i0].(status := 0xff);
      desc[c.i2] := Desc(StatusAddr(c.i0), 1, Flags(false, true), 0);
      busy[b] := true;
      info[c.i0] := info[c.i0].(b := Some(b));
    }

    /** Tell the device: the ring entry first, then the index. */
    method Publish(head: nat)
      requires Valid()
      modifies avail, this`availIdx
      ensures Valid() && Abs() == BumpAvail(PutAvail(old(Abs()), head))
    {
      avail[SlotOf(availIdx)] := head;
      availIdx := (availIdx + 1) % IDX_MOD;
    }

    /** After the wait: forget the buffer, free the chain. */
    method FinishRequest(head: nat) returns (ok: bool)
      requires Valid() && head < NUM
      modifies info, desc, free, this`woken
      ensures Valid()
      ensures Finish(old(Abs()), head) == if ok then Some(Abs()) else None
    {
      info[head] := info[head].(b := None);
      ok := FreeChain(head);
    }

    /** virtio_disk_intr's loop over the used ring, with no completion arriving meanwhile;
        false is the status panic or a buffer that is not there. */
    method Drain() returns (ok: bool)
      requires Valid()
      modifies busy, this`woken, this`seen
      ensures Valid()
      ensures DrainAll(old(Abs()), old(busy[..])) == if ok then Some((Abs(), busy[..])) else None
    {
      hide DrainAll;
      while seen != usedIdx
        invariant Valid()
        invariant DrainAll(Abs(), busy[..]) == DrainAll(old(Abs()), old(busy[..]))
        decreases Backlog(Abs())
      {
        ghost var q, flags := Abs(), busy[..];
        DrainOne(q, flags);
        var id := used[SlotOf(seen)];
        if id >= NUM || info[id].status != 0 || info[id].b.None? { return false; }
        var b := info[id].b.value;
        if b >= busy.Length { return false; }
        busy[b] := false;
        woken := woken + [BufChan(b)];
        seen := (seen + 1) % IDX_MOD;
        assert Abs() == TakeUsed(q).value.0 && busy[..] == flags[b := false];
      }
      DrainOne(Abs(), busy[..]);
      return true;
    }
  }

  /** q[0], q[1], ... are the queues before, between and after the allocations of ids. */
  ghost predicate Took(q: seq<Queue>, ids: seq<nat>) {
    && |q| == |ids| + 1 <= 4 && (forall k :: 0 <= k < |q| ==> q[k].Shape())
    && forall k :: 0 <= k < |ids| ==> VQ.AllocDesc(q[k]) == (q[k + 1], Some(ids[k]))
  }

  lemma TookDistinct(q: seq<Queue>, ids: seq<nat>)
    requires Took(q, ids)
    ensures forall k :: 0 <= k < |ids| ==> ids[k] < NUM && !q[|ids|].free[ids[k]]
    ensures forall j, k :: 0 <= j < k < |ids| ==> ids[j] != ids[k]
  {
    if |ids| > 0 { assert q[1].free == q[0].free[ids[0] := false]; }
    if |ids| > 1 { assert q[2].free == q[1].free[ids[1] := false]; }
    if |ids| > 2 { assert q[3].free == q[2].free[ids[2] := false]; }
  }

  lemma TookPartly(q: seq<Queue>, ids: seq<nat>)
    requires Took(q, ids) && |ids| < 3 && VQ.AllocDesc(q[|ids|]).1.None?
    ensures Alloc3(q[0]) == (Undo(q[|ids|], ids), None)
  {
    assert |ids| == 1 ==> ids == [ids[0]];
    assert |ids| == 2 ==> ids == [ids[0], ids[1]];
  }

  lemma TookAll(q: seq<Queue>, ids: seq<nat>)
    requires Took(q, ids) && |ids| == 3
    ensures GoodChain(Triple.Chain(ids[0], ids[1], ids[2]))
    ensures Alloc3(q[0]) == (q[3], Some(Triple.Chain(ids[0], ids[1], ids[2])))
  {
    TookDistinct(q, ids);
  }

  /** Completions between the driver's index and the device's. */
  ghost function Backlog(q: Queue): nat
    requires q.Shape()
  {
    if q.seen <= q.usedIdx then q.usedIdx - q.seen else q.usedIdx + IDX_MOD - q.seen
  }

  /** TakeUsed until the indices meet. */
  ghost function DrainAll(q: Queue, busy: seq<bool>): (r: Option<(Queue, seq<bool>)>)
    requires q.Shape()
    decreases Backlog(q)
  {
    if q.seen == q.usedIdx then Some((q, busy)) else
    match TakeUsed(q)
    case None => None
    case Some((q1, b)) => if b >= |busy| then None else DrainAll(q1, busy[b := false])
  }

  lemma DrainOne(q: Queue, busy: seq<bool>)
    requires q.Shape()
    ensures DrainAll(q, busy) ==
      if q.seen == q.usedIdx then Some((q, busy))
      else match TakeUsed(q)
           case None => None
           case Some((q1, b)) => if b >= |busy| then None else DrainAll(q1, busy[b := false])
    ensures q.seen != q.usedIdx && TakeUsed(q).Some? ==> Backlog(TakeUsed(q).value.0) < Backlog(q)
  {
  }

  /** The handles of the used ring from `seen` on, in order. */
  ghost function Pending(q: Queue): (ids: seq<nat>)
    requires q.Shape()
    decreases Backlog(q)
  {
    if q.seen == q.usedIdx then [] else
    assert (q.seen + 1) % IDX_MOD == if q.seen + 1 == IDX_MOD then 0 else q.seen + 1;
    [q.used[SlotOf(q.seen)]] + Pending(q.(seen := (q.seen + 1) % IDX_MOD))
  }

  ghost predicate AllRecorded(info: seq<Info>, ids: seq<nat>) {
    forall k :: 0 <= k < |ids| ==> ids[k] < |info| && info[ids[k]].b.Some? && info[ids[k]].status == 0
  }

  ghost function Recorded(info: seq<Info>, ids: seq<nat>): (bs: seq<nat>)
    requires AllRecorded(info, ids)
    ensures |bs| == |ids| && forall k :: 0 <= k < |ids| ==> bs[k] == info[ids[k]].b.value
  {
    if ids == [] then [] else [info[ids[0]].b.value] + Recorded(info, ids[1..])
  }

  ghost function Chans(bs: seq<nat>): seq<Chan> {
    if bs == [] then [] else [BufChan(bs[0])] + Chans(bs[1..])
  }

  /** Draining clears the flag of, and wakes, exactly the recorded buffers of the pending
      entries, each once per entry and in ring order; everything else stays. */
  lemma {:induction false} DrainsPending(q: Queue, busy: seq<bool>)
    requires q.Shape() && DrainAll(q, busy).Some?
    ensures var (q', busy') := DrainAll(q, busy).value; var ids := Pending(q);
      && AllRecorded(q.info, ids) && |busy'| == |busy|
      && q' == q.(seen := q.usedIdx, woken := q.woken + Chans(Recorded(q.info, ids)))
      && (forall b :: 0 <= b < |busy| ==> (busy'[b] <==> busy[b] && b !in Recorded(q.info, ids)))
    decreases Backlog(q)
  {
    if q.seen != q.usedIdx {
      var (q1, b) := TakeUsed(q).value;
      SameRingPending(q1, q.(seen := (q.seen + 1) % IDX_MOD));
      DrainsPending(q1, busy[b := false]);
      DrainStep(q, q1, b, Pending(q1));
    }
  }

  lemma DrainStep(q: Queue, q1: Queue, b: nat, rest: seq<nat>)
    requires q.Shape() && TakeUsed(q) == Some((q1, b)) && AllRecorded(q.info, rest)
    ensures var ids := [q.used[SlotOf(q.seen)]] + rest;
      && AllRecorded(q.info, ids) && Recorded(q.info, ids) == [b] + Recorded(q.info, rest)
      && q1.woken + Chans(Recorded(q.info, rest)) == q.woken + Chans(Recorded(q.info, ids))
  {
    var ids := [q.used[SlotOf(q.seen)]] + rest;
    assert ids[1..] == rest;
    var bs := Recorded(q.info, ids);
    assert bs[1..] == Recorded(q.info, rest);
  }

  lemma {:induction false} SameRingPending(q: Queue, r: Queue)
    requires q.Shape() && r.Shape() && q.used == r.used && q.usedIdx == r.usedIdx && q.seen == r.seen
    ensures Pending(q) == Pending(r)
    decreases Backlog(q)
  {
    if q.seen != q.usedIdx {
      SameRingPending(q.(seen := (q.seen + 1) % IDX_MOD), r.(seen := (r.seen + 1) % IDX_MOD));
    }
  }
}
