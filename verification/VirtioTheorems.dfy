/** What the virtio driver guarantees in every run: any number of processes, any order of
    their steps, of completions by the device and of interrupts. */
module VirtioTheorems {
  import opened Common
  import opened VirtioQueue
  import opened VirtioRing
  import opened VirtioMachine
  import opened VirtioFrames
  import opened VirtioProof

  ghost predicate CanRun(s: State, steps: seq<Step>)
    decreases |steps|
  {
    steps == [] || (Shape(s) && Enabled(s, steps[0]) && CanRun(Apply(s, steps[0]), steps[1..]))
  }

  ghost function After(s: State, steps: seq<Step>): State
    requires CanRun(s, steps)
    decreases |steps|
  {
    if steps == [] then s else After(Apply(s, steps[0]), steps[1..])
  }

  lemma {:induction false} RunKeeps(s: State, steps: seq<Step>)
    requires Inv(s) && CanRun(s, steps)
    ensures Inv(After(s, steps))
    decreases |steps|
  {
    if steps != [] {
      StepKeeps(s, steps[0]);
      RunKeeps(Apply(s, steps[0]), steps[1..]);
    }
  }

  lemma Reached(s0: State, steps: seq<Step>)
    requires Init(s0) && CanRun(s0, steps)
    ensures Inv(After(s0, steps))
  {
    InitHolds(s0);
    RunKeeps(s0, steps);
  }

  /** No run reaches a panic, a null buffer or a chain the device cannot follow. */
  lemma NeverFaults(s0: State, steps: seq<Step>)
    requires Init(s0) && CanRun(s0, steps)
    ensures !After(s0, steps).fault
  {
    Reached(s0, steps);
  }

  // ---- linearizability ------------------------------------------------------------------

  /** Call t was performed as event e: once, between its call and its return, on the
      sectors of its block, with the data its caller gave or got. */
  ghost predicate PerformedAs(s: State, t: nat, e: nat)
    requires t < |s.calls| && s.calls[t].ret.Some? && e < |s.log|
  {
    var c := s.calls[t];
    && s.log[e].tid == t && (forall f :: 0 <= f < |s.log| && s.log[f].tid == t ==> f == e)
    && c.invokedAt <= e < c.ret.value.at
    && s.log[e].write == c.write && s.log[e].sector == FirstSector(c.blockno)
    && c.ret.value.data == s.log[e].data
    && (c.write ==> s.log[e].data == c.data)
    && (!c.write ==> FirstSector(c.blockno) + SPB <= |s.disk0|
                     && c.ret.value.data == ReadAt(Replay(s.disk0, s.log[..e]), FirstSector(c.blockno)))
  }

  /** In every run, every completed call took effect exactly once at one instant between
      call and return, and the effects in that order are those of a plain disk that
      performs one transfer after another. */
  lemma Linearizable(s0: State, steps: seq<Step>)
    requires Init(s0) && CanRun(s0, steps)
    ensures var s := After(s0, steps);
      && s.disk == Replay(s.disk0, s.log)
      && forall t :: 0 <= t < |s.calls| && s.calls[t].ret.Some? ==> exists e :: 0 <= e < |s.log| && PerformedAs(s, t, e)
  {
    Reached(s0, steps);
    var s := After(s0, steps);
    forall t | 0 <= t < |s.calls| && s.calls[t].ret.Some? ensures exists e :: 0 <= e < |s.log| && PerformedAs(s, t, e) {
      PerformedOnce(s, t);
    }
  }

  lemma PerformedOnce(s: State, t: nat)
    requires LogI(s) && CallI(s) && t < |s.calls| && s.calls[t].ret.Some?
    ensures s.calls[t].event.Some? && s.calls[t].event.value < |s.log| && PerformedAs(s, t, s.calls[t].event.value)
  {
    assert CallOf(t, s.calls[t], s.log);
    var e := s.calls[t].event.value;
    assert EventOf(e, s.log[e], s.calls[s.log[e].tid], |s.disk|);
    assert LegalAt(s.disk0, s.log, e);
    forall f | 0 <= f < |s.log| && s.log[f].tid == t ensures f == e {
      assert EventOf(f, s.log[f], s.calls[s.log[f].tid], |s.disk|);
    }
  }

  /** The contents of a block, as sectors of the disk. */
  ghost function BlockAt(disk: seq<Sector>, blockno: nat): Block
    requires InDisk(|disk|, blockno)
  {
    ReadAt(disk, FirstSector(blockno))
  }

  /** The independent view of the same log: the data of the last write to the block. */
  ghost function LastWritten(disk0: seq<Sector>, log: seq<Event>, blockno: nat): Block
    requires InDisk(|disk0|, blockno)
  {
    if log == [] then BlockAt(disk0, blockno)
    else
      var e := log[|log| - 1];
      if e.write && e.sector == FirstSector(blockno) then e.data else LastWritten(disk0, log[..|log| - 1], blockno)
  }

  ghost predicate OnBlock(disk0: seq<Sector>, sector: nat) {
    exists b: nat :: InDisk(|disk0|, b) && sector == FirstSector(b)
  }

  ghost predicate OnBlocks(disk0: seq<Sector>, log: seq<Event>) {
    forall e :: 0 <= e < |log| ==> OnBlock(disk0, log[e].sector)
  }

  lemma {:induction false} BlocksApart(a: nat, b: nat)
    requires a < b
    ensures FirstSector(a) + SPB <= FirstSector(b)
  {
    if a < b - 1 { BlocksApart(a, b - 1); }
  }

  lemma WriteThenRead(disk: seq<Sector>, a: nat, b: nat, data: Block)
    requires InDisk(|disk|, a) && InDisk(|disk|, b)
    ensures BlockAt(WriteAt(disk, FirstSector(a), data), b) == if a == b then data else BlockAt(disk, b)
  {
    if a < b { BlocksApart(a, b); }
    if b < a { BlocksApart(b, a); }
  }

  lemma {:induction false} ReplayIsLastWrite(disk0: seq<Sector>, log: seq<Event>, blockno: nat)
    requires OnBlocks(disk0, log) && InDisk(|disk0|, blockno)
    ensures BlockAt(Replay(disk0, log), blockno) == LastWritten(disk0, log, blockno)
  {
    if log != [] {
      var front, e := log[..|log| - 1], log[|log| - 1];
      ReplayIsLastWrite(disk0, front, blockno);
      assert OnBlock(disk0, e.sector);
      var a: nat :| InDisk(|disk0|, a) && e.sector == FirstSector(a);
      if e.write { WriteThenRead(Replay(disk0, front), a, blockno, e.data); }
      if a < blockno { BlocksApart(a, blockno); }
      if blockno < a { BlocksApart(blockno, a); }
    }
  }

  lemma LogOnBlocks(s: State)
    requires LogI(s) && CallI(s)
    ensures OnBlocks(s.disk0, s.log)
  {
    assert |s.disk0| == |s.disk|;
    forall e | 0 <= e < |s.log| ensures OnBlock(s.disk0, s.log[e].sector) {
      assert EventOf(e, s.log[e], s.calls[s.log[e].tid], |s.disk|);
    }
  }

  /** A completed read returned the data of the last write to its block before the
      instant it took effect, and the disk now holds the last write to every block. */
  lemma ReadsSeeLastWrite(s0: State, steps: seq<Step>)
    requires Init(s0) && CanRun(s0, steps)
    ensures var s := After(s0, steps);
      && |s.disk| == |s.disk0|
      && (forall b: nat :: InDisk(|s.disk0|, b) ==> BlockAt(s.disk, b) == LastWritten(s.disk0, s.log, b))
      && (forall t :: 0 <= t < |s.calls| && s.calls[t].ret.Some? ==>
            var c := s.calls[t];
            && c.event.Some? && c.event.value < |s.log| && InDisk(|s.disk0|, c.blockno)
            && (!c.write ==> c.ret.value.data == LastWritten(s.disk0, s.log[..c.event.value], c.blockno)))
  {
    Reached(s0, steps);
    var s := After(s0, steps);
    LogOnBlocks(s);
    assert |s.disk| == |s.disk0|;
    forall b: nat | InDisk(|s.disk0|, b) ensures BlockAt(s.disk, b) == LastWritten(s.disk0, s.log, b) {
      ReplayIsLastWrite(s.disk0, s.log, b);
    }
    forall t | 0 <= t < |s.calls| && s.calls[t].ret.Some?
      ensures var c := s.calls[t];
        && c.event.Some? && c.event.value < |s.log| && InDisk(|s.disk0|, c.blockno)
        && (!c.write ==> c.ret.value.data == LastWritten(s.disk0, s.log[..c.event.value], c.blockno))
    {
      PerformedOnce(s, t);
      ReadSawLastWrite(s, t);
    }
  }

  lemma ReadSawLastWrite(s: State, t: nat)
    requires t < |s.calls| && CallI(s) && |s.disk| == |s.disk0| && OnBlocks(s.disk0, s.log)
    requires s.calls[t].ret.Some? && s.calls[t].event.Some? && s.calls[t].event.value < |s.log|
    requires PerformedAs(s, t, s.calls[t].event.value)
    ensures var c := s.calls[t];
      && InDisk(|s.disk0|, c.blockno)
      && (!c.write ==> c.ret.value.data == LastWritten(s.disk0, s.log[..c.event.value], c.blockno))
  {
    var c := s.calls[t];
    var e := c.event.value;
    assert EventOf(e, s.log[e], s.calls[s.log[e].tid], |s.disk|);
    assert OnBlocks(s.disk0, s.log[..e]);
    ReplayIsLastWrite(s.disk0, s.log[..e], c.blockno);
  }

  /** Every sector belongs to some block. */
  lemma {:induction false} BlockOfSector(x: nat) returns (b: nat)
    ensures FirstSector(b) <= x < FirstSector(b) + SPB
  {
    if x < SPB {
      b := 0;
    } else {
      b := BlockOfSector(x - SPB);
      b := b + 1;
    }
  }

  /** Exactly the block numbers whose first sector fits 32 bits are sent to their own
      sectors; a request for any other starts inside a different, lower block. */
  lemma SectorExact(blockno: nat) returns (other: nat)
    ensures SectorOf(blockno) == FirstSector(blockno) <==> FirstSector(blockno) < U32
    ensures FirstSector(other) <= SectorOf(blockno) < FirstSector(other) + SPB
    ensures if FirstSector(blockno) < U32 then other == blockno else other < blockno
  {
    if FirstSector(blockno) < U32 {
      other := blockno;
    } else {
      other := BlockOfSector(SectorOf(blockno));
      if blockno < other { BlocksApart(blockno, other); }
    }
  }

  /** With two sectors to a block, as for the 1024-byte buffers of the cache, block 2^31 is
      such a number: it fits 32 bits, and its request goes to block 0. */
  lemma SectorWraps()
    requires SPB == 2
    ensures 0x8000_0000 < U32 && FirstSector(0x8000_0000) == U32 && SectorOf(0x8000_0000) == FirstSector(0)
  {
    FirstSectorIs(0x8000_0000);
  }

  // ---- descriptors --------------------------------------------------------------------------

  ghost predicate Waiting(pc: Pc) { pc.SleepBuf? || pc.WokeBuf? }

  ghost predicate HeldWaiting(pr: Proc, i: nat) { Waiting(pr.pc) && Holds(pr, i) }

  ghost function InFlight(procs: seq<Proc>): set<nat> { set p: nat | p < |procs| && Waiting(procs[p].pc) }

  /** Whenever vdisk_lock is free, each descriptor is either free or in the chain of
      exactly one waiting call, and free + 3 * waiting = NUM. */
  lemma DescriptorsConserved(s0: State, steps: seq<Step>)
    requires Init(s0) && CanRun(s0, steps) && After(s0, steps).lock.Unlocked?
    ensures var s := After(s0, steps);
      && |s.q.free| == NUM
      && |FreeSet(s.q.free)| + 3 * |InFlight(s.procs)| == NUM
      && (forall i :: 0 <= i < NUM ==>
            (s.q.free[i] <==> forall p :: 0 <= p < |s.procs| ==> !HeldWaiting(s.procs[p], i)))
      && (forall i, p, r :: 0 <= p < |s.procs| && 0 <= r < |s.procs| && HeldWaiting(s.procs[p], i) && HeldWaiting(s.procs[r], i) ==> p == r)
  {
    Reached(s0, steps);
    UnlockedWaiting(After(s0, steps));
    OwnersExact(After(s0, steps));
  }

  lemma UnlockedWaiting(s: State)
    requires LockI(s) && s.lock.Unlocked?
    ensures forall p :: 0 <= p < |s.procs| ==> (Waiting(s.procs[p].pc) <==> HasChain(s.procs[p].pc))
    ensures InFlight(s.procs) == Holders(s.procs)
  {
  }

  lemma OwnersExact(s: State)
    requires Shape(s) && OwnI(s)
    requires forall p :: 0 <= p < |s.procs| ==> (Waiting(s.procs[p].pc) <==> HasChain(s.procs[p].pc))
    ensures forall i :: 0 <= i < NUM ==>
      (s.q.free[i] <==> forall p :: 0 <= p < |s.procs| ==> !HeldWaiting(s.procs[p], i))
    ensures forall i, p, r :: 0 <= p < |s.procs| && 0 <= r < |s.procs| && HeldWaiting(s.procs[p], i) && HeldWaiting(s.procs[r], i) ==> p == r
  {
    forall i | 0 <= i < NUM && !s.q.free[i] ensures exists p :: 0 <= p < |s.procs| && HeldWaiting(s.procs[p], i) {
      var p := s.owner[i].value;
      assert HeldWaiting(s.procs[p], i);
    }
  }

  // ---- sleepers ------------------------------------------------------------------------------

  /** No disk waiter is stranded: while anyone sleeps for descriptors fewer than three are
      free, and whoever sleeps on a buffer still has its flag set and its request with the
      device or on the used ring. */
  lemma NoStrandedWaiter(s0: State, steps: seq<Step>, p: nat)
    requires Init(s0) && CanRun(s0, steps) && p < |After(s0, steps).procs|
    ensures var s := After(s0, steps); var pr := s.procs[p];
      && (pr.pc.SleepFree? ==> |FreeSet(s.q.free)| < 3)
      && (pr.pc.SleepBuf? ==> pr.b < |s.bufs| && s.bufs[pr.b].disk && |s.stage| == NUM && WithDevice(s.stage[pr.c.i0]))
  {
    Reached(s0, steps);
    SleeperStage(After(s0, steps), p);
  }

  ghost predicate WithDevice(st: Stage) { st.Avail? || st.Fetched? || st.Performed? || st.Used? }

  lemma SleeperStage(s: State, p: nat)
    requires Shape(s) && p < |s.procs| && SleepI(s) && FlagI(s) && StageI(s)
    ensures var pr := s.procs[p];
      && (pr.pc.SleepFree? ==> |FreeSet(s.q.free)| < 3)
      && (pr.pc.SleepBuf? ==> pr.b < |s.bufs| && s.bufs[pr.b].disk && WithDevice(s.stage[pr.c.i0]))
  {
  }

  // ---- rings ---------------------------------------------------------------------------------

  /** About to publish: the slot written is none of those the device has still to read. */
  lemma PublishOverwritesNothing(s0: State, steps: seq<Step>, p: nat)
    requires Init(s0) && CanRun(s0, steps) && At(After(s0, steps), p, Pc.Put)
    ensures var s := After(s0, steps);
      && |s.availQ| < NUM && s.q.availIdx == (s.devIdx + |s.availQ|) % IDX_MOD
      && forall k :: 0 <= k < |s.availQ| ==> Slot(s.devIdx, k) != SlotOf(s.q.availIdx)
  {
    hide Owning, Counted, Formed, Staged, BusyFlags, StatusGood, UsedRing, FreeSleepers, BufSleepers, LogLegal, CallsMatch, Underway, AvailRing, Buffers, After, CanRun, Init;
    Reached(s0, steps);
    PublishFree(After(s0, steps), p);
  }

  lemma PublishFree(s: State, p: nat)
    requires Shape(s) && OwnI(s) && StageI(s) && AvailI(s) && At(s, p, Pc.Put)
    ensures |s.availQ| < NUM && s.q.availIdx == (s.devIdx + |s.availQ|) % IDX_MOD
    ensures forall k :: 0 <= k < |s.availQ| ==> Slot(s.devIdx, k) != SlotOf(s.q.availIdx)
  {
    hide Owning, Counted, Staged, AvailRing;
    HeadUnstaged(s, p);
    PublishSlot(s, s.procs[p].c.i0);
  }

  lemma PublishSlot(s: State, h: nat)
    requires AvailI(s) && h < NUM && s.stage[h].NoReq?
    ensures |s.availQ| < NUM && s.q.availIdx == (s.devIdx + |s.availQ|) % IDX_MOD
    ensures forall k :: 0 <= k < |s.availQ| ==> Slot(s.devIdx, k) != SlotOf(s.q.availIdx)
  {
    RoomFor(s.availQ, h);
    PutKeepsPending(s.q.avail, s.devIdx, s.q.availIdx, s.availQ, h);
  }

  /** The handler's loop test is exact: its index equals the device's just when no
      completion is waiting, whatever the 16-bit indices have wrapped to. */
  lemma DrainedExactly(s0: State, steps: seq<Step>)
    requires Init(s0) && CanRun(s0, steps)
    ensures var s := After(s0, steps);
      |s.stage| == NUM && (s.q.seen == s.q.usedIdx <==> forall h :: 0 <= h < NUM ==> !s.stage[h].Used?)
  {
    Reached(s0, steps);
    BacklogExact(After(s0, steps));
  }

  lemma BacklogExact(s: State)
    requires UsedI(s) && OwnI(s) && StageI(s)
    ensures s.q.seen == s.q.usedIdx <==> forall h :: 0 <= h < NUM ==> !s.stage[h].Used?
  {
    if s.usedQ != [] {
      assert s.usedQ[0] in s.usedQ && s.stage[s.usedQ[0]].Used?;
      UsedShort(s);
      EqualIffEmpty(s.q.used, s.q.seen, s.q.usedIdx, s.usedQ);
    }
  }

  /** Some descriptor of a used chain is not a head, so the backlog is below NUM. */
  lemma UsedShort(s: State)
    requires UsedI(s) && OwnI(s) && StageI(s) && s.usedQ != []
    ensures |s.usedQ| < NUM
  {
    assert s.usedQ[0] in s.usedQ && s.stage[s.usedQ[0]].Used?;
    var p := s.owner[s.usedQ[0]].value;
    var c := s.procs[p].c;
    assert s.owner[c.i1] == Some(p) && s.stage[c.i1].NoReq?;
    RoomFor(s.usedQ, c.i1);
  }

  /** One round of the handler completes one waiting call, the one whose buffer info[]
      recorded, and touches no other call's flag. */
  lemma HandlerCompletesOne(s0: State, steps: seq<Step>) returns (p: nat)
    requires Init(s0) && CanRun(s0, steps) && After(s0, steps).intr.AtBody?
    ensures var s := After(s0, steps);
      && Shape(s) && p < |s.procs| && Published(s.procs[p].pc) && s.procs[p].b < |s.bufs|
      && var id := s.q.used[SlotOf(s.q.seen)]; var s' := IntrBodyStep(s);
      && id == s.procs[p].c.i0 && s.q.info[id].b == Some(s.procs[p].b) && s.stage[id].Used? && s'.stage[id].Drained?
      && |s'.bufs| == |s.bufs| && s.bufs[s.procs[p].b].disk && !s'.bufs[s.procs[p].b].disk
      && (forall b :: 0 <= b < |s.bufs| && b != s.procs[p].b ==> s'.bufs[b] == s.bufs[b])
  {
    Reached(s0, steps);
    var s := After(s0, steps);
    p := DrainedCall(s);
    HandledCall(s, p);
    IntrBodyIs(s, p);
  }

  lemma HandledCall(s: State, p: nat)
    requires Shape(s) && FormI(s) && FlagI(s) && p < |s.procs| && Published(s.procs[p].pc) && s.stage[s.procs[p].c.i0].Used?
    ensures s.q.info[s.procs[p].c.i0].b == Some(s.procs[p].b) && s.procs[p].b < |s.bufs| && s.bufs[s.procs[p].b].disk
  {
    assert FormattedAs(s.q.desc, s.q.ops, s.q.info, s.procs[p]);
  }

  /** A call gets past its waiting loop only once its own completion has been drained. */
  lemma CleansAfterDrain(s0: State, steps: seq<Step>, p: nat)
    requires Init(s0) && CanRun(s0, steps) && At(After(s0, steps), p, Pc.Clean)
    ensures var s := After(s0, steps); |s.stage| == NUM && s.stage[s.procs[p].c.i0].Drained?
  {
    Reached(s0, steps);
  }
}
