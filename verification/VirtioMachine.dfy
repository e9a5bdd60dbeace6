/** Processes in virtio_disk_rw, the interrupt handler and the device, interleaved.
    One step is what an agent does without another agent being able to see the middle:
    between two accesses to memory shared with the device, or inside vdisk_lock as far as
    other processes are concerned.  sleep(chan, &vdisk_lock) releases the lock and goes to
    sleep in one step, and wakeup takes effect at once; ProcSleep is where the real sleep
    and wakeup are shown to be such steps for whoever takes the lock. */
module VirtioMachine {
  import opened Common
  import opened VirtioQueue
  import opened VirtioRing

  const SPB: nat := BSIZE / 512 // sectors per block
  const U32 := 0x1_0000_0000

  type Sector = seq<bv8>
  type Block = d: seq<Sector> | |d| == SPB ghost witness seq(SPB, _ => [])

  /** Where a process stands in virtio_disk_rw. */
  datatype Pc =
    | Idle      // not in a call
    | Start     // before acquire(&disk.vdisk_lock)
    | Alloc     // holds the lock, about to try alloc3_desc
    | SleepFree // asleep on &disk.free[0]
    | WokeFree  // woken, must take the lock again
    | Fill      // has idx[], about to format the descriptors
    | Put       // about to write avail->ring
    | Bump      // about to increment avail->idx
    | Test      // about to test b->disk
    | SleepBuf  // asleep on b
    | WokeBuf   // woken, must take the lock again
    | Clean     // about to clear info[].b and free the chain
    | Exit      // about to release the lock and return

  predicate Active(pc: Pc) { !pc.Idle? }
  predicate InLock(pc: Pc) { pc.Alloc? || pc.Fill? || pc.Put? || pc.Bump? || pc.Test? || pc.Clean? || pc.Exit? }
  predicate Published(pc: Pc) { pc.Test? || pc.SleepBuf? || pc.WokeBuf? || pc.Clean? }
  predicate Filled(pc: Pc) { pc.Put? || pc.Bump? || Published(pc) }
  predicate HasChain(pc: Pc) { pc.Fill? || Filled(pc) }

  datatype Proc = Proc(pc: Pc, b: nat, write: bool, sector: nat, c: Chain, tid: nat)
  datatype Buf = Buf(blockno: nat, disk: bool, data: Block)
  datatype Lock = Unlocked | ByProc(p: nat) | ByIntr
  datatype IntrPc = Off | AtTest | AtBody

  /** How far a published request has come; the device's own memory of it is whether it
      is Fetched (taken from the avail ring) or Performed (data moved, status written). */
  datatype Stage = NoReq | Avail | Fetched | Performed | Used | Drained

  // History, for the statements: calls in order of invocation, transfers in order.
  datatype Ret = Ret(data: Block, at: nat)
  datatype Call = Call(b: nat, write: bool, blockno: nat, data: Block, invokedAt: nat,
                       event: Option<nat>, ret: Option<Ret>)
  datatype Event = Event(tid: nat, write: bool, sector: nat, data: Block)

  datatype State = State(
    q: Queue, lock: Lock, procs: seq<Proc>, bufs: seq<Buf>, intr: IntrPc,
    devIdx: nat, posting: Option<nat>, disk: seq<Sector>,
    // bookkeeping that no step's effect on the fields above depends on
    stage: seq<Stage>, owner: seq<Option<nat>>, availQ: seq<nat>, usedQ: seq<nat>,
    disk0: seq<Sector>, log: seq<Event>, calls: seq<Call>,
    fault: bool) // a panic, a null buffer or a malformed chain

  // ---- the block device the driver is meant to provide --------------------------

  /** blockno * (BSIZE / 512), by repeated addition; FirstSectorIs says it is the product. */
  function FirstSector(blockno: nat): nat {
    if blockno == 0 then 0 else FirstSector(blockno - 1) + SPB
  }

  lemma {:induction false} FirstSectorIs(blockno: nat)
    ensures FirstSector(blockno) == blockno * SPB
  {
    if blockno > 0 { FirstSectorIs(blockno - 1); }
  }

  /** b->blockno * (BSIZE / 512), in 32 bits. */
  function SectorOf(blockno: nat): nat { FirstSector(blockno) % U32 }

  /** A block the device of `size` sectors has, and whose sector number fits 32 bits. */
  ghost predicate InDisk(size: nat, blockno: nat) {
    FirstSector(blockno) < U32 && FirstSector(blockno) + SPB <= size
  }

  ghost function ReadAt(disk: seq<Sector>, sector: nat): (r: Block)
    requires sector + SPB <= |disk|
  {
    disk[sector..sector + SPB]
  }

  ghost function WriteAt(disk: seq<Sector>, sector: nat, data: Block): (r: seq<Sector>)
    requires sector + SPB <= |disk|
    ensures |r| == |disk|
  {
    disk[..sector] + data + disk[sector + SPB..]
  }

  /** The disk after performing `log` one event at a time. */
  ghost function Replay(disk0: seq<Sector>, log: seq<Event>): (r: seq<Sector>)
    ensures |r| == |disk0|
  {
    if log == [] then disk0
    else
      var e := log[|log| - 1];
      var d := Replay(disk0, log[..|log| - 1]);
      if e.write && e.sector + SPB <= |d| then WriteAt(d, e.sector, e.data) else d
  }

  // ---- steps ----------------------------------------------------------------------

  datatype Step =
    | ClientSet(b: nat, blockno: nat, data: Block) // a client changes an idle buffer
    | Invoke(p: nat, b: nat, write: bool)
    | TakeLock(p: nat) | TryAlloc(p: nat) | Fill(p: nat) | Put(p: nat) | Bump(p: nat)
    | Test(p: nat) | Clean(p: nat) | Return(p: nat)
    | IntrLock | IntrTest | IntrBody
    | DevFetch | DevPerform(h: nat) | DevPost(h: nat) | DevBump

  ghost predicate InCall(s: State, b: nat) {
    exists p: nat :: p < |s.procs| && Active(s.procs[p].pc) && s.procs[p].b == b
  }

  ghost predicate At(s: State, p: nat, pc: Pc) { p < |s.procs| && s.procs[p].pc == pc }

  ghost predicate Enabled(s: State, step: Step) {
    && !s.fault
    && match step
       case ClientSet(b, blockno, data) => b < |s.bufs| && !InCall(s, b)
       case Invoke(p, b, write) => At(s, p, Idle) && b < |s.bufs| && !InCall(s, b) && InDisk(|s.disk|, s.bufs[b].blockno)
       case TakeLock(p) => s.lock.Unlocked? && (At(s, p, Start) || At(s, p, WokeFree) || At(s, p, WokeBuf))
       case TryAlloc(p) => At(s, p, Pc.Alloc)
       case Fill(p) => At(s, p, Pc.Fill)
       case Put(p) => At(s, p, Pc.Put)
       case Bump(p) => At(s, p, Pc.Bump)
       case Test(p) => At(s, p, Pc.Test)
       case Clean(p) => At(s, p, Pc.Clean)
       case Return(p) => At(s, p, Exit)
       case IntrLock => s.lock.Unlocked? && s.intr.Off?
       case IntrTest => s.intr.AtTest?
       case IntrBody => s.intr.AtBody?
       case DevFetch => s.devIdx != s.q.availIdx
       case DevPerform(h) => h < |s.stage| && s.stage[h].Fetched?
       case DevPost(h) => h < |s.stage| && s.stage[h].Performed? && s.posting.None?
       case DevBump => s.posting.Some?
  }

  ghost function Woken(pr: Proc, woken: seq<Chan>): Proc {
    if pr.pc.SleepFree? && FreeChan in woken then pr.(pc := WokeFree)
    else if pr.pc.SleepBuf? && BufChan(pr.b) in woken then pr.(pc := WokeBuf)
    else pr
  }

  ghost function WakeAll(procs: seq<Proc>, woken: seq<Chan>): (r: seq<Proc>)
    ensures |r| == |procs| && forall p :: 0 <= p < |r| ==> r[p] == Woken(procs[p], woken)
  {
    seq(|procs|, p requires 0 <= p < |procs| => Woken(procs[p], woken))
  }

  ghost function SetPc(s: State, p: nat, pc: Pc): State
    requires p < |s.procs|
  {
    s.(procs := s.procs[p := s.procs[p].(pc := pc)])
  }

  /** A process in a call names a buffer and a call record that exist. */
  ghost predicate Indexed(procs: seq<Proc>, bufs: seq<Buf>, calls: seq<Call>) {
    forall p :: 0 <= p < |procs| && Active(procs[p].pc) ==> procs[p].b < |bufs| && procs[p].tid < |calls|
  }

  /** The sizes and ranges every step below relies on. */
  ghost predicate Shape(s: State) {
    && s.q.Shape() && |s.stage| == NUM && |s.owner| == NUM && s.devIdx < IDX_MOD
    && Indexed(s.procs, s.bufs, s.calls)
  }

  ghost function Fault(s: State): State { s.(fault := true) }

  ghost function ClientSetStep(s: State, b: nat, blockno: nat, data: Block): State
    requires b < |s.bufs|
  {
    s.(bufs := s.bufs[b := s.bufs[b].(blockno := blockno, data := data)])
  }

  ghost function InvokeStep(s: State, p: nat, b: nat, write: bool): State
    requires p < |s.procs| && b < |s.bufs|
  {
    var buf := s.bufs[b];
    s.(procs := s.procs[p := Proc(Start, b, write, SectorOf(buf.blockno), Chain(0, 1, 2), |s.calls|)],
       calls := s.calls + [Call(b, write, buf.blockno, buf.data, |s.log|, None, None)])
  }

  ghost function TakeLockStep(s: State, p: nat): State
    requires p < |s.procs|
  {
    SetPc(s, p, if s.procs[p].pc.WokeBuf? then Pc.Test else Pc.Alloc).(lock := ByProc(p))
  }

  ghost function TryAllocStep(s: State, p: nat): State
    requires Shape(s) && p < |s.procs|
  {
    var (q, r) := Alloc3(s.q.(woken := []));
    match r
    case Some(c) =>
      s.(q := q, procs := s.procs[p := s.procs[p].(pc := Pc.Fill, c := c)],
         owner := s.owner[c.i0 := Some(p)][c.i1 := Some(p)][c.i2 := Some(p)])
    case None => // sleep(&disk.free[0], &disk.vdisk_lock)
      s.(q := q, lock := Unlocked,
         procs := WakeAll(s.procs, q.woken)[p := s.procs[p].(pc := SleepFree)])
  }

  ghost function FillStep(s: State, p: nat): State
    requires Shape(s) && p < |s.procs| && s.procs[p].b < |s.bufs|
  {
    var pr := s.procs[p];
    SetPc(s, p, Pc.Put).(
      q := Format(s.q, pr.c, pr.b, pr.write, pr.sector),
      bufs := s.bufs[pr.b := s.bufs[pr.b].(disk := true)])
  }

  ghost function PutStep(s: State, p: nat): State
    requires Shape(s) && p < |s.procs|
  {
    SetPc(s, p, Pc.Bump).(q := PutAvail(s.q, s.procs[p].c.i0))
  }

  ghost function BumpStep(s: State, p: nat): State
    requires Shape(s) && p < |s.procs|
  {
    var h := s.procs[p].c.i0;
    SetPc(s, p, Pc.Test).(q := BumpAvail(s.q), availQ := s.availQ + [h], stage := s.stage[h := Avail])
  }

  ghost function TestStep(s: State, p: nat): State
    requires p < |s.procs| && s.procs[p].b < |s.bufs|
  {
    if s.bufs[s.procs[p].b].disk then SetPc(s, p, SleepBuf).(lock := Unlocked)
    else SetPc(s, p, Pc.Clean)
  }

  ghost function CleanStep(s: State, p: nat): State
    requires Shape(s) && p < |s.procs|
  {
    var c := s.procs[p].c;
    match Finish(s.q.(woken := []), c.i0)
    case None => Fault(s)
    case Some(q) =>
      s.(q := q, procs := WakeAll(s.procs, q.woken)[p := s.procs[p].(pc := Exit)],
         owner := s.owner[c.i0 := None][c.i1 := None][c.i2 := None],
         stage := s.stage[c.i0 := NoReq])
  }

  ghost function ReturnStep(s: State, p: nat): State
    requires p < |s.procs| && s.procs[p].b < |s.bufs| && s.procs[p].tid < |s.calls|
  {
    var pr := s.procs[p];
    SetPc(s, p, Idle).(
      lock := Unlocked,
      calls := s.calls[pr.tid := s.calls[pr.tid].(ret := Some(Ret(s.bufs[pr.b].data, |s.log|)))])
  }

  ghost function IntrTestStep(s: State): State {
    if s.q.seen != s.q.usedIdx then s.(intr := AtBody) else s.(intr := Off, lock := Unlocked)
  }

  ghost function IntrBodyStep(s: State): State
    requires Shape(s)
  {
    match TakeUsed(s.q.(woken := []))
    case None => Fault(s)
    case Some((q, b)) =>
      var id := s.q.used[SlotOf(s.q.seen)];
      if b >= |s.bufs| || id >= NUM then Fault(s) else
      s.(q := q, intr := AtTest,
         bufs := s.bufs[b := s.bufs[b].(disk := false)],
         procs := WakeAll(s.procs, q.woken),
         usedQ := if s.usedQ == [] then [] else s.usedQ[1..],
         stage := s.stage[id := Drained])
  }

  ghost function DevFetchStep(s: State): State
    requires Shape(s)
  {
    var h := s.q.avail[SlotOf(s.devIdx)];
    if h >= NUM then Fault(s) else
    s.(devIdx := (s.devIdx + 1) % IDX_MOD, stage := s.stage[h := Fetched],
       availQ := if s.availQ == [] then [] else s.availQ[1..])
  }

  ghost function DevPerformStep(s: State, h: nat): State
    requires Shape(s) && h < NUM
  {
    match Decode(s.q, h)
    case None => Fault(s)
    case Some(r) =>
      if r.b >= |s.bufs| || r.sector + SPB > |s.disk| || r.statusAt >= NUM
         || s.owner[h].None? || s.owner[h].value >= |s.procs| || s.procs[s.owner[h].value].tid >= |s.calls|
      then Fault(s) else
      var tid := s.procs[s.owner[h].value].tid;
      var data: Block := if r.write then s.bufs[r.b].data else ReadAt(s.disk, r.sector);
      s.(disk := if r.write then WriteAt(s.disk, r.sector, data) else s.disk,
         bufs := s.bufs[r.b := s.bufs[r.b].(data := data)],
         q := PutStatus(s.q, r.statusAt),
         stage := s.stage[h := Performed],
         log := s.log + [Event(tid, r.write, r.sector, data)],
         calls := s.calls[tid := s.calls[tid].(event := Some(|s.log|))])
  }

  ghost function DevPostStep(s: State, h: nat): State
    requires Shape(s)
  {
    s.(q := PutUsed(s.q, h), posting := Some(h))
  }

  ghost function DevBumpStep(s: State): State
    requires Shape(s) && s.posting.Some?
  {
    var h := s.posting.value;
    if h >= NUM then Fault(s) else
    s.(q := BumpUsed(s.q), posting := None, stage := s.stage[h := Used], usedQ := s.usedQ + [h])
  }

  ghost function Apply(s: State, step: Step): State
    requires Shape(s) && Enabled(s, step)
  {
    match step
    case ClientSet(b, blockno, data) => ClientSetStep(s, b, blockno, data)
    case Invoke(p, b, write) => InvokeStep(s, p, b, write)
    case TakeLock(p) => TakeLockStep(s, p)
    case TryAlloc(p) => TryAllocStep(s, p)
    case Fill(p) => FillStep(s, p)
    case Put(p) => PutStep(s, p)
    case Bump(p) => BumpStep(s, p)
    case Test(p) => TestStep(s, p)
    case Clean(p) => CleanStep(s, p)
    case Return(p) => ReturnStep(s, p)
    case IntrLock => s.(lock := ByIntr, intr := AtTest)
    case IntrTest => IntrTestStep(s)
    case IntrBody => IntrBodyStep(s)
    case DevFetch => DevFetchStep(s)
    case DevPerform(h) => DevPerformStep(s, h)
    case DevPost(h) => DevPostStep(s, h)
    case DevBump => DevBumpStep(s)
  }

  /** What virtio_disk_init leaves, with any number of processes, idle buffers and any
      disk contents. */
  ghost predicate Init(s: State) {
    && s.q.Shape() && s.q.availIdx == 0 && s.q.usedIdx == 0 && s.q.seen == 0
    && (forall i :: 0 <= i < NUM ==> s.q.free[i] && s.q.desc[i] == ZERO_DESC && s.q.info[i].b.None?)
    && s.lock.Unlocked? && s.intr.Off? && s.devIdx == 0 && s.posting.None?
    && (forall p :: 0 <= p < |s.procs| ==> s.procs[p].pc.Idle?)
    && (forall b :: 0 <= b < |s.bufs| ==> !s.bufs[b].disk)
    && s.stage == seq(NUM, _ => NoReq) && s.owner == seq(NUM, _ => None)
    && s.availQ == [] && s.usedQ == [] && s.log == [] && s.calls == [] && s.disk0 == s.disk
    && !s.fault
  }

  // ---- the invariant, each part over the fields it is about -----------------------

  /** vdisk_lock is held by whoever the program counters say is inside it. */
  ghost predicate Locking(lock: Lock, intr: IntrPc, procs: seq<Proc>) {
    && (forall p :: 0 <= p < |procs| ==> (InLock(procs[p].pc) <==> lock == ByProc(p)))
    && (lock.ByProc? ==> lock.p < |procs|)
    && (intr.Off? <==> !lock.ByIntr?)
  }

  /** Each buffer is in at most one call, and stays as the caller passed it. */
  ghost predicate Buffers(procs: seq<Proc>, bufs: seq<Buf>, size: nat) {
    && (forall p, r :: 0 <= p < r < |procs| && Active(procs[p].pc) && Active(procs[r].pc) ==>
          procs[p].b != procs[r].b && procs[p].tid != procs[r].tid)
    && (forall p :: 0 <= p < |procs| && Active(procs[p].pc) ==>
          procs[p].b < |bufs| && InDisk(size, bufs[procs[p].b].blockno)
          && procs[p].sector == SectorOf(bufs[procs[p].b].blockno))
  }

  predicate Holds(pr: Proc, i: nat) { HasChain(pr.pc) && (i == pr.c.i0 || i == pr.c.i1 || i == pr.c.i2) }

  /** The descriptors that are not free are exactly the disjoint triples held by calls,
      and the free ones are all zero. */
  ghost predicate Owning(desc: seq<Desc>, free: seq<bool>, owner: seq<Option<nat>>, procs: seq<Proc>) {
    && |desc| == |free| == |owner| == NUM
    && (forall i :: 0 <= i < NUM ==> (free[i] <==> owner[i].None?))
    && (forall i :: 0 <= i < NUM && free[i] ==> desc[i] == ZERO_DESC)
    && (forall i :: 0 <= i < NUM && owner[i].Some? ==> owner[i].value < |procs| && Holds(procs[owner[i].value], i))
    && (forall p :: 0 <= p < |procs| && HasChain(procs[p].pc) ==>
          owner[procs[p].c.i0] == owner[procs[p].c.i1] == owner[procs[p].c.i2] == Some(p))
  }

  ghost function Holders(procs: seq<Proc>): set<nat> { set p: nat | p < |procs| && HasChain(procs[p].pc) }

  ghost predicate Counted(free: seq<bool>, procs: seq<Proc>) { |FreeSet(free)| + 3 * |Holders(procs)| == NUM }

  /** Once formatted, a chain and its info entry stay as written until the clean-up. */
  ghost predicate FormattedAs(desc: seq<Desc>, ops: seq<Op>, info: seq<Info>, pr: Proc)
    requires |desc| == |ops| == |info| == NUM
  {
    && ops[pr.c.i0] == Op(pr.write, 0, pr.sector)
    && desc[pr.c.i0] == Desc(OpsAddr(pr.c.i0), REQ_SIZE, Flags(true, false), pr.c.i1)
    && desc[pr.c.i1] == Desc(DataAddr(pr.b), BSIZE, Flags(true, !pr.write), pr.c.i2)
    && desc[pr.c.i2] == Desc(StatusAddr(pr.c.i0), 1, Flags(false, true), 0)
    && info[pr.c.i0].b == Some(pr.b)
  }

  ghost predicate Formed(desc: seq<Desc>, ops: seq<Op>, info: seq<Info>, procs: seq<Proc>) {
    && |desc| == |ops| == |info| == NUM
    && forall p :: 0 <= p < |procs| && Filled(procs[p].pc) ==> FormattedAs(desc, ops, info, procs[p])
  }

  /** A head with a stage is the head of a published call, and every such call has one. */
  ghost predicate Staged(stage: seq<Stage>, owner: seq<Option<nat>>, procs: seq<Proc>) {
    && |stage| == |owner| == NUM
    && (forall h :: 0 <= h < NUM && !stage[h].NoReq? ==>
          owner[h].Some? && owner[h].value < |procs|
          && procs[owner[h].value].c.i0 == h && Published(procs[owner[h].value].pc))
    && (forall p :: 0 <= p < |procs| && Published(procs[p].pc) ==> !stage[procs[p].c.i0].NoReq?)
    && (forall p :: 0 <= p < |procs| && procs[p].pc.Clean? ==> stage[procs[p].c.i0].Drained?)
  }

  /** b->disk is 1 from the formatting of a request until its completion is drained. */
  ghost predicate BusyFlags(stage: seq<Stage>, procs: seq<Proc>, bufs: seq<Buf>) {
    && |stage| == NUM
    && (forall p :: 0 <= p < |procs| && Filled(procs[p].pc) ==>
          procs[p].b < |bufs|
          && (bufs[procs[p].b].disk <==> !(Published(procs[p].pc) && stage[procs[p].c.i0].Drained?)))
  }

  ghost predicate StatusGood(stage: seq<Stage>, info: seq<Info>) {
    && |stage| == |info| == NUM
    && forall h :: 0 <= h < NUM && (stage[h].Performed? || stage[h].Used?) ==> info[h].status == 0
  }

  /** `availQ` is what the device has still to fetch. */
  ghost predicate AvailRing(avail: seq<nat>, availIdx: nat, devIdx: nat, availQ: seq<nat>, stage: seq<Stage>, procs: seq<Proc>) {
    && |stage| == NUM
    && Ring(avail, devIdx, availIdx, availQ) && Distinct(availQ)
    && (forall h :: 0 <= h < NUM ==> (stage[h].Avail? <==> h in availQ))
    && (forall p :: 0 <= p < |procs| && procs[p].pc.Bump? ==> avail[SlotOf(availIdx)] == procs[p].c.i0)
  }

  /** `usedQ` is what the driver has still to drain. */
  ghost predicate UsedRing(used: seq<nat>, usedIdx: nat, seen: nat, posting: Option<nat>, usedQ: seq<nat>, stage: seq<Stage>) {
    && |stage| == NUM
    && Ring(used, seen, usedIdx, usedQ) && Distinct(usedQ)
    && (forall h :: 0 <= h < NUM ==> (stage[h].Used? <==> h in usedQ))
    && (posting.Some? ==> posting.value < NUM && stage[posting.value].Performed? && used[SlotOf(usedIdx)] == posting.value)
  }

  ghost predicate FreeSleepers(free: seq<bool>, procs: seq<Proc>) {
    (exists p :: 0 <= p < |procs| && procs[p].pc.SleepFree?) ==> |FreeSet(free)| < 3
  }

  ghost predicate BufSleepers(procs: seq<Proc>, bufs: seq<Buf>) {
    forall p :: 0 <= p < |procs| && procs[p].pc.SleepBuf? ==> procs[p].b < |bufs| && bufs[procs[p].b].disk
  }

  /** The transfer of a call has happened. */
  ghost predicate Moved(stage: seq<Stage>, pr: Proc)
    requires |stage| == NUM
  {
    pr.pc.Exit? || (Published(pr.pc) && (stage[pr.c.i0].Performed? || stage[pr.c.i0].Used? || stage[pr.c.i0].Drained?))
  }

  /** The log is one sequential history of an atomic disk, ending in the present contents. */
  ghost predicate LogLegal(disk: seq<Sector>, disk0: seq<Sector>, log: seq<Event>) {
    && disk == Replay(disk0, log)
    && forall e :: 0 <= e < |log| ==> LegalAt(disk0, log, e)
  }

  /** Event e fits the disk and, if a read, returns what the events before it left. */
  ghost predicate LegalAt(disk0: seq<Sector>, log: seq<Event>, e: nat)
    requires e < |log|
  {
    && log[e].sector + SPB <= |disk0|
    && (!log[e].write ==> log[e].data == ReadAt(Replay(disk0, log[..e]), log[e].sector))
  }

  ghost predicate EventOf(e: nat, ev: Event, c: Call, size: nat) {
    && c.event == Some(e) && c.write == ev.write && InDisk(size, c.blockno)
    && ev.sector == SectorOf(c.blockno) && (c.write ==> ev.data == c.data)
  }

  ghost predicate CallOf(t: nat, c: Call, log: seq<Event>) {
    && c.invokedAt <= |log|
    && (c.event.Some? ==> c.invokedAt <= c.event.value < |log| && log[c.event.value].tid == t)
    && (c.ret.Some? ==> c.event.Some? && c.event.value < c.ret.value.at <= |log|
                        && c.ret.value.data == log[c.event.value].data)
  }

  /** Calls and events correspond one to one, each event between call and return. */
  ghost predicate CallsMatch(log: seq<Event>, calls: seq<Call>, size: nat) {
    && (forall e :: 0 <= e < |log| ==> log[e].tid < |calls| && EventOf(e, log[e], calls[log[e].tid], size))
    && (forall t :: 0 <= t < |calls| ==> CallOf(t, calls[t], log))
  }

  ghost predicate UnderwayAs(pr: Proc, buf: Buf, c: Call, log: seq<Event>, moved: bool) {
    && c.ret.None? && c.b == pr.b && c.write == pr.write && c.blockno == buf.blockno
    && (c.event.Some? <==> moved)
    && (c.event.None? ==> buf.data == c.data)
    && (c.event.Some? ==> c.event.value < |log| && buf.data == log[c.event.value].data)
  }

  /** A call in progress has moved its data exactly when its event is in the log. */
  ghost predicate Underway(procs: seq<Proc>, bufs: seq<Buf>, calls: seq<Call>, log: seq<Event>, stage: seq<Stage>) {
    && |stage| == NUM && Indexed(procs, bufs, calls)
    && forall p :: 0 <= p < |procs| && Active(procs[p].pc) ==>
         UnderwayAs(procs[p], bufs[procs[p].b], calls[procs[p].tid], log, Moved(stage, procs[p]))
  }

  // The same parts, of a state.
  ghost predicate LockI(s: State) { Locking(s.lock, s.intr, s.procs) }
  ghost predicate BufI(s: State) { Buffers(s.procs, s.bufs, |s.disk|) }
  ghost predicate OwnI(s: State) { Owning(s.q.desc, s.q.free, s.owner, s.procs) && Counted(s.q.free, s.procs) }
  ghost predicate FormI(s: State) { Formed(s.q.desc, s.q.ops, s.q.info, s.procs) }
  ghost predicate StageI(s: State) { Staged(s.stage, s.owner, s.procs) }
  ghost predicate FlagI(s: State) { BusyFlags(s.stage, s.procs, s.bufs) }
  ghost predicate StatusI(s: State) { StatusGood(s.stage, s.q.info) }
  ghost predicate AvailI(s: State) { AvailRing(s.q.avail, s.q.availIdx, s.devIdx, s.availQ, s.stage, s.procs) }
  ghost predicate UsedI(s: State) {
    UsedRing(s.q.used, s.q.usedIdx, s.q.seen, s.posting, s.usedQ, s.stage) && (s.intr.AtBody? ==> s.usedQ != [])
  }

  ghost predicate SleepI(s: State) { FreeSleepers(s.q.free, s.procs) && BufSleepers(s.procs, s.bufs) }
  ghost predicate LogI(s: State) { LogLegal(s.disk, s.disk0, s.log) }
  ghost predicate CallI(s: State) { CallsMatch(s.log, s.calls, |s.disk|) }
  ghost predicate UnderI(s: State) { Underway(s.procs, s.bufs, s.calls, s.log, s.stage) }

  ghost predicate Inv(s: State) {
    && Shape(s) && !s.fault
    && LockI(s) && BufI(s) && OwnI(s) && FormI(s) && StageI(s) && FlagI(s) && StatusI(s)
    && AvailI(s) && UsedI(s) && SleepI(s) && LogI(s) && CallI(s) && UnderI(s)
  }
}
