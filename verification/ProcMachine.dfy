/** scheduler, enter_sched, give_up, sleep and wakeup on several CPUs, as steps between
    accesses to locks.  A thread is a kernel stack: one scheduler stack per CPU and one
    per process.  What swtch saves and loads is a continuation: which stack, and where to
    go on.  A spin lock is in `locks` while it is unavailable; the CPU recorded there is
    bookkeeping, no step looks at it except to say what that CPU holds. */
module ProcMachine {
  import opened Common
  import opened Spinlock

  datatype PState = UNUSED | SLEEPING | RUNNABLE | RUNNING

  datatype Thread = Sched(c: nat) | Pr(p: nat)
  datatype LockId = PLock(p: nat) | CLock(l: nat) // procs[p].lock, and the condition locks
  datatype Kind = Give | Sleep(chan: nat)

  /** Program points.  k ranges over procs in the two loops. */
  datatype Pc =
    // scheduler
    | Loop(i: nat)           // about to acquire procs[i].lock
    | Test(i: nat)           // holds it, about to test the state
    | Back(i: nat)           // swtch has come back, holds it again
    | Free(i: nat)           // about to release it
    // any thread
    | Code                   // outside this file: process code, or an interrupt handler
    | Scan(k: nat, chan: nat, held: bool)   // wakeup, about to look at procs[k]
    | Check(k: nat, chan: nat, held: bool)  // holds procs[k].lock
    | Unlock(k: nat, chan: nat, held: bool) // about to release it
    // processes
    | Set(kind: Kind)        // holds its own lock, about to change its state
    | Drop(chan: nat)        // sleep, about to release the condition lock
    | Enter(kind: Kind)      // in enter_sched, before swtch
    | Resume(kind: Kind)     // in enter_sched, after swtch
    | Leave(kind: Kind)      // about to release its own lock
    | Retake(chan: nat)      // sleep, about to take the condition lock again
    | Panic                  // enter_sched with the wrong number of locks

  /** Where a process may run with interrupts on: its own code, between two processes of a
      scan, about to take the condition lock again. */
  predicate OutsideLocks(pc: Pc) { pc.Code? || pc.Scan? || pc.Retake? }

  predicate AnyPc(pc: Pc) { pc.Code? || pc.Scan? || pc.Check? || pc.Unlock? }
  predicate ProcPc(pc: Pc) { AnyPc(pc) || pc.Set? || pc.Drop? || pc.Enter? || pc.Resume? || pc.Leave? || pc.Retake? || pc.Panic? }

  /** The callee-saved registers, as far as they matter: stack and return address. */
  datatype Context = Context(t: Thread, pc: Pc)

  /** One CPU: what it executes, cpu->cur_proc, the masking fields, cpu->context; `at` is
      the scheduler loop's index on its own stack. */
  datatype Cpu = Cpu(run: Context, cur: Option<nat>, mask: Mask, context: Context, at: nat)

  /** One process: state, channel, context, the local `disabled` of enter_sched on its
      stack, and where interrupts now being handled on its stack came in; `want` is whether
      it runs with interrupts on outside locks, and `on` the CPU executing its stack (both
      bookkeeping). */
  datatype Proc = Proc(state: PState, chan: nat, context: Context, saved: bool, frames: seq<Pc>, want: bool, on: Option<nat>)

  datatype State = State(cpus: seq<Cpu>, procs: seq<Proc>, locks: map<LockId, nat>)

  /** Which lock the sleepers on a channel pass to sleep: any assignment, so that channels
      may share a lock.  0 is the null channel, on which nobody sleeps. */
  const LockOf: nat -> nat

  function CondLock(chan: nat): LockId { CLock(LockOf(chan)) }

  // ---- steps -----------------------------------------------------------------------------

  datatype Step =
    | SchedAcquire(c: nat) | SchedTest(c: nat) | SchedBack(c: nat) | SchedFree(c: nat)
    | IntrEnter(c: nat) | IntrLeave(c: nat)
    | Lock(c: nat, l: nat) | Unlock(c: nat, l: nat) | Toggle(c: nat)
    | WakeStart(c: nat, chan: nat) | WakeScan(c: nat) | WakeCheck(c: nat) | WakeUnlock(c: nat)
    | GiveUp(c: nat) | SleepOn(c: nat, chan: nat)
    | SetState(c: nat) | DropCond(c: nat) | EnterSched(c: nat) | ResumeProc(c: nat) | LeaveProc(c: nat) | RetakeCond(c: nat)

  ghost predicate Enabled(s: State, step: Step) {
    var n := |s.procs|;
    step.c < |s.cpus| &&
    var cpu := s.cpus[step.c];
    var pc := cpu.run.pc;
    match step
    case SchedAcquire(c) => pc.Loop? && pc.i < n && PLock(pc.i) !in s.locks
    case SchedTest(c) => pc.Test? && pc.i < n
    case SchedBack(c) => pc.Back?
    case SchedFree(c) => pc.Free? && cpu.mask.layer > 0
    case IntrEnter(c) => cpu.mask.layer == 0 && cpu.mask.sie && (pc.Loop? || (cpu.run.t.Pr? && cpu.run.t.p < n && OutsideLocks(pc)))
    case IntrLeave(c) => pc.Code? && cpu.mask.layer == 0 && (cpu.run.t.Sched? || (cpu.run.t.p < n && s.procs[cpu.run.t.p].frames != []))
    case Lock(c, l) => pc.Code? && CLock(l) !in s.locks
    case Unlock(c, l) => pc.Code? && CLock(l) in s.locks && s.locks[CLock(l)] == c && cpu.mask.layer > 0
    case Toggle(c) => pc.Code? && cpu.run.t.Pr? && cpu.run.t.p < n && cpu.mask.layer == 0
    case WakeStart(c, chan) => pc.Code?
    case WakeScan(c) => pc.Scan? && (pc.k < n && cpu.cur != Some(pc.k) ==> PLock(pc.k) !in s.locks)
    case WakeCheck(c) => pc.Check? && pc.k < n
    case WakeUnlock(c) => pc.Unlock? && cpu.mask.layer > 0
    case GiveUp(c) => pc.Code? && cpu.cur.Some? && PLock(cpu.cur.value) !in s.locks
    case SleepOn(c, chan) => // the caller holds the lock it passes, as release(lock) needs
      pc.Code? && cpu.cur.Some? && PLock(cpu.cur.value) !in s.locks && chan != 0
      && CondLock(chan) in s.locks && s.locks[CondLock(chan)] == c
    case SetState(c) => pc.Set? && cpu.run.t.Pr? && cpu.run.t.p < n
    case DropCond(c) => pc.Drop? && CondLock(pc.chan) in s.locks && cpu.mask.layer > 0
    case EnterSched(c) => pc.Enter? && cpu.cur.Some? && cpu.cur.value < n
    case ResumeProc(c) => pc.Resume? && cpu.run.t.Pr? && cpu.run.t.p < n
    case LeaveProc(c) => pc.Leave? && cpu.run.t.Pr? && cpu.run.t.p < n && cpu.mask.layer > 0
    case RetakeCond(c) => pc.Retake? && CondLock(pc.chan) !in s.locks
  }

  ghost function Goto(s: State, c: nat, pc: Pc): State
    requires c < |s.cpus|
  {
    s.(cpus := s.cpus[c := s.cpus[c].(run := s.cpus[c].run.(pc := pc))])
  }

  /** acquire, once the lock is available. */
  ghost function Acquire(s: State, c: nat, l: LockId, pc: Pc): State
    requires c < |s.cpus|
  {
    s.(cpus := s.cpus[c := s.cpus[c].(mask := Push(s.cpus[c].mask), run := s.cpus[c].run.(pc := pc))],
       locks := s.locks[l := c])
  }

  /** release. */
  ghost function Release(s: State, c: nat, l: LockId, pc: Pc): State
    requires c < |s.cpus| && s.cpus[c].mask.layer > 0
  {
    s.(cpus := s.cpus[c := s.cpus[c].(mask := Pop(s.cpus[c].mask), run := s.cpus[c].run.(pc := pc))],
       locks := s.locks - {l})
  }

  ghost function NextProc(s: State, i: nat): nat { if i + 1 < |s.procs| then i + 1 else 0 }

  /** scheduler's body under the lock: pick the process if it is RUNNABLE. */
  ghost function SchedTestStep(s: State, c: nat): State
    requires Enabled(s, SchedTest(c))
  {
    var cpu := s.cpus[c];
    var i := cpu.run.pc.i;
    if s.procs[i].state.RUNNABLE? then
      var to := s.procs[i].context;
      s.(procs := s.procs[i := s.procs[i].(state := RUNNING, on := Some(c))],
         cpus := s.cpus[c := cpu.(cur := Some(i), context := Context(cpu.run.t, Back(i)), run := to)])
    else Goto(s, c, Pc.Free(i))
  }

  ghost function SchedBackStep(s: State, c: nat): State
    requires Enabled(s, SchedBack(c))
  {
    var cpu := s.cpus[c];
    s.(cpus := s.cpus[c := cpu.(cur := None, run := cpu.run.(pc := Pc.Free(cpu.run.pc.i)))])
  }

  /** A device interrupt: the hardware masks interrupts, and the handler runs on the stack
      it came in on, the scheduler's or a process's. */
  ghost function IntrEnterStep(s: State, c: nat): State
    requires Enabled(s, IntrEnter(c))
  {
    var cpu := s.cpus[c];
    var x := cpu.(mask := cpu.mask.(sie := false), run := cpu.run.(pc := Code));
    if cpu.run.pc.Loop? then s.(cpus := s.cpus[c := x.(at := cpu.run.pc.i)])
    else
      var p := cpu.run.t.p;
      s.(cpus := s.cpus[c := x],
         procs := s.procs[p := s.procs[p].(frames := s.procs[p].frames + [cpu.run.pc], want := false)])
  }

  /** The handler returns to where it came in, interrupts on again. */
  ghost function IntrLeaveStep(s: State, c: nat): State
    requires Enabled(s, IntrLeave(c))
  {
    var cpu := s.cpus[c];
    var x := cpu.(mask := cpu.mask.(sie := true));
    if cpu.run.t.Sched? then s.(cpus := s.cpus[c := x.(run := cpu.run.(pc := Loop(cpu.at)))])
    else
      var p := cpu.run.t.p;
      var frames := s.procs[p].frames;
      s.(cpus := s.cpus[c := x.(run := cpu.run.(pc := frames[|frames| - 1]))],
         procs := s.procs[p := s.procs[p].(frames := frames[..|frames| - 1], want := true)])
  }

  ghost function ToggleStep(s: State, c: nat): State
    requires Enabled(s, Toggle(c))
  {
    var cpu := s.cpus[c];
    var p := cpu.run.t.p;
    s.(cpus := s.cpus[c := cpu.(mask := cpu.mask.(sie := !cpu.mask.sie))],
       procs := s.procs[p := s.procs[p].(want := !s.procs[p].want)])
  }

  ghost function WakeScanStep(s: State, c: nat): State
    requires Enabled(s, WakeScan(c))
  {
    var cpu := s.cpus[c];
    var pc := cpu.run.pc;
    if pc.k >= |s.procs| then Goto(s, c, Code)
    else if cpu.cur == Some(pc.k) then Goto(s, c, Scan(pc.k + 1, pc.chan, pc.held))
    else Acquire(s, c, PLock(pc.k), Check(pc.k, pc.chan, pc.held))
  }

  ghost function WakeCheckStep(s: State, c: nat): State
    requires Enabled(s, WakeCheck(c))
  {
    var pc := s.cpus[c].run.pc;
    var q := s.procs[pc.k];
    var s1 := Goto(s, c, Pc.Unlock(pc.k, pc.chan, pc.held));
    if q.chan == pc.chan && q.state.SLEEPING? then s1.(procs := s.procs[pc.k := q.(state := RUNNABLE)]) else s1
  }

  ghost function SetStateStep(s: State, c: nat): State
    requires Enabled(s, SetState(c))
  {
    var cpu := s.cpus[c];
    var p := cpu.run.t.p;
    match cpu.run.pc.kind
    case Give => Goto(s, c, Enter(Give)).(procs := s.procs[p := s.procs[p].(state := RUNNABLE)])
    case Sleep(chan) => Goto(s, c, Drop(chan)).(procs := s.procs[p := s.procs[p].(state := SLEEPING, chan := chan)])
  }

  ghost function EnterSchedStep(s: State, c: nat): State
    requires Enabled(s, EnterSched(c))
  {
    var cpu := s.cpus[c];
    var p := cpu.cur.value;
    if cpu.mask.layer == 1 then
      s.(procs := s.procs[p := s.procs[p].(saved := cpu.mask.disabled, context := Context(cpu.run.t, Resume(cpu.run.pc.kind)), on := None)],
         cpus := s.cpus[c := cpu.(run := cpu.context)])
    else Goto(s, c, Panic)
  }

  ghost function ResumeProcStep(s: State, c: nat): State
    requires Enabled(s, ResumeProc(c))
  {
    var cpu := s.cpus[c];
    s.(cpus := s.cpus[c := cpu.(mask := cpu.mask.(disabled := s.procs[cpu.run.t.p].saved),
                                run := cpu.run.(pc := Leave(cpu.run.pc.kind)))])
  }

  ghost function LeaveProcStep(s: State, c: nat): State
    requires Enabled(s, LeaveProc(c))
  {
    var cpu := s.cpus[c];
    var p := cpu.run.t.p;
    match cpu.run.pc.kind
    case Give => Release(s, c, PLock(p), Code)
    case Sleep(chan) => Release(s, c, PLock(p), Retake(chan)).(procs := s.procs[p := s.procs[p].(chan := 0)])
  }

  ghost function Apply(s: State, step: Step): State
    requires Enabled(s, step)
  {
    var pc := s.cpus[step.c].run.pc;
    match step
    case SchedAcquire(c) => Acquire(s, c, PLock(pc.i), Test(pc.i))
    case SchedTest(c) => SchedTestStep(s, c)
    case SchedBack(c) => SchedBackStep(s, c)
    case SchedFree(c) => Release(s, c, PLock(pc.i), Loop(NextProc(s, pc.i)))
    case IntrEnter(c) => IntrEnterStep(s, c)
    case IntrLeave(c) => IntrLeaveStep(s, c)
    case Lock(c, l) => Acquire(s, c, CLock(l), Code)
    case Unlock(c, l) => Release(s, c, CLock(l), Code)
    case Toggle(c) => ToggleStep(s, c)
    case WakeStart(c, chan) => Goto(s, c, Scan(0, chan, CondLock(chan) in s.locks && s.locks[CondLock(chan)] == c))
    case WakeScan(c) => WakeScanStep(s, c)
    case WakeCheck(c) => WakeCheckStep(s, c)
    case WakeUnlock(c) => Release(s, c, PLock(pc.k), Scan(pc.k + 1, pc.chan, pc.held))
    case GiveUp(c) => Acquire(s, c, PLock(s.cpus[c].cur.value), Set(Give))
    case SleepOn(c, chan) => Acquire(s, c, PLock(s.cpus[c].cur.value), Set(Sleep(chan)))
    case SetState(c) => SetStateStep(s, c)
    case DropCond(c) => Release(s, c, CondLock(pc.chan), Enter(Sleep(pc.chan)))
    case EnterSched(c) => EnterSchedStep(s, c)
    case ResumeProc(c) => ResumeProcStep(s, c)
    case LeaveProc(c) => LeaveProcStep(s, c)
    case RetakeCond(c) => Acquire(s, c, CondLock(pc.chan), Code)
  }

  /** Every CPU at the top of its scheduler loop, no lock held, each process unused or
      runnable with a first context that goes on after a switch. */
  ghost predicate Init(s: State) {
    && s.locks == map[] && 0 < |s.procs|
    && (forall c :: 0 <= c < |s.cpus| ==>
          s.cpus[c].run == Context(Sched(c), Loop(0)) && s.cpus[c].cur.None? && s.cpus[c].mask.layer == 0)
    && (forall p :: 0 <= p < |s.procs| ==>
          var q := s.procs[p];
          (q.state.UNUSED? || q.state.RUNNABLE?) && q.context == Context(Pr(p), Resume(Give)) && q.saved == !q.want && q.frames == [] && q.on.None?)
  }

  // ---- the invariant ---------------------------------------------------------------------

  /** What a CPU executes, and that its saved scheduler waits for that very process. */
  ghost predicate CpuOk(cpu: Cpu, c: nat, n: nat) {
    match cpu.run.t
    case Sched(d) =>
      && d == c
      && (match cpu.run.pc
          case Loop(i) => i < n && cpu.cur.None?
          case Test(i) => i < n && cpu.cur.None?
          case Free(i) => i < n && cpu.cur.None?
          case Back(i) => i < n && cpu.cur == Some(i)
          case _ => AnyPc(cpu.run.pc) && cpu.cur.None? && cpu.at < n)
    case Pr(p) =>
      p < n && ProcPc(cpu.run.pc) && cpu.cur == Some(p) && cpu.context == Context(Sched(c), Back(p))
  }

  ghost predicate Sane(cpus: seq<Cpu>, n: nat) {
    0 < n && forall c :: 0 <= c < |cpus| ==> CpuOk(cpus[c], c, n)
  }

  /** Each process's stack is executed by the CPU `on` or by none; in the latter case its
      context goes on inside enter_sched on that stack. */
  ghost predicate Parked(cpus: seq<Cpu>, procs: seq<Proc>) {
    && (forall c :: 0 <= c < |cpus| && cpus[c].run.t.Pr? ==>
          cpus[c].run.t.p < |procs| && procs[cpus[c].run.t.p].on == Some(c))
    && (forall p :: 0 <= p < |procs| && procs[p].on.Some? ==>
          procs[p].on.value < |cpus| && cpus[procs[p].on.value].run.t == Pr(p))
    && (forall p :: 0 <= p < |procs| && procs[p].on.None? ==>
          procs[p].context.t == Pr(p) && procs[p].context.pc.Resume? && procs[p].saved == !procs[p].want)
  }

  /** Interrupts came in only where no lock was held, so never in a scan under its lock. */
  predicate FrameOk(pc: Pc) { pc.Code? || (pc.Scan? && !pc.held) || pc.Retake? }

  ghost predicate Framed(procs: seq<Proc>) {
    forall p, i :: 0 <= p < |procs| && 0 <= i < |procs[p].frames| ==> FrameOk(procs[p].frames[i])
  }

  /** Whether a CPU at this point holds procs[i].lock. */
  ghost predicate OwnsProc(cpu: Cpu, i: nat) {
    var pc := cpu.run.pc;
    match pc
    case Test(j) => i == j
    case Back(j) => i == j
    case Free(j) => i == j
    case Check(k, _, _) => i == k
    case Unlock(k, _, _) => i == k
    case Loop(_) => false
    case Code => false
    case Scan(_, _, _) => false
    case Retake(_) => false
    case _ => cpu.run.t == Pr(i)
  }

  ghost predicate Locked(cpus: seq<Cpu>, locks: map<LockId, nat>) {
    && (forall l :: l in locks ==> locks[l] < |cpus|)
    && (forall i :: PLock(i) in locks ==> OwnsProc(cpus[locks[PLock(i)]], i))
    && (forall c, i {:trigger OwnsProc(cpus[c], i)} :: 0 <= c < |cpus| && OwnsProc(cpus[c], i) ==> PLock(i) in locks && locks[PLock(i)] == c)
  }

  ghost function Held(locks: map<LockId, nat>, c: nat): set<LockId> { set l | l in locks && locks[l] == c }

  ghost predicate Layers(cpus: seq<Cpu>, locks: map<LockId, nat>) {
    forall c :: 0 <= c < |cpus| ==> cpus[c].mask.layer == |Held(locks, c)|
  }

  /** The state a process shows while its stack is executing at this point. */
  ghost predicate StateFits(pc: Pc, st: PState) {
    match pc
    case Drop(_) => st.SLEEPING?
    case Enter(kind) => if kind.Give? then st.RUNNABLE? else st.SLEEPING?
    case Panic => true
    case _ => st.RUNNING?
  }

  ghost predicate States(cpus: seq<Cpu>, procs: seq<Proc>) {
    && (forall p :: 0 <= p < |procs| && procs[p].on.None? ==> !procs[p].state.RUNNING?)
    && (forall c :: 0 <= c < |cpus| && cpus[c].run.t.Pr? && cpus[c].run.t.p < |procs| ==>
          StateFits(cpus[c].run.pc, procs[cpus[c].run.t.p].state))
  }

  /** Inside sleep the channel field names the channel slept on. */
  ghost predicate ChanFits(pc: Pc, chan: nat) {
    match pc
    case Drop(ch) => ch == chan
    case Enter(kind) => kind.Sleep? ==> kind.chan == chan
    case _ => true
  }

  /** A process that is asleep on no CPU will go on inside sleep on its channel. */
  ghost predicate Channels(cpus: seq<Cpu>, procs: seq<Proc>) {
    && (forall c :: 0 <= c < |cpus| && cpus[c].run.t.Pr? && cpus[c].run.t.p < |procs| ==>
          ChanFits(cpus[c].run.pc, procs[cpus[c].run.t.p].chan))
    && (forall p :: 0 <= p < |procs| && procs[p].on.None? && procs[p].state.SLEEPING? ==>
          procs[p].context.pc == Resume(Sleep(procs[p].chan)))
  }

  /** The condition lock a CPU at this point is known to hold. */
  ghost predicate NeedsCond(pc: Pc, chan: nat) {
    match pc
    case Set(kind) => kind == Sleep(chan)
    case Drop(ch) => ch == chan
    case Scan(_, ch, held) => held && ch == chan
    case Check(_, ch, held) => held && ch == chan
    case Unlock(_, ch, held) => held && ch == chan
    case _ => false
  }

  ghost predicate CondHeld(cpus: seq<Cpu>, locks: map<LockId, nat>) {
    forall c, chan {:trigger NeedsCond(cpus[c].run.pc, chan)} :: 0 <= c < |cpus| && NeedsCond(cpus[c].run.pc, chan) ==> CondLock(chan) in locks && locks[CondLock(chan)] == c
  }

  ghost predicate Asleep(q: Proc, chan: nat) { q.state.SLEEPING? && q.chan == chan }

  /** How many processes a scan has dealt with. */
  ghost function Dealt(pc: Pc): nat {
    match pc
    case Scan(k, _, _) => k
    case Check(k, _, _) => k
    case Unlock(k, _, _) => k + 1
    case _ => 0
  }

  /** A scan under the condition lock leaves nobody behind it asleep on the channel. */
  ghost predicate Swept(cpu: Cpu, procs: seq<Proc>) {
    forall q, chan :: 0 <= q < |procs| && q < Dealt(cpu.run.pc) && NeedsCond(cpu.run.pc, chan) && cpu.cur != Some(q) ==> !Asleep(procs[q], chan)
  }

  ghost predicate Scans(cpus: seq<Cpu>, procs: seq<Proc>) {
    forall c :: 0 <= c < |cpus| ==> Swept(cpus[c], procs)
  }

  /** Interrupt masking, seen by whoever runs on the CPU. */
  ghost predicate MaskOk(cpu: Cpu, procs: seq<Proc>) {
    && Sound(cpu.mask)
    && (cpu.run.t.Pr? && cpu.run.t.p < |procs| ==>
          var q := procs[cpu.run.t.p];
          && (cpu.mask.layer == 0 ==> cpu.mask.sie == q.want)
          && (cpu.run.pc.Resume? ==> cpu.mask.layer > 0 && q.saved == !q.want)
          && (cpu.mask.layer > 0 && !cpu.run.pc.Resume? ==> cpu.mask.disabled == !q.want))
  }

  ghost predicate Masks(cpus: seq<Cpu>, procs: seq<Proc>) {
    forall c :: 0 <= c < |cpus| ==> MaskOk(cpus[c], procs)
  }

  ghost predicate SaneI(s: State) { Sane(s.cpus, |s.procs|) && Parked(s.cpus, s.procs) && Framed(s.procs) }
  ghost predicate LockI(s: State) { Locked(s.cpus, s.locks) }
  ghost predicate LayerI(s: State) { Layers(s.cpus, s.locks) }
  ghost predicate StateI(s: State) { States(s.cpus, s.procs) && Channels(s.cpus, s.procs) }
  ghost predicate CondI(s: State) { CondHeld(s.cpus, s.locks) }
  ghost predicate ScanI(s: State) { Scans(s.cpus, s.procs) }
  ghost predicate MaskI(s: State) { Masks(s.cpus, s.procs) }

  ghost predicate Inv(s: State) {
    SaneI(s) && LockI(s) && LayerI(s) && StateI(s) && CondI(s) && ScanI(s) && MaskI(s)
  }
}
