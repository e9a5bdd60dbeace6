/** The way through scheduler, enter_sched, sleep and wakeup: what each call has done by the
    time it is over, and which way a process's state can change. */
module ProcFlow {
  import opened Common
  import opened ProcMachine
  import opened ProcProof
  import opened ProcTheorems

  // ---- give_up and sleep --------------------------------------------------------------------

  /** Anywhere between the call of give_up, or of sleep(chan, lock), and its return. */
  predicate InCall(pc: Pc, kind: Kind) {
    match pc
    case Set(k) => k == kind
    case Drop(ch) => kind == Sleep(ch)
    case Enter(k) => k == kind
    case Resume(k) => k == kind
    case Leave(k) => k == kind
    case Retake(ch) => kind == Sleep(ch)
    case _ => false
  }

  /** Where process p itself is, below any interrupt being handled on its stack. */
  ghost function Own(s: State, p: nat): Pc
    requires p < |s.procs|
  {
    var q := s.procs[p];
    if q.frames != [] then q.frames[0]
    else match q.on
         case Some(c) => if c < |s.cpus| then s.cpus[c].run.pc else Panic
         case None => q.context.pc
  }

  /** Process p is back in its own code, from sleep on a CPU that holds the lock it passed. */
  ghost predicate Returned(s: State, p: nat, kind: Kind) {
    && p < |s.procs| && s.procs[p].frames == [] && s.procs[p].on.Some?
    && var c := s.procs[p].on.value;
      && c < |s.cpus| && s.cpus[c].run == Context(Pr(p), Code)
      && (kind.Sleep? ==> CondLock(kind.chan) in s.locks && s.locks[CondLock(kind.chan)] == c)
  }

  ghost predicate GoesOn(s: State, p: nat, kind: Kind) {
    p < |s.procs| && (InCall(Own(s, p), kind) || Own(s, p).Panic? || Returned(s, p, kind))
  }

  /** sleep(chan, lock) returns holding lock: in every run, whatever steps are made by
      whichever CPU, a process that is in it stays in it, unless it comes back to its own
      code on a CPU that holds the lock, or panics in enter_sched. give_up likewise comes
      back to its caller. */
  lemma SleepReturnsHolding(s0: State, steps: seq<Step>, step: Step, p: nat, kind: Kind)
    requires Init(s0) && CanRun(s0, steps) && Enabled(After(s0, steps), step)
    requires p < |After(s0, steps).procs| && InCall(Own(After(s0, steps), p), kind)
    ensures var s' := Apply(After(s0, steps), step);
      && p < |s'.procs|
      && (InCall(Own(s', p), kind) || Own(s', p).Panic? || Returned(s', p, kind))
      && (kind.Sleep? && step.LeaveProc? && s'.procs[p].on == Some(step.c) && s'.procs[p].frames == [] ==> s'.procs[p].chan == 0)
  {
    Reached(s0, steps);
    if kind.Sleep? && step.LeaveProc? { ChannelCleared(After(s0, steps), step, p, kind); }
    CallGoesOn(After(s0, steps), step, p, kind);
  }

  lemma ChannelCleared(s: State, step: Step, p: nat, kind: Kind)
    requires SaneI(s) && Enabled(s, step) && p < |s.procs| && InCall(Own(s, p), kind) && kind.Sleep? && step.LeaveProc?
    ensures |Apply(s, step).procs| == |s.procs|
    ensures var q := Apply(s, step).procs[p]; q.on == Some(step.c) && q.frames == [] ==> q.chan == 0
  {
    assert CpuOk(s.cpus[step.c], step.c, |s.procs|);
  }

  lemma CallGoesOn(s: State, step: Step, p: nat, kind: Kind)
    requires SaneI(s) && LockI(s) && StateI(s) && Enabled(s, step) && p < |s.procs| && InCall(Own(s, p), kind)
    ensures GoesOn(Apply(s, step), p, kind)
  {
    hide GoesOn, InCall, Own, Sane, Parked, Framed, Locked, States, Channels, Apply, Enabled;
    if s.procs[p].on == Some(step.c) {
      OwnGoesOn(s, step, p, kind);
    } else if step.SchedTest? {
      PickGoesOn(s, step.c, p, kind);
    } else {
      OthersGoOn(s, step, p, kind);
    }
  }

  lemma OwnGoesOn(s: State, step: Step, p: nat, kind: Kind)
    requires SaneI(s) && Enabled(s, step) && p < |s.procs| && InCall(Own(s, p), kind) && s.procs[p].on == Some(step.c)
    ensures GoesOn(Apply(s, step), p, kind)
  {
    assert CpuOk(s.cpus[step.c], step.c, |s.procs|) && s.cpus[step.c].run.t == Pr(p);
    if s.procs[p].frames == [] { Undisturbed(s, step, p, kind); } else { Disturbed(s, step, p, kind); }
  }

  lemma Undisturbed(s: State, step: Step, p: nat, kind: Kind)
    requires SaneI(s) && Enabled(s, step) && p < |s.procs| && InCall(Own(s, p), kind) && s.procs[p].on == Some(step.c)
    requires s.procs[p].frames == [] && s.cpus[step.c].run.t == Pr(p) && s.cpus[step.c].cur == Some(p)
    ensures GoesOn(Apply(s, step), p, kind)
  {
    hide Sane, Parked, Framed;
  }

  /** An interrupt is being handled on its stack. */
  lemma Disturbed(s: State, step: Step, p: nat, kind: Kind)
    requires SaneI(s) && Enabled(s, step) && p < |s.procs| && InCall(Own(s, p), kind) && s.procs[p].on == Some(step.c)
    requires s.procs[p].frames != [] && s.cpus[step.c].run.t == Pr(p) && s.cpus[step.c].cur == Some(p)
    ensures GoesOn(Apply(s, step), p, kind)
  {
    hide Sane, Parked, Framed;
    var s' := Apply(s, step);
    assert |s'.procs| == |s.procs|;
    if step.IntrLeave? && |s.procs[p].frames| == 1 {
      assert s'.procs[p].frames == [] && s'.cpus[step.c].run.pc == s.procs[p].frames[0];
    } else {
      assert s'.procs[p].frames != [] && s'.procs[p].frames[0] == s.procs[p].frames[0];
    }
  }

  lemma PickGoesOn(s: State, c: nat, p: nat, kind: Kind)
    requires SaneI(s) && LockI(s) && StateI(s) && Enabled(s, SchedTest(c)) && p < |s.procs| && InCall(Own(s, p), kind) && s.procs[p].on != Some(c)
    ensures GoesOn(Apply(s, SchedTest(c)), p, kind)
  {
    assert CpuOk(s.cpus[c], c, |s.procs|);
    if s.procs[s.cpus[c].run.pc.i].state.RUNNABLE? { PickedIdle(s, c); }
    hide States, Channels, Locked, InCall;
  }

  lemma CpusFrame(s: State, step: Step)
    requires Enabled(s, step)
    ensures var s' := Apply(s, step);
      |s'.procs| == |s.procs| && |s'.cpus| == |s.cpus| && forall c :: 0 <= c < |s.cpus| && c != step.c ==> s'.cpus[c] == s.cpus[c]
  {
  }

  lemma ProcFrame(s: State, step: Step, p: nat)
    requires Enabled(s, step) && !step.SchedTest? && p < |s.procs| && s.cpus[step.c].run.t != Pr(p) && s.cpus[step.c].cur != Some(p)
    ensures var s' := Apply(s, step); |s'.procs| == |s.procs| && s'.procs[p].(state := s.procs[p].state) == s.procs[p]
  {
  }

  /** A step of a CPU that p is not on, and is not put on, leaves it where it is. */
  lemma OthersFrame(s: State, step: Step, p: nat)
    requires SaneI(s) && Enabled(s, step) && !step.SchedTest? && p < |s.procs| && s.procs[p].on != Some(step.c)
    ensures var s' := Apply(s, step);
      && |s'.procs| == |s.procs| && |s'.cpus| == |s.cpus| && s'.procs[p].(state := s.procs[p].state) == s.procs[p]
      && forall c :: 0 <= c < |s.cpus| && c != step.c ==> s'.cpus[c] == s.cpus[c]
  {
    assert step.c < |s.cpus|;
    hide Apply, Enabled, Framed;
    CpusFrame(s, step);
    assert CpuOk(s.cpus[step.c], step.c, |s.procs|);
    if s.cpus[step.c].cur == Some(p) && s.cpus[step.c].run.t.Sched? {
      BackFrame(s, step, p);
    } else {
      ProcFrame(s, step, p);
    }
  }

  /** The scheduler of a CPU that has just been switched to. */
  lemma BackFrame(s: State, step: Step, p: nat)
    requires Enabled(s, step) && p < |s.procs| && s.cpus[step.c].run.t.Sched? && s.cpus[step.c].run.pc.Back?
    ensures var s' := Apply(s, step); |s'.procs| == |s.procs| && s'.procs[p] == s.procs[p]
  {
  }

  lemma OthersGoOn(s: State, step: Step, p: nat, kind: Kind)
    requires SaneI(s) && Enabled(s, step) && !step.SchedTest? && p < |s.procs| && InCall(Own(s, p), kind) && s.procs[p].on != Some(step.c)
    ensures GoesOn(Apply(s, step), p, kind)
  {
    hide InCall, Apply, Enabled, Framed;
    OthersFrame(s, step, p);
  }

  /** How far a call has come. */
  function CallPhase(pc: Pc): nat {
    match pc
    case Set(_) => 1
    case Drop(_) => 2
    case Enter(_) => 3
    case Resume(_) => 4
    case Leave(_) => 5
    case Retake(_) => 6
    case _ => 0
  }

  /** The calls begin as calls, a wakeup at the first process; each holds the process's own
      lock from the start, except wakeup. */
  lemma CallsBegin(s: State, step: Step)
    requires Enabled(s, step) && (step.GiveUp? || step.SleepOn? || step.WakeStart?)
    ensures var s' := Apply(s, step); var cpu, cpu' := s.cpus[step.c], s'.cpus[step.c];
      && cpu'.run.t == cpu.run.t
      && match step
         case WakeStart(c, chan) =>
           s'.locks == s.locks && cpu'.run.pc == Scan(0, chan, CondLock(chan) in s.locks && s.locks[CondLock(chan)] == c)
         case _ =>
           && cpu.cur.Some? && s'.locks == s.locks[PLock(cpu.cur.value) := step.c] && CallPhase(cpu'.run.pc) == 1
           && InCall(cpu'.run.pc, if step.GiveUp? then Give else Sleep(step.chan))
  {
  }

  /** Each step of a process in such a call gets it further, until it is back or panics. */
  lemma CallAdvances(s0: State, steps: seq<Step>, step: Step, p: nat, kind: Kind)
    requires Init(s0) && CanRun(s0, steps) && Enabled(After(s0, steps), step) && !step.IntrEnter?
    requires var s := After(s0, steps);
      p < |s.procs| && s.procs[p].frames == [] && s.procs[p].on == Some(step.c) && InCall(Own(s, p), kind)
    ensures var s := After(s0, steps); var s' := Apply(s, step);
      && p < |s'.procs|
      && (CallPhase(Own(s', p)) > CallPhase(Own(s, p)) || Own(s', p).Panic? || Returned(s', p, kind))
  {
    Reached(s0, steps);
    Advances(After(s0, steps), step, p, kind);
  }

  lemma Advances(s: State, step: Step, p: nat, kind: Kind)
    requires SaneI(s) && Enabled(s, step) && !step.IntrEnter?
    requires p < |s.procs| && s.procs[p].frames == [] && s.procs[p].on == Some(step.c) && InCall(Own(s, p), kind)
    ensures var s' := Apply(s, step);
      && p < |s'.procs|
      && (CallPhase(Own(s', p)) > CallPhase(Own(s, p)) || Own(s', p).Panic? || Returned(s', p, kind))
  {
    assert CpuOk(s.cpus[step.c], step.c, |s.procs|);
    hide Sane, Framed;
  }

  // ---- states ------------------------------------------------------------------------------

  /** How the state of process p can change in a step: picked by a scheduler, giving up,
      going to sleep, woken on its channel. */
  ghost predicate StateMove(s: State, step: Step, p: nat)
    requires Enabled(s, step) && p < |s.procs| <= |Apply(s, step).procs|
  {
    var q, q', cpu := s.procs[p], Apply(s, step).procs[p], s.cpus[step.c];
    match (q.state, q'.state)
    case (RUNNABLE, RUNNING) => step.SchedTest? && cpu.run.pc == Test(p) && q'.on == Some(step.c)
    case (RUNNING, RUNNABLE) => step.SetState? && cpu.run == Context(Pr(p), Set(Give))
    case (RUNNING, SLEEPING) => step.SetState? && cpu.run == Context(Pr(p), Set(Sleep(q'.chan)))
    case (SLEEPING, RUNNABLE) => step.WakeCheck? && cpu.run.pc.k == p && cpu.run.pc.chan == q.chan
    case (a, b) => a == b
  }

  lemma StateMoves(s0: State, steps: seq<Step>, step: Step, p: nat)
    requires Init(s0) && CanRun(s0, steps) && Enabled(After(s0, steps), step) && p < |After(s0, steps).procs|
    ensures |Apply(After(s0, steps), step).procs| == |After(s0, steps).procs| && StateMove(After(s0, steps), step, p)
  {
    Reached(s0, steps);
    StateOnce(After(s0, steps), step, p);
  }

  lemma StateOnce(s: State, step: Step, p: nat)
    requires SaneI(s) && StateI(s) && Enabled(s, step) && p < |s.procs|
    ensures |Apply(s, step).procs| == |s.procs| && StateMove(s, step, p)
  {
    CpusFrame(s, step);
    if step.SchedTest? || step.SetState? || step.WakeCheck? { StateChanged(s, step, p); } else { StateStill(s, step, p); }
  }

  lemma StateStill(s: State, step: Step, p: nat)
    requires Enabled(s, step) && p < |s.procs| && !step.SchedTest? && !step.SetState? && !step.WakeCheck?
    ensures |Apply(s, step).procs| == |s.procs| && StateMove(s, step, p)
  {
    assert Apply(s, step).procs[p].state == s.procs[p].state;
  }

  lemma StateChanged(s: State, step: Step, p: nat)
    requires SaneI(s) && StateI(s) && Enabled(s, step) && p < |s.procs| && (step.SchedTest? || step.SetState? || step.WakeCheck?)
    ensures |Apply(s, step).procs| == |s.procs| && StateMove(s, step, p)
  {
    assert CpuOk(s.cpus[step.c], step.c, |s.procs|);
    hide Framed, Sane, Channels;
  }

  // ---- the scheduler -----------------------------------------------------------------------

  /** The process a scheduler is at. */
  function Looking(pc: Pc): Option<nat> {
    match pc
    case Loop(i) => Some(i)
    case Test(i) => Some(i)
    case Back(i) => Some(i)
    case Free(i) => Some(i)
    case _ => None
  }

  function SchedPhase(pc: Pc): nat {
    match pc
    case Test(_) => 1
    case Back(_) => 2
    case Free(_) => 3
    case _ => 0
  }

  /** The scheduler looks at all processes in turn, for ever: it stays with process i until
      it has released its lock, and is then at the next one, the first after the last; and
      a process it finds RUNNABLE is made RUNNING, and run on this CPU. */
  lemma SchedulerGoesRound(s0: State, steps: seq<Step>, step: Step, i: nat)
    requires Init(s0) && CanRun(s0, steps) && Enabled(After(s0, steps), step)
    requires var s := After(s0, steps); s.cpus[step.c].run.t.Sched? && Looking(s.cpus[step.c].run.pc) == Some(i)
    ensures var s := After(s0, steps); var s' := Apply(s, step); var cpu, cpu' := s.cpus[step.c], s'.cpus[step.c];
      && i < |s.procs|
      && if step.IntrEnter? then cpu'.run == Context(cpu.run.t, Code) && cpu'.at == i
         else if step.SchedFree? then cpu'.run == Context(cpu.run.t, Loop(if i + 1 == |s.procs| then 0 else i + 1))
         else if step.SchedTest? && s.procs[i].state.RUNNABLE? then
           && cpu'.run == s.procs[i].context && cpu'.run.t == Pr(i) && cpu'.cur == Some(i) && s'.procs[i].state.RUNNING?
           && PLock(i) in s'.locks && s'.locks[PLock(i)] == step.c
         else cpu'.run.t == cpu.run.t && Looking(cpu'.run.pc) == Some(i) && SchedPhase(cpu'.run.pc) > SchedPhase(cpu.run.pc) && cpu'.cur.None?
  {
    Reached(s0, steps);
    Rounds(After(s0, steps), step, i);
  }

  lemma Rounds(s: State, step: Step, i: nat)
    requires SaneI(s) && LockI(s) && StateI(s) && Enabled(s, step)
    requires s.cpus[step.c].run.t.Sched? && Looking(s.cpus[step.c].run.pc) == Some(i)
    ensures var s' := Apply(s, step); var cpu, cpu' := s.cpus[step.c], s'.cpus[step.c];
      && i < |s.procs|
      && if step.IntrEnter? then cpu'.run == Context(cpu.run.t, Code) && cpu'.at == i
         else if step.SchedFree? then cpu'.run == Context(cpu.run.t, Loop(if i + 1 == |s.procs| then 0 else i + 1))
         else if step.SchedTest? && s.procs[i].state.RUNNABLE? then
           && cpu'.run == s.procs[i].context && cpu'.run.t == Pr(i) && cpu'.cur == Some(i) && s'.procs[i].state.RUNNING?
           && PLock(i) in s'.locks && s'.locks[PLock(i)] == step.c
         else cpu'.run.t == cpu.run.t && Looking(cpu'.run.pc) == Some(i) && SchedPhase(cpu'.run.pc) > SchedPhase(cpu.run.pc) && cpu'.cur.None?
  {
    assert CpuOk(s.cpus[step.c], step.c, |s.procs|);
    if step.SchedTest? {
      assert OwnsProc(s.cpus[step.c], i);
      if s.procs[i].state.RUNNABLE? { PickedIdle(s, step.c); }
    }
    hide Framed, Sane, Channels, States, Locked;
  }

  /** enter_sched switches exactly when the process holds its own lock and nothing else:
      then the CPU goes on in its scheduler, behind the switch to that process, which is
      parked to go on where it is, its lock still held. Otherwise it panics. */
  lemma SwitchExact(s0: State, steps: seq<Step>, c: nat)
    requires Init(s0) && CanRun(s0, steps) && Enabled(After(s0, steps), EnterSched(c))
    ensures var s := After(s0, steps); var s' := Apply(s, EnterSched(c)); var run := s.cpus[c].run;
      && run.t.Pr? && run.t.p < |s.procs| == |s'.procs| && run.pc.Enter?
      && if Held(s.locks, c) == {PLock(run.t.p)} then
           && s'.cpus[c].run == Context(Sched(c), Back(run.t.p)) && s'.locks == s.locks
           && s'.procs[run.t.p].on.None? && s'.procs[run.t.p].context == Context(run.t, Resume(run.pc.kind))
         else s' == Goto(s, c, Panic)
  {
    Reached(s0, steps);
    SwitchOnce(After(s0, steps), c);
  }

  lemma SwitchOnce(s: State, c: nat)
    requires SaneI(s) && LockI(s) && LayerI(s) && Enabled(s, EnterSched(c))
    ensures var s' := Apply(s, EnterSched(c)); var run := s.cpus[c].run;
      && run.t.Pr? && run.t.p < |s.procs| == |s'.procs| && run.pc.Enter?
      && if Held(s.locks, c) == {PLock(run.t.p)} then
           && s'.cpus[c].run == Context(Sched(c), Back(run.t.p)) && s'.locks == s.locks
           && s'.procs[run.t.p].on.None? && s'.procs[run.t.p].context == Context(run.t, Resume(run.pc.kind))
         else s' == Goto(s, c, Panic)
  {
    assert CpuOk(s.cpus[c], c, |s.procs|);
    if s.cpus[c].mask.layer == 1 { OnlyOwnLock(s, c); }
  }

  // ---- wakeup and interrupts ---------------------------------------------------------------

  predicate InScan(pc: Pc, chan: nat, held: bool) {
    (pc.Scan? || pc.Check? || pc.Unlock?) && pc.chan == chan && pc.held == held
  }

  function ScanPhase(pc: Pc): nat { if pc.Scan? then 0 else if pc.Check? then 1 else 2 }

  /** A wakeup, under whatever locks, looks at every process: it goes on to the next one
      only from the test of this one, or if this is the caller, and is over only when there
      are no more. */
  lemma WakeupLooksAtAll(s: State, step: Step, chan: nat, held: bool)
    requires Enabled(s, step) && !step.IntrEnter? && InScan(s.cpus[step.c].run.pc, chan, held)
    ensures var pc, pc', cpu := s.cpus[step.c].run.pc, Apply(s, step).cpus[step.c].run.pc, s.cpus[step.c];
      if Dealt(pc) >= |s.procs| && pc.Scan? then pc'.Code?
      else && InScan(pc', chan, held)
           && Dealt(pc') == Dealt(pc) + (if pc.Check? || (pc.Scan? && cpu.cur == Some(pc.k)) then 1 else 0)
           && (Dealt(pc') == Dealt(pc) ==> ScanPhase(pc') == (ScanPhase(pc) + 1) % 3)
           && (pc.Check? ==> step.WakeCheck?)
  {
  }

  /** An interrupt comes back to where it came in, with everything as it was but for the
      scheduler's note of its place. */
  lemma InterruptReturns(s0: State, steps: seq<Step>, c: nat)
    requires Init(s0) && CanRun(s0, steps) && Enabled(After(s0, steps), IntrEnter(c))
    ensures var s := After(s0, steps); var s1 := Apply(s, IntrEnter(c));
      && !s1.cpus[c].mask.sie && Enabled(s1, IntrLeave(c))
      && var s2 := Apply(s1, IntrLeave(c));
        s2 == s.(cpus := s.cpus[c := s.cpus[c].(at := s2.cpus[c].at)])
  {
    Reached(s0, steps);
    ReturnOnce(After(s0, steps), c);
  }

  lemma ReturnOnce(s: State, c: nat)
    requires SaneI(s) && MaskI(s) && Enabled(s, IntrEnter(c))
    ensures var s1 := Apply(s, IntrEnter(c));
      && !s1.cpus[c].mask.sie && Enabled(s1, IntrLeave(c))
      && var s2 := Apply(s1, IntrLeave(c));
        s2 == s.(cpus := s.cpus[c := s.cpus[c].(at := s2.cpus[c].at)])
  {
    assert CpuOk(s.cpus[c], c, |s.procs|) && MaskOk(s.cpus[c], s.procs);
    var s1 := Apply(s, IntrEnter(c));
    var s2 := Apply(s1, IntrLeave(c));
    if s.cpus[c].run.t.Pr? {
      var p := s.cpus[c].run.t.p;
      assert s1.procs[p].frames[..|s.procs[p].frames|] == s.procs[p].frames;
      assert s2.procs == s.procs;
    }
    assert s2.cpus == s.cpus[c := s2.cpus[c]];
  }

  // ---- locks -----------------------------------------------------------------------------------

  /** The lock a step acquires, if it acquires one. */
  ghost function Taken(s: State, step: Step): Option<LockId>
    requires Enabled(s, step)
  {
    var cpu := s.cpus[step.c];
    match step
    case SchedAcquire(_) => Some(PLock(cpu.run.pc.i))
    case Lock(_, l) => Some(CLock(l))
    case WakeScan(_) => if cpu.run.pc.k < |s.procs| && cpu.cur != Some(cpu.run.pc.k) then Some(PLock(cpu.run.pc.k)) else None
    case GiveUp(_) => Some(PLock(cpu.cur.value))
    case SleepOn(_, _) => Some(PLock(cpu.cur.value))
    case RetakeCond(_) => Some(CondLock(cpu.run.pc.chan))
    case _ => None
  }

  /** A step takes the one lock it is there to take, which was free, or gives up
      the one it is there to give up, and touches no other. */
  lemma LocksExact(s: State, step: Step)
    requires Enabled(s, step)
    ensures var s' := Apply(s, step);
      match Taken(s, step)
      case Some(l) => l !in s.locks && s'.locks == s.locks[l := step.c] && Released(s, step).None?
      case None => s'.locks == match Released(s, step) case Some(l) => s.locks - {l} case None => s.locks
  {
  }
}
