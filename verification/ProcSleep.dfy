/** sleep and wakeup as others see them: going to sleep is one step, which gives up the
    condition lock and joins the sleepers; a wakeup under that lock is one step, which
    leaves no sleeper. */
module ProcSleep {
  import opened Common
  import opened ProcMachine
  import opened ProcProof
  import opened ProcTheorems

  /** Process q has set its state and is about to release the lock it passed to sleep. */
  ghost predicate AtDrop(s: State, q: nat, chan: nat) {
    exists c :: 0 <= c < |s.cpus| && s.cpus[c].run == Context(Pr(q), Drop(chan))
  }

  /** Who is asleep on a channel, and has let go of its lock. */
  ghost function Sleepers(s: State, chan: nat): set<nat> {
    set q: nat | q < |s.procs| && Asleep(s.procs[q], chan) && !AtDrop(s, q, chan)
  }

  /** The same, looking only at the CPU the process is on. */
  ghost predicate Blocked(s: State, q: nat, chan: nat) {
    && q < |s.procs| && Asleep(s.procs[q], chan)
    && match s.procs[q].on
       case None => true
       case Some(c) => c < |s.cpus| && s.cpus[c].run.pc != Drop(chan)
  }

  lemma BlockedIs(s: State, q: nat, chan: nat)
    requires SaneI(s)
    ensures Blocked(s, q, chan) <==> q in Sleepers(s, chan)
  {
    if q < |s.procs| && s.procs[q].on.Some? {
      var c := s.procs[q].on.value;
      if s.cpus[c].run.pc == Drop(chan) { assert s.cpus[c].run == Context(Pr(q), Drop(chan)); }
    }
  }

  /** What a step does to the sleepers of a channel. */
  ghost function SleepersAfter(s: State, step: Step, chan: nat): set<nat>
    requires Enabled(s, step)
  {
    var cpu := s.cpus[step.c];
    match step
    case DropCond(_) => if cpu.run.pc.chan == chan && cpu.run.t.Pr? then Sleepers(s, chan) + {cpu.run.t.p} else Sleepers(s, chan)
    case WakeCheck(_) => if cpu.run.pc.chan == chan then Sleepers(s, chan) - {cpu.run.pc.k} else Sleepers(s, chan)
    case _ => Sleepers(s, chan)
  }

  /** A CPU goes on along its stack, at a point that is not Drop; no state or channel changes. */
  lemma QuietMove(s: State, s': State, c: nat, q: nat, chan: nat)
    requires SaneI(s) && c < |s.cpus| && |s'.cpus| == |s.cpus| && |s'.procs| == |s.procs|
    requires forall d :: 0 <= d < |s.cpus| && d != c ==> s'.cpus[d] == s.cpus[d]
    requires !s.cpus[c].run.pc.Drop? && !s'.cpus[c].run.pc.Drop?
    requires forall p :: 0 <= p < |s.procs| ==>
      s'.procs[p].state == s.procs[p].state && s'.procs[p].chan == s.procs[p].chan && s'.procs[p].on == s.procs[p].on
    ensures Blocked(s', q, chan) <==> Blocked(s, q, chan)
  {
  }

  lemma PlainBlocks(s: State, step: Step, q: nat, chan: nat)
    requires SaneI(s) && Enabled(s, step) && (PlainStep(step) || step.Toggle? || step.WakeStart? || step.WakeScan? || step.WakeUnlock?)
    ensures Blocked(Apply(s, step), q, chan) <==> Blocked(s, q, chan)
  {
    assert CpuOk(s.cpus[step.c], step.c, |s.procs|);
    QuietFrame(s, step);
    QuietMove(s, Apply(s, step), step.c, q, chan);
  }

  lemma QuietFrame(s: State, step: Step)
    requires SaneI(s) && Enabled(s, step) && (PlainStep(step) || step.Toggle? || step.WakeStart? || step.WakeScan? || step.WakeUnlock?)
    ensures !s.cpus[step.c].run.pc.Drop? && !Apply(s, step).cpus[step.c].run.pc.Drop?
  {
    if step.IntrLeave? && s.cpus[step.c].run.t.Pr? {
      var frames := s.procs[s.cpus[step.c].run.t.p].frames;
      assert FrameOk(frames[|frames| - 1]);
    }
  }

  lemma WakeCheckBlocks(s: State, c: nat, q: nat, chan: nat)
    requires SaneI(s) && LockI(s) && StateI(s) && Enabled(s, WakeCheck(c))
    ensures var pc := s.cpus[c].run.pc;
      Blocked(Apply(s, WakeCheck(c)), q, chan) <==> Blocked(s, q, chan) && (pc.chan == chan ==> q != pc.k)
  {
    var pc := s.cpus[c].run.pc;
    assert OwnsProc(s.cpus[c], pc.k);
  }

  lemma DropCondBlocks(s: State, c: nat, q: nat, chan: nat)
    requires SaneI(s) && StateI(s) && Enabled(s, DropCond(c))
    ensures var cpu := s.cpus[c];
      && cpu.run.t.Pr? && !Blocked(s, cpu.run.t.p, cpu.run.pc.chan)
      && (Blocked(Apply(s, DropCond(c)), q, chan) <==> Blocked(s, q, chan) || (cpu.run.pc.chan == chan && q == cpu.run.t.p))
  {
    assert CpuOk(s.cpus[c], c, |s.procs|);
  }

  lemma SwitchBlocks(s: State, step: Step, q: nat, chan: nat)
    requires SaneI(s) && LockI(s) && StateI(s) && Enabled(s, step) && !PlainStep(step) && !WakeStep(step) && !step.DropCond?
    ensures Blocked(Apply(s, step), q, chan) <==> Blocked(s, q, chan)
  {
    if step.SchedTest? { PickBlocks(s, step.c, q, chan); } else { OwnBlocks(s, step, q, chan); }
  }

  lemma PickBlocks(s: State, c: nat, q: nat, chan: nat)
    requires SaneI(s) && LockI(s) && StateI(s) && Enabled(s, SchedTest(c))
    ensures Blocked(Apply(s, SchedTest(c)), q, chan) <==> Blocked(s, q, chan)
  {
    assert CpuOk(s.cpus[c], c, |s.procs|);
    if s.procs[s.cpus[c].run.pc.i].state.RUNNABLE? { PickedIdle(s, c); }
  }

  predicate OwnStep(step: Step) {
    step.GiveUp? || step.SleepOn? || step.SetState? || step.EnterSched? || step.ResumeProc? || step.LeaveProc? || step.RetakeCond?
  }

  lemma OwnBlocks(s: State, step: Step, q: nat, chan: nat)
    requires SaneI(s) && StateI(s) && Enabled(s, step) && OwnStep(step)
    ensures Blocked(Apply(s, step), q, chan) <==> Blocked(s, q, chan)
  {
    assert CpuOk(s.cpus[step.c], step.c, |s.procs|);
    if step.GiveUp? || step.SleepOn? || step.ResumeProc? || step.RetakeCond? {
      QuietMove(s, Apply(s, step), step.c, q, chan);
    } else if step.EnterSched? {
      EnterBlocks(s, step.c, q, chan);
    } else {
      OwnStateBlocks(s, step, q, chan);
    }
  }

  lemma EnterBlocks(s: State, c: nat, q: nat, chan: nat)
    requires SaneI(s) && Enabled(s, EnterSched(c))
    ensures Blocked(Apply(s, EnterSched(c)), q, chan) <==> Blocked(s, q, chan)
  {
    assert CpuOk(s.cpus[c], c, |s.procs|);
  }

  /** A process that changes its own state or channel was RUNNING, and is not yet past Drop. */
  lemma OwnStateBlocks(s: State, step: Step, q: nat, chan: nat)
    requires SaneI(s) && StateI(s) && Enabled(s, step) && (step.SetState? || step.LeaveProc?)
    ensures Blocked(Apply(s, step), q, chan) <==> Blocked(s, q, chan)
  {
    assert CpuOk(s.cpus[step.c], step.c, |s.procs|);
  }

  /** Every step, in every reachable state, changes the sleepers of every channel exactly
      so: the process whose step gives up the condition lock joins them in that step, the
      process a scan for the channel looks at leaves them, and nothing else happens. */
  lemma SleepersExact(s0: State, steps: seq<Step>, step: Step, chan: nat)
    requires Init(s0) && CanRun(s0, steps) && Enabled(After(s0, steps), step)
    ensures var s := After(s0, steps); Sleepers(Apply(s, step), chan) == SleepersAfter(s, step, chan)
  {
    Reached(s0, steps);
    StepKeeps(After(s0, steps), step);
    SleepersStep(After(s0, steps), step, chan);
  }

  lemma SleepersStep(s: State, step: Step, chan: nat)
    requires SaneI(s) && LockI(s) && StateI(s) && Enabled(s, step) && SaneI(Apply(s, step))
    ensures Sleepers(Apply(s, step), chan) == SleepersAfter(s, step, chan)
  {
    hide Sane, Parked, Framed, Locked, States, Channels, Apply, Enabled, Blocked;
    forall q: nat ensures q in Sleepers(Apply(s, step), chan) <==> q in SleepersAfter(s, step, chan) {
      BlockedIs(s, q, chan);
      BlockedIs(Apply(s, step), q, chan);
      StepBlocks(s, step, q, chan);
    }
  }

  /** Membership in SleepersAfter, in terms of Blocked. */
  ghost predicate BlockedAfter(s: State, step: Step, q: nat, chan: nat)
    requires Enabled(s, step)
  {
    var cpu := s.cpus[step.c];
    match step
    case DropCond(_) => Blocked(s, q, chan) || (cpu.run.pc.chan == chan && cpu.run.t.Pr? && q == cpu.run.t.p)
    case WakeCheck(_) => Blocked(s, q, chan) && (cpu.run.pc.chan == chan ==> q != cpu.run.pc.k)
    case _ => Blocked(s, q, chan)
  }

  lemma StepBlocks(s: State, step: Step, q: nat, chan: nat)
    requires SaneI(s) && LockI(s) && StateI(s) && Enabled(s, step)
    ensures Blocked(Apply(s, step), q, chan) <==> BlockedAfter(s, step, q, chan)
  {
    hide Blocked, Sane, Parked, Framed, Locked, States, Channels, Apply, Enabled;
    if step.DropCond? { DropCondBlocks(s, step.c, q, chan); }
    else if step.WakeCheck? { WakeCheckBlocks(s, step.c, q, chan); }
    else { OtherBlocks(s, step, q, chan); }
  }

  lemma OtherBlocks(s: State, step: Step, q: nat, chan: nat)
    requires SaneI(s) && LockI(s) && StateI(s) && Enabled(s, step) && !step.DropCond? && !step.WakeCheck?
    ensures Blocked(Apply(s, step), q, chan) <==> Blocked(s, q, chan)
  {
    hide Blocked, Sane, Parked, Framed, Locked, States, Channels, Apply, Enabled;
    if PlainStep(step) || WakeStep(step) { PlainBlocks(s, step, q, chan); } else { SwitchBlocks(s, step, q, chan); }
  }

  // ---- going to sleep --------------------------------------------------------------------

  /** The step that joins the sleepers is the one that gives up the condition lock, which
      the process held until then; it was asleep on no channel before. */
  lemma SleepIsOneStep(s0: State, steps: seq<Step>, c: nat)
    requires Init(s0) && CanRun(s0, steps) && Enabled(After(s0, steps), DropCond(c))
    ensures var s := After(s0, steps); var s' := Apply(s, DropCond(c)); var chan := s.cpus[c].run.pc.chan; var l := CondLock(chan);
      && s.cpus[c].run.t.Pr? && l in s.locks && s.locks[l] == c && s'.locks == s.locks - {l}
      && (forall ch :: s.cpus[c].run.t.p !in Sleepers(s, ch))
      && s.cpus[c].run.t.p in Sleepers(s', chan)
  {
    Reached(s0, steps);
    var s := After(s0, steps);
    var chan := s.cpus[c].run.pc.chan;
    assert NeedsCond(s.cpus[c].run.pc, chan);
    SleepersExact(s0, steps, DropCond(c), chan);
    JoinsOnce(s, c);
  }

  lemma JoinsOnce(s: State, c: nat)
    requires SaneI(s) && StateI(s) && Enabled(s, DropCond(c))
    ensures s.cpus[c].run.t.Pr? && forall ch :: s.cpus[c].run.t.p !in Sleepers(s, ch)
  {
    assert CpuOk(s.cpus[c], c, |s.procs|);
    var p := s.cpus[c].run.t.p;
    forall ch ensures p !in Sleepers(s, ch) { BlockedIs(s, p, ch); }
  }

  /** A sleeper executes nothing: it is on its way out through enter_sched, its own lock
      held so that no wakeup can see it yet, or parked to go on inside sleep. (Or it has
      called sleep with more locks than the one, and stands in enter_sched's panic.) */
  lemma SleeperRunsNothing(s0: State, steps: seq<Step>, q: nat, chan: nat)
    requires Init(s0) && CanRun(s0, steps) && q in Sleepers(After(s0, steps), chan)
    ensures var s := After(s0, steps);
      match s.procs[q].on
      case None => s.procs[q].context == Context(Pr(q), Resume(Sleep(chan)))
      case Some(c) =>
        && c < |s.cpus| && PLock(q) in s.locks && s.locks[PLock(q)] == c
        && (s.cpus[c].run == Context(Pr(q), Enter(Sleep(chan))) || s.cpus[c].run == Context(Pr(q), Panic))
  {
    Reached(s0, steps);
    var s := After(s0, steps);
    BlockedIs(s, q, chan);
    BlockedStops(s, q, chan);
  }

  lemma BlockedStops(s: State, q: nat, chan: nat)
    requires SaneI(s) && LockI(s) && StateI(s) && Blocked(s, q, chan)
    ensures match s.procs[q].on
      case None => s.procs[q].context == Context(Pr(q), Resume(Sleep(chan)))
      case Some(c) =>
        && c < |s.cpus| && PLock(q) in s.locks && s.locks[PLock(q)] == c
        && (s.cpus[c].run == Context(Pr(q), Enter(Sleep(chan))) || s.cpus[c].run == Context(Pr(q), Panic))
  {
    if s.procs[q].on.Some? {
      var c := s.procs[q].on.value;
      assert CpuOk(s.cpus[c], c, |s.procs|) && StateFits(s.cpus[c].run.pc, s.procs[q].state) && ChanFits(s.cpus[c].run.pc, s.procs[q].chan);
      assert OwnsProc(s.cpus[c], q);
    }
  }

  // ---- waking up ---------------------------------------------------------------------------

  /** CPU c is inside a wakeup of chan that it called holding the condition lock. */
  ghost predicate HeldScan(s: State, c: nat, chan: nat) {
    c < |s.cpus| && var pc := s.cpus[c].run.pc; (pc.Scan? || pc.Check? || pc.Unlock?) && pc.held && pc.chan == chan
  }

  lemma ScanHolds(s: State, c: nat, chan: nat)
    requires CondI(s) && HeldScan(s, c, chan)
    ensures CondLock(chan) in s.locks && s.locks[CondLock(chan)] == c
    ensures forall d :: 0 <= d < |s.cpus| && d != c ==> !NeedsCond(s.cpus[d].run.pc, chan)
  {
    assert NeedsCond(s.cpus[c].run.pc, chan);
  }

  /** While it runs nobody joins the sleepers. */
  lemma ScanShrinks(s: State, step: Step, c: nat, chan: nat)
    requires SaneI(s) && LockI(s) && StateI(s) && CondI(s) && HeldScan(s, c, chan) && Enabled(s, step) && SaneI(Apply(s, step))
    ensures Sleepers(Apply(s, step), chan) <= Sleepers(s, chan)
  {
    ScanHolds(s, c, chan);
    NoneJoins(s, step, c, chan);
    hide Sane, Parked, Framed, Locked, States, Channels, CondHeld;
    forall q | q in Sleepers(Apply(s, step), chan) ensures q in Sleepers(s, chan) {
      BlockedIs(s, q, chan);
      BlockedIs(Apply(s, step), q, chan);
      StepBlocks(s, step, q, chan);
    }
  }

  lemma NoneJoins(s: State, step: Step, c: nat, chan: nat)
    requires HeldScan(s, c, chan) && Enabled(s, step)
    requires forall d :: 0 <= d < |s.cpus| && d != c ==> !NeedsCond(s.cpus[d].run.pc, chan)
    ensures step.DropCond? ==> s.cpus[step.c].run.pc.chan != chan
  {
    if step.DropCond? { assert NeedsCond(s.cpus[step.c].run.pc, s.cpus[step.c].run.pc.chan); }
  }

  /** c's wakeup of chan lasts through all of `steps`. */
  ghost predicate Scanning(s: State, steps: seq<Step>, c: nat, chan: nat)
    requires CanRun(s, steps)
    decreases |steps|
  {
    HeldScan(s, c, chan) && (steps != [] ==> Scanning(Apply(s, steps[0]), steps[1..], c, chan))
  }

  lemma {:induction false} ScanRun(s: State, steps: seq<Step>, c: nat, chan: nat)
    requires Inv(s) && CanRun(s, steps) && Scanning(s, steps, c, chan)
    ensures var s' := After(s, steps);
      && Inv(s') && HeldScan(s', c, chan) && Sleepers(s', chan) <= Sleepers(s, chan)
      && CondLock(chan) in s'.locks && s'.locks[CondLock(chan)] == c
    decreases |steps|
  {
    ScanHolds(s, c, chan);
    if steps != [] {
      StepKeeps(s, steps[0]);
      ScanShrinks(s, steps[0], c, chan);
      hide Inv;
      ScanRun(Apply(s, steps[0]), steps[1..], c, chan);
    }
  }

  /** c's wakeup has been through all processes. */
  ghost predicate Ending(s: State, c: nat) { Enabled(s, WakeScan(c)) && s.cpus[c].run.pc.k >= |s.procs| }

  /** A wakeup called with the condition lock is one step to whoever takes that lock: from
      its first statement to its last the lock stays with its CPU and the sleepers only
      become fewer, whatever all other CPUs do in between, and at the end there are none. */
  lemma WakeupIsOneStep(s0: State, steps: seq<Step>, during: seq<Step>, c: nat, chan: nat)
    requires Init(s0) && CanRun(s0, steps)
    requires CanRun(After(s0, steps), during) && Scanning(After(s0, steps), during, c, chan)
    ensures var s, s' := After(s0, steps), After(After(s0, steps), during);
      && Sleepers(s', chan) <= Sleepers(s, chan)
      && CondLock(chan) in s'.locks && s'.locks[CondLock(chan)] == c
      && (Ending(s', c) ==> Apply(s', WakeScan(c)).cpus[c].run.pc.Code? && Sleepers(Apply(s', WakeScan(c)), chan) == {})
  {
    Reached(s0, steps);
    var s := After(s0, steps);
    ScanRun(s, during, c, chan);
    var s' := After(s, during);
    if Ending(s', c) { SweptAll(s', c); }
  }
}
