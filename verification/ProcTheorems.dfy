/** What scheduler, enter_sched, give_up, sleep and wakeup guarantee in every run, on any
    number of CPUs and processes. */
module ProcTheorems {
  import opened Common
  import opened ProcMachine
  import opened ProcProof

  ghost predicate CanRun(s: State, steps: seq<Step>)
    decreases |steps|
  {
    steps == [] || (Enabled(s, steps[0]) && CanRun(Apply(s, steps[0]), steps[1..]))
  }

  ghost function After(s: State, steps: seq<Step>): State
    requires CanRun(s, steps)
    decreases |steps|
  {
    if steps == [] then s else After(Apply(s, steps[0]), steps[1..])
  }

  lemma {:induction false} RunKeeps(s: State, steps: seq<Step>)
    requires Inv(s) && CanRun(s, steps)
    ensures Inv(After(s, steps))
    decreases |steps|
  {
    if steps != [] {
      StepKeeps(s, steps[0]);
      RunKeeps(Apply(s, steps[0]), steps[1..]);
    }
  }

  lemma Reached(s0: State, steps: seq<Step>)
    requires Init(s0) && CanRun(s0, steps)
    ensures Inv(After(s0, steps))
  {
    InitHolds(s0);
    RunKeeps(s0, steps);
  }

  /** No two CPUs execute on the same stack; a stack that is not executing is a process's
      own, parked inside enter_sched, or the scheduler of a CPU that runs a process and
      will go on for just that process. */
  lemma StacksApart(s0: State, steps: seq<Step>)
    requires Init(s0) && CanRun(s0, steps)
    ensures var s := After(s0, steps);
      && (forall c, d :: 0 <= c < d < |s.cpus| ==> s.cpus[c].run.t != s.cpus[d].run.t)
      && (forall p :: 0 <= p < |s.procs| && (forall c :: 0 <= c < |s.cpus| ==> s.cpus[c].run.t != Pr(p)) ==>
            s.procs[p].context.t == Pr(p) && s.procs[p].context.pc.Resume?)
      && (forall c :: 0 <= c < |s.cpus| && s.cpus[c].run.t != Sched(c) ==>
            s.cpus[c].run.t.Pr? && s.cpus[c].context == Context(Sched(c), Back(s.cpus[c].run.t.p)))
  {
    Reached(s0, steps);
    SaneStacks(After(s0, steps));
  }

  lemma SaneStacks(s: State)
    requires SaneI(s)
    ensures forall c, d :: 0 <= c < d < |s.cpus| ==> s.cpus[c].run.t != s.cpus[d].run.t
    ensures forall p :: 0 <= p < |s.procs| && (forall c :: 0 <= c < |s.cpus| ==> s.cpus[c].run.t != Pr(p)) ==>
      s.procs[p].context.t == Pr(p) && s.procs[p].context.pc.Resume?
    ensures forall c :: 0 <= c < |s.cpus| && s.cpus[c].run.t != Sched(c) ==>
      s.cpus[c].run.t.Pr? && s.cpus[c].context == Context(Sched(c), Back(s.cpus[c].run.t.p))
  {
    forall c | 0 <= c < |s.cpus| && s.cpus[c].run.t != Sched(c)
      ensures s.cpus[c].run.t.Pr? && s.cpus[c].context == Context(Sched(c), Back(s.cpus[c].run.t.p))
    {
      assert CpuOk(s.cpus[c], c, |s.procs|);
    }
    forall c, d | 0 <= c < d < |s.cpus| ensures s.cpus[c].run.t != s.cpus[d].run.t {
      assert CpuOk(s.cpus[c], c, |s.procs|) && CpuOk(s.cpus[d], d, |s.procs|);
    }
  }

  /** A process whose lock is free is RUNNING exactly when a CPU has it as cur_proc, and
      then that is one CPU. */
  lemma RunningIsCurrent(s0: State, steps: seq<Step>, p: nat)
    requires Init(s0) && CanRun(s0, steps)
    requires p < |After(s0, steps).procs| && PLock(p) !in After(s0, steps).locks
    ensures var s := After(s0, steps);
      && (s.procs[p].state.RUNNING? <==> exists c :: 0 <= c < |s.cpus| && s.cpus[c].cur == Some(p))
      && (forall c, d :: 0 <= c < |s.cpus| && 0 <= d < |s.cpus| && s.cpus[c].cur == Some(p) && s.cpus[d].cur == Some(p) ==> c == d)
  {
    Reached(s0, steps);
    CurrentRuns(After(s0, steps), p);
  }

  lemma CurrentRuns(s: State, p: nat)
    requires SaneI(s) && LockI(s) && StateI(s) && p < |s.procs| && PLock(p) !in s.locks
    ensures s.procs[p].state.RUNNING? <==> exists c :: 0 <= c < |s.cpus| && s.cpus[c].cur == Some(p)
    ensures forall c, d :: 0 <= c < |s.cpus| && 0 <= d < |s.cpus| && s.cpus[c].cur == Some(p) && s.cpus[d].cur == Some(p) ==> c == d
  {
    forall c | 0 <= c < |s.cpus| && s.cpus[c].cur == Some(p) ensures s.procs[p].on == Some(c) && s.procs[p].state.RUNNING? {
      assert CpuOk(s.cpus[c], c, |s.procs|);
      assert !OwnsProc(s.cpus[c], p);
    }
    if s.procs[p].on.Some? {
      assert CpuOk(s.cpus[s.procs[p].on.value], s.procs[p].on.value, |s.procs|);
    }
  }

  /** The lock a step releases, if it releases one. */
  ghost function Released(s: State, step: Step): Option<LockId>
    requires Enabled(s, step)
  {
    var pc := s.cpus[step.c].run.pc;
    match step
    case SchedFree(_) => Some(PLock(pc.i))
    case Unlock(_, l) => Some(CLock(l))
    case WakeUnlock(_) => Some(PLock(pc.k))
    case DropCond(_) => Some(CondLock(pc.chan))
    case LeaveProc(c) => Some(PLock(s.cpus[c].run.t.p))
    case _ => None
  }

  /** Every release, on whichever side of swtch it happens, releases a lock that is held,
      held by this very CPU, and free afterwards; no other step frees a lock.  So what is
      acquired on one side is released exactly once on the other. */
  lemma ReleasesWhatIsHeld(s0: State, steps: seq<Step>, step: Step)
    requires Init(s0) && CanRun(s0, steps) && Enabled(After(s0, steps), step)
    ensures var s := After(s0, steps); var s' := Apply(s, step);
      match Released(s, step)
      case Some(l) => l in s.locks && s.locks[l] == step.c && s'.locks == s.locks - {l}
      case None => s.locks.Keys <= s'.locks.Keys && forall l :: l in s.locks ==> s'.locks[l] == s.locks[l]
  {
    Reached(s0, steps);
    ReleaseHeld(After(s0, steps), step);
  }

  lemma ReleaseHeld(s: State, step: Step)
    requires SaneI(s) && LockI(s) && CondI(s) && Enabled(s, step)
    ensures var s' := Apply(s, step);
      match Released(s, step)
      case Some(l) => l in s.locks && s.locks[l] == step.c && s'.locks == s.locks - {l}
      case None => s.locks.Keys <= s'.locks.Keys && forall l :: l in s.locks ==> s'.locks[l] == s.locks[l]
  {
    hide Parked;
    var c := step.c;
    var pc := s.cpus[c].run.pc;
    match step
    case SchedFree(_) => assert OwnsProc(s.cpus[c], pc.i);
    case WakeUnlock(_) => assert OwnsProc(s.cpus[c], pc.k);
    case DropCond(_) => assert NeedsCond(pc, pc.chan);
    case LeaveProc(_) => assert OwnsProc(s.cpus[c], s.cpus[c].run.t.p);
    case _ =>
  }

  /** The step that releases the lock a CPU is about to release, if it is. */
  ghost function DueRelease(s: State, c: nat): Option<Step>
    requires c < |s.cpus|
  {
    match s.cpus[c].run.pc
    case Free(_) => Some(SchedFree(c))
    case Unlock(_, _, _) => Some(WakeUnlock(c))
    case Drop(_) => Some(DropCond(c))
    case Leave(_) => Some(LeaveProc(c))
    case _ => None
  }

  /** A release that is due can be made, at once: the lock is held, here, and there is a
      layer to pop. */
  lemma DueReleaseGoesThrough(s0: State, steps: seq<Step>, c: nat)
    requires Init(s0) && CanRun(s0, steps) && c < |After(s0, steps).cpus| && DueRelease(After(s0, steps), c).Some?
    ensures var s := After(s0, steps); Enabled(s, DueRelease(s, c).value) && Released(s, DueRelease(s, c).value).Some?
  {
    Reached(s0, steps);
    DueEnabled(After(s0, steps), c);
  }

  lemma DueEnabled(s: State, c: nat)
    requires SaneI(s) && LockI(s) && LayerI(s) && CondI(s) && c < |s.cpus| && DueRelease(s, c).Some?
    ensures Enabled(s, DueRelease(s, c).value)
  {
    assert CpuOk(s.cpus[c], c, |s.procs|);
    match s.cpus[c].run.pc
    case Drop(chan) =>
      assert NeedsCond(s.cpus[c].run.pc, chan);
      HeldLayer(s, c, CondLock(chan));
    case Free(i) => OwnLayer(s, c, i);
    case Unlock(k, _, _) => OwnLayer(s, c, k);
    case Leave(_) => OwnLayer(s, c, s.cpus[c].run.t.p);
  }

  lemma HeldLayer(s: State, c: nat, l: LockId)
    requires LayerI(s) && c < |s.cpus| && l in s.locks && s.locks[l] == c
    ensures s.cpus[c].mask.layer > 0
  {
    assert l in Held(s.locks, c);
  }

  lemma OwnLayer(s: State, c: nat, i: nat)
    requires LockI(s) && LayerI(s) && c < |s.cpus| && OwnsProc(s.cpus[c], i)
    ensures s.cpus[c].mask.layer > 0
  {
    HeldLayer(s, c, PLock(i));
  }

  /** A process that switches to the scheduler holds nothing but its own lock. */
  lemma SwitchesWithOwnLockOnly(s0: State, steps: seq<Step>, c: nat)
    requires Init(s0) && CanRun(s0, steps)
    requires var s := After(s0, steps); Enabled(s, EnterSched(c)) && s.cpus[c].mask.layer == 1
    ensures var s := After(s0, steps); s.cpus[c].run.t.Pr? && Held(s.locks, c) == {PLock(s.cpus[c].run.t.p)}
  {
    Reached(s0, steps);
    OnlyOwnLock(After(s0, steps), c);
  }

  lemma OnlyOwnLock(s: State, c: nat)
    requires SaneI(s) && LockI(s) && LayerI(s) && c < |s.cpus| && s.cpus[c].run.pc.Enter? && s.cpus[c].mask.layer == 1
    ensures s.cpus[c].run.t.Pr? && Held(s.locks, c) == {PLock(s.cpus[c].run.t.p)}
  {
    assert CpuOk(s.cpus[c], c, |s.procs|);
    var l := PLock(s.cpus[c].run.t.p);
    assert OwnsProc(s.cpus[c], s.cpus[c].run.t.p);
    assert l in Held(s.locks, c);
    assert |Held(s.locks, c) - {l}| == 0;
  }

  /** No lost wakeup: when wakeup(chan) finishes in a caller that has held the channel's
      condition lock throughout, no process is asleep on chan, whatever every other CPU did
      during the scan. */
  lemma NoLostWakeup(s0: State, steps: seq<Step>, c: nat)
    requires Init(s0) && CanRun(s0, steps)
    requires var s := After(s0, steps); Enabled(s, WakeScan(c)) && s.cpus[c].run.pc.k >= |s.procs| && s.cpus[c].run.pc.held
    ensures var s := After(s0, steps); var chan := s.cpus[c].run.pc.chan; var s' := Apply(s, WakeScan(c));
      && s'.cpus[c].run.pc.Code? && CondLock(chan) in s'.locks && s'.locks[CondLock(chan)] == c
      && forall q :: 0 <= q < |s'.procs| ==> !Asleep(s'.procs[q], chan)
  {
    Reached(s0, steps);
    SweptAll(After(s0, steps), c);
  }

  lemma SweptAll(s: State, c: nat)
    requires SaneI(s) && StateI(s) && ScanI(s) && CondI(s) && Enabled(s, WakeScan(c)) && s.cpus[c].run.pc.k >= |s.procs| && s.cpus[c].run.pc.held
    ensures var chan := s.cpus[c].run.pc.chan; var s' := Apply(s, WakeScan(c));
      && s'.cpus[c].run.pc.Code? && CondLock(chan) in s'.locks && s'.locks[CondLock(chan)] == c
      && forall q :: 0 <= q < |s'.procs| ==> !Asleep(s'.procs[q], chan)
  {
    assert CpuOk(s.cpus[c], c, |s.procs|) && Swept(s.cpus[c], s.procs);
    assert NeedsCond(s.cpus[c].run.pc, s.cpus[c].run.pc.chan);
  }

  /** The process wakeup changes is on no CPU: SLEEPING seen under its lock means parked,
      to go on inside sleep on its channel, past which it takes the condition lock again. */
  lemma WokenIsParked(s0: State, steps: seq<Step>, c: nat)
    requires Init(s0) && CanRun(s0, steps)
    requires var s := After(s0, steps); Enabled(s, WakeCheck(c)) && s.procs[s.cpus[c].run.pc.k].state.SLEEPING?
    ensures var s := After(s0, steps); var k := s.cpus[c].run.pc.k;
      && (forall d :: 0 <= d < |s.cpus| ==> s.cpus[d].run.t != Pr(k))
      && s.procs[k].context == Context(Pr(k), Resume(Sleep(s.procs[k].chan)))
  {
    Reached(s0, steps);
    SleeperParked(After(s0, steps), c);
  }

  lemma SleeperParked(s: State, c: nat)
    requires SaneI(s) && LockI(s) && StateI(s) && Enabled(s, WakeCheck(c)) && s.procs[s.cpus[c].run.pc.k].state.SLEEPING?
    ensures var k := s.cpus[c].run.pc.k;
      && (forall d :: 0 <= d < |s.cpus| ==> s.cpus[d].run.t != Pr(k))
      && s.procs[k].context == Context(Pr(k), Resume(Sleep(s.procs[k].chan)))
  {
    WakeCheckStates(s, c);
    var k := s.cpus[c].run.pc.k;
    assert OwnsProc(s.cpus[c], k);
    forall d | 0 <= d < |s.cpus| ensures s.cpus[d].run.t != Pr(k) {
      if s.cpus[d].run.t == Pr(k) { RunningOwner(s, d, k); }
    }
  }

  /** A SLEEPING process that still runs holds its own lock, at a point of its own. */
  lemma RunningOwner(s: State, d: nat, k: nat)
    requires LockI(s) && StateI(s) && d < |s.cpus| && k < |s.procs| && s.cpus[d].run.t == Pr(k) && s.procs[k].state.SLEEPING?
    ensures OwnsProc(s.cpus[d], k) && PLock(k) in s.locks && s.locks[PLock(k)] == d && !s.cpus[d].run.pc.Check?
  {
    assert StateFits(s.cpus[d].run.pc, s.procs[k].state);
    assert OwnsProc(s.cpus[d], k);
  }

  /** Interrupts are off on a CPU holding any spin lock; a process that holds none runs
      with them as it, or the interrupt on its stack, last set them, however often and
      wherever it was switched. */
  lemma InterruptsFollowProcess(s0: State, steps: seq<Step>, c: nat)
    requires Init(s0) && CanRun(s0, steps) && c < |After(s0, steps).cpus|
    ensures var s := After(s0, steps); var cpu := s.cpus[c];
      && (Held(s.locks, c) != {} ==> !cpu.mask.sie)
      && (cpu.run.t.Pr? && Held(s.locks, c) == {} ==> cpu.run.t.p < |s.procs| && cpu.mask.sie == s.procs[cpu.run.t.p].want)
  {
    Reached(s0, steps);
    MaskFollows(After(s0, steps), c);
  }

  lemma MaskFollows(s: State, c: nat)
    requires SaneI(s) && LayerI(s) && MaskI(s) && c < |s.cpus|
    ensures var cpu := s.cpus[c];
      && (Held(s.locks, c) != {} ==> !cpu.mask.sie)
      && (cpu.run.t.Pr? && Held(s.locks, c) == {} ==> cpu.run.t.p < |s.procs| && cpu.mask.sie == s.procs[cpu.run.t.p].want)
  {
    assert CpuOk(s.cpus[c], c, |s.procs|) && MaskOk(s.cpus[c], s.procs);
    assert s.cpus[c].mask.layer == |Held(s.locks, c)|;
  }
}
