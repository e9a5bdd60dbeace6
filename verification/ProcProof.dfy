/** Every step of ProcMachine keeps its invariant. */
module ProcProof {
  import opened Common
  import opened Spinlock
  import opened ProcMachine

  // ---- one CPU moving along the stack it is on ---------------------------------------

  ghost function With(s: State, c: nat, x: Cpu): State
    requires c < |s.cpus|
  {
    s.(cpus := s.cpus[c := x])
  }

  /** x is what CPU c may become without touching processes: same stack, at a point whose
      process state is the same. */
  ghost predicate Moves(s: State, c: nat, x: Cpu) {
    && c < |s.cpus| && x.run.t == s.cpus[c].run.t && CpuOk(x, c, |s.procs|)
    && (x.run.t.Pr? ==> x.run.t.p < |s.procs| && StateFits(x.run.pc, s.procs[x.run.t.p].state) && ChanFits(x.run.pc, s.procs[x.run.t.p].chan))
  }

  lemma MoveSane(s: State, c: nat, x: Cpu)
    requires SaneI(s) && StateI(s) && Moves(s, c, x)
    ensures SaneI(With(s, c, x)) && StateI(With(s, c, x))
  {
  }

  lemma MoveScans(s: State, c: nat, x: Cpu)
    requires ScanI(s) && MaskI(s) && c < |s.cpus| && Swept(x, s.procs) && MaskOk(x, s.procs)
    ensures ScanI(With(s, c, x)) && MaskI(With(s, c, x))
  {
  }

  ghost predicate SameOwned(a: Cpu, b: Cpu) { forall i :: OwnsProc(a, i) <==> OwnsProc(b, i) }

  lemma MoveLocks(s: State, c: nat, x: Cpu)
    requires LockI(s) && LayerI(s) && CondI(s) && c < |s.cpus| && SameOwned(s.cpus[c], x)
    requires x.mask.layer == s.cpus[c].mask.layer
    requires forall chan :: NeedsCond(x.run.pc, chan) ==> CondLock(chan) in s.locks && s.locks[CondLock(chan)] == c
    ensures var s' := With(s, c, x); LockI(s') && LayerI(s') && CondI(s')
  {
  }

  lemma HeldTake(locks: map<LockId, nat>, l: LockId, c: nat, d: nat)
    requires l !in locks
    ensures |Held(locks[l := c], d)| == |Held(locks, d)| + (if c == d then 1 else 0)
  {
    assert Held(locks[l := c], d) == if c == d then Held(locks, d) + {l} else Held(locks, d);
  }

  lemma HeldDrop(locks: map<LockId, nat>, l: LockId, d: nat)
    requires l in locks
    ensures |Held(locks - {l}, d)| == |Held(locks, d)| - (if locks[l] == d then 1 else 0)
  {
    assert Held(locks - {l}, d) == if locks[l] == d then Held(locks, d) - {l} else Held(locks, d);
  }

  /** acquire: the lock was available, so no other CPU's claims change. */
  lemma TakeLocks(s: State, c: nat, l: LockId, x: Cpu)
    requires LockI(s) && LayerI(s) && CondI(s) && c < |s.cpus| && l !in s.locks
    requires x.mask == Push(s.cpus[c].mask)
    requires forall i :: OwnsProc(x, i) <==> OwnsProc(s.cpus[c], i) || l == PLock(i)
    requires forall chan :: NeedsCond(x.run.pc, chan) ==> CondLock(chan) in s.locks && s.locks[CondLock(chan)] == c
    ensures var s' := With(s, c, x).(locks := s.locks[l := c]); LockI(s') && LayerI(s') && CondI(s')
  {
    forall d | 0 <= d < |s.cpus| ensures |Held(s.locks[l := c], d)| == |Held(s.locks, d)| + (if c == d then 1 else 0) {
      HeldTake(s.locks, l, c, d);
    }
  }

  /** release of a lock this CPU holds. */
  lemma DropLocks(s: State, c: nat, l: LockId, x: Cpu)
    requires LockI(s) && LayerI(s) && CondI(s) && c < |s.cpus| && l in s.locks && s.locks[l] == c
    requires s.cpus[c].mask.layer > 0 && x.mask == Pop(s.cpus[c].mask)
    requires forall i :: OwnsProc(x, i) <==> OwnsProc(s.cpus[c], i) && l != PLock(i)
    requires forall chan :: NeedsCond(x.run.pc, chan) ==> CondLock(chan) != l && CondLock(chan) in s.locks && s.locks[CondLock(chan)] == c
    ensures var s' := With(s, c, x).(locks := s.locks - {l}); LockI(s') && LayerI(s') && CondI(s')
  {
    forall d | 0 <= d < |s.cpus| ensures |Held(s.locks - {l}, d)| == |Held(s.locks, d)| - (if s.locks[l] == d then 1 else 0) {
      HeldDrop(s.locks, l, d);
    }
  }

  /** A step that leaves processes alone and takes or drops at most one lock. */
  lemma Stepped(s: State, c: nat, x: Cpu, locks: map<LockId, nat>)
    requires SaneI(s) && StateI(s) && ScanI(s) && MaskI(s) && Moves(s, c, x) && Swept(x, s.procs) && MaskOk(x, s.procs)
    requires var s' := With(s, c, x).(locks := locks); LockI(s') && LayerI(s') && CondI(s')
    ensures Inv(With(s, c, x).(locks := locks))
  {
    MoveSane(s, c, x);
    MoveScans(s, c, x);
  }

  // ---- the scheduler ----------------------------------------------------------------------

  lemma SchedAcquireKeeps(s: State, c: nat)
    requires Inv(s) && Enabled(s, SchedAcquire(c))
    ensures Inv(Apply(s, SchedAcquire(c)))
  {
    var x := Apply(s, SchedAcquire(c)).cpus[c];
    var l := PLock(s.cpus[c].run.pc.i);
    assert CpuOk(s.cpus[c], c, |s.procs|) && MaskOk(s.cpus[c], s.procs);
    TakeLocks(s, c, l, x);
    Stepped(s, c, x, s.locks[l := c]);
  }

  lemma SchedBackKeeps(s: State, c: nat)
    requires Inv(s) && Enabled(s, SchedBack(c))
    ensures Inv(Apply(s, SchedBack(c)))
  {
    var x := Apply(s, SchedBack(c)).cpus[c];
    assert CpuOk(s.cpus[c], c, |s.procs|) && MaskOk(s.cpus[c], s.procs);
    MoveLocks(s, c, x);
    Stepped(s, c, x, s.locks);
  }

  lemma SchedFreeKeeps(s: State, c: nat)
    requires Inv(s) && Enabled(s, SchedFree(c))
    ensures Inv(Apply(s, SchedFree(c)))
  {
    var x := Apply(s, SchedFree(c)).cpus[c];
    var i := s.cpus[c].run.pc.i;
    assert CpuOk(s.cpus[c], c, |s.procs|) && MaskOk(s.cpus[c], s.procs) && OwnsProc(s.cpus[c], i);
    DropLocks(s, c, PLock(i), x);
    Stepped(s, c, x, s.locks - {PLock(i)});
  }

  lemma IntrKeeps(s: State, step: Step)
    requires Inv(s) && Enabled(s, step) && (step.IntrEnter? || step.IntrLeave?)
    ensures Inv(Apply(s, step))
  {
    var c := step.c;
    var x := Apply(s, step).cpus[c];
    assert CpuOk(s.cpus[c], c, |s.procs|) && MaskOk(s.cpus[c], s.procs);
    hide Sane, Parked, Locked, Layers, States, Channels, CondHeld, Scans, Masks;
    if s.cpus[c].run.t.Sched? {
      MoveLocks(s, c, x);
      Stepped(s, c, x, s.locks);
    } else {
      IntrProcKeeps(s, step);
    }
  }

  lemma IntrProcKeeps(s: State, step: Step)
    requires Inv(s) && Enabled(s, step) && (step.IntrEnter? || step.IntrLeave?) && s.cpus[step.c].run.t.Pr?
    ensures Inv(Apply(s, step))
  {
    Interrupted(s, step.c);
    hide Sane, Parked, Locked, Layers, States, Channels, CondHeld, Scans, Masks;
    IntrSane(s, step);
    IntrStates(s, step);
    IntrScans(s, step);
    IntrLocks(s, step);
  }

  lemma IntrLocks(s: State, step: Step)
    requires SaneI(s) && LockI(s) && LayerI(s) && CondI(s) && Enabled(s, step) && (step.IntrEnter? || step.IntrLeave?) && s.cpus[step.c].run.t.Pr?
    ensures var s' := Apply(s, step); LockI(s') && LayerI(s') && CondI(s')
  {
    assert CpuOk(s.cpus[step.c], step.c, |s.procs|);
    MoveLocks(s, step.c, Apply(s, step).cpus[step.c]);
  }

  /** Without a lock the CPU is at a point that may be interrupted. */
  lemma Interrupted(s: State, c: nat)
    requires LayerI(s) && CondI(s) && c < |s.cpus| && s.cpus[c].mask.layer == 0 && OutsideLocks(s.cpus[c].run.pc)
    ensures FrameOk(s.cpus[c].run.pc) && forall chan :: !NeedsCond(s.cpus[c].run.pc, chan)
  {
    var pc := s.cpus[c].run.pc;
    forall chan ensures !NeedsCond(pc, chan) {
      assert CondLock(chan) !in Held(s.locks, c);
    }
    if pc.Scan? { assert !NeedsCond(pc, pc.chan); }
  }

  lemma IntrSane(s: State, step: Step)
    requires SaneI(s) && Enabled(s, step) && (step.IntrEnter? || step.IntrLeave?) && s.cpus[step.c].run.t.Pr?
    requires FrameOk(s.cpus[step.c].run.pc)
    ensures SaneI(Apply(s, step))
  {
    assert CpuOk(s.cpus[step.c], step.c, |s.procs|);
  }

  lemma IntrStates(s: State, step: Step)
    requires SaneI(s) && StateI(s) && Enabled(s, step) && (step.IntrEnter? || step.IntrLeave?) && s.cpus[step.c].run.t.Pr?
    requires FrameOk(s.cpus[step.c].run.pc)
    ensures StateI(Apply(s, step))
  {
    assert CpuOk(s.cpus[step.c], step.c, |s.procs|);
    hide Sane, CpuOk;
  }

  lemma IntrScans(s: State, step: Step)
    requires SaneI(s) && ScanI(s) && MaskI(s) && Enabled(s, step) && (step.IntrEnter? || step.IntrLeave?) && s.cpus[step.c].run.t.Pr?
    ensures var s' := Apply(s, step); ScanI(s') && MaskI(s')
  {
    var s' := Apply(s, step);
    forall d | 0 <= d < |s.cpus| ensures Swept(s'.cpus[d], s'.procs) && MaskOk(s'.cpus[d], s'.procs) {
      assert Swept(s.cpus[d], s.procs) && MaskOk(s.cpus[d], s.procs);
    }
  }

  // ---- code, locks and wakeup ------------------------------------------------------------

  lemma LockKeeps(s: State, c: nat, l: nat)
    requires Inv(s) && Enabled(s, Step.Lock(c, l))
    ensures Inv(Apply(s, Step.Lock(c, l)))
  {
    var x := Apply(s, Step.Lock(c, l)).cpus[c];
    assert CpuOk(s.cpus[c], c, |s.procs|) && MaskOk(s.cpus[c], s.procs);
    TakeLocks(s, c, CLock(l), x);
    Stepped(s, c, x, s.locks[CLock(l) := c]);
  }

  lemma UnlockKeeps(s: State, c: nat, l: nat)
    requires Inv(s) && Enabled(s, Step.Unlock(c, l))
    ensures Inv(Apply(s, Step.Unlock(c, l)))
  {
    var x := Apply(s, Step.Unlock(c, l)).cpus[c];
    assert CpuOk(s.cpus[c], c, |s.procs|) && MaskOk(s.cpus[c], s.procs);
    DropLocks(s, c, CLock(l), x);
    Stepped(s, c, x, s.locks - {CLock(l)});
  }

  lemma WakeStartKeeps(s: State, c: nat, chan: nat)
    requires Inv(s) && Enabled(s, WakeStart(c, chan))
    ensures Inv(Apply(s, WakeStart(c, chan)))
  {
    var x := Apply(s, WakeStart(c, chan)).cpus[c];
    assert CpuOk(s.cpus[c], c, |s.procs|) && MaskOk(s.cpus[c], s.procs);
    MoveLocks(s, c, x);
    Stepped(s, c, x, s.locks);
  }

  lemma WakeScanKeeps(s: State, c: nat)
    requires Inv(s) && Enabled(s, WakeScan(c))
    ensures Inv(Apply(s, WakeScan(c)))
  {
    var pc := s.cpus[c].run.pc;
    if pc.k < |s.procs| && s.cpus[c].cur != Some(pc.k) { ScanTakes(s, c); } else { ScanPasses(s, c); }
  }

  lemma ScanTakes(s: State, c: nat)
    requires Inv(s) && Enabled(s, WakeScan(c)) && s.cpus[c].run.pc.k < |s.procs| && s.cpus[c].cur != Some(s.cpus[c].run.pc.k)
    ensures Inv(Apply(s, WakeScan(c)))
  {
    var x := Apply(s, WakeScan(c)).cpus[c];
    var pc := s.cpus[c].run.pc;
    assert CpuOk(s.cpus[c], c, |s.procs|) && MaskOk(s.cpus[c], s.procs) && Swept(s.cpus[c], s.procs);
    assert pc.held ==> NeedsCond(pc, pc.chan);
    hide Sane, Parked, Framed, Locked, Layers, States, Channels, CondHeld, Scans, Masks;
    TakeLocks(s, c, PLock(pc.k), x);
    Stepped(s, c, x, s.locks[PLock(pc.k) := c]);
  }

  lemma ScanPasses(s: State, c: nat)
    requires Inv(s) && Enabled(s, WakeScan(c)) && (s.cpus[c].run.pc.k >= |s.procs| || s.cpus[c].cur == Some(s.cpus[c].run.pc.k))
    ensures Inv(Apply(s, WakeScan(c)))
  {
    var x := Apply(s, WakeScan(c)).cpus[c];
    var pc := s.cpus[c].run.pc;
    assert CpuOk(s.cpus[c], c, |s.procs|) && MaskOk(s.cpus[c], s.procs) && Swept(s.cpus[c], s.procs);
    assert pc.held ==> NeedsCond(pc, pc.chan);
    hide Sane, Parked, Framed, Locked, Layers, States, Channels, CondHeld, Scans, Masks;
    MoveLocks(s, c, x);
    Stepped(s, c, x, s.locks);
  }

  lemma WakeUnlockKeeps(s: State, c: nat)
    requires Inv(s) && Enabled(s, WakeUnlock(c))
    ensures Inv(Apply(s, WakeUnlock(c)))
  {
    var x := Apply(s, WakeUnlock(c)).cpus[c];
    var pc := s.cpus[c].run.pc;
    assert CpuOk(s.cpus[c], c, |s.procs|) && MaskOk(s.cpus[c], s.procs) && Swept(s.cpus[c], s.procs);
    assert OwnsProc(s.cpus[c], pc.k);
    assert pc.held ==> NeedsCond(pc, pc.chan);
    DropLocks(s, c, PLock(pc.k), x);
    Stepped(s, c, x, s.locks - {PLock(pc.k)});
  }

  lemma TakeOwnKeeps(s: State, step: Step)
    requires Inv(s) && Enabled(s, step) && (step.GiveUp? || step.SleepOn?)
    ensures Inv(Apply(s, step))
  {
    var c := step.c;
    var x := Apply(s, step).cpus[c];
    assert CpuOk(s.cpus[c], c, |s.procs|) && MaskOk(s.cpus[c], s.procs);
    TakeLocks(s, c, PLock(s.cpus[c].cur.value), x);
    Stepped(s, c, x, s.locks[PLock(s.cpus[c].cur.value) := c]);
  }

  lemma DropCondKeeps(s: State, c: nat)
    requires Inv(s) && Enabled(s, DropCond(c))
    ensures Inv(Apply(s, DropCond(c)))
  {
    var x := Apply(s, DropCond(c)).cpus[c];
    var l := CondLock(s.cpus[c].run.pc.chan);
    assert CpuOk(s.cpus[c], c, |s.procs|) && MaskOk(s.cpus[c], s.procs) && NeedsCond(s.cpus[c].run.pc, s.cpus[c].run.pc.chan);
    DropLocks(s, c, l, x);
    Stepped(s, c, x, s.locks - {l});
  }

  lemma ResumeProcKeeps(s: State, c: nat)
    requires Inv(s) && Enabled(s, ResumeProc(c))
    ensures Inv(Apply(s, ResumeProc(c)))
  {
    var x := Apply(s, ResumeProc(c)).cpus[c];
    assert CpuOk(s.cpus[c], c, |s.procs|) && MaskOk(s.cpus[c], s.procs);
    MoveLocks(s, c, x);
    Stepped(s, c, x, s.locks);
  }

  lemma RetakeCondKeeps(s: State, c: nat)
    requires Inv(s) && Enabled(s, RetakeCond(c))
    ensures Inv(Apply(s, RetakeCond(c)))
  {
    var x := Apply(s, RetakeCond(c)).cpus[c];
    var l := CondLock(s.cpus[c].run.pc.chan);
    assert CpuOk(s.cpus[c], c, |s.procs|) && MaskOk(s.cpus[c], s.procs);
    TakeLocks(s, c, l, x);
    Stepped(s, c, x, s.locks[l := c]);
  }

  // ---- steps that change a process ----------------------------------------------------------

  /** A change to procs[p] that keeps its stack, context and masking, made under its lock. */
  ghost predicate Marks(s: State, p: nat, q: Proc) {
    && p < |s.procs| && q.context == s.procs[p].context && q.on == s.procs[p].on
    && q.saved == s.procs[p].saved && q.frames == s.procs[p].frames && q.want == s.procs[p].want
  }

  lemma MarkSane(s: State, p: nat, q: Proc)
    requires SaneI(s) && MaskI(s) && Marks(s, p, q)
    ensures var s' := s.(procs := s.procs[p := q]); SaneI(s') && MaskI(s')
  {
    var s' := s.(procs := s.procs[p := q]);
    forall c | 0 <= c < |s.cpus| ensures MaskOk(s.cpus[c], s'.procs) { assert MaskOk(s.cpus[c], s.procs); }
  }

  /** A scan for chan under the condition lock is already past process p. */
  ghost predicate Passed(cpu: Cpu, p: nat, chan: nat) {
    p < Dealt(cpu.run.pc) && NeedsCond(cpu.run.pc, chan) && cpu.cur != Some(p)
  }

  lemma MarkScans(s: State, p: nat, q: Proc)
    requires ScanI(s) && p < |s.procs|
    requires forall c, chan :: 0 <= c < |s.cpus| && Passed(s.cpus[c], p, chan) && Asleep(q, chan) ==> Asleep(s.procs[p], chan)
    ensures ScanI(s.(procs := s.procs[p := q]))
  {
    forall c | 0 <= c < |s.cpus| ensures Swept(s.cpus[c], s.procs[p := q]) { assert Swept(s.cpus[c], s.procs); }
  }

  lemma LeaveProcKeeps(s: State, c: nat)
    requires Inv(s) && Enabled(s, LeaveProc(c))
    ensures Inv(Apply(s, LeaveProc(c)))
  {
    var s' := Apply(s, LeaveProc(c));
    var x := s'.cpus[c];
    var p := s.cpus[c].run.t.p;
    assert CpuOk(s.cpus[c], c, |s.procs|) && MaskOk(s.cpus[c], s.procs) && OwnsProc(s.cpus[c], p);
    DropLocks(s, c, PLock(p), x);
    Stepped(s, c, x, s.locks - {PLock(p)});
    var s1 := With(s, c, x).(locks := s.locks - {PLock(p)});
    var q := s.procs[p].(chan := 0);
    MarkSane(s1, p, q);
    LeaveState(s1, c, p, q);
    MarkScans(s1, p, q);
    if s.cpus[c].run.pc.kind.Give? { assert s' == s1; }
    else { assert s' == s1.(procs := s1.procs[p := q]); }
  }

  lemma LeaveState(s: State, c: nat, p: nat, q: Proc)
    requires StateI(s) && c < |s.cpus| && p < |s.procs| && q == s.procs[p].(chan := q.chan)
    requires s.cpus[c].run.t == Pr(p) && (s.cpus[c].run.pc.Code? || s.cpus[c].run.pc.Retake?)
    ensures StateI(s.(procs := s.procs[p := q])) && s.procs[p].state.RUNNING?
  {
    assert StateFits(s.cpus[c].run.pc, s.procs[p].state);
  }

  lemma ToggleKeeps(s: State, c: nat)
    requires Inv(s) && Enabled(s, Toggle(c))
    ensures Inv(Apply(s, Toggle(c)))
  {
    var s' := Apply(s, Toggle(c));
    assert CpuOk(s.cpus[c], c, |s.procs|) && MaskOk(s.cpus[c], s.procs);
    MoveLocks(s, c, s'.cpus[c]);
    ToggleSane(s, c);
    ToggleMasks(s, c);
  }

  lemma ToggleSane(s: State, c: nat)
    requires SaneI(s) && StateI(s) && ScanI(s) && Enabled(s, Toggle(c))
    ensures var s' := Apply(s, Toggle(c)); SaneI(s') && StateI(s') && ScanI(s')
  {
    var s' := Apply(s, Toggle(c));
    forall d | 0 <= d < |s.cpus| ensures Swept(s'.cpus[d], s'.procs) { assert Swept(s.cpus[d], s.procs); }
  }

  lemma ToggleMasks(s: State, c: nat)
    requires SaneI(s) && MaskI(s) && Enabled(s, Toggle(c))
    ensures MaskI(Apply(s, Toggle(c)))
  {
    var s' := Apply(s, Toggle(c));
    forall d | 0 <= d < |s.cpus| ensures MaskOk(s'.cpus[d], s'.procs) { assert MaskOk(s.cpus[d], s.procs); }
  }

  lemma SetStateKeeps(s: State, c: nat)
    requires Inv(s) && Enabled(s, SetState(c))
    ensures Inv(Apply(s, SetState(c)))
  {
    var s' := Apply(s, SetState(c));
    var p := s.cpus[c].run.t.p;
    var q := s'.procs[p];
    assert CpuOk(s.cpus[c], c, |s.procs|) && MaskOk(s.cpus[c], s.procs);
    var s1 := s.(procs := s.procs[p := q]);
    hide Sane, Parked, Locked, Layers, States, Channels, CondHeld, Scans, Masks;
    MarkSane(s, p, q);
    SetStateScans(s, c);
    SetStateLocks(s, c);
    SetStateSane(s, c);
    SetStateStates(s, c);
    MoveScans(s1, c, s'.cpus[c]);
  }

  lemma SetStateLocks(s: State, c: nat)
    requires LockI(s) && LayerI(s) && CondI(s) && Enabled(s, SetState(c))
    ensures var s' := Apply(s, SetState(c)); LockI(s') && LayerI(s') && CondI(s')
  {
    var x := Apply(s, SetState(c)).cpus[c];
    assert forall chan :: NeedsCond(x.run.pc, chan) ==> NeedsCond(s.cpus[c].run.pc, chan);
    MoveLocks(s, c, x);
  }

  lemma SetStateScans(s: State, c: nat)
    requires SaneI(s) && ScanI(s) && CondI(s) && Enabled(s, SetState(c))
    ensures var p := s.cpus[c].run.t.p; ScanI(s.(procs := s.procs[p := Apply(s, SetState(c)).procs[p]]))
  {
    var p := s.cpus[c].run.t.p;
    var q := Apply(s, SetState(c)).procs[p];
    // whoever scans for the channel under its lock excludes this CPU, which holds it too
    assert forall chan :: Asleep(q, chan) ==> NeedsCond(s.cpus[c].run.pc, chan);
    MarkScans(s, p, q);
  }

  lemma SetStateSane(s: State, c: nat)
    requires SaneI(s) && Enabled(s, SetState(c))
    ensures SaneI(Apply(s, SetState(c)))
  {
    assert CpuOk(s.cpus[c], c, |s.procs|);
  }

  lemma SetStateStates(s: State, c: nat)
    requires Parked(s.cpus, s.procs) && StateI(s) && Enabled(s, SetState(c))
    ensures StateI(Apply(s, SetState(c)))
  {
  }

  lemma WakeCheckKeeps(s: State, c: nat)
    requires Inv(s) && Enabled(s, WakeCheck(c))
    ensures Inv(Apply(s, WakeCheck(c)))
  {
    var s' := Apply(s, WakeCheck(c));
    var pc := s.cpus[c].run.pc;
    var q := s'.procs[pc.k];
    assert CpuOk(s.cpus[c], c, |s.procs|) && MaskOk(s.cpus[c], s.procs) && Swept(s.cpus[c], s.procs);
    var s1 := s.(procs := s.procs[pc.k := q]);
    WakeCheckMarks(s, c);
    WakeCheckStates(s, c);
    WakeCheckLocks(s, c);
    WakeCheckSwept(s, c);
    assert s' == With(s1, c, s'.cpus[c]).(locks := s.locks);
    Stepped(s1, c, s'.cpus[c], s.locks);
  }

  lemma WakeCheckMarks(s: State, c: nat)
    requires SaneI(s) && MaskI(s) && ScanI(s) && Enabled(s, WakeCheck(c))
    ensures var k := s.cpus[c].run.pc.k; var s1 := s.(procs := s.procs[k := Apply(s, WakeCheck(c)).procs[k]]);
      SaneI(s1) && MaskI(s1) && ScanI(s1)
  {
    var k := s.cpus[c].run.pc.k;
    MarkSane(s, k, Apply(s, WakeCheck(c)).procs[k]);
    MarkScans(s, k, Apply(s, WakeCheck(c)).procs[k]);
  }

  lemma WakeCheckLocks(s: State, c: nat)
    requires LockI(s) && LayerI(s) && CondI(s) && Enabled(s, WakeCheck(c))
    ensures var s' := Apply(s, WakeCheck(c)); LockI(s') && LayerI(s') && CondI(s')
  {
    var pc := s.cpus[c].run.pc;
    assert pc.held ==> NeedsCond(pc, pc.chan);
    MoveLocks(s, c, Apply(s, WakeCheck(c)).cpus[c]);
  }

  lemma WakeCheckSwept(s: State, c: nat)
    requires ScanI(s) && Enabled(s, WakeCheck(c))
    ensures var s' := Apply(s, WakeCheck(c)); Swept(s'.cpus[c], s'.procs)
  {
    var pc := s.cpus[c].run.pc;
    assert Swept(s.cpus[c], s.procs);
    assert pc.held ==> NeedsCond(pc, pc.chan);
  }

  /** The process woken is not executing anywhere: its lock is here. */
  lemma WakeCheckStates(s: State, c: nat)
    requires SaneI(s) && LockI(s) && StateI(s) && Enabled(s, WakeCheck(c))
    ensures var k := s.cpus[c].run.pc.k; StateI(s.(procs := s.procs[k := Apply(s, WakeCheck(c)).procs[k]]))
    ensures var s' := Apply(s, WakeCheck(c)); var t := s.cpus[c].run.t;
      t.Pr? && t.p < |s.procs| ==> StateFits(s'.cpus[c].run.pc, s'.procs[t.p].state)
  {
    var k := s.cpus[c].run.pc.k;
    assert OwnsProc(s.cpus[c], k);
    forall d | 0 <= d < |s.cpus| && s.cpus[d].run.t == Pr(k) && s.procs[k].state.SLEEPING? ensures d == c {
      assert StateFits(s.cpus[d].run.pc, s.procs[k].state);
      assert OwnsProc(s.cpus[d], k);
    }
  }

  // ---- swtch -----------------------------------------------------------------------------------

  lemma SchedTestKeeps(s: State, c: nat)
    requires Inv(s) && Enabled(s, SchedTest(c))
    ensures Inv(Apply(s, SchedTest(c)))
  {
    var s' := Apply(s, SchedTest(c));
    var i := s.cpus[c].run.pc.i;
    assert CpuOk(s.cpus[c], c, |s.procs|) && MaskOk(s.cpus[c], s.procs);
    if s.procs[i].state.RUNNABLE? {
      PickedIdle(s, c);
      SwitchInSane(s, c);
      SwitchInStates(s, c);
      SwitchInLocks(s, c);
      SwitchInScans(s, c);
      SwitchInMasks(s, c);
    } else {
      MoveLocks(s, c, s'.cpus[c]);
      Stepped(s, c, s'.cpus[c], s.locks);
    }
  }

  /** A RUNNABLE process whose lock the scheduler holds is on no CPU. */
  lemma PickedIdle(s: State, c: nat)
    requires SaneI(s) && LockI(s) && StateI(s) && Enabled(s, SchedTest(c)) && s.procs[s.cpus[c].run.pc.i].state.RUNNABLE?
    ensures s.procs[s.cpus[c].run.pc.i].on.None?
  {
    var i := s.cpus[c].run.pc.i;
    assert OwnsProc(s.cpus[c], i) && CpuOk(s.cpus[c], c, |s.procs|);
    if s.procs[i].on.Some? {
      var d := s.procs[i].on.value;
      assert StateFits(s.cpus[d].run.pc, s.procs[i].state);
      assert OwnsProc(s.cpus[d], i);
    }
  }

  ghost predicate SwitchIn(s: State, c: nat) {
    && Enabled(s, SchedTest(c)) && s.procs[s.cpus[c].run.pc.i].state.RUNNABLE? && s.procs[s.cpus[c].run.pc.i].on.None?
  }

  lemma SwitchInSane(s: State, c: nat)
    requires SaneI(s) && StateI(s) && SwitchIn(s, c)
    ensures SaneI(Apply(s, SchedTest(c)))
  {
    assert CpuOk(s.cpus[c], c, |s.procs|);
    hide States, Channels;
  }

  lemma SwitchInStates(s: State, c: nat)
    requires SaneI(s) && StateI(s) && SwitchIn(s, c)
    ensures StateI(Apply(s, SchedTest(c)))
  {
    assert CpuOk(s.cpus[c], c, |s.procs|);
    hide Sane, Framed;
  }

  lemma SwitchInLocks(s: State, c: nat)
    requires SaneI(s) && LockI(s) && LayerI(s) && CondI(s) && SwitchIn(s, c)
    ensures var s' := Apply(s, SchedTest(c)); LockI(s') && LayerI(s') && CondI(s')
  {
    MoveLocks(s, c, Apply(s, SchedTest(c)).cpus[c]);
  }

  lemma SwitchInScans(s: State, c: nat)
    requires SaneI(s) && ScanI(s) && SwitchIn(s, c)
    ensures ScanI(Apply(s, SchedTest(c)))
  {
    var s' := Apply(s, SchedTest(c));
    forall d | 0 <= d < |s.cpus| ensures Swept(s'.cpus[d], s'.procs) { assert Swept(s.cpus[d], s.procs); }
  }

  lemma SwitchInMasks(s: State, c: nat)
    requires SaneI(s) && LockI(s) && LayerI(s) && MaskI(s) && SwitchIn(s, c)
    ensures MaskI(Apply(s, SchedTest(c)))
  {
    var s' := Apply(s, SchedTest(c));
    var i := s.cpus[c].run.pc.i;
    assert OwnsProc(s.cpus[c], i) && PLock(i) in Held(s.locks, c);
    forall d | 0 <= d < |s.cpus| ensures MaskOk(s'.cpus[d], s'.procs) { assert MaskOk(s.cpus[d], s.procs); }
  }

  lemma EnterSchedKeeps(s: State, c: nat)
    requires Inv(s) && Enabled(s, EnterSched(c))
    ensures Inv(Apply(s, EnterSched(c)))
  {
    var s' := Apply(s, EnterSched(c));
    assert CpuOk(s.cpus[c], c, |s.procs|) && MaskOk(s.cpus[c], s.procs);
    if s.cpus[c].mask.layer == 1 {
      SwitchOutSane(s, c);
      SwitchOutStates(s, c);
      SwitchOutLocks(s, c);
      SwitchOutScans(s, c);
    } else {
      MoveLocks(s, c, s'.cpus[c]);
      Stepped(s, c, s'.cpus[c], s.locks);
    }
  }

  lemma SwitchOutSane(s: State, c: nat)
    requires SaneI(s) && StateI(s) && MaskI(s) && Enabled(s, EnterSched(c)) && s.cpus[c].mask.layer == 1
    ensures SaneI(Apply(s, EnterSched(c)))
  {
    assert CpuOk(s.cpus[c], c, |s.procs|) && MaskOk(s.cpus[c], s.procs);
    hide States, Channels, Masks;
  }

  lemma SwitchOutStates(s: State, c: nat)
    requires SaneI(s) && StateI(s) && Enabled(s, EnterSched(c)) && s.cpus[c].mask.layer == 1
    ensures StateI(Apply(s, EnterSched(c)))
  {
    assert CpuOk(s.cpus[c], c, |s.procs|);
    hide Sane, Framed;
  }

  lemma SwitchOutLocks(s: State, c: nat)
    requires SaneI(s) && LockI(s) && LayerI(s) && CondI(s) && Enabled(s, EnterSched(c)) && s.cpus[c].mask.layer == 1
    ensures var s' := Apply(s, EnterSched(c)); LockI(s') && LayerI(s') && CondI(s')
  {
    assert CpuOk(s.cpus[c], c, |s.procs|);
    MoveLocks(s, c, Apply(s, EnterSched(c)).cpus[c]);
  }

  lemma SwitchOutScans(s: State, c: nat)
    requires SaneI(s) && ScanI(s) && MaskI(s) && Enabled(s, EnterSched(c)) && s.cpus[c].mask.layer == 1
    ensures var s' := Apply(s, EnterSched(c)); ScanI(s') && MaskI(s')
  {
    var s' := Apply(s, EnterSched(c));
    assert CpuOk(s.cpus[c], c, |s.procs|);
    forall d | 0 <= d < |s.cpus| ensures Swept(s'.cpus[d], s'.procs) && MaskOk(s'.cpus[d], s'.procs) {
      assert Swept(s.cpus[d], s.procs) && MaskOk(s.cpus[d], s.procs);
    }
  }

  // ---- all steps -----------------------------------------------------------------------------------

  predicate PlainStep(step: Step) {
    step.SchedAcquire? || step.SchedBack? || step.SchedFree? || step.IntrEnter? || step.IntrLeave? || step.Lock? || step.Unlock?
  }

  lemma PlainKeeps(s: State, step: Step)
    requires Inv(s) && Enabled(s, step) && PlainStep(step)
    ensures Inv(Apply(s, step))
  {
    match step
    case SchedAcquire(c) => SchedAcquireKeeps(s, c);
    case SchedBack(c) => SchedBackKeeps(s, c);
    case SchedFree(c) => SchedFreeKeeps(s, c);
    case IntrEnter(c) => IntrKeeps(s, step);
    case IntrLeave(c) => IntrKeeps(s, step);
    case Lock(c, l) => LockKeeps(s, c, l);
    case Unlock(c, l) => UnlockKeeps(s, c, l);
  }

  predicate WakeStep(step: Step) { step.WakeStart? || step.WakeScan? || step.WakeCheck? || step.WakeUnlock? || step.Toggle? }

  lemma WakeKeeps(s: State, step: Step)
    requires Inv(s) && Enabled(s, step) && WakeStep(step)
    ensures Inv(Apply(s, step))
  {
    match step
    case WakeStart(c, chan) => WakeStartKeeps(s, c, chan);
    case WakeScan(c) => WakeScanKeeps(s, c);
    case WakeCheck(c) => WakeCheckKeeps(s, c);
    case WakeUnlock(c) => WakeUnlockKeeps(s, c);
    case Toggle(c) => ToggleKeeps(s, c);
  }

  lemma SwitchKeeps(s: State, step: Step)
    requires Inv(s) && Enabled(s, step) && !PlainStep(step) && !WakeStep(step)
    ensures Inv(Apply(s, step))
  {
    match step
    case SchedTest(c) => SchedTestKeeps(s, c);
    case GiveUp(c) => TakeOwnKeeps(s, step);
    case SleepOn(c, chan) => TakeOwnKeeps(s, step);
    case SetState(c) => SetStateKeeps(s, c);
    case DropCond(c) => DropCondKeeps(s, c);
    case EnterSched(c) => EnterSchedKeeps(s, c);
    case ResumeProc(c) => ResumeProcKeeps(s, c);
    case LeaveProc(c) => LeaveProcKeeps(s, c);
    case RetakeCond(c) => RetakeCondKeeps(s, c);
  }

  lemma StepKeeps(s: State, step: Step)
    requires Inv(s) && Enabled(s, step)
    ensures Inv(Apply(s, step))
  {
    if PlainStep(step) { PlainKeeps(s, step); }
    else if WakeStep(step) { WakeKeeps(s, step); }
    else { SwitchKeeps(s, step); }
  }

  lemma InitHolds(s: State)
    requires Init(s)
    ensures Inv(s)
  {
    forall c ensures Held(s.locks, c) == {} { }
  }
}
