/** A call of virtio_disk_rw: what it takes from its caller and hands back, and where each
    step of it goes on. */
module VirtioCalls {
  import opened VirtioQueue
  import opened VirtioMachine
  import opened VirtioProof
  import opened VirtioTheorems
  import opened VirtioStatus

  // ---- a call and its caller -----------------------------------------------------------------

  /** What a call is on record for is what its caller asked: this buffer, this direction,
      the block and the data in the buffer, from now on. */
  lemma CallAsAsked(s0: State, steps: seq<Step>, p: nat, b: nat, write: bool)
    requires Init(s0) && CanRun(s0, steps) && Enabled(After(s0, steps), Invoke(p, b, write))
    ensures var s := After(s0, steps); var s' := InvokeStep(s, p, b, write);
      && |s'.calls| == |s.calls| + 1 && s'.calls[..|s.calls|] == s.calls && s'.procs[p].tid == |s.calls|
      && var c := s'.calls[|s.calls|];
        && c.b == b && c.write == write && c.blockno == s.bufs[b].blockno && c.data == s.bufs[b].data
        && c.invokedAt == |s.log| && c.event.None? && c.ret.None?
  {
  }

  /** And what it returns with is in the caller's buffer, the lock given up. */
  lemma ReturnsInBuffer(s0: State, steps: seq<Step>, p: nat)
    requires Init(s0) && CanRun(s0, steps) && Enabled(After(s0, steps), Return(p))
    ensures var s := After(s0, steps);
      && Shape(s)
      && var c, c' := s.calls[s.procs[p].tid], ReturnStep(s, p).calls[s.procs[p].tid];
        && c.ret.None? && c.event.Some? && c.b < |s.bufs|
        && c'.ret.Some? && c'.ret.value.data == s.bufs[c.b].data == ReturnStep(s, p).bufs[c.b].data && c' == c.(ret := c'.ret)
        && s.lock == ByProc(p) && ReturnStep(s, p).lock.Unlocked? && ReturnStep(s, p).procs[p].pc.Idle?
  {
    Reached(s0, steps);
    ReturnedCall(After(s0, steps), p);
  }

  lemma ReturnedCall(s: State, p: nat)
    requires Shape(s) && LockI(s) && UnderI(s) && Enabled(s, Return(p))
    ensures var c := s.calls[s.procs[p].tid]; c.b == s.procs[p].b && c.ret.None? && c.event.Some? && s.lock == ByProc(p)
  {
    assert Moved(s.stage, s.procs[p]);
  }

  // ---- the way through a call ----------------------------------------------------------------

  /** Where the process that makes a step goes on: three free descriptors or sleep, the flag
      clear or sleep, and otherwise straight through. */
  ghost function GoesTo(s: State, pc: Pc, b: nat): Pc {
    match pc
    case Idle => Start
    case Start => Pc.Alloc
    case Alloc => if 3 <= |FreeSet(s.q.free)| then Pc.Fill else SleepFree
    case WokeFree => Pc.Alloc
    case Fill => Pc.Put
    case Put => Pc.Bump
    case Bump => Pc.Test
    case Test => if b < |s.bufs| && s.bufs[b].disk then SleepBuf else Pc.Clean
    case WokeBuf => Pc.Test
    case Clean => Exit
    case Exit => Idle
    case _ => pc
  }

  predicate ProcStep(step: Step) {
    step.Invoke? || step.TakeLock? || step.TryAlloc? || step.Fill? || step.Put? || step.Bump? || step.Test? || step.Clean? || step.Return?
  }

  /** No process but p moves, except that sleepers may be woken. */
  ghost predicate OnlyWakes(P: seq<Proc>, P': seq<Proc>, p: nat) {
    |P'| == |P| && forall r :: 0 <= r < |P| && r != p ==>
      P'[r].pc == P[r].pc || (P[r].pc.SleepFree? && P'[r].pc.WokeFree?) || (P[r].pc.SleepBuf? && P'[r].pc.WokeBuf?)
  }

  /** In every run each step of a call goes on to just that place, with vdisk_lock held there
      exactly inside the critical sections. */
  lemma CallGoesOn(s0: State, steps: seq<Step>, step: Step)
    requires Init(s0) && CanRun(s0, steps) && Enabled(After(s0, steps), step) && ProcStep(step)
    ensures var s := After(s0, steps);
      && Shape(s) && step.p < |s.procs|
      && var s' := Apply(s, step);
        && OnlyWakes(s.procs, s'.procs, step.p)
        && s'.procs[step.p].pc == GoesTo(s, s.procs[step.p].pc, s.procs[step.p].b)
        && (InLock(s'.procs[step.p].pc) <==> s'.lock == ByProc(step.p))
  {
    Reached(s0, steps);
    Goes(After(s0, steps), step);
  }

  lemma Goes(s: State, step: Step)
    requires Inv(s) && Enabled(s, step) && ProcStep(step)
    ensures step.p < |s.procs| && OnlyWakes(s.procs, Apply(s, step).procs, step.p)
    ensures var s' := Apply(s, step);
      s'.procs[step.p].pc == GoesTo(s, s.procs[step.p].pc, s.procs[step.p].b) && (InLock(s'.procs[step.p].pc) <==> s'.lock == ByProc(step.p))
  {
    StepKeeps(s, step);
    StepGoes(s, step);
    hide Buffers, Owning, Counted, Formed, Staged, BusyFlags, StatusGood, AvailRing, UsedRing, FreeSleepers, BufSleepers, LogLegal, CallsMatch, Underway, Apply, Enabled, GoesTo, Indexed;
    assert LockI(Apply(s, step));
  }

  lemma StepGoes(s: State, step: Step)
    requires Shape(s) && OwnI(s) && StageI(s) && FormI(s) && Enabled(s, step) && ProcStep(step)
    ensures step.p < |s.procs| && OnlyWakes(s.procs, Apply(s, step).procs, step.p)
    ensures Apply(s, step).procs[step.p].pc == GoesTo(s, s.procs[step.p].pc, s.procs[step.p].b)
  {
    hide FreeSet, Owning, Counted, Formed, Staged;
    if step.TryAlloc? { AllocGoes(s, step.p); } else if step.Clean? { CleanGoes(s, step.p); } else { PlainGoes(s, step); }
  }

  lemma PlainGoes(s: State, step: Step)
    requires Shape(s) && Enabled(s, step) && ProcStep(step) && !step.TryAlloc? && !step.Clean?
    ensures step.p < |s.procs| && OnlyWakes(s.procs, Apply(s, step).procs, step.p)
    ensures Apply(s, step).procs[step.p].pc == GoesTo(s, s.procs[step.p].pc, s.procs[step.p].b)
  {
    hide FreeSet;
    assert step.p < |s.procs|;
    var s' := Apply(s, step);
    assert s'.procs == s.procs[step.p := s'.procs[step.p]];
    hide Apply, Enabled, Format, FirstSector, Indexed;
  }

  lemma AllocSays(s: State)
    requires Shape(s) && OwnI(s)
    ensures Alloc3(s.q.(woken := [])).1.Some? <==> 3 <= |FreeSet(s.q.free)|
  {
    Alloc3Spec(s.q.(woken := []));
    hide Alloc3, FreeSet;
  }

  lemma AllocGoes(s: State, p: nat)
    requires Shape(s) && OwnI(s) && Enabled(s, TryAlloc(p))
    ensures p < |s.procs| && OnlyWakes(s.procs, Apply(s, TryAlloc(p)).procs, p)
    ensures Apply(s, TryAlloc(p)).procs[p].pc == if 3 <= |FreeSet(s.q.free)| then Pc.Fill else SleepFree
  {
    AllocSays(s);
    hide Alloc3, FreeSet, Owning, Counted;
  }

  lemma CleanGoes(s: State, p: nat)
    requires Shape(s) && OwnI(s) && StageI(s) && FormI(s) && Enabled(s, Step.Clean(p))
    ensures p < |s.procs| && OnlyWakes(s.procs, Apply(s, Step.Clean(p)).procs, p) && Apply(s, Step.Clean(p)).procs[p].pc.Exit?
  {
    FinishStatus(s, p);
    hide Finish, Owning, Counted, Formed, Staged;
  }
}
