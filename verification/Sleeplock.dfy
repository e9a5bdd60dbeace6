/** sleeplock.c as a step machine: any number of processes call acquire_sleep and
    release_sleep on one lock. Between two statements anything may happen; sleep gives up
    the inner spinlock and blocks in one step, and wakeup wakes every sleeper on the
    channel, as ProcSleep shows of proc.c. */
module Sleeplock {

  /** Where a process is. In acquire_sleep: about to acquire the inner lock, to test
      `holding`, to set it, to release the inner lock; blocked in sleep, or woken there and
      about to take the inner lock again. Inside: between the two calls. In release_sleep:
      about to acquire, to clear, to wake, to release. */
  datatype Pc =
    | Outside
    | Acquire | Test | Sleeping | Woken | Set | Unlock
    | Inside
    | ReAcquire | Clear | Wake | ReUnlock

  datatype State = State(inner: set<nat>, holding: bool, procs: seq<Pc>)

  datatype Step =
    | Call(p: nat) | TakeInner(p: nat) | TestHolding(p: nat) | Retake(p: nat) | SetHolding(p: nat) | DropInner(p: nat)
    | CallRelease(p: nat) | TakeAgain(p: nat) | ClearHolding(p: nat) | WakeAll(p: nat) | DropAgain(p: nat)

  ghost predicate At(s: State, p: nat, pc: Pc) { p < |s.procs| && s.procs[p] == pc }

  ghost predicate Enabled(s: State, step: Step) {
    match step
    case Call(p) => At(s, p, Outside)
    case TakeInner(p) => At(s, p, Acquire) && s.inner == {}
    case TestHolding(p) => At(s, p, Test)
    case Retake(p) => At(s, p, Woken) && s.inner == {}
    case SetHolding(p) => At(s, p, Set)
    case DropInner(p) => At(s, p, Unlock)
    case CallRelease(p) => At(s, p, Inside)
    case TakeAgain(p) => At(s, p, ReAcquire) && s.inner == {}
    case ClearHolding(p) => At(s, p, Clear)
    case WakeAll(p) => At(s, p, Wake)
    case DropAgain(p) => At(s, p, ReUnlock)
  }

  ghost function Go(s: State, p: nat, pc: Pc): State
    requires p < |s.procs|
  {
    s.(procs := s.procs[p := pc])
  }

  /** wakeup: every sleeper on the lock's channel becomes runnable. */
  ghost function WakeSleepers(procs: seq<Pc>): (r: seq<Pc>)
    ensures |r| == |procs|
    ensures forall p :: 0 <= p < |procs| ==> r[p] == if procs[p].Sleeping? then Woken else procs[p]
  {
    seq(|procs|, p requires 0 <= p < |procs| => if procs[p].Sleeping? then Woken else procs[p])
  }

  ghost function Apply(s: State, step: Step): State
    requires Enabled(s, step)
  {
    match step
    case Call(p) => Go(s, p, Acquire)
    case TakeInner(p) => Go(s, p, Test).(inner := {p})
    case TestHolding(p) => if s.holding then Go(s, p, Sleeping).(inner := s.inner - {p}) else Go(s, p, Set)
    case Retake(p) => Go(s, p, Test).(inner := {p})
    case SetHolding(p) => Go(s, p, Unlock).(holding := true)
    case DropInner(p) => Go(s, p, Inside).(inner := s.inner - {p})
    case CallRelease(p) => Go(s, p, ReAcquire)
    case TakeAgain(p) => Go(s, p, Clear).(inner := {p})
    case ClearHolding(p) => Go(s, p, Wake).(holding := false)
    case WakeAll(p) => s.(procs := WakeSleepers(s.procs)[p := ReUnlock])
    case DropAgain(p) => Go(s, p, Outside).(inner := s.inner - {p})
  }

  /** sleeplock_init, nobody in a call. */
  ghost predicate Init(s: State) {
    s.inner == {} && !s.holding && forall p :: 0 <= p < |s.procs| ==> s.procs[p].Outside?
  }

  ghost predicate CanRun(s: State, steps: seq<Step>)
    decreases |steps|
  {
    steps == [] || (Enabled(s, steps[0]) && CanRun(Apply(s, steps[0]), steps[1..]))
  }

  ghost function After(s: State, steps: seq<Step>): State
    requires CanRun(s, steps)
    decreases |steps|
  {
    if steps == [] then s else After(Apply(s, steps[0]), steps[1..])
  }

  predicate InInner(pc: Pc) { pc.Test? || pc.Set? || pc.Unlock? || pc.Clear? || pc.Wake? || pc.ReUnlock? }

  /** From the store to `holding` to the store that clears it. */
  predicate Owns(pc: Pc) { pc.Unlock? || pc.Inside? || pc.ReAcquire? || pc.Clear? }

  /** Between a returned acquire_sleep and the call of release_sleep, and until that call
      gives the lock up. */
  predicate Between(pc: Pc) { pc.Inside? || pc.ReAcquire? || pc.Clear? }

  /** The inner lock has at most one holder, the process inside its critical section. */
  ghost predicate InnerI(s: State) {
    && (forall p :: 0 <= p < |s.procs| ==> (InInner(s.procs[p]) <==> p in s.inner))
    && (forall p, q :: p in s.inner && q in s.inner ==> p == q)
    && (forall p :: p in s.inner ==> p < |s.procs|)
  }

  /** `holding` says whether some process owns the lock, and no two do. */
  ghost predicate OwnI(s: State) {
    && (forall p, q :: 0 <= p < |s.procs| && 0 <= q < |s.procs| && Owns(s.procs[p]) && Owns(s.procs[q]) ==> p == q)
    && (forall p :: 0 <= p < |s.procs| && Owns(s.procs[p]) ==> s.holding)
    && (s.holding ==> exists p :: 0 <= p < |s.procs| && Owns(s.procs[p]))
  }

  /** A process that found the lock free sets it before anyone else can look. */
  ghost predicate FreeI(s: State) {
    (forall p :: 0 <= p < |s.procs| && (s.procs[p].Set? || s.procs[p].Wake? || s.procs[p].ReUnlock?) ==> !s.holding)
  }

  /** A sleeper waits for a lock that is held, or whose wakeup is about to come. */
  ghost predicate SleepI(s: State) {
    (exists p :: 0 <= p < |s.procs| && s.procs[p].Sleeping?) ==>
      s.holding || exists p :: 0 <= p < |s.procs| && s.procs[p].Wake?
  }

  ghost predicate Inv(s: State) { InnerI(s) && OwnI(s) && FreeI(s) && SleepI(s) }

  lemma InnerKeeps(s: State, step: Step)
    requires InnerI(s) && Enabled(s, step)
    ensures InnerI(Apply(s, step))
  {
  }

  lemma OneKeeps(s: State, step: Step)
    requires InnerI(s) && OwnI(s) && FreeI(s) && Enabled(s, step)
    ensures var s' := Apply(s, step);
      && (forall p, q :: 0 <= p < |s'.procs| && 0 <= q < |s'.procs| && Owns(s'.procs[p]) && Owns(s'.procs[q]) ==> p == q)
      && (forall p :: 0 <= p < |s'.procs| && Owns(s'.procs[p]) ==> s'.holding)
  {
  }

  lemma SomeKeeps(s: State, step: Step)
    requires OwnI(s) && Enabled(s, step) && Apply(s, step).holding
    ensures exists p :: 0 <= p < |Apply(s, step).procs| && Owns(Apply(s, step).procs[p])
  {
    var s' := Apply(s, step);
    if step.SetHolding? {
      assert Owns(s'.procs[step.p]);
    } else {
      var p :| 0 <= p < |s.procs| && Owns(s.procs[p]);
      assert Owns(s'.procs[p]);
    }
  }

  lemma OwnKeeps(s: State, step: Step)
    requires InnerI(s) && OwnI(s) && FreeI(s) && Enabled(s, step)
    ensures OwnI(Apply(s, step))
  {
    OneKeeps(s, step);
    if Apply(s, step).holding { SomeKeeps(s, step); }
    hide Apply, Enabled, InnerI, FreeI;
  }

  lemma FreeKeeps(s: State, step: Step)
    requires InnerI(s) && FreeI(s) && Enabled(s, step)
    ensures FreeI(Apply(s, step))
  {
  }

  lemma SleepKeeps(s: State, step: Step)
    requires InnerI(s) && SleepI(s) && Enabled(s, step)
    ensures SleepI(Apply(s, step))
  {
    var s' := Apply(s, step);
    if step.ClearHolding? {
      assert s'.procs[step.p].Wake?;
    } else if !step.WakeAll? && !s.holding && exists p :: 0 <= p < |s.procs| && s.procs[p].Wake? {
      var w :| 0 <= w < |s.procs| && s.procs[w].Wake?;
      assert s'.procs[w].Wake?;
    }
  }

  lemma StepKeeps(s: State, step: Step)
    requires Inv(s) && Enabled(s, step)
    ensures Inv(Apply(s, step))
  {
    hide InnerI, OwnI, FreeI, SleepI;
    InnerKeeps(s, step);
    OwnKeeps(s, step);
    FreeKeeps(s, step);
    SleepKeeps(s, step);
  }

  lemma {:induction false} RunKeeps(s: State, steps: seq<Step>)
    requires Inv(s) && CanRun(s, steps)
    ensures Inv(After(s, steps))
    decreases |steps|
  {
    if steps != [] {
      StepKeeps(s, steps[0]);
      RunKeeps(Apply(s, steps[0]), steps[1..]);
    }
  }

  /** In every run at most one process is between acquire_sleep and release_sleep. */
  lemma OneHolder(s0: State, steps: seq<Step>, p: nat, q: nat)
    requires Init(s0) && CanRun(s0, steps)
    requires var s := After(s0, steps); p < |s.procs| && q < |s.procs| && Between(s.procs[p]) && Between(s.procs[q])
    ensures p == q && After(s0, steps).holding
  {
    RunKeeps(s0, steps);
  }

  /** In every run, whenever the inner spinlock is free a process asleep on the lock's
      channel implies that the lock is held: none waits for a lock nobody will release. */
  lemma NoStrandedSleeper(s0: State, steps: seq<Step>, p: nat)
    requires Init(s0) && CanRun(s0, steps)
    requires var s := After(s0, steps); s.inner == {} && At(s, p, Sleeping)
    ensures var s := After(s0, steps); s.holding && exists q :: 0 <= q < |s.procs| && Between(s.procs[q])
  {
    RunKeeps(s0, steps);
    var s := After(s0, steps);
    var q :| 0 <= q < |s.procs| && Owns(s.procs[q]);
    assert Between(s.procs[q]);
  }

  /** `holding` is exactly whether someone owns the lock. */
  lemma HoldingExact(s0: State, steps: seq<Step>)
    requires Init(s0) && CanRun(s0, steps)
    ensures var s := After(s0, steps); s.holding <==> exists p :: 0 <= p < |s.procs| && Owns(s.procs[p])
  {
    RunKeeps(s0, steps);
  }

  // ---- the lock as one word ---------------------------------------------------------------

  ghost function Owners(s: State): set<nat> { set p: nat | p < |s.procs| && Owns(s.procs[p]) }

  /** Seen from outside the lock is one step to take and one to give up: in every reachable
      state a step changes who owns it only so: the store to `holding` makes its process
      the owner when nobody is, the store that clears it makes nobody the owner when that
      process is. */
  lemma LockIsAtomic(s0: State, steps: seq<Step>, step: Step)
    requires Init(s0) && CanRun(s0, steps) && Enabled(After(s0, steps), step)
    ensures var s := After(s0, steps); var s' := Apply(s, step);
      match step
      case SetHolding(p) => Owners(s) == {} && Owners(s') == {p}
      case ClearHolding(p) => Owners(s) == {p} && Owners(s') == {}
      case _ => Owners(s') == Owners(s)
  {
    RunKeeps(s0, steps);
    OwnersChange(After(s0, steps), step);
  }

  lemma OwnersChange(s: State, step: Step)
    requires InnerI(s) && OwnI(s) && FreeI(s) && Enabled(s, step)
    ensures var s' := Apply(s, step);
      match step
      case SetHolding(p) => Owners(s) == {} && Owners(s') == {p}
      case ClearHolding(p) => Owners(s) == {p} && Owners(s') == {}
      case _ => Owners(s') == Owners(s)
  {
    var s' := Apply(s, step);
    if step.SetHolding? {
      assert s.procs[step.p].Set?;
    } else if step.ClearHolding? {
      assert Owns(s.procs[step.p]);
    }
  }

  /** Where a process that makes a step goes on: to sleep while the lock is held, else
      straight through acquire_sleep, and straight through release_sleep. */
  function GoesTo(pc: Pc, holding: bool): Pc {
    match pc
    case Outside => Acquire
    case Acquire => Test
    case Test => if holding then Sleeping else Set
    case Woken => Test
    case Set => Unlock
    case Unlock => Inside
    case Inside => ReAcquire
    case ReAcquire => Clear
    case Clear => Wake
    case Wake => ReUnlock
    case ReUnlock => Outside
    case Sleeping => Sleeping
  }

  /** Every step of a call goes on to just that place, in every run, holding the inner lock
      there exactly inside the critical sections; the release wakes every sleeper, and no
      other process moves. */
  lemma CallGoesOn(s0: State, steps: seq<Step>, step: Step)
    requires Init(s0) && CanRun(s0, steps) && Enabled(After(s0, steps), step)
    ensures var s := After(s0, steps); var s' := Apply(s, step);
      && step.p < |s.procs| == |s'.procs|
      && s'.procs[step.p] == GoesTo(s.procs[step.p], s.holding) && (InInner(s'.procs[step.p]) <==> step.p in s'.inner)
      && forall q :: 0 <= q < |s.procs| && q != step.p ==> s'.procs[q] == if step.WakeAll? && s.procs[q].Sleeping? then Woken else s.procs[q]
  {
    RunKeeps(s0, steps);
    StepKeeps(After(s0, steps), step);
    hide OwnI, FreeI, SleepI, GoesTo, Apply, Enabled;
    Goes(After(s0, steps), step);
  }

  lemma Goes(s: State, step: Step)
    requires Enabled(s, step)
    ensures var s' := Apply(s, step);
      && step.p < |s.procs| == |s'.procs| && s'.procs[step.p] == GoesTo(s.procs[step.p], s.holding)
      && forall q :: 0 <= q < |s.procs| && q != step.p ==> s'.procs[q] == if step.WakeAll? && s.procs[q].Sleeping? then Woken else s.procs[q]
  {
  }
}
