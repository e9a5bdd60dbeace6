/** Interrupt masking around spin locks: push_inter_off and pop_inter_off on one CPU.  The
    masking follows the stated rule: the first push records whether interrupts were already
    off and turns them off, the last pop turns them on again unless they were. */
module Spinlock {

  /** lock_layer, interrupt_disabled and the hardware's SSTATUS_SIE of one CPU. */
  datatype Mask = Mask(layer: nat, disabled: bool, sie: bool)

  function Push(m: Mask): Mask {
    if m.layer == 0 then Mask(1, !m.sie, false) else Mask(m.layer + 1, m.disabled, m.sie)
  }

  /** Only called with a layer to pop. */
  function Pop(m: Mask): Mask
    requires m.layer > 0
  {
    Mask(m.layer - 1, m.disabled, if m.layer == 1 && !m.disabled then true else m.sie)
  }

  /** Interrupts are off while anything is pushed. */
  predicate Sound(m: Mask) { m.layer > 0 ==> !m.sie }

  datatype Op = PushOp | PopOp

  /** A sequence of pushes and pops that never pops more than it pushed. */
  predicate Nested(depth: nat, ops: seq<Op>)
    decreases |ops|
  {
    if ops == [] then true
    else if ops[0].PushOp? then Nested(depth + 1, ops[1..])
    else depth > 0 && Nested(depth - 1, ops[1..])
  }

  function DepthAfter(depth: nat, ops: seq<Op>): nat
    requires Nested(depth, ops)
    decreases |ops|
  {
    if ops == [] then depth
    else if ops[0].PushOp? then DepthAfter(depth + 1, ops[1..])
    else DepthAfter(depth - 1, ops[1..])
  }

  function RunOps(m: Mask, ops: seq<Op>): Mask
    requires Nested(m.layer, ops)
    decreases |ops|
  {
    if ops == [] then m
    else if ops[0].PushOp? then RunOps(Push(m), ops[1..])
    else RunOps(Pop(m), ops[1..])
  }

  /** However acquires and releases nest, interrupts are off whenever something is pushed,
      and are back as they were, `on`, whenever nothing is. */
  lemma {:induction false} NestingRestores(m: Mask, ops: seq<Op>, on: bool)
    requires Nested(m.layer, ops) && Sound(m)
    requires if m.layer == 0 then m.sie == on else m.disabled == !on
    ensures var r := RunOps(m, ops);
      && Sound(r) && r.layer == DepthAfter(m.layer, ops)
      && (if r.layer == 0 then r.sie == on else r.disabled == !on)
    decreases |ops|
  {
    if ops != [] {
      NestingRestores(if ops[0].PushOp? then Push(m) else Pop(m), ops[1..], on);
    }
  }

  /** struct cpu's masking fields, updated in place. */
  class CpuMask {
    var lockLayer: nat
    var interruptDisabled: bool
    var sie: bool

    function Abs(): Mask
      reads this
    {
      Mask(lockLayer, interruptDisabled, sie)
    }

    constructor (on: bool)
      ensures Abs() == Mask(0, false, on)
    {
      lockLayer, interruptDisabled, sie := 0, false, on;
    }

    method PushInterOff()
      modifies this
      ensures Abs() == Push(old(Abs()))
    {
      var layer := lockLayer;
      if layer == 0 {
        interruptDisabled := !sie;
        sie := false;
      }
      lockLayer := layer + 1;
    }

    method PopInterOff()
      requires lockLayer > 0
      modifies this
      ensures Abs() == Pop(old(Abs()))
    {
      lockLayer := lockLayer - 1;
      if lockLayer == 0 && !interruptDisabled { sie := true; }
    }
  }
}

/** The lock word under atomic swaps by any number of CPUs: acquire's loop swaps in 0 until
    it gets a 1 back, release swaps in a 1. */
module SpinWord {
  datatype Spin = Outside | Trying | Inside

  datatype State = State(available: nat, cpus: seq<Spin>)

  datatype Step = Begin(c: nat) | SwapZero(c: nat) | SwapOne(c: nat)

  ghost predicate Enabled(s: State, step: Step) {
    && step.c < |s.cpus|
    && match step
       case Begin(c) => s.cpus[c].Outside?
       case SwapZero(c) => s.cpus[c].Trying?
       case SwapOne(c) => s.cpus[c].Inside?
  }

  ghost function Apply(s: State, step: Step): State
    requires Enabled(s, step)
  {
    match step
    case Begin(c) => s.(cpus := s.cpus[c := Trying])
    case SwapZero(c) => State(0, if s.available == 0 then s.cpus else s.cpus[c := Inside])
    case SwapOne(c) => State(1, s.cpus[c := Outside])
  }

  /** spinlock_init. */
  ghost predicate Init(s: State) { s.available == 1 && forall c :: 0 <= c < |s.cpus| ==> s.cpus[c].Outside? }

  ghost predicate Inv(s: State) {
    && s.available <= 1
    && (forall c :: 0 <= c < |s.cpus| && s.cpus[c].Inside? ==> s.available == 0)
    && (forall c, d :: 0 <= c < |s.cpus| && 0 <= d < |s.cpus| && s.cpus[c].Inside? && s.cpus[d].Inside? ==> c == d)
    && (s.available == 0 ==> exists c :: 0 <= c < |s.cpus| && s.cpus[c].Inside?)
  }

  lemma StepKeeps(s: State, step: Step)
    requires Inv(s) && Enabled(s, step)
    ensures Inv(Apply(s, step))
  {
    var s' := Apply(s, step);
    if s'.available == 0 {
      if s.available == 0 {
        var c :| 0 <= c < |s.cpus| && s.cpus[c].Inside?;
        assert s'.cpus[c].Inside?;
      } else {
        assert s'.cpus[step.c].Inside?;
      }
    }
  }

  ghost predicate CanRun(s: State, steps: seq<Step>)
    decreases |steps|
  {
    steps == [] || (Enabled(s, steps[0]) && CanRun(Apply(s, steps[0]), steps[1..]))
  }

  ghost function After(s: State, steps: seq<Step>): State
    requires CanRun(s, steps)
    decreases |steps|
  {
    if steps == [] then s else After(Apply(s, steps[0]), steps[1..])
  }

  lemma {:induction false} RunKeeps(s: State, steps: seq<Step>)
    requires Inv(s) && CanRun(s, steps)
    ensures Inv(After(s, steps))
    decreases |steps|
  {
    if steps != [] {
      StepKeeps(s, steps[0]);
      RunKeeps(Apply(s, steps[0]), steps[1..]);
    }
  }

  /** In every run at most one CPU is past acquire and not past release, and the next swap
      gets through exactly when none is. */
  lemma OneInside(s0: State, steps: seq<Step>)
    requires Init(s0) && CanRun(s0, steps)
    ensures var s := After(s0, steps);
      && (forall c, d :: 0 <= c < |s.cpus| && 0 <= d < |s.cpus| && s.cpus[c].Inside? && s.cpus[d].Inside? ==> c == d)
      && (s.available != 0 <==> forall c :: 0 <= c < |s.cpus| ==> !s.cpus[c].Inside?)
  {
    RunKeeps(s0, steps);
  }

  ghost function Insiders(s: State): set<nat> { set c: nat | c < |s.cpus| && s.cpus[c].Inside? }

  /** A swap by acquire gets its CPU inside exactly when none is there, and changes nothing
      otherwise; release leaves nobody inside; and no other step lets anyone in or out. */
  lemma SwapExact(s0: State, steps: seq<Step>, step: Step)
    requires Init(s0) && CanRun(s0, steps) && Enabled(After(s0, steps), step)
    ensures var s := After(s0, steps); var s' := Apply(s, step);
      match step
      case Begin(c) => Insiders(s') == Insiders(s) && s'.cpus[c].Trying?
      case SwapZero(c) => if Insiders(s) == {} then Insiders(s') == {c} else s' == s
      case SwapOne(c) => Insiders(s) == {c} && Insiders(s') == {} && s'.available == 1 && s'.cpus[c].Outside?
  {
    RunKeeps(s0, steps);
    SwapOnce(After(s0, steps), step);
  }

  lemma WordSays(s: State)
    requires Inv(s)
    ensures s.available == 0 <==> Insiders(s) != {}
  {
    if s.available == 0 {
      var d :| 0 <= d < |s.cpus| && s.cpus[d].Inside?;
      assert d in Insiders(s);
    }
  }

  lemma SwapOnce(s: State, step: Step)
    requires Inv(s) && Enabled(s, step)
    ensures var s' := Apply(s, step);
      match step
      case Begin(c) => Insiders(s') == Insiders(s) && s'.cpus[c].Trying?
      case SwapZero(c) => if Insiders(s) == {} then Insiders(s') == {c} else s' == s
      case SwapOne(c) => Insiders(s) == {c} && Insiders(s') == {} && s'.available == 1 && s'.cpus[c].Outside?
  {
    WordSays(s);
    assert forall d :: 0 <= d < |s.cpus| && s.cpus[d].Inside? ==> d in Insiders(s);
  }
}
