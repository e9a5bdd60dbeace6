/** The status byte of a request, from 0xff at its formatting to the device's answer, the
    buffer that info[] remembers, and the handler's loop. */
module VirtioStatus {
  import opened Common
  import opened VirtioQueue
  import opened VirtioMachine
  import opened VirtioProof
  import opened VirtioTheorems

  /** A request just formatted is not taken for a success: were it in the used ring before
      the device has answered, the handler would panic. */
  lemma UnansweredRejected(q: Queue, c: Chain, b: nat, write: bool, sector: nat)
    requires q.Shape()
    ensures var f := Format(q, c, b, write, sector);
      f.info[c.i0].status != 0 && (f.used[SlotOf(f.seen)] == c.i0 ==> TakeUsed(f).None?)
  {
  }

  /** Process p's request is formatted, and the device has not performed it. */
  predicate Due(pr: Proc, stage: seq<Stage>)
    requires |stage| == NUM
  {
    pr.pc.Put? || pr.pc.Bump? || (Published(pr.pc) && (stage[pr.c.i0].Avail? || stage[pr.c.i0].Fetched?))
  }

  ghost predicate Unanswered(procs: seq<Proc>, stage: seq<Stage>, info: seq<Info>) {
    && |stage| == |info| == NUM
    && forall p :: 0 <= p < |procs| && Due(procs[p], stage) ==> info[procs[p].c.i0].status != 0
  }

  ghost predicate UnansweredI(s: State) { Unanswered(s.procs, s.stage, s.q.info) }

  /** Nobody comes to have a due request, and no status changes. */
  lemma NothingDue(s: State, s': State)
    requires UnansweredI(s) && |s'.procs| == |s.procs| && |s'.stage| == |s'.q.info| == NUM
    requires forall p :: 0 <= p < |s.procs| && Due(s'.procs[p], s'.stage) ==> Due(s.procs[p], s.stage) && s'.procs[p].c == s.procs[p].c
    requires forall i :: 0 <= i < NUM ==> s'.q.info[i].status == s.q.info[i].status
    ensures UnansweredI(s')
  {
  }

  lemma QuietStep(s: State, step: Step)
    requires Shape(s) && UnansweredI(s) && Enabled(s, step)
    requires step.ClientSet? || step.TakeLock? || step.Return? || step.Test? || step.Put? || step.IntrLock? || step.IntrTest? || step.DevPost?
    ensures UnansweredI(Apply(s, step))
  {
    var s' := Apply(s, step);
    assert s'.q.info == s.q.info && s'.stage == s.stage && |s'.procs| == |s.procs|;
    NothingDue(s, s');
  }

  lemma InvokeUnanswered(s: State, p: nat, b: nat, write: bool)
    requires Shape(s) && UnansweredI(s) && Enabled(s, Invoke(p, b, write))
    ensures UnansweredI(Apply(s, Invoke(p, b, write)))
  {
    NothingDue(s, Apply(s, Invoke(p, b, write)));
  }

  lemma AllocInfo(s: State)
    requires Shape(s) && OwnI(s)
    ensures Alloc3(s.q.(woken := [])).0.info == s.q.info
  {
    Alloc3Spec(s.q.(woken := []));
    hide Alloc3, FreeSet, Owning, Counted;
  }

  lemma AllocUnanswered(s: State, p: nat)
    requires Shape(s) && OwnI(s) && UnansweredI(s) && Enabled(s, TryAlloc(p))
    ensures UnansweredI(Apply(s, TryAlloc(p)))
  {
    AllocInfo(s);
    hide Alloc3, Owning, Counted, Unanswered, TryAllocStep;
    TriedUnanswered(s, p);
  }

  lemma TriedUnanswered(s: State, p: nat)
    requires Shape(s) && UnansweredI(s) && At(s, p, Pc.Alloc) && Alloc3(s.q.(woken := [])).0.info == s.q.info
    ensures UnansweredI(TryAllocStep(s, p))
  {
    hide Alloc3;
    var s' := TryAllocStep(s, p);
    assert s'.stage == s.stage && s'.q.info == s.q.info && |s'.procs| == |s.procs|;
    NothingDue(s, s');
  }

  lemma FillUnanswered(s: State, p: nat)
    requires Shape(s) && OwnI(s) && UnansweredI(s) && Enabled(s, Step.Fill(p))
    ensures UnansweredI(Apply(s, Step.Fill(p)))
  {
    var s' := FillStep(s, p);
    forall r | 0 <= r < |s'.procs| && Due(s'.procs[r], s'.stage) ensures s'.q.info[s'.procs[r].c.i0].status != 0 {
      if r != p { ChainsApart(s, p, r); }
    }
  }

  lemma BumpUnanswered(s: State, p: nat)
    requires Shape(s) && OwnI(s) && UnansweredI(s) && Enabled(s, Step.Bump(p))
    ensures UnansweredI(Apply(s, Step.Bump(p)))
  {
    var s' := BumpStep(s, p);
    forall r | 0 <= r < |s'.procs| && Due(s'.procs[r], s'.stage) ensures s'.q.info[s'.procs[r].c.i0].status != 0 {
      if r != p && HasChain(s.procs[r].pc) { ChainsApart(s, p, r); }
    }
  }

  lemma FinishStatus(s: State, p: nat)
    requires Shape(s) && OwnI(s) && StageI(s) && FormI(s) && At(s, p, Pc.Clean)
    ensures var r := Finish(s.q.(woken := []), s.procs[p].c.i0);
      r.Some? && forall i :: 0 <= i < NUM ==> r.value.info[i].status == s.q.info[i].status
  {
    ChainBusy(s, p);
    FinishSpec(s.q.(woken := []), s.procs[p]);
    hide Finish, Owning, Counted, Formed, Staged, FormattedAs;
  }

  /** What the clean-up does to calls, stages and info[], apart from the chain. */
  lemma CleanShape(s: State, p: nat)
    requires Shape(s) && p < |s.procs| && Finish(s.q.(woken := []), s.procs[p].c.i0).Some?
    ensures var c, s' := s.procs[p].c, CleanStep(s, p); var q := Finish(s.q.(woken := []), c.i0).value;
      && s'.q.info == q.info && s'.stage == s.stage[c.i0 := NoReq] && s'.procs == WakeAll(s.procs, q.woken)[p := s.procs[p].(pc := Exit)]
      && s'.owner == s.owner[c.i0 := None][c.i1 := None][c.i2 := None]
  {
    hide Finish;
  }

  lemma CleanUnanswered(s: State, p: nat)
    requires Shape(s) && OwnI(s) && StageI(s) && FormI(s) && UnansweredI(s) && Enabled(s, Step.Clean(p))
    ensures UnansweredI(Apply(s, Step.Clean(p)))
  {
    FinishStatus(s, p);
    hide Finish, Owning, Counted, Formed, Staged, Unanswered;
    CleanedStatus(s, p);
  }

  lemma CleanedStatus(s: State, p: nat)
    requires Shape(s) && UnansweredI(s) && At(s, p, Pc.Clean)
    requires var r := Finish(s.q.(woken := []), s.procs[p].c.i0); r.Some? && forall i :: 0 <= i < NUM ==> r.value.info[i].status == s.q.info[i].status
    ensures UnansweredI(CleanStep(s, p))
  {
    CleanShape(s, p);
    hide Finish, Unanswered, CleanStep, Indexed;
    var q, s' := Finish(s.q.(woken := []), s.procs[p].c.i0).value, CleanStep(s, p);
    FewerDue(s.procs, s.stage, s.q.info, WakeAll(s.procs, q.woken), p, s.procs[p].(pc := Exit), s'.stage, s'.q.info);
  }

  lemma FewerDue(procs: seq<Proc>, stage: seq<Stage>, info: seq<Info>, woken: seq<Proc>, p: nat, x: Proc, stage': seq<Stage>, info': seq<Info>)
    requires Unanswered(procs, stage, info) && |woken| == |procs| && p < |procs| && x.pc.Exit? && |stage'| == |info'| == NUM
    requires forall i :: 0 <= i < NUM ==> info'[i].status == info[i].status && (stage'[i] == stage[i] || stage'[i].NoReq?)
    requires forall r :: 0 <= r < |procs| ==> woken[r] == procs[r] || (woken[r] == procs[r].(pc := WokeBuf) && procs[r].pc.SleepBuf?) || woken[r].pc.WokeFree?
    ensures Unanswered(woken[p := x], stage', info')
  {
  }

  lemma IntrBodyUnanswered(s: State)
    requires Shape(s) && UnansweredI(s) && Enabled(s, IntrBody)
    ensures UnansweredI(Apply(s, IntrBody))
  {
    TakenInfo(s.q.(woken := []));
    hide TakeUsed;
    var s' := IntrBodyStep(s);
    assert |s'.procs| == |s.procs| && s'.q.info == s.q.info;
    NothingDue(s, s');
  }

  lemma TakenInfo(q: Queue)
    requires q.Shape()
    ensures TakeUsed(q).Some? ==> TakeUsed(q).value.0.info == q.info
  {
  }

  lemma FetchUnanswered(s: State)
    requires Shape(s) && AvailI(s) && UnansweredI(s) && Enabled(s, DevFetch)
    ensures UnansweredI(Apply(s, DevFetch))
  {
    FetchHead(s);
    NothingDue(s, DevFetchStep(s));
  }

  lemma BumpUsedUnanswered(s: State)
    requires Shape(s) && UnansweredI(s) && Enabled(s, DevBump)
    ensures UnansweredI(Apply(s, DevBump))
  {
    NothingDue(s, DevBumpStep(s));
  }

  /** The device answers the request it has performed, and no other. */
  lemma PerformUnanswered(s: State, h: nat)
    requires Shape(s) && OwnI(s) && FormI(s) && StageI(s) && BufI(s) && UnansweredI(s) && Enabled(s, DevPerform(h))
    ensures UnansweredI(Apply(s, DevPerform(h)))
  {
    var p := FetchedCall(s, h);
    PerformedStatus(s, h);
    forall r | 0 <= r < |s.procs| && HasChain(s.procs[r].pc) && !Published(s.procs[r].pc) ensures s.stage[s.procs[r].c.i0].NoReq? { HeadUnstaged(s, r); }
    AnsweredOne(s.procs, s.stage, s.q.info, h);
  }

  lemma AnsweredOne(procs: seq<Proc>, stage: seq<Stage>, info: seq<Info>, h: nat)
    requires Unanswered(procs, stage, info) && h < NUM && stage[h].Fetched?
    requires forall r :: 0 <= r < |procs| && HasChain(procs[r].pc) && !Published(procs[r].pc) ==> stage[procs[r].c.i0].NoReq?
    ensures Unanswered(procs, stage[h := Performed], info[h := info[h].(status := 0)])
  {
  }

  lemma PerformedStatus(s: State, h: nat)
    requires Shape(s) && h < NUM && Decode(s.q, h).Some? && Decode(s.q, h).value.statusAt == h
    ensures var s' := DevPerformStep(s, h);
      s'.procs == s.procs && (s' == Fault(s) || (s'.stage == s.stage[h := Performed] && s'.q.info == s.q.info[h := s.q.info[h].(status := 0)]))
  {
    hide Decode, FirstSector;
  }

  lemma StepUnanswered(s: State, step: Step)
    requires Inv(s) && UnansweredI(s) && Enabled(s, step)
    ensures UnansweredI(Apply(s, step))
  {
    hide Unanswered, Locking, Buffers, Owning, Counted, Formed, Staged, BusyFlags, StatusGood, AvailRing, UsedRing, FreeSleepers, BufSleepers, LogLegal, CallsMatch, Underway, Apply;
    match step
    case Invoke(p, b, write) => InvokeUnanswered(s, p, b, write);
    case TryAlloc(p) => AllocUnanswered(s, p);
    case Fill(p) => FillUnanswered(s, p);
    case Bump(p) => BumpUnanswered(s, p);
    case Clean(p) => CleanUnanswered(s, p);
    case IntrBody => IntrBodyUnanswered(s);
    case DevFetch => FetchUnanswered(s);
    case DevPerform(h) => PerformUnanswered(s, h);
    case DevBump => BumpUsedUnanswered(s);
    case _ => QuietStep(s, step);
  }

  lemma {:induction false} RunUnanswered(s: State, steps: seq<Step>)
    requires Inv(s) && UnansweredI(s) && CanRun(s, steps)
    ensures Inv(After(s, steps)) && UnansweredI(After(s, steps))
    decreases |steps|
  {
    hide Inv, UnansweredI, Apply, Enabled;
    if steps != [] {
      StepKeeps(s, steps[0]);
      StepUnanswered(s, steps[0]);
      RunUnanswered(Apply(s, steps[0]), steps[1..]);
    }
  }

  /** In every run the status byte of a request tells whether the device has answered: it is
      not 0 while the request waits for the device or is being performed, and 0 from then
      until it is drained; so the handler accepts what was performed and nothing else. */
  lemma StatusIsAnswer(s0: State, steps: seq<Step>, h: nat)
    requires Init(s0) && CanRun(s0, steps) && h < NUM
    ensures var s := After(s0, steps);
      && |s.stage| == |s.q.info| == NUM
      && (s.stage[h].Avail? || s.stage[h].Fetched? ==> s.q.info[h].status != 0)
      && (s.stage[h].Performed? || s.stage[h].Used? ==> s.q.info[h].status == 0)
  {
    InitHolds(s0);
    RunUnanswered(s0, steps);
    HeadUnanswered(After(s0, steps), h);
  }

  lemma HeadUnanswered(s: State, h: nat)
    requires StageI(s) && StatusI(s) && UnansweredI(s) && h < NUM
    ensures s.stage[h].Avail? || s.stage[h].Fetched? ==> s.q.info[h].status != 0
    ensures s.stage[h].Performed? || s.stage[h].Used? ==> s.q.info[h].status == 0
  {
    if s.stage[h].Avail? || s.stage[h].Fetched? {
      var p := s.owner[h].value;
      assert Due(s.procs[p], s.stage);
    }
  }

  // ---- info[] ------------------------------------------------------------------------------

  /** info[] names a buffer only for the head of a formatted request. */
  ghost predicate Named(info: seq<Info>, owner: seq<Option<nat>>, procs: seq<Proc>) {
    && |info| == |owner| == NUM
    && forall i :: 0 <= i < NUM && info[i].b.Some? ==>
         owner[i].Some? && owner[i].value < |procs| && Filled(procs[owner[i].value].pc) && procs[owner[i].value].c.i0 == i
  }

  ghost predicate NamedI(s: State) { Named(s.q.info, s.owner, s.procs) }

  lemma SameNames(s: State, s': State)
    requires NamedI(s) && |s'.procs| == |s.procs| && |s'.q.info| == NUM && s'.owner == s.owner
    requires forall r :: 0 <= r < |s.procs| && Filled(s.procs[r].pc) ==> Filled(s'.procs[r].pc) && s'.procs[r].c == s.procs[r].c
    requires forall i :: 0 <= i < NUM ==> s'.q.info[i].b == s.q.info[i].b
    ensures NamedI(s')
  {
  }

  lemma QuietNames(s: State, step: Step)
    requires Shape(s) && NamedI(s) && Enabled(s, step) && !step.TryAlloc? && !step.Fill? && !step.Clean? && !step.IntrBody? && !step.DevPerform?
    ensures NamedI(Apply(s, step))
  {
    hide FirstSector, Decode;
    var s' := Apply(s, step);
    assert s'.q.info == s.q.info && s'.owner == s.owner && |s'.procs| == |s.procs|;
    SameNames(s, s');
  }

  lemma PerformNames(s: State, h: nat)
    requires Shape(s) && NamedI(s) && Enabled(s, DevPerform(h))
    ensures NamedI(Apply(s, DevPerform(h)))
  {
    hide FirstSector, Decode;
    SameNames(s, DevPerformStep(s, h));
  }

  lemma IntrBodyNames(s: State)
    requires Shape(s) && NamedI(s) && Enabled(s, IntrBody)
    ensures NamedI(Apply(s, IntrBody))
  {
    TakenInfo(s.q.(woken := []));
    hide TakeUsed;
    SameNames(s, IntrBodyStep(s));
  }

  lemma AllocChain(s: State)
    requires Shape(s) && OwnI(s)
    ensures var r := Alloc3(s.q.(woken := [])).1;
      r.Some? ==> s.owner[r.value.i0].None? && s.owner[r.value.i1].None? && s.owner[r.value.i2].None?
  {
    Alloc3Spec(s.q.(woken := []));
    hide Alloc3, Counted;
    var r := Alloc3(s.q.(woken := [])).1;
    if r.Some? { InFreeSet(s.q.free, r.value); }
  }

  lemma AllocNames(s: State, p: nat)
    requires Shape(s) && OwnI(s) && NamedI(s) && Enabled(s, TryAlloc(p))
    ensures NamedI(Apply(s, TryAlloc(p)))
  {
    AllocInfo(s);
    AllocChain(s);
    TryAllocIs(s, p);
    hide Alloc3, Owning, Counted, Named, TryAllocStep;
    var s', r := TryAllocStep(s, p), Alloc3(s.q.(woken := [])).1;
    match r
    case Some(c) => TakenNames(s.q.info, s.owner, s.procs, p, s'.procs[p], c);
    case None => AsleepNames(s.q.info, s.owner, s.procs, s'.procs, p);
  }

  lemma TryAllocIs(s: State, p: nat)
    requires Shape(s) && p < |s.procs| && !Filled(s.procs[p].pc)
    ensures var s', r := TryAllocStep(s, p), Alloc3(s.q.(woken := [])).1;
      && s'.q.info == Alloc3(s.q.(woken := [])).0.info && |s'.procs| == |s.procs|
      && match r
         case Some(c) => s'.owner == s.owner[c.i0 := Some(p)][c.i1 := Some(p)][c.i2 := Some(p)] && s'.procs == s.procs[p := s'.procs[p]]
         case None => s'.owner == s.owner
                      && forall r :: 0 <= r < |s.procs| && Filled(s.procs[r].pc) ==> Filled(s'.procs[r].pc) && s'.procs[r].c == s.procs[r].c
  {
    hide Alloc3;
  }

  lemma TakenNames(info: seq<Info>, owner: seq<Option<nat>>, procs: seq<Proc>, p: nat, x: Proc, c: Chain)
    requires Named(info, owner, procs) && p < |procs| && !Filled(procs[p].pc) && owner[c.i0].None? && owner[c.i1].None? && owner[c.i2].None?
    ensures Named(info, owner[c.i0 := Some(p)][c.i1 := Some(p)][c.i2 := Some(p)], procs[p := x])
  {
  }

  lemma AsleepNames(info: seq<Info>, owner: seq<Option<nat>>, procs: seq<Proc>, procs': seq<Proc>, p: nat)
    requires Named(info, owner, procs) && |procs'| == |procs| && p < |procs| && !Filled(procs[p].pc)
    requires forall r :: 0 <= r < |procs| && r != p && Filled(procs[r].pc) ==> Filled(procs'[r].pc) && procs'[r].c == procs[r].c
    ensures Named(info, owner, procs')
  {
  }

  lemma FillNames(s: State, p: nat)
    requires Shape(s) && OwnI(s) && NamedI(s) && Enabled(s, Step.Fill(p))
    ensures NamedI(Apply(s, Step.Fill(p)))
  {
  }

  lemma FinishNames(s: State, p: nat)
    requires Shape(s) && OwnI(s) && StageI(s) && FormI(s) && At(s, p, Pc.Clean)
    ensures var h := s.procs[p].c.i0; var r := Finish(s.q.(woken := []), h);
      r.Some? && r.value.info[h].b.None? && forall i :: 0 <= i < NUM && i != h ==> r.value.info[i].b == s.q.info[i].b
  {
    ChainBusy(s, p);
    FinishSpec(s.q.(woken := []), s.procs[p]);
    hide Finish, Owning, Counted, Formed, Staged, FormattedAs;
  }

  lemma CleanNames(s: State, p: nat)
    requires Shape(s) && OwnI(s) && StageI(s) && FormI(s) && NamedI(s) && Enabled(s, Step.Clean(p))
    ensures NamedI(Apply(s, Step.Clean(p)))
  {
    FinishNames(s, p);
    assert Owning(s.q.desc, s.q.free, s.owner, s.procs);
    hide Finish, Counted, Formed, Staged, Named, CleanStep, Indexed;
    CleanedNames(s, p);
  }

  lemma CleanedNames(s: State, p: nat)
    requires Shape(s) && NamedI(s) && At(s, p, Pc.Clean)
    requires var c := s.procs[p].c; s.owner[c.i0] == s.owner[c.i1] == s.owner[c.i2] == Some(p)
    requires var h := s.procs[p].c.i0; var r := Finish(s.q.(woken := []), h);
      r.Some? && r.value.info[h].b.None? && forall i :: 0 <= i < NUM && i != h ==> r.value.info[i].b == s.q.info[i].b
    ensures NamedI(CleanStep(s, p))
  {
    CleanShape(s, p);
    hide Finish, Named, CleanStep, Indexed;
    var s' := CleanStep(s, p);
    ForgetNames(s.q.info, s.owner, s.procs, s'.q.info, s'.procs, p, s.procs[p].c);
  }

  lemma ForgetNames(info: seq<Info>, owner: seq<Option<nat>>, procs: seq<Proc>, info': seq<Info>, procs': seq<Proc>, p: nat, c: Chain)
    requires Named(info, owner, procs) && |info'| == NUM && p < |procs| == |procs'| && procs[p].c == c
    requires owner[c.i0] == owner[c.i1] == owner[c.i2] == Some(p)
    requires info'[c.i0].b.None? && forall i :: 0 <= i < NUM && i != c.i0 ==> info'[i].b == info[i].b
    requires forall r :: 0 <= r < |procs| && r != p && Filled(procs[r].pc) ==> Filled(procs'[r].pc) && procs'[r].c == procs[r].c
    ensures Named(info', owner[c.i0 := None][c.i1 := None][c.i2 := None], procs')
  {
    var owner' := owner[c.i0 := None][c.i1 := None][c.i2 := None];
    forall i | 0 <= i < NUM && info'[i].b.Some?
      ensures owner'[i].Some? && owner'[i].value < |procs'| && Filled(procs'[owner'[i].value].pc) && procs'[owner'[i].value].c.i0 == i
    {
      assert info[i].b.Some? && owner[i] != Some(p);
    }
  }

  lemma StepNames(s: State, step: Step)
    requires Inv(s) && NamedI(s) && Enabled(s, step)
    ensures NamedI(Apply(s, step))
  {
    hide Named, Locking, Buffers, Owning, Counted, Formed, Staged, BusyFlags, StatusGood, AvailRing, UsedRing, FreeSleepers, BufSleepers, LogLegal, CallsMatch, Underway, Apply;
    match step
    case TryAlloc(p) => AllocNames(s, p);
    case Fill(p) => FillNames(s, p);
    case Clean(p) => CleanNames(s, p);
    case IntrBody => IntrBodyNames(s);
    case DevPerform(h) => PerformNames(s, h);
    case _ => QuietNames(s, step);
  }

  lemma {:induction false} RunNames(s: State, steps: seq<Step>)
    requires Inv(s) && NamedI(s) && CanRun(s, steps)
    ensures Inv(After(s, steps)) && NamedI(After(s, steps))
    decreases |steps|
  {
    hide Inv, NamedI, Apply, Enabled;
    if steps != [] {
      StepKeeps(s, steps[0]);
      StepNames(s, steps[0]);
      RunNames(Apply(s, steps[0]), steps[1..]);
    }
  }

  /** In every run info[i] names buffer b exactly while a call on b has its formatted request
      at head i: no buffer is remembered beyond its call. */
  lemma InfoExact(s0: State, steps: seq<Step>, i: nat, b: nat)
    requires Init(s0) && CanRun(s0, steps) && i < NUM
    ensures var s := After(s0, steps);
      && |s.q.info| == NUM
      && (s.q.info[i].b == Some(b) <==> exists p :: 0 <= p < |s.procs| && Filled(s.procs[p].pc) && s.procs[p].c.i0 == i && s.procs[p].b == b)
  {
    InitHolds(s0);
    RunNames(s0, steps);
    var s := After(s0, steps);
    NamesExact(s, i, b);
  }

  lemma NamesExact(s: State, i: nat, b: nat)
    requires Shape(s) && FormI(s) && NamedI(s) && i < NUM
    ensures s.q.info[i].b == Some(b) <==> exists p :: 0 <= p < |s.procs| && Filled(s.procs[p].pc) && s.procs[p].c.i0 == i && s.procs[p].b == b
  {
    forall p | 0 <= p < |s.procs| && Filled(s.procs[p].pc) && s.procs[p].c.i0 == i ensures s.q.info[i].b == Some(s.procs[p].b) {
      assert FormattedAs(s.q.desc, s.q.ops, s.q.info, s.procs[p]);
    }
    if s.q.info[i].b == Some(b) {
      var p := s.owner[i].value;
      assert Filled(s.procs[p].pc) && s.procs[p].c.i0 == i;
    }
  }

  // ---- the handler's loop ------------------------------------------------------------------

  /** The handler goes in with the lock, from each completion back to its test, and leaves,
      giving up the lock, exactly when the test finds no completion waiting. */
  lemma HandlerLeavesWhenDrained(s0: State, steps: seq<Step>, step: Step)
    requires Init(s0) && CanRun(s0, steps) && Enabled(After(s0, steps), step) && (step.IntrLock? || step.IntrTest? || step.IntrBody?)
    ensures var s := After(s0, steps);
      && Shape(s)
      && var s' := Apply(s, step);
        if step.IntrLock? then s.lock.Unlocked? && s'.lock.ByIntr? && s'.intr.AtTest?
        else if step.IntrBody? then s.lock.ByIntr? && s'.lock.ByIntr? && s'.intr.AtTest?
        else
          && s.lock.ByIntr?
          && if forall h :: 0 <= h < NUM ==> !s.stage[h].Used? then s'.intr.Off? && s'.lock.Unlocked? else s'.intr.AtBody? && s'.lock.ByIntr?
  {
    Reached(s0, steps);
    DrainedExactly(s0, steps);
    hide CanRun, After, Init;
    HandlerGoes(After(s0, steps), step);
  }

  lemma HandlerGoes(s: State, step: Step)
    requires Inv(s) && Enabled(s, step) && (step.IntrLock? || step.IntrTest? || step.IntrBody?)
    requires s.q.seen == s.q.usedIdx <==> forall h :: 0 <= h < NUM ==> !s.stage[h].Used?
    ensures var s' := Apply(s, step);
      if step.IntrLock? then s.lock.Unlocked? && s'.lock.ByIntr? && s'.intr.AtTest?
      else if step.IntrBody? then s.lock.ByIntr? && s'.lock.ByIntr? && s'.intr.AtTest?
      else
        && s.lock.ByIntr?
        && if forall h :: 0 <= h < NUM ==> !s.stage[h].Used? then s'.intr.Off? && s'.lock.Unlocked? else s'.intr.AtBody? && s'.lock.ByIntr?
  {
    hide Buffers, Owning, Counted, Formed, Staged, BusyFlags, StatusGood, AvailRing, UsedRing, FreeSleepers, BufSleepers, LogLegal, CallsMatch, Underway, IntrBodyStep;
    if step.IntrBody? {
      StepKeeps(s, step);
      BodyGoes(s);
    }
  }

  lemma BodyGoes(s: State)
    requires Shape(s) && s.intr.AtBody? && !s.fault && !IntrBodyStep(s).fault
    ensures IntrBodyStep(s).intr.AtTest? && IntrBodyStep(s).lock == s.lock
  {
    hide TakeUsed, Indexed;
  }
}
