/** Every step of VirtioMachine keeps its invariant and raises no fault. */
module VirtioProof {
  import opened Common
  import opened VirtioQueue
  import opened VirtioRing
  import opened VirtioMachine
  import opened VirtioFrames

  // ---- clients, the lock, sleeping -------------------------------------------------

  lemma ClientSetApart(s: State, b: nat, blockno: nat, data: Block)
    requires Enabled(s, ClientSet(b, blockno, data))
    ensures var B := ClientSetStep(s, b, blockno, data).bufs;
            SameNames(s.procs, s.bufs, B) && SameData(s.procs, s.bufs, B) && SameFlags(s.procs, s.bufs, B)
  {
  }

  lemma NothingMoved(P: seq<Proc>)
    ensures NoneCalled(P, P) && SameChains(P, P) && NoneFilled(P, P) && SamePublished(P, P)
    ensures NoneCleaning(P, P) && NoneBumping(P, P) && NoneExited(P, P) && NoneSlept(P, P)
  {
  }

  lemma SameBufs(P: seq<Proc>, B: seq<Buf>)
    ensures SameNames(P, B, B) && SameData(P, B, B) && SameFlags(P, B, B)
  {
  }

  lemma ClientSetKeeps(s: State, b: nat, blockno: nat, data: Block)
    requires Inv(s) && Enabled(s, ClientSet(b, blockno, data))
    ensures Inv(Apply(s, ClientSet(b, blockno, data)))
  {
    var s' := ClientSetStep(s, b, blockno, data);
    ClientSetApart(s, b, blockno, data);
    NothingMoved(s.procs);
    KeepBuffers(s.procs, s.procs, s.bufs, s'.bufs, |s.disk|);
    KeepFlags(s.stage, s.stage, s.procs, s.procs, s.bufs, s'.bufs);
    KeepSleepers(s.q.free, s.procs, s.procs, s.bufs, s'.bufs);
    KeepUnderway(s.procs, s.procs, s.bufs, s'.bufs, s.calls, s.log, s.stage);
  }

  /** A process moved within the lock, or in or out of it together with the lock word. */
  lemma MoveLocking(s: State, P: seq<Proc>, lock: Lock, p: nat)
    requires LockI(s) && p < |s.procs| && |P| == |s.procs|
    requires forall r :: 0 <= r < |s.procs| && r != p ==> (InLock(P[r].pc) <==> InLock(s.procs[r].pc))
    requires lock == if InLock(P[p].pc) then ByProc(p) else if InLock(s.procs[p].pc) then Unlocked else s.lock
    requires InLock(P[p].pc) && !InLock(s.procs[p].pc) ==> s.lock.Unlocked?
    ensures Locking(lock, s.intr, P)
  {
  }

  lemma TakeLockMoves(s: State, p: nat)
    requires Enabled(s, TakeLock(p)) && LockI(s)
    ensures var s' := TakeLockStep(s, p);
      SameRoles(s.procs, s'.procs) && NoneSlept(s.procs, s'.procs) && LockI(s')
  {
    var s' := TakeLockStep(s, p);
    MoveLocking(s, s'.procs, s'.lock, p);
  }

  lemma TakeLockKeeps(s: State, p: nat)
    requires Inv(s) && Enabled(s, TakeLock(p))
    ensures Inv(Apply(s, TakeLock(p)))
  {
    hide Locking, Buffers, Owning, Counted, Formed, Staged, BusyFlags, StatusGood, AvailRing, UsedRing, FreeSleepers, BufSleepers, LogLegal, CallsMatch, Underway;
    var s' := TakeLockStep(s, p);
    TakeLockMoves(s, p);
    RolesKeep(s, s'.procs);
    SameBufs(s.procs, s.bufs);
    KeepSleepers(s.q.free, s.procs, s'.procs, s.bufs, s.bufs);
  }

  lemma RolesKeep(s: State, P: seq<Proc>)
    requires Shape(s) && BufI(s) && OwnI(s) && FormI(s) && StageI(s) && FlagI(s) && AvailI(s) && UnderI(s)
    requires SameRoles(s.procs, P)
    ensures var s' := s.(procs := P);
      Shape(s') && BufI(s') && OwnI(s') && FormI(s') && StageI(s') && FlagI(s') && AvailI(s') && UnderI(s')
  {
    SameRolesRelate(s.procs, P);
    SameBufs(s.procs, s.bufs);
    KeepBuffers(s.procs, P, s.bufs, s.bufs, |s.disk|);
    KeepOwning(s.q.desc, s.q.free, s.owner, s.procs, P);
    KeepFormed(s.q.desc, s.q.ops, s.q.info, s.procs, P);
    KeepStaged(s.stage, s.stage, s.owner, s.procs, P);
    KeepFlags(s.stage, s.stage, s.procs, P, s.bufs, s.bufs);
    KeepAvail(s.q.avail, s.q.availIdx, s.devIdx, s.availQ, s.stage, s.stage, s.procs, P);
    KeepUnderway(s.procs, P, s.bufs, s.bufs, s.calls, s.log, s.stage);
  }

  // ---- invoking, testing, returning ---------------------------------------------------

  lemma InvokeHistory(s: State, p: nat, b: nat, write: bool)
    requires Shape(s) && Enabled(s, Invoke(p, b, write)) && BufI(s) && CallI(s) && UnderI(s)
    ensures var s' := InvokeStep(s, p, b, write); Shape(s') && BufI(s') && CallI(s') && UnderI(s')
  {
    var s' := InvokeStep(s, p, b, write);
    assert forall r :: 0 <= r < |s.procs| && Active(s.procs[r].pc) ==> s.procs[r].b != b;
  }

  lemma InvokeMoves(s: State, p: nat, x: Proc)
    requires At(s, p, Idle) && x.pc.Start? && LockI(s)
    ensures var P := s.procs[p := x];
      && SameChains(s.procs, P) && NoneFilled(s.procs, P) && SamePublished(s.procs, P)
      && NoneCleaning(s.procs, P) && NoneBumping(s.procs, P) && NoneSlept(s.procs, P)
      && Locking(s.lock, s.intr, P)
  {
    MoveLocking(s, s.procs[p := x], s.lock, p);
  }

  lemma InvokeKeeps(s: State, p: nat, b: nat, write: bool)
    requires Inv(s) && Enabled(s, Invoke(p, b, write))
    ensures Inv(Apply(s, Invoke(p, b, write)))
  {
    hide Locking, Buffers, Owning, Counted, Formed, Staged, BusyFlags, StatusGood, AvailRing, UsedRing, FreeSleepers, BufSleepers, LogLegal, CallsMatch, Underway;
    var s' := InvokeStep(s, p, b, write);
    InvokeHistory(s, p, b, write);
    InvokeMoves(s, p, s'.procs[p]);
    SameBufs(s.procs, s.bufs);
    KeepOwning(s.q.desc, s.q.free, s.owner, s.procs, s'.procs);
    KeepFormed(s.q.desc, s.q.ops, s.q.info, s.procs, s'.procs);
    KeepStaged(s.stage, s.stage, s.owner, s.procs, s'.procs);
    KeepFlags(s.stage, s.stage, s.procs, s'.procs, s.bufs, s.bufs);
    KeepAvail(s.q.avail, s.q.availIdx, s.devIdx, s.availQ, s.stage, s.stage, s.procs, s'.procs);
    KeepSleepers(s.q.free, s.procs, s'.procs, s.bufs, s.bufs);
  }

  lemma TestSleeps(s: State, p: nat)
    requires At(s, p, Pc.Test) && LockI(s) && SleepI(s) && s.procs[p].b < |s.bufs| && s.bufs[s.procs[p].b].disk
    ensures var s' := TestStep(s, p); LockI(s') && SleepI(s') && SameRoles(s.procs, s'.procs)
  {
    MoveLocking(s, TestStep(s, p).procs, Unlocked, p);
  }

  lemma TestPasses(s: State, p: nat)
    requires At(s, p, Pc.Test) && s.procs[p].b < |s.bufs| && !s.bufs[s.procs[p].b].disk
    requires StageI(s) && FlagI(s) && LockI(s)
    ensures var s' := TestStep(s, p); StageI(s') && FlagI(s') && LockI(s')
  {
    MoveLocking(s, TestStep(s, p).procs, s.lock, p);
  }

  lemma TestKeeps(s: State, p: nat)
    requires Inv(s) && Enabled(s, Step.Test(p))
    ensures Inv(Apply(s, Step.Test(p)))
  {
    hide Locking, Buffers, Owning, Counted, Formed, Staged, BusyFlags, StatusGood, AvailRing, UsedRing, FreeSleepers, BufSleepers, LogLegal, CallsMatch, Underway;
    if s.bufs[s.procs[p].b].disk {
      TestSleeps(s, p);
      RolesKeep(s, TestStep(s, p).procs);
    } else {
      TestPasses(s, p);
      MovedKeep(s, p, s.procs[p].(pc := Pc.Clean));
    }
  }

  /** What survives one process moving on inside the lock with its chain in hand. */
  lemma MovedKeep(s: State, p: nat, x: Proc)
    requires Shape(s) && BufI(s) && OwnI(s) && FormI(s) && UnderI(s) && SleepI(s) && AvailI(s)
    requires p < |s.procs| && SameCall(s.procs[p], x) && Filled(s.procs[p].pc) && Filled(x.pc) && !x.pc.SleepBuf?
    ensures var s' := s.(procs := s.procs[p := x]);
      && Shape(s') && BufI(s') && OwnI(s') && FormI(s') && SleepI(s')
      && (!x.pc.Bump? ==> AvailI(s'))
      && ((Published(s.procs[p].pc) <==> Published(x.pc)) ==> UnderI(s'))
  {
    var P := s.procs[p := x];
    OneMoved(s.procs, p, x);
    SameBufs(s.procs, s.bufs);
    KeepBuffers(s.procs, P, s.bufs, s.bufs, |s.disk|);
    KeepOwning(s.q.desc, s.q.free, s.owner, s.procs, P);
    KeepFormed(s.q.desc, s.q.ops, s.q.info, s.procs, P);
    if !x.pc.Bump? {
      KeepAvail(s.q.avail, s.q.availIdx, s.devIdx, s.availQ, s.stage, s.stage, s.procs, P);
    }
    KeepSleepers(s.q.free, s.procs, P, s.bufs, s.bufs);
    if Published(s.procs[p].pc) <==> Published(x.pc) {
      KeepUnderway(s.procs, P, s.bufs, s.bufs, s.calls, s.log, s.stage);
    }
  }

  lemma ReturnHistory(s: State, p: nat)
    requires Shape(s) && At(s, p, Exit) && BufI(s) && CallI(s) && UnderI(s)
    ensures var s' := ReturnStep(s, p); CallI(s') && UnderI(s')
  {
    var pr := s.procs[p];
    assert UnderwayAs(pr, s.bufs[pr.b], s.calls[pr.tid], s.log, Moved(s.stage, pr));
  }

  lemma ReturnLocks(s: State, p: nat)
    requires At(s, p, Exit) && LockI(s)
    ensures Locking(Unlocked, s.intr, SetPc(s, p, Idle).procs)
  {
    MoveLocking(s, SetPc(s, p, Idle).procs, Unlocked, p);
  }

  lemma ReturnKeeps(s: State, p: nat)
    requires Inv(s) && Enabled(s, Return(p))
    ensures Inv(Apply(s, Return(p)))
  {
    hide Locking, Buffers, Owning, Counted, Formed, Staged, BusyFlags, StatusGood, AvailRing, UsedRing, FreeSleepers, BufSleepers, LogLegal, CallsMatch, Underway;
    var P := SetPc(s, p, Idle).procs;
    ReturnHistory(s, p);
    ReturnLocks(s, p);
    OneMoved(s.procs, p, s.procs[p].(pc := Idle));
    SameBufs(s.procs, s.bufs);
    KeepBuffers(s.procs, P, s.bufs, s.bufs, |s.disk|);
    KeepOwning(s.q.desc, s.q.free, s.owner, s.procs, P);
    KeepFormed(s.q.desc, s.q.ops, s.q.info, s.procs, P);
    KeepStaged(s.stage, s.stage, s.owner, s.procs, P);
    KeepFlags(s.stage, s.stage, s.procs, P, s.bufs, s.bufs);
    KeepAvail(s.q.avail, s.q.availIdx, s.devIdx, s.availQ, s.stage, s.stage, s.procs, P);
    KeepSleepers(s.q.free, s.procs, P, s.bufs, s.bufs);
  }

  // ---- taking descriptors -----------------------------------------------------------

  lemma AllocOwns(s: State, p: nat, c: Chain)
    requires Shape(s) && At(s, p, Pc.Alloc) && OwnI(s)
    requires s.q.free[c.i0] && s.q.free[c.i1] && s.q.free[c.i2]
    ensures Owning(s.q.desc, s.q.free[c.i0 := false][c.i1 := false][c.i2 := false],
                   s.owner[c.i0 := Some(p)][c.i1 := Some(p)][c.i2 := Some(p)],
                   s.procs[p := s.procs[p].(pc := Pc.Fill, c := c)])
  {
    hide Counted;
    OthersUntouched(s.q.desc, s.q.free, s.owner, s.procs, c);
    TakenOwning(s.q.desc, s.q.free, s.owner, s.procs, p, s.procs[p].(pc := Pc.Fill, c := c), c);
  }

  ghost predicate NoneTouched(procs: seq<Proc>, c: Chain) {
    forall r :: 0 <= r < |procs| && HasChain(procs[r].pc) ==> Untouched(procs[r].c, c)
  }

  lemma OthersUntouched(desc: seq<Desc>, free: seq<bool>, owner: seq<Option<nat>>, procs: seq<Proc>, c: Chain)
    requires Owning(desc, free, owner, procs) && free[c.i0] && free[c.i1] && free[c.i2]
    ensures NoneTouched(procs, c)
  {
    forall r | 0 <= r < |procs| && HasChain(procs[r].pc) ensures Untouched(procs[r].c, c) {
      assert owner[procs[r].c.i0].Some? && owner[procs[r].c.i1].Some? && owner[procs[r].c.i2].Some?;
    }
  }

  ghost predicate ChainsOwned(owner: seq<Option<nat>>, procs: seq<Proc>) {
    && |owner| == NUM
    && forall p :: 0 <= p < |procs| && HasChain(procs[p].pc) ==>
         owner[procs[p].c.i0] == owner[procs[p].c.i1] == owner[procs[p].c.i2] == Some(p)
  }

  ghost predicate OwnersHold(owner: seq<Option<nat>>, procs: seq<Proc>) {
    && |owner| == NUM
    && forall i :: 0 <= i < NUM && owner[i].Some? ==> owner[i].value < |procs| && Holds(procs[owner[i].value], i)
  }

  lemma TakenChains(owner: seq<Option<nat>>, procs: seq<Proc>, p: nat, x: Proc, c: Chain)
    requires ChainsOwned(owner, procs) && NoneTouched(procs, c) && p < |procs| && x.c == c
    ensures ChainsOwned(owner[c.i0 := Some(p)][c.i1 := Some(p)][c.i2 := Some(p)], procs[p := x])
  {
    forall r | 0 <= r < |procs| && HasChain(procs[p := x][r].pc)
      ensures var d := procs[p := x][r].c; var owner' := owner[c.i0 := Some(p)][c.i1 := Some(p)][c.i2 := Some(p)];
        owner'[d.i0] == owner'[d.i1] == owner'[d.i2] == Some(r)
    {
      if r != p { assert Untouched(procs[r].c, c); }
    }
  }

  lemma TakenHold(owner: seq<Option<nat>>, procs: seq<Proc>, p: nat, x: Proc, c: Chain)
    requires OwnersHold(owner, procs) && p < |procs| && !HasChain(procs[p].pc) && HasChain(x.pc) && x.c == c
    ensures OwnersHold(owner[c.i0 := Some(p)][c.i1 := Some(p)][c.i2 := Some(p)], procs[p := x])
  {
    var owner' := owner[c.i0 := Some(p)][c.i1 := Some(p)][c.i2 := Some(p)];
    forall i | 0 <= i < NUM && owner'[i].Some?
      ensures owner'[i].value < |procs| && Holds(procs[p := x][owner'[i].value], i)
    {
      if i != c.i0 && i != c.i1 && i != c.i2 { assert owner'[i] == owner[i]; }
    }
  }

  lemma TakenOwning(desc: seq<Desc>, free: seq<bool>, owner: seq<Option<nat>>, procs: seq<Proc>, p: nat, x: Proc, c: Chain)
    requires Owning(desc, free, owner, procs) && NoneTouched(procs, c)
    requires p < |procs| && !HasChain(procs[p].pc) && HasChain(x.pc) && x.c == c
    ensures Owning(desc, free[c.i0 := false][c.i1 := false][c.i2 := false],
                   owner[c.i0 := Some(p)][c.i1 := Some(p)][c.i2 := Some(p)], procs[p := x])
  {
    hide NoneTouched, Holds;
    assert ChainsOwned(owner, procs) && OwnersHold(owner, procs);
    TakenChains(owner, procs, p, x, c);
    TakenHold(owner, procs, p, x, c);
  }

  predicate Untouched(d: Chain, c: Chain) {
    && d.i0 != c.i0 && d.i0 != c.i1 && d.i0 != c.i2 && d.i1 != c.i0 && d.i1 != c.i1 && d.i1 != c.i2
    && d.i2 != c.i0 && d.i2 != c.i1 && d.i2 != c.i2
  }

  lemma AllocCounts(free: seq<bool>, free': seq<bool>, P: seq<Proc>, p: nat, x: Proc, c: Chain)
    requires Counted(free, P) && p < |P| && !HasChain(P[p].pc) && HasChain(x.pc)
    requires FreeSet(free') == FreeSet(free) - {c.i0, c.i1, c.i2} && {c.i0, c.i1, c.i2} <= FreeSet(free)
    ensures Counted(free', P[p := x])
  {
    assert Holders(P[p := x]) == Holders(P) + {p};
    assert |FreeSet(free')| == |FreeSet(free)| - |{c.i0, c.i1, c.i2}|;
  }

  lemma FewerFree(free: seq<bool>, free': seq<bool>, P: seq<Proc>)
    requires FreeSleepers(free, P) && FreeSet(free') <= FreeSet(free)
    ensures FreeSleepers(free', P)
  {
    assert FreeSet(free) == FreeSet(free') + (FreeSet(free) - FreeSet(free'));
  }

  lemma AllocStages(s: State, p: nat, x: Proc, owner: seq<Option<nat>>)
    requires StageI(s) && p < |s.procs| && !Published(s.procs[p].pc) && !Published(x.pc) && |owner| == NUM
    requires forall i :: 0 <= i < NUM && s.owner[i].Some? ==> owner[i] == s.owner[i]
    ensures Staged(s.stage, owner, s.procs[p := x])
  {
  }

  lemma AllocMoves(P: seq<Proc>, p: nat, x: Proc)
    requires p < |P| && P[p].pc.Alloc? && x == P[p].(pc := Pc.Fill, c := x.c)
    ensures var P' := P[p := x];
      && NoneFilled(P, P') && SamePublished(P, P') && NoneCleaning(P, P') && NoneBumping(P, P') && NoneSlept(P, P')
  {
  }

  lemma AllocHistory(s: State, p: nat, x: Proc)
    requires At(s, p, Pc.Alloc) && x == s.procs[p].(pc := Pc.Fill, c := x.c) && Shape(s) && BufI(s) && UnderI(s) && LockI(s)
    ensures var s' := s.(procs := s.procs[p := x]); Shape(s') && BufI(s') && UnderI(s') && LockI(s')
  {
    MoveLocking(s, s.procs[p := x], s.lock, p);
  }

  predicate AllFree(free: seq<bool>, c: Chain) { |free| == NUM && free[c.i0] && free[c.i1] && free[c.i2] }

  lemma TakenFree(free: seq<bool>, c: Chain)
    requires AllFree(free, c)
    ensures var free' := free[c.i0 := false][c.i1 := false][c.i2 := false];
      FreeSet(free') == FreeSet(free) - {c.i0, c.i1, c.i2} && {c.i0, c.i1, c.i2} <= FreeSet(free)
  {
  }

  lemma InFreeSet(free: seq<bool>, c: Chain)
    requires |free| == NUM && {c.i0, c.i1, c.i2} <= FreeSet(free)
    ensures AllFree(free, c)
  {
    assert c.i0 in FreeSet(free) && c.i1 in FreeSet(free) && c.i2 in FreeSet(free);
  }

  ghost function Taken(s: State, p: nat, c: Chain): State
    requires Shape(s) && p < |s.procs|
  {
    s.(q := s.q.(free := s.q.free[c.i0 := false][c.i1 := false][c.i2 := false], woken := []),
       procs := s.procs[p := s.procs[p].(pc := Pc.Fill, c := c)],
       owner := s.owner[c.i0 := Some(p)][c.i1 := Some(p)][c.i2 := Some(p)])
  }

  lemma TakenOwns(s: State, p: nat, c: Chain)
    requires Shape(s) && At(s, p, Pc.Alloc) && OwnI(s) && SleepI(s) && AllFree(s.q.free, c)
    ensures OwnI(Taken(s, p, c)) && SleepI(Taken(s, p, c))
  {
    var s' := Taken(s, p, c);
    AllocOwns(s, p, c);
    TakenFree(s.q.free, c);
    AllocCounts(s.q.free, s'.q.free, s.procs, p, s'.procs[p], c);
    AllocMoves(s.procs, p, s'.procs[p]);
    FewerFree(s.q.free, s'.q.free, s.procs);
    SameBufs(s.procs, s.bufs);
    KeepSleepers(s'.q.free, s.procs, s'.procs, s.bufs, s.bufs);
  }

  lemma TakenKeeps(s: State, p: nat, c: Chain)
    requires Inv(s) && At(s, p, Pc.Alloc) && AllFree(s.q.free, c)
    ensures Inv(Taken(s, p, c))
  {
    hide Locking, Buffers, Owning, Counted, Formed, Staged, BusyFlags, StatusGood, AvailRing, UsedRing, FreeSleepers, BufSleepers, LogLegal, CallsMatch, Underway;
    var s' := Taken(s, p, c);
    var x := s.procs[p].(pc := Pc.Fill, c := c);
    TakenOwns(s, p, c);
    AllocMoves(s.procs, p, x);
    AllocHistory(s, p, x);
    SameBufs(s.procs, s.bufs);
    KeepFormed(s.q.desc, s.q.ops, s.q.info, s.procs, s'.procs);
    TakenStages(s, p, c);
    KeepFlags(s.stage, s.stage, s.procs, s'.procs, s.bufs, s.bufs);
    KeepAvail(s.q.avail, s.q.availIdx, s.devIdx, s.availQ, s.stage, s.stage, s.procs, s'.procs);
  }

  lemma TakenStages(s: State, p: nat, c: Chain)
    requires Shape(s) && At(s, p, Pc.Alloc) && StageI(s) && OwnI(s) && AllFree(s.q.free, c)
    ensures StageI(Taken(s, p, c))
  {
    hide Counted;
    AllocStages(s, p, Taken(s, p, c).procs[p], Taken(s, p, c).owner);
  }

  lemma AllocFailsMoves(s: State, p: nat)
    requires At(s, p, Pc.Alloc) && LockI(s) && SleepI(s) && |FreeSet(s.q.free)| < 3
    ensures forall woken :: var P := WakeAll(s.procs, woken)[p := s.procs[p].(pc := SleepFree)];
      SameRoles(s.procs, P) && Locking(Unlocked, s.intr, P) && FreeSleepers(s.q.free, P) && BufSleepers(P, s.bufs)
  {
    forall woken ensures var P := WakeAll(s.procs, woken)[p := s.procs[p].(pc := SleepFree)];
      SameRoles(s.procs, P) && Locking(Unlocked, s.intr, P) && FreeSleepers(s.q.free, P) && BufSleepers(P, s.bufs)
    {
      var P := WakeAll(s.procs, woken)[p := s.procs[p].(pc := SleepFree)];
      MoveLocking(s, P, Unlocked, p);
    }
  }

  lemma TryAllocKeeps(s: State, p: nat)
    requires Inv(s) && Enabled(s, TryAlloc(p))
    ensures Inv(Apply(s, TryAlloc(p)))
  {
    var q0 := s.q.(woken := []);
    Alloc3Spec(q0);
    var (q, r) := Alloc3(q0);
    match r
    case Some(c) =>
      InFreeSet(s.q.free, c);
      TakenKeeps(s, p, c);
      assert TryAllocStep(s, p) == Taken(s, p, c);
    case None =>
      AllocFailsMoves(s, p);
      RolesKeep(s, TryAllocStep(s, p).procs);
  }

  // ---- formatting and publishing ---------------------------------------------------------

  lemma HeadUnstaged(s: State, p: nat)
    requires Shape(s) && OwnI(s) && StageI(s) && p < |s.procs| && HasChain(s.procs[p].pc) && !Published(s.procs[p].pc)
    ensures s.stage[s.procs[p].c.i0].NoReq?
  {
  }

  lemma FillOwns(s: State, p: nat)
    requires Shape(s) && At(s, p, Pc.Fill) && OwnI(s)
    ensures OwnI(FillStep(s, p))
  {
    var s' := FillStep(s, p);
    OneMoved(s.procs, p, s'.procs[p]);
    FillDesc(s, p);
    KeepOwning(s'.q.desc, s'.q.free, s.owner, s.procs, s'.procs);
  }

  lemma FillDesc(s: State, p: nat)
    requires Shape(s) && At(s, p, Pc.Fill) && OwnI(s)
    ensures Owning(FillStep(s, p).q.desc, s.q.free, s.owner, s.procs)
  {
  }

  lemma FillForms(s: State, p: nat)
    requires Shape(s) && At(s, p, Pc.Fill) && OwnI(s) && FormI(s)
    ensures FormI(FillStep(s, p))
  {
    hide Owning, Counted;
    var s' := FillStep(s, p);
    forall r | 0 <= r < |s.procs| && Filled(s'.procs[r].pc) ensures FormattedAs(s'.q.desc, s'.q.ops, s'.q.info, s'.procs[r]) {
      FillForm(s, p, r);
    }
  }

  lemma FillForm(s: State, p: nat, r: nat)
    requires Shape(s) && At(s, p, Pc.Fill) && OwnI(s) && FormI(s) && r < |s.procs| && (r == p || Filled(s.procs[r].pc))
    requires s.procs[p].b < |s.bufs|
    ensures var s' := FillStep(s, p); FormattedAs(s'.q.desc, s'.q.ops, s'.q.info, s'.procs[r])
  {
    if r != p {
      ChainsApart(s, p, r);
      hide Owning, Counted;
      assert FormattedAs(s.q.desc, s.q.ops, s.q.info, s.procs[r]);
    }
  }

  lemma ChainsApart(s: State, p: nat, r: nat)
    requires Shape(s) && OwnI(s) && p < |s.procs| && r < |s.procs| && p != r && HasChain(s.procs[p].pc) && HasChain(s.procs[r].pc)
    ensures var c, d := s.procs[p].c, s.procs[r].c;
      && c.i0 != d.i0 && c.i0 != d.i1 && c.i0 != d.i2 && c.i1 != d.i0 && c.i1 != d.i1 && c.i1 != d.i2
      && c.i2 != d.i0 && c.i2 != d.i1 && c.i2 != d.i2
  {
  }

  lemma FillFlags(s: State, p: nat)
    requires Shape(s) && At(s, p, Pc.Fill) && BufI(s) && FlagI(s) && SleepI(s)
    ensures FlagI(FillStep(s, p)) && SleepI(FillStep(s, p))
  {
  }

  lemma FillStatus(s: State, p: nat)
    requires Shape(s) && At(s, p, Pc.Fill) && s.stage[s.procs[p].c.i0].NoReq? && StatusI(s) && StageI(s) && LockI(s)
    ensures StatusI(FillStep(s, p)) && StageI(FillStep(s, p)) && LockI(FillStep(s, p))
  {
    MoveLocking(s, FillStep(s, p).procs, s.lock, p);
  }

  lemma FillHistory(s: State, p: nat)
    requires Shape(s) && At(s, p, Pc.Fill) && BufI(s) && UnderI(s) && AvailI(s)
    ensures var s' := FillStep(s, p); Shape(s') && BufI(s') && UnderI(s') && AvailI(s')
  {
    var s' := FillStep(s, p);
    OneMoved(s.procs, p, s'.procs[p]);
    KeepBuffers(s.procs, s'.procs, s.bufs, s'.bufs, |s.disk|);
    KeepUnderway(s.procs, s'.procs, s.bufs, s'.bufs, s.calls, s.log, s.stage);
    KeepAvail(s.q.avail, s.q.availIdx, s.devIdx, s.availQ, s.stage, s.stage, s.procs, s'.procs);
  }

  lemma FillKeeps(s: State, p: nat)
    requires Inv(s) && Enabled(s, Step.Fill(p))
    ensures Inv(Apply(s, Step.Fill(p)))
  {
    HeadUnstaged(s, p);
    FillOwns(s, p);
    FillForms(s, p);
    FillFlags(s, p);
    FillStatus(s, p);
    FillHistory(s, p);
  }

  lemma PutAvails(s: State, p: nat)
    requires Shape(s) && At(s, p, Pc.Put) && AvailI(s) && LockI(s) && s.stage[s.procs[p].c.i0].NoReq?
    ensures AvailI(PutStep(s, p)) && LockI(PutStep(s, p))
  {
    var h := s.procs[p].c.i0;
    RoomFor(s.availQ, h);
    PutKeepsPending(s.q.avail, s.devIdx, s.q.availIdx, s.availQ, h);
    MoveLocking(s, PutStep(s, p).procs, s.lock, p);
    assert forall r :: 0 <= r < |s.procs| && r != p ==> !s.procs[r].pc.Bump?;
  }

  lemma PutStages(s: State, p: nat)
    requires Shape(s) && At(s, p, Pc.Put) && StageI(s) && FlagI(s)
    ensures StageI(PutStep(s, p)) && FlagI(PutStep(s, p))
  {
    var s' := PutStep(s, p);
    OneMoved(s.procs, p, s'.procs[p]);
    SameBufs(s.procs, s.bufs);
    KeepStaged(s.stage, s.stage, s.owner, s.procs, s'.procs);
    KeepFlags(s.stage, s.stage, s.procs, s'.procs, s.bufs, s.bufs);
  }

  lemma PutKeeps(s: State, p: nat)
    requires Inv(s) && Enabled(s, Step.Put(p))
    ensures Inv(Apply(s, Step.Put(p)))
  {
    HeadUnstaged(s, p);
    PutAvails(s, p);
    PutStages(s, p);
    MovedKeep(s, p, s.procs[p].(pc := Pc.Bump));
  }

  lemma BumpAvails(s: State, p: nat)
    requires Shape(s) && At(s, p, Pc.Bump) && AvailI(s) && UsedI(s) && LockI(s) && s.stage[s.procs[p].c.i0].NoReq?
    ensures AvailI(BumpStep(s, p)) && UsedI(BumpStep(s, p)) && LockI(BumpStep(s, p))
  {
    var h := s.procs[p].c.i0;
    var s' := BumpStep(s, p);
    RoomFor(s.availQ, h);
    BumpAppends(s.q.avail, s.devIdx, s.q.availIdx, s.availQ);
    KeepUsed(s.q.used, s.q.usedIdx, s.q.seen, s.posting, s.usedQ, s.stage, s'.stage);
    MoveLocking(s, s'.procs, s.lock, p);
    assert forall r :: 0 <= r < |s.procs| && r != p ==> !s.procs[r].pc.Bump?;
  }

  lemma BumpStages(s: State, p: nat)
    requires Shape(s) && At(s, p, Pc.Bump) && OwnI(s) && StageI(s) && FlagI(s) && StatusI(s)
    ensures StageI(BumpStep(s, p)) && FlagI(BumpStep(s, p)) && StatusI(BumpStep(s, p))
  {
    BumpStage(s, p);
    BumpFlags(s, p);
    BumpStatus(s, p);
    hide Owning, Counted, Staged, BusyFlags, StatusGood;
  }

  lemma BumpStage(s: State, p: nat)
    requires Shape(s) && At(s, p, Pc.Bump) && OwnI(s) && StageI(s)
    ensures StageI(BumpStep(s, p))
  {
    hide Counted;
  }

  lemma BumpFlags(s: State, p: nat)
    requires Shape(s) && At(s, p, Pc.Bump) && OwnI(s) && FlagI(s)
    ensures FlagI(BumpStep(s, p))
  {
    hide Counted;
    var s' := BumpStep(s, p);
    forall r | 0 <= r < |s.procs| && r != p && Published(s.procs[r].pc) ensures s'.stage[s'.procs[r].c.i0] == s.stage[s.procs[r].c.i0] {
      ChainsApart(s, p, r);
    }
  }

  lemma BumpStatus(s: State, p: nat)
    requires Shape(s) && At(s, p, Pc.Bump) && StatusI(s)
    ensures StatusI(BumpStep(s, p))
  {
  }

  lemma BumpHistory(s: State, p: nat)
    requires Shape(s) && At(s, p, Pc.Bump) && OwnI(s) && UnderI(s)
    ensures UnderI(BumpStep(s, p))
  {
    var s' := BumpStep(s, p);
    forall r | 0 <= r < |s.procs| && Active(s'.procs[r].pc) ensures Moved(s'.stage, s'.procs[r]) == Moved(s.stage, s.procs[r]) {
      if r != p && Published(s.procs[r].pc) { ChainsApart(s, p, r); }
    }
  }

  lemma BumpKeeps(s: State, p: nat)
    requires Inv(s) && Enabled(s, Step.Bump(p))
    ensures Inv(Apply(s, Step.Bump(p)))
  {
    HeadUnstaged(s, p);
    BumpAvails(s, p);
    BumpStages(s, p);
    BumpHistory(s, p);
    MovedKeep(s, p, s.procs[p].(pc := Pc.Test));
  }

  // ---- freeing the chain ------------------------------------------------------------------

  ghost function Freed<T>(xs: seq<T>, c: Chain, v: T): (r: seq<T>)
    requires |xs| == NUM
    ensures |r| == NUM
  {
    xs[c.i0 := v][c.i1 := v][c.i2 := v]
  }

  /** The clean-up of a formatted chain frees exactly its three descriptors. */
  lemma FinishSpec(q: Queue, pr: Proc)
    requires q.Shape() && FormattedAs(q.desc, q.ops, q.info, pr)
    requires !q.free[pr.c.i0] && !q.free[pr.c.i1] && !q.free[pr.c.i2]
    ensures Finish(q, pr.c.i0) == Some(q.(
      desc := Freed(q.desc, pr.c, ZERO_DESC), free := Freed(q.free, pr.c, true),
      info := q.info[pr.c.i0 := q.info[pr.c.i0].(b := None)],
      woken := q.woken + seq(3, _ => FreeChan)))
  {
    var c := pr.c;
    var q1 := q.(info := q.info[c.i0 := q.info[c.i0].(b := None)]);
    FreeChainFrees(q1, [c.i0, c.i1, c.i2]);
    var r := FreeChainFrom(q1, c.i0).value;
    assert r.free == Freed(q.free, c, true);
    assert r.desc == Freed(q.desc, c, ZERO_DESC);
  }

  ghost function Cleaned(s: State, p: nat, woken: seq<Chan>): State
    requires Shape(s) && p < |s.procs|
  {
    var c := s.procs[p].c;
    s.(q := s.q.(desc := Freed(s.q.desc, c, ZERO_DESC), free := Freed(s.q.free, c, true),
                 info := s.q.info[c.i0 := s.q.info[c.i0].(b := None)], woken := woken),
       procs := s.procs[p := s.procs[p].(pc := Exit)],
       owner := Freed(s.owner, c, None), stage := s.stage[c.i0 := NoReq])
  }

  lemma CleanedOwns(s: State, p: nat, woken: seq<Chan>)
    requires Shape(s) && At(s, p, Pc.Clean) && OwnI(s)
    ensures OwnI(Cleaned(s, p, woken))
  {
    CleanedOwning(s, p, woken);
    CleanedCounts(s.q.free, s.procs, p, s.procs[p].(pc := Exit), s.procs[p].c);
  }

  lemma CleanedCounts(free: seq<bool>, P: seq<Proc>, p: nat, x: Proc, c: Chain)
    requires |free| == NUM && !free[c.i0] && !free[c.i1] && !free[c.i2]
    requires Counted(free, P) && p < |P| && HasChain(P[p].pc) && !HasChain(x.pc)
    ensures Counted(Freed(free, c, true), P[p := x])
  {
    assert Holders(P[p := x]) == Holders(P) - {p};
    FreedSet(free, c);
    assert |FreeSet(Freed(free, c, true))| == |FreeSet(free)| + |{c.i0, c.i1, c.i2}|;
  }

  lemma FreedSet(free: seq<bool>, c: Chain)
    requires |free| == NUM && !free[c.i0] && !free[c.i1] && !free[c.i2]
    ensures FreeSet(Freed(free, c, true)) == FreeSet(free) + {c.i0, c.i1, c.i2}
    ensures FreeSet(free) !! {c.i0, c.i1, c.i2}
  {
  }

  ghost predicate OthersApart(procs: seq<Proc>, p: nat, c: Chain) {
    forall r :: 0 <= r < |procs| && r != p && HasChain(procs[r].pc) ==> Untouched(procs[r].c, c)
  }

  lemma CleanedChains(owner: seq<Option<nat>>, procs: seq<Proc>, p: nat, x: Proc, c: Chain)
    requires ChainsOwned(owner, procs) && OthersApart(procs, p, c) && p < |procs| && !HasChain(x.pc)
    ensures ChainsOwned(Freed(owner, c, None), procs[p := x])
  {
    forall r | 0 <= r < |procs| && HasChain(procs[p := x][r].pc)
      ensures var d := procs[p := x][r].c; var owner' := Freed(owner, c, None); owner'[d.i0] == owner'[d.i1] == owner'[d.i2] == Some(r)
    {
      assert Untouched(procs[r].c, c);
    }
  }

  lemma CleanedHold(owner: seq<Option<nat>>, procs: seq<Proc>, p: nat, x: Proc, c: Chain)
    requires OwnersHold(owner, procs) && p < |procs| && procs[p].c == c
    ensures OwnersHold(Freed(owner, c, None), procs[p := x])
  {
    var owner' := Freed(owner, c, None);
    forall i | 0 <= i < NUM && owner'[i].Some? ensures owner'[i].value < |procs| && Holds(procs[p := x][owner'[i].value], i) {
      assert owner'[i] == owner[i] && Holds(procs[owner[i].value], i);
    }
  }

  lemma CleanedOwning(s: State, p: nat, woken: seq<Chan>)
    requires Shape(s) && At(s, p, Pc.Clean) && OwnI(s)
    ensures var s' := Cleaned(s, p, woken); Owning(s'.q.desc, s'.q.free, s'.owner, s'.procs)
  {
    hide Counted;
    var c := s.procs[p].c;
    assert OthersApart(s.procs, p, c) by {
      forall r | 0 <= r < |s.procs| && r != p && HasChain(s.procs[r].pc) ensures Untouched(s.procs[r].c, c) { ChainsApart(s, p, r); }
    }
    FreedOwning(s.q.desc, s.q.free, s.owner, s.procs, p, s.procs[p].(pc := Exit), c);
  }

  lemma FreedOwning(desc: seq<Desc>, free: seq<bool>, owner: seq<Option<nat>>, procs: seq<Proc>, p: nat, x: Proc, c: Chain)
    requires Owning(desc, free, owner, procs) && p < |procs| && procs[p].c == c && OthersApart(procs, p, c) && !HasChain(x.pc)
    ensures Owning(Freed(desc, c, ZERO_DESC), Freed(free, c, true), Freed(owner, c, None), procs[p := x])
  {
    hide OthersApart, Holds;
    assert ChainsOwned(owner, procs) && OwnersHold(owner, procs);
    CleanedChains(owner, procs, p, x, c);
    CleanedHold(owner, procs, p, x, c);
  }

  lemma CleanedForms(s: State, p: nat, woken: seq<Chan>)
    requires Shape(s) && At(s, p, Pc.Clean) && OwnI(s) && FormI(s)
    ensures FormI(Cleaned(s, p, woken))
  {
    hide Counted;
    var s' := Cleaned(s, p, woken);
    forall r | 0 <= r < |s.procs| && Filled(s'.procs[r].pc) ensures FormattedAs(s'.q.desc, s'.q.ops, s'.q.info, s'.procs[r]) {
      ChainsApart(s, p, r);
      assert FormattedAs(s.q.desc, s.q.ops, s.q.info, s.procs[r]);
    }
  }

  lemma CleanedStages(s: State, p: nat, woken: seq<Chan>)
    requires Shape(s) && At(s, p, Pc.Clean) && OwnI(s) && StageI(s)
    ensures StageI(Cleaned(s, p, woken))
  {
    hide Counted;
    var s' := Cleaned(s, p, woken);
    forall r | 0 <= r < |s.procs| && Published(s'.procs[r].pc) ensures s'.stage[s.procs[r].c.i0] == s.stage[s.procs[r].c.i0] {
      ChainsApart(s, p, r);
    }
  }

  lemma CleanedFlags(s: State, p: nat, woken: seq<Chan>)
    requires Shape(s) && At(s, p, Pc.Clean) && OwnI(s) && FlagI(s) && StatusI(s)
    ensures FlagI(Cleaned(s, p, woken)) && StatusI(Cleaned(s, p, woken))
  {
    var s' := Cleaned(s, p, woken);
    forall r | 0 <= r < |s.procs| && Filled(s'.procs[r].pc) ensures s'.stage[s.procs[r].c.i0] == s.stage[s.procs[r].c.i0] {
      ChainsApart(s, p, r);
    }
  }

  lemma CleanedRings(s: State, p: nat, woken: seq<Chan>)
    requires Shape(s) && At(s, p, Pc.Clean) && s.stage[s.procs[p].c.i0].Drained? && AvailI(s) && UsedI(s) && BufI(s) && LockI(s)
    ensures var s' := Cleaned(s, p, woken); AvailI(s') && UsedI(s') && BufI(s') && LockI(s')
  {
    var s' := Cleaned(s, p, woken);
    OneMoved(s.procs, p, s'.procs[p]);
    SameBufs(s.procs, s.bufs);
    KeepAvail(s.q.avail, s.q.availIdx, s.devIdx, s.availQ, s.stage, s'.stage, s.procs, s'.procs);
    KeepUsed(s.q.used, s.q.usedIdx, s.q.seen, s.posting, s.usedQ, s.stage, s'.stage);
    KeepBuffers(s.procs, s'.procs, s.bufs, s.bufs, |s.disk|);
    MoveLocking(s, s'.procs, s.lock, p);
  }

  lemma CleanedHistory(s: State, p: nat, woken: seq<Chan>)
    requires Shape(s) && At(s, p, Pc.Clean) && s.stage[s.procs[p].c.i0].Drained? && OwnI(s) && UnderI(s)
    requires SleepI(s) && forall r :: 0 <= r < |s.procs| ==> !s.procs[r].pc.SleepFree?
    ensures UnderI(Cleaned(s, p, woken)) && SleepI(Cleaned(s, p, woken))
  {
    var s' := Cleaned(s, p, woken);
    forall r | 0 <= r < |s.procs| && Active(s'.procs[r].pc) ensures Moved(s'.stage, s'.procs[r]) == Moved(s.stage, s.procs[r]) {
      if r != p && Published(s.procs[r].pc) { ChainsApart(s, p, r); }
    }
  }

  lemma CleanWakes(s: State, woken: seq<Chan>)
    requires Shape(s) && LockI(s) && SleepI(s) && FreeChan in woken
    ensures var P := WakeAll(s.procs, woken);
      && SameRoles(s.procs, P) && Locking(s.lock, s.intr, P) && FreeSleepers(s.q.free, P) && BufSleepers(P, s.bufs)
      && (forall r :: 0 <= r < |P| ==> !P[r].pc.SleepFree?)
  {
  }

  lemma CleanedKeeps(s: State, p: nat, woken: seq<Chan>)
    requires Inv(s) && At(s, p, Pc.Clean) && s.stage[s.procs[p].c.i0].Drained?
    requires forall r :: 0 <= r < |s.procs| ==> !s.procs[r].pc.SleepFree?
    ensures Inv(Cleaned(s, p, woken))
  {
    CleanedOwns(s, p, woken);
    CleanedForms(s, p, woken);
    CleanedStages(s, p, woken);
    CleanedFlags(s, p, woken);
    CleanedRings(s, p, woken);
    CleanedHistory(s, p, woken);
  }

  lemma ChainBusy(s: State, p: nat)
    requires Shape(s) && OwnI(s) && StageI(s) && FormI(s) && At(s, p, Pc.Clean)
    ensures var c := s.procs[p].c;
      && !s.q.free[c.i0] && !s.q.free[c.i1] && !s.q.free[c.i2] && s.stage[c.i0].Drained?
      && FormattedAs(s.q.desc, s.q.ops, s.q.info, s.procs[p])
  {
  }

  lemma CleanKeeps(s: State, p: nat)
    requires Inv(s) && Enabled(s, Step.Clean(p))
    ensures Inv(Apply(s, Step.Clean(p)))
  {
    var woken: seq<Chan> := [] + seq(3, _ => FreeChan);
    ChainBusy(s, p);
    FinishSpec(s.q.(woken := []), s.procs[p]);
    assert woken[0] == FreeChan;
    CleanWakes(s, woken);
    var s1 := s.(procs := WakeAll(s.procs, woken));
    RolesKeep(s, s1.procs);
    assert s1.procs[p] == s.procs[p];
    CleanedKeeps(s1, p, woken);
    assert CleanStep(s, p) == Cleaned(s1, p, woken);
  }

  // ---- the interrupt handler ----------------------------------------------------------------

  lemma IntrKeeps(s: State, step: Step)
    requires Inv(s) && Enabled(s, step) && (step.IntrLock? || step.IntrTest?)
    ensures Inv(Apply(s, step))
  {
    IntrLocking(s, step);
    if step.IntrTest? { IntrTestUsed(s); }
  }

  lemma IntrLocking(s: State, step: Step)
    requires Shape(s) && LockI(s) && Enabled(s, step) && (step.IntrLock? || step.IntrTest?)
    ensures LockI(Apply(s, step))
  {
  }

  lemma IntrTestUsed(s: State)
    requires UsedI(s)
    ensures UsedI(IntrTestStep(s))
  {
  }

  /** What the handler finds at its used index is a performed request of a waiting call. */
  lemma DrainedCall(s: State) returns (p: nat)
    requires Shape(s) && OwnI(s) && FormI(s) && StageI(s) && StatusI(s) && UsedI(s) && s.usedQ != []
    ensures p < |s.procs| && Published(s.procs[p].pc) && s.procs[p].c.i0 == s.usedQ[0]
    ensures s.stage[s.usedQ[0]].Used?
    ensures TakeUsed(s.q.(woken := [])) ==
            Some((s.q.(woken := [BufChan(s.procs[p].b)], seen := (s.q.seen + 1) % IDX_MOD), s.procs[p].b))
    ensures s.q.used[SlotOf(s.q.seen)] == s.usedQ[0]
  {
    ConsumeHead(s.q.used, s.q.seen, s.q.usedIdx, s.usedQ);
    var h := s.usedQ[0];
    assert h in s.usedQ && s.stage[h].Used?;
    p := s.owner[h].value;
    assert FormattedAs(s.q.desc, s.q.ops, s.q.info, s.procs[p]);
    assert [] + [BufChan(s.procs[p].b)] == [BufChan(s.procs[p].b)];
  }

  ghost function Drained1(s: State, p: nat): State
    requires Shape(s) && p < |s.procs| && s.procs[p].b < |s.bufs| && s.usedQ != []
  {
    s.(q := s.q.(woken := [BufChan(s.procs[p].b)], seen := (s.q.seen + 1) % IDX_MOD), intr := AtTest,
       bufs := s.bufs[s.procs[p].b := s.bufs[s.procs[p].b].(disk := false)],
       usedQ := s.usedQ[1..], stage := s.stage[s.procs[p].c.i0 := Drained])
  }

  ghost predicate AtHead(s: State, p: nat) {
    && p < |s.procs| && Published(s.procs[p].pc) && s.usedQ != [] && s.procs[p].c.i0 == s.usedQ[0]
    && |s.stage| == NUM && s.stage[s.procs[p].c.i0].Used?
  }

  lemma DrainedStages(s: State, p: nat)
    requires Shape(s) && AtHead(s, p) && OwnI(s) && StageI(s) && FlagI(s) && StatusI(s) && BufI(s)
    ensures var s' := Drained1(s, p); StageI(s') && FlagI(s') && StatusI(s')
  {
    hide Counted, Formed;
    DrainedFlags(s, p);
  }

  lemma DrainedFlags(s: State, p: nat)
    requires Shape(s) && AtHead(s, p) && OwnI(s) && FlagI(s) && BufI(s)
    ensures FlagI(Drained1(s, p))
  {
    hide Counted;
    var s' := Drained1(s, p);
    forall r | 0 <= r < |s.procs| && r != p && Filled(s.procs[r].pc)
      ensures s'.stage[s.procs[r].c.i0] == s.stage[s.procs[r].c.i0] && s'.bufs[s.procs[r].b] == s.bufs[s.procs[r].b]
    {
      ChainsApart(s, p, r);
    }
  }

  lemma DrainedUsed(s: State, p: nat)
    requires Shape(s) && AtHead(s, p) && UsedI(s) && AvailI(s)
    ensures UsedI(Drained1(s, p)) && AvailI(Drained1(s, p))
  {
    var s' := Drained1(s, p);
    ConsumeHead(s.q.used, s.q.seen, s.q.usedIdx, s.usedQ);
    NothingMoved(s.procs);
    KeepAvail(s.q.avail, s.q.availIdx, s.devIdx, s.availQ, s.stage, s'.stage, s.procs, s.procs);
    DistinctTail(s.usedQ);
  }

  lemma DrainedHistory(s: State, p: nat)
    requires Shape(s) && AtHead(s, p) && BufI(s) && UnderI(s) && LockI(s) && s.intr.AtBody?
    ensures var s' := Drained1(s, p); Shape(s') && BufI(s') && UnderI(s') && LockI(s')
  {
    var s' := Drained1(s, p);
    NothingMoved(s.procs);
    KeepBuffers(s.procs, s.procs, s.bufs, s'.bufs, |s.disk|);
    KeepUnderwayStages(s.procs, s.bufs, s.calls, s.log, s.stage, s'.stage);
    KeepUnderway(s.procs, s.procs, s.bufs, s'.bufs, s.calls, s.log, s'.stage);
  }

  lemma DrainedSleepers(s: State, p: nat)
    requires Shape(s) && AtHead(s, p) && BufI(s) && SleepI(s)
    requires forall r :: 0 <= r < |s.procs| && s.procs[r].pc.SleepBuf? ==> s.procs[r].b != s.procs[p].b
    ensures SleepI(Drained1(s, p))
  {
  }

  lemma BodyWakes(s: State, b: nat)
    requires Shape(s) && LockI(s) && SleepI(s)
    ensures var P := WakeAll(s.procs, [BufChan(b)]);
      && SameRoles(s.procs, P) && Locking(s.lock, s.intr, P) && FreeSleepers(s.q.free, P) && BufSleepers(P, s.bufs)
      && (forall r :: 0 <= r < |P| && P[r].pc.SleepBuf? ==> P[r].b != b)
  {
  }

  lemma IntrBodyIs(s: State, p: nat)
    requires Shape(s) && p < |s.procs| && s.procs[p].b < |s.bufs| && s.usedQ != [] && s.procs[p].c.i0 == s.usedQ[0]
    requires TakeUsed(s.q.(woken := [])) ==
             Some((s.q.(woken := [BufChan(s.procs[p].b)], seen := (s.q.seen + 1) % IDX_MOD), s.procs[p].b))
    requires s.q.used[SlotOf(s.q.seen)] == s.usedQ[0]
    ensures var s1 := s.(procs := WakeAll(s.procs, [BufChan(s.procs[p].b)]));
      s1.procs[p].b == s.procs[p].b && s1.procs[p].c == s.procs[p].c && IntrBodyStep(s) == Drained1(s1, p)
  {
  }

  lemma IntrBodyKeeps(s: State)
    requires Inv(s) && Enabled(s, IntrBody)
    ensures Inv(Apply(s, IntrBody))
  {
    var p := DrainedCall(s);
    IntrBodyIs(s, p);
    WakeKeeps(s, p);
    DrainedKeeps(s.(procs := WakeAll(s.procs, [BufChan(s.procs[p].b)])), p);
  }

  lemma WakeKeeps(s: State, p: nat)
    requires Inv(s) && AtHead(s, p)
    ensures var s1 := s.(procs := WakeAll(s.procs, [BufChan(s.procs[p].b)]));
      && Inv(s1) && AtHead(s1, p) && s1.procs[p].b == s.procs[p].b
      && (forall r :: 0 <= r < |s1.procs| && s1.procs[r].pc.SleepBuf? ==> s1.procs[r].b != s.procs[p].b)
  {
    BodyWakes(s, s.procs[p].b);
    var P := WakeAll(s.procs, [BufChan(s.procs[p].b)]);
    RolesKeep(s, P);
    assert SameCall(s.procs[p], P[p]) && Role(P[p].pc) == Role(s.procs[p].pc);
  }

  lemma DrainedKeeps(s: State, p: nat)
    requires Inv(s) && AtHead(s, p) && s.intr.AtBody?
    requires forall r :: 0 <= r < |s.procs| && s.procs[r].pc.SleepBuf? ==> s.procs[r].b != s.procs[p].b
    ensures Inv(Drained1(s, p))
  {
    DrainedStages(s, p);
    DrainedUsed(s, p);
    DrainedHistory(s, p);
    DrainedSleepers(s, p);
  }

  // ---- the device -------------------------------------------------------------------------

  lemma FetchHead(s: State)
    requires Shape(s) && AvailI(s) && s.devIdx != s.q.availIdx
    ensures s.availQ != [] && s.q.avail[SlotOf(s.devIdx)] == s.availQ[0]
    ensures s.availQ[0] < NUM && s.stage[s.availQ[0]].Avail?
  {
    assert s.availQ != [];
    ConsumeHead(s.q.avail, s.devIdx, s.q.availIdx, s.availQ);
    assert s.availQ[0] in s.availQ;
  }

  lemma FetchRing(s: State, h: nat)
    requires Shape(s) && AvailI(s) && UsedI(s) && s.availQ != [] && h == s.availQ[0] && h < NUM && s.stage[h].Avail?
    ensures AvailI(Fetched1(s, h)) && UsedI(Fetched1(s, h))
  {
    ConsumeHead(s.q.avail, s.devIdx, s.q.availIdx, s.availQ);
    DistinctTail(s.availQ);
    KeepUsed(s.q.used, s.q.usedIdx, s.q.seen, s.posting, s.usedQ, s.stage, s.stage[h := Fetched]);
  }

  /** A stage moving on, neither from nor to the ends of a request's life. */
  lemma StageMoves(s: State, h: nat, v: Stage)
    requires Shape(s) && StageI(s) && FlagI(s) && h < NUM && !s.stage[h].NoReq? && !s.stage[h].Drained? && !v.NoReq? && !v.Drained?
    ensures var s' := s.(stage := s.stage[h := v]); StageI(s') && FlagI(s')
  {
    var st := s.stage[h := v];
    NothingMoved(s.procs);
    SameBufs(s.procs, s.bufs);
    KeepStaged(s.stage, st, s.owner, s.procs, s.procs);
    KeepFlags(s.stage, st, s.procs, s.procs, s.bufs, s.bufs);
  }

  ghost function Fetched1(s: State, h: nat): State
    requires |s.stage| == NUM && h < NUM && s.availQ != []
  {
    s.(devIdx := (s.devIdx + 1) % IDX_MOD, stage := s.stage[h := Fetched], availQ := s.availQ[1..])
  }

  lemma FetchedKeeps(s: State, h: nat)
    requires Inv(s) && s.availQ != [] && h == s.availQ[0] && h < NUM && s.stage[h].Avail?
    ensures Inv(Fetched1(s, h))
  {
    FetchRing(s, h);
    StageMoves(s, h, Fetched);
    FetchStatus(s, h);
  }

  lemma DevFetchKeeps(s: State)
    requires Inv(s) && Enabled(s, DevFetch)
    ensures Inv(Apply(s, DevFetch))
  {
    FetchHead(s);
    FetchedKeeps(s, s.availQ[0]);
  }

  lemma FetchStatus(s: State, h: nat)
    requires StatusI(s) && UnderI(s) && h < NUM && s.stage[h].Avail?
    ensures StatusGood(s.stage[h := Fetched], s.q.info)
    ensures Underway(s.procs, s.bufs, s.calls, s.log, s.stage[h := Fetched])
  {
    KeepUnderwayStages(s.procs, s.bufs, s.calls, s.log, s.stage, s.stage[h := Fetched]);
  }

  lemma DevPostKeeps(s: State, h: nat)
    requires Inv(s) && Enabled(s, DevPost(h))
    ensures Inv(Apply(s, DevPost(h)))
  {
    PostRing(s, h);
  }

  lemma PostRing(s: State, h: nat)
    requires Shape(s) && UsedI(s) && Enabled(s, DevPost(h))
    ensures UsedI(DevPostStep(s, h))
  {
    RoomFor(s.usedQ, h);
    PutKeepsPending(s.q.used, s.q.seen, s.q.usedIdx, s.usedQ, h);
  }

  lemma DevBumpKeeps(s: State)
    requires Inv(s) && Enabled(s, DevBump)
    ensures Inv(Apply(s, DevBump))
  {
    var h := s.posting.value;
    DevBumpRings(s);
    StageMoves(s, h, Used);
    DevBumpStatus(s, h);
    KeepUnderwayStages(s.procs, s.bufs, s.calls, s.log, s.stage, s.stage[h := Used]);
  }

  lemma DevBumpStatus(s: State, h: nat)
    requires StatusI(s) && h < NUM && s.stage[h].Performed?
    ensures StatusGood(s.stage[h := Used], s.q.info)
  {
  }

  lemma DevBumpRings(s: State)
    requires Shape(s) && UsedI(s) && AvailI(s) && s.posting.Some?
    ensures UsedI(DevBumpStep(s)) && AvailI(DevBumpStep(s))
    ensures s.stage[s.posting.value].Performed?
  {
    var h := s.posting.value;
    var s' := DevBumpStep(s);
    RoomFor(s.usedQ, h);
    BumpAppends(s.q.used, s.q.seen, s.q.usedIdx, s.usedQ);
    NothingMoved(s.procs);
    KeepAvail(s.q.avail, s.q.availIdx, s.devIdx, s.availQ, s.stage, s'.stage, s.procs, s.procs);
  }

  /** The chain the device fetched decodes to the call that owns it. */
  lemma FetchedCall(s: State, h: nat) returns (p: nat)
    requires Shape(s) && OwnI(s) && FormI(s) && StageI(s) && BufI(s) && h < NUM && s.stage[h].Fetched?
    ensures s.owner[h] == Some(p) && p < |s.procs| && Published(s.procs[p].pc) && s.procs[p].c.i0 == h
    ensures var pr := s.procs[p];
      && Decode(s.q, h) == Some(Req(pr.write, pr.sector, pr.b, h))
      && pr.b < |s.bufs| && pr.sector == FirstSector(s.bufs[pr.b].blockno) && pr.sector + SPB <= |s.disk|
  {
    p := s.owner[h].value;
    assert FormattedAs(s.q.desc, s.q.ops, s.q.info, s.procs[p]);
  }

  ghost function Transfer(s: State, p: nat): Block
    requires p < |s.procs| && s.procs[p].b < |s.bufs| && s.procs[p].sector + SPB <= |s.disk|
  {
    if s.procs[p].write then s.bufs[s.procs[p].b].data else ReadAt(s.disk, s.procs[p].sector)
  }

  ghost predicate Ready(s: State, p: nat) {
    && Shape(s) && p < |s.procs| && Published(s.procs[p].pc) && s.procs[p].b < |s.bufs|
    && s.procs[p].sector + SPB <= |s.disk| && s.procs[p].sector == SectorOf(s.bufs[s.procs[p].b].blockno)
    && s.stage[s.procs[p].c.i0].Fetched?
  }

  ghost function Done(s: State, p: nat): State
    requires Ready(s, p)
  {
    var pr := s.procs[p];
    var data := Transfer(s, p);
    s.(disk := if pr.write then WriteAt(s.disk, pr.sector, data) else s.disk,
       bufs := s.bufs[pr.b := s.bufs[pr.b].(data := data)],
       q := PutStatus(s.q, pr.c.i0),
       stage := s.stage[pr.c.i0 := Performed],
       log := s.log + [Event(pr.tid, pr.write, pr.sector, data)],
       calls := s.calls[pr.tid := s.calls[pr.tid].(event := Some(|s.log|))])
  }

  lemma DoneLog(s: State, p: nat)
    requires Ready(s, p) && LogI(s)
    ensures LogI(Done(s, p))
  {
    var s' := Done(s, p);
    assert s'.log[..|s.log|] == s.log;
    assert |s.disk0| == |s.disk|;
    forall e | 0 <= e < |s'.log| ensures LegalAt(s.disk0, s'.log, e) {
      assert s'.log[..e] == s.log[..e];
      if e < |s.log| { assert LegalAt(s.disk0, s.log, e); }
    }
  }

  lemma DoneCalls(s: State, p: nat)
    requires Ready(s, p) && CallI(s) && UnderI(s) && BufI(s)
    ensures CallI(Done(s, p))
  {
    var s' := Done(s, p);
    var pr := s.procs[p];
    assert UnderwayAs(pr, s.bufs[pr.b], s.calls[pr.tid], s.log, false);
    assert InDisk(|s.disk|, s.bufs[pr.b].blockno);
    forall t | 0 <= t < |s'.calls| ensures CallOf(t, s'.calls[t], s'.log) {
      assert CallOf(t, s.calls[t], s.log);
    }
    forall e | 0 <= e < |s'.log| ensures s'.log[e].tid < |s'.calls| && EventOf(e, s'.log[e], s'.calls[s'.log[e].tid], |s'.disk|) {
      if e < |s.log| { assert EventOf(e, s.log[e], s.calls[s.log[e].tid], |s.disk|); }
    }
  }

  lemma DoneUnderway(s: State, p: nat)
    requires Ready(s, p) && UnderI(s) && BufI(s) && OwnI(s)
    ensures UnderI(Done(s, p))
  {
    var s' := Done(s, p);
    forall r | 0 <= r < |s.procs| && Active(s.procs[r].pc)
      ensures UnderwayAs(s.procs[r], s'.bufs[s.procs[r].b], s'.calls[s.procs[r].tid], s'.log, Moved(s'.stage, s.procs[r]))
    {
      assert UnderwayAs(s.procs[r], s.bufs[s.procs[r].b], s.calls[s.procs[r].tid], s.log, Moved(s.stage, s.procs[r]));
      if r != p && Published(s.procs[r].pc) { ChainsApart(s, p, r); }
    }
  }

  lemma DoneBuffers(s: State, p: nat)
    requires Ready(s, p) && BufI(s) && SleepI(s) && FlagI(s) && StageI(s)
    ensures var s' := Done(s, p); Shape(s') && BufI(s') && SleepI(s') && FlagI(s') && StageI(s')
  {
    var s' := Done(s, p);
    NothingMoved(s.procs);
    KeepBuffers(s.procs, s.procs, s.bufs, s'.bufs, |s.disk|);
    KeepSleepers(s.q.free, s.procs, s.procs, s.bufs, s'.bufs);
    KeepFlags(s.stage, s'.stage, s.procs, s.procs, s.bufs, s'.bufs);
    KeepStaged(s.stage, s'.stage, s.owner, s.procs, s.procs);
  }

  lemma DoneRings(s: State, p: nat)
    requires Ready(s, p) && AvailI(s) && UsedI(s) && StatusI(s)
    ensures var s' := Done(s, p); AvailI(s') && UsedI(s') && StatusI(s')
  {
    var s' := Done(s, p);
    NothingMoved(s.procs);
    KeepAvail(s.q.avail, s.q.availIdx, s.devIdx, s.availQ, s.stage, s'.stage, s.procs, s.procs);
    KeepUsed(s.q.used, s.q.usedIdx, s.q.seen, s.posting, s.usedQ, s.stage, s'.stage);
  }

  lemma DoneForms(s: State, p: nat)
    requires Ready(s, p) && FormI(s)
    ensures FormI(Done(s, p))
  {
    var s' := Done(s, p);
    forall r | 0 <= r < |s.procs| && Filled(s.procs[r].pc) ensures FormattedAs(s'.q.desc, s'.q.ops, s'.q.info, s.procs[r]) {
      assert FormattedAs(s.q.desc, s.q.ops, s.q.info, s.procs[r]);
    }
  }

  lemma DoneKeeps(s: State, p: nat)
    requires Inv(s) && Ready(s, p)
    ensures Inv(Done(s, p))
  {
    DoneLog(s, p);
    DoneCalls(s, p);
    DoneUnderway(s, p);
    DoneBuffers(s, p);
    DoneRings(s, p);
    DoneForms(s, p);
  }

  lemma DevPerformKeeps(s: State, h: nat)
    requires Inv(s) && Enabled(s, DevPerform(h))
    ensures Inv(Apply(s, DevPerform(h)))
  {
    var p := FetchedCall(s, h);
    DoneKeeps(s, p);
    PerformIsDone(s, h, p);
  }

  lemma PerformIsDone(s: State, h: nat, p: nat)
    requires Ready(s, p) && h == s.procs[p].c.i0 && s.owner[h] == Some(p)
    requires var pr := s.procs[p]; Decode(s.q, h) == Some(Req(pr.write, pr.sector, pr.b, h))
    ensures DevPerformStep(s, h) == Done(s, p)
  {
  }

  // ---- all steps, all runs --------------------------------------------------------------------

  predicate DeviceStep(step: Step) { step.DevFetch? || step.DevPerform? || step.DevPost? || step.DevBump? }

  lemma DeviceKeeps(s: State, step: Step)
    requires Inv(s) && Enabled(s, step) && DeviceStep(step)
    ensures Inv(Apply(s, step))
  {
    hide Locking, Buffers, Owning, Counted, Formed, Staged, BusyFlags, StatusGood, AvailRing, UsedRing, FreeSleepers, BufSleepers, LogLegal, CallsMatch, Underway;
    match step
    case DevFetch => DevFetchKeeps(s);
    case DevPerform(h) => DevPerformKeeps(s, h);
    case DevPost(h) => DevPostKeeps(s, h);
    case DevBump => DevBumpKeeps(s);
  }

  predicate CallStep(step: Step) { step.ClientSet? || step.Invoke? || step.TakeLock? || step.TryAlloc? || step.Return? }

  lemma CallKeeps(s: State, step: Step)
    requires Inv(s) && Enabled(s, step) && CallStep(step)
    ensures Inv(Apply(s, step))
  {
    hide Locking, Buffers, Owning, Counted, Formed, Staged, BusyFlags, StatusGood, AvailRing, UsedRing, FreeSleepers, BufSleepers, LogLegal, CallsMatch, Underway;
    match step
    case ClientSet(b, blockno, data) => ClientSetKeeps(s, b, blockno, data);
    case Invoke(p, b, write) => InvokeKeeps(s, p, b, write);
    case TakeLock(p) => TakeLockKeeps(s, p);
    case TryAlloc(p) => TryAllocKeeps(s, p);
    case Return(p) => ReturnKeeps(s, p);
  }

  lemma DriverKeeps(s: State, step: Step)
    requires Inv(s) && Enabled(s, step) && !DeviceStep(step) && !CallStep(step)
    ensures Inv(Apply(s, step))
  {
    hide Locking, Buffers, Owning, Counted, Formed, Staged, BusyFlags, StatusGood, AvailRing, UsedRing, FreeSleepers, BufSleepers, LogLegal, CallsMatch, Underway;
    match step
    case Fill(p) => FillKeeps(s, p);
    case Put(p) => PutKeeps(s, p);
    case Bump(p) => BumpKeeps(s, p);
    case Test(p) => TestKeeps(s, p);
    case Clean(p) => CleanKeeps(s, p);
    case IntrLock => IntrKeeps(s, step);
    case IntrTest => IntrKeeps(s, step);
    case IntrBody => IntrBodyKeeps(s);
  }

  /** Whatever step is taken, the invariant holds afterwards, with no panic, no null
      buffer and no malformed chain. */
  lemma StepKeeps(s: State, step: Step)
    requires Inv(s) && Enabled(s, step)
    ensures Inv(Apply(s, step))
  {
    hide Locking, Buffers, Owning, Counted, Formed, Staged, BusyFlags, StatusGood, AvailRing, UsedRing, FreeSleepers, BufSleepers, LogLegal, CallsMatch, Underway;
    if DeviceStep(step) { DeviceKeeps(s, step); }
    else if CallStep(step) { CallKeeps(s, step); }
    else { DriverKeeps(s, step); }
  }

  lemma InitOwns(s: State)
    requires Init(s)
    ensures OwnI(s)
  {
    AllFreeSet(s.q.free);
    assert Holders(s.procs) == {};
  }

  lemma AllFreeSet(free: seq<bool>)
    requires |free| == NUM && forall i :: 0 <= i < NUM ==> free[i]
    ensures |FreeSet(free)| == NUM
  {
    assert FreeSet(free) == Upto(NUM);
  }

  lemma InitRings(s: State)
    requires Init(s)
    ensures AvailI(s) && UsedI(s)
  {
  }

  lemma InitRest(s: State)
    requires Init(s)
    ensures Shape(s) && LockI(s) && BufI(s) && FormI(s) && StageI(s) && FlagI(s) && StatusI(s)
    ensures SleepI(s) && LogI(s) && CallI(s) && UnderI(s)
  {
  }

  lemma InitHolds(s: State)
    requires Init(s)
    ensures Inv(s)
  {
    InitOwns(s);
    InitRings(s);
    InitRest(s);
  }
}
