/** What each part of VirtioMachine's invariant does not depend on: changes of program
    counter, of idle buffers and of stages that leave that part as it is. */
module VirtioFrames {
  import opened Common
  import opened VirtioQueue
  import opened VirtioRing
  import opened VirtioMachine

  /** p' is p at another program counter. */
  ghost predicate SameCall(p: Proc, p': Proc) {
    p'.b == p.b && p'.write == p.write && p'.sector == p.sector && p'.c == p.c && p'.tid == p.tid
  }

  // ---- relations between the processes before and after --------------------------

  ghost predicate NoneCalled(P: seq<Proc>, P': seq<Proc>) {
    |P'| == |P| && forall p :: 0 <= p < |P| && Active(P'[p].pc) ==> Active(P[p].pc) && SameCall(P[p], P'[p])
  }

  ghost predicate SameChains(P: seq<Proc>, P': seq<Proc>) {
    && |P'| == |P|
    && forall p :: 0 <= p < |P| ==> (HasChain(P'[p].pc) <==> HasChain(P[p].pc)) && (HasChain(P[p].pc) ==> P'[p].c == P[p].c)
  }

  ghost predicate NoneFilled(P: seq<Proc>, P': seq<Proc>) {
    |P'| == |P| && forall p :: 0 <= p < |P| && Filled(P'[p].pc) ==> Filled(P[p].pc) && SameCall(P[p], P'[p])
  }

  ghost predicate SamePublished(P: seq<Proc>, P': seq<Proc>) {
    && |P'| == |P|
    && forall p :: 0 <= p < |P| ==> (Published(P'[p].pc) <==> Published(P[p].pc)) && (Published(P[p].pc) ==> P'[p].c == P[p].c)
  }

  ghost predicate NoneCleaning(P: seq<Proc>, P': seq<Proc>) {
    |P'| == |P| && forall p :: 0 <= p < |P| && P'[p].pc.Clean? ==> P[p].pc.Clean?
  }

  ghost predicate NoneBumping(P: seq<Proc>, P': seq<Proc>) {
    |P'| == |P| && forall p :: 0 <= p < |P| && P'[p].pc.Bump? ==> P[p].pc.Bump? && P'[p].c == P[p].c
  }

  ghost predicate NoneSlept(P: seq<Proc>, P': seq<Proc>) {
    && |P'| == |P|
    && (forall p :: 0 <= p < |P| && P'[p].pc.SleepFree? ==> P[p].pc.SleepFree?)
    && (forall p :: 0 <= p < |P| && P'[p].pc.SleepBuf? ==> P[p].pc.SleepBuf? && P'[p].b == P[p].b)
  }

  ghost predicate NoneExited(P: seq<Proc>, P': seq<Proc>) {
    |P'| == |P| && forall p :: 0 <= p < |P| && Active(P'[p].pc) ==> (P'[p].pc.Exit? <==> P[p].pc.Exit?)
  }

  lemma OneMoved(P: seq<Proc>, p: nat, x: Proc)
    requires p < |P| && SameCall(P[p], x)
    ensures var P' := P[p := x]; var pc := P[p].pc;
      && ((Active(x.pc) ==> Active(pc)) ==> NoneCalled(P, P'))
      && ((HasChain(x.pc) <==> HasChain(pc)) ==> SameChains(P, P'))
      && ((Filled(x.pc) ==> Filled(pc)) ==> NoneFilled(P, P'))
      && ((Published(x.pc) <==> Published(pc)) ==> SamePublished(P, P'))
      && ((x.pc.Clean? ==> pc.Clean?) ==> NoneCleaning(P, P'))
      && ((x.pc.Bump? ==> pc.Bump?) ==> NoneBumping(P, P'))
      && (!x.pc.SleepFree? && !x.pc.SleepBuf? ==> NoneSlept(P, P'))
      && ((x.pc.Exit? <==> pc.Exit?) || !Active(x.pc) ==> NoneExited(P, P'))
  {
  }

  /** Going to sleep, waking and taking the lock move a process between counters that
      only the lock and the sleepers tell apart. */
  function Role(pc: Pc): nat {
    match pc
    case Idle => 0
    case Start => 1 case Alloc => 1 case SleepFree => 1 case WokeFree => 1
    case Fill => 2
    case Put => 3
    case Bump => 4
    case Test => 5 case SleepBuf => 5 case WokeBuf => 5
    case Clean => 6
    case Exit => 7
  }

  ghost predicate SameRoles(P: seq<Proc>, P': seq<Proc>) {
    |P'| == |P| && forall p :: 0 <= p < |P| ==> Role(P'[p].pc) == Role(P[p].pc) && SameCall(P[p], P'[p])
  }

  lemma SameRolesRelate(P: seq<Proc>, P': seq<Proc>)
    requires SameRoles(P, P')
    ensures NoneCalled(P, P') && SameChains(P, P') && NoneFilled(P, P') && SamePublished(P, P')
    ensures NoneCleaning(P, P') && NoneBumping(P, P') && NoneExited(P, P')
  {
  }

  // ---- and between buffers and stages --------------------------------------------------

  ghost predicate SameNames(P: seq<Proc>, B: seq<Buf>, B': seq<Buf>) {
    |B'| == |B| && forall p :: 0 <= p < |P| && Active(P[p].pc) && P[p].b < |B| ==> B'[P[p].b].blockno == B[P[p].b].blockno
  }

  ghost predicate SameData(P: seq<Proc>, B: seq<Buf>, B': seq<Buf>) {
    |B'| == |B| && forall p :: 0 <= p < |P| && Active(P[p].pc) && P[p].b < |B| ==> B'[P[p].b].data == B[P[p].b].data
  }

  ghost predicate SameFlags(P: seq<Proc>, B: seq<Buf>, B': seq<Buf>) {
    |B'| == |B| && forall p :: 0 <= p < |P| && Active(P[p].pc) && P[p].b < |B| ==> B'[P[p].b].disk == B[P[p].b].disk
  }

  ghost predicate SameStages(st: seq<Stage>, st': seq<Stage>) {
    && |st| == |st'| == NUM
    && forall h :: 0 <= h < NUM ==> (st'[h].NoReq? <==> st[h].NoReq?) && (st'[h].Drained? <==> st[h].Drained?)
  }

  lemma KeepBuffers(P: seq<Proc>, P': seq<Proc>, B: seq<Buf>, B': seq<Buf>, size: nat)
    requires Buffers(P, B, size) && NoneCalled(P, P') && SameNames(P, B, B')
    ensures Buffers(P', B', size)
  {
  }

  lemma KeepOwning(desc: seq<Desc>, free: seq<bool>, owner: seq<Option<nat>>, P: seq<Proc>, P': seq<Proc>)
    requires Owning(desc, free, owner, P) && Counted(free, P) && SameChains(P, P')
    ensures Owning(desc, free, owner, P') && Counted(free, P')
  {
    assert Holders(P') == Holders(P);
  }

  lemma KeepFormed(desc: seq<Desc>, ops: seq<Op>, info: seq<Info>, P: seq<Proc>, P': seq<Proc>)
    requires Formed(desc, ops, info, P) && NoneFilled(P, P')
    ensures Formed(desc, ops, info, P')
  {
  }

  lemma KeepStaged(st: seq<Stage>, st': seq<Stage>, owner: seq<Option<nat>>, P: seq<Proc>, P': seq<Proc>)
    requires Staged(st, owner, P) && SamePublished(P, P') && NoneCleaning(P, P') && SameStages(st, st')
    ensures Staged(st', owner, P')
  {
  }

  lemma KeepFlags(st: seq<Stage>, st': seq<Stage>, P: seq<Proc>, P': seq<Proc>, B: seq<Buf>, B': seq<Buf>)
    requires BusyFlags(st, P, B) && NoneFilled(P, P') && SamePublished(P, P') && SameStages(st, st') && SameFlags(P, B, B')
    ensures BusyFlags(st', P', B')
  {
  }

  lemma KeepAvail(avail: seq<nat>, availIdx: nat, devIdx: nat, availQ: seq<nat>,
                  st: seq<Stage>, st': seq<Stage>, P: seq<Proc>, P': seq<Proc>)
    requires AvailRing(avail, availIdx, devIdx, availQ, st, P) && NoneBumping(P, P') && |st'| == NUM
    requires forall h :: 0 <= h < NUM ==> (st'[h].Avail? <==> st[h].Avail?)
    ensures AvailRing(avail, availIdx, devIdx, availQ, st', P')
  {
  }

  lemma KeepUsed(used: seq<nat>, usedIdx: nat, seen: nat, posting: Option<nat>, usedQ: seq<nat>, st: seq<Stage>, st': seq<Stage>)
    requires UsedRing(used, usedIdx, seen, posting, usedQ, st) && |st'| == NUM
    requires forall h :: 0 <= h < NUM ==> (st'[h].Used? <==> st[h].Used?) && (st[h].Performed? ==> st'[h].Performed?)
    ensures UsedRing(used, usedIdx, seen, posting, usedQ, st')
  {
  }

  lemma KeepSleepers(free: seq<bool>, P: seq<Proc>, P': seq<Proc>, B: seq<Buf>, B': seq<Buf>)
    requires FreeSleepers(free, P) && BufSleepers(P, B) && NoneSlept(P, P') && SameFlags(P, B, B')
    ensures FreeSleepers(free, P') && BufSleepers(P', B')
  {
  }

  lemma KeepUnderway(P: seq<Proc>, P': seq<Proc>, B: seq<Buf>, B': seq<Buf>, calls: seq<Call>, log: seq<Event>, st: seq<Stage>)
    requires Underway(P, B, calls, log, st) && SameNames(P, B, B') && SameData(P, B, B')
    requires NoneCalled(P, P') && SamePublished(P, P') && NoneExited(P, P')
    ensures Underway(P', B', calls, log, st)
  {
  }

  lemma KeepUnderwayStages(P: seq<Proc>, B: seq<Buf>, calls: seq<Call>, log: seq<Event>, st: seq<Stage>, st': seq<Stage>)
    requires Underway(P, B, calls, log, st) && |st'| == NUM
    requires forall h :: 0 <= h < NUM ==>
      ((st[h].Performed? || st[h].Used? || st[h].Drained?) <==> (st'[h].Performed? || st'[h].Used? || st'[h].Drained?))
    ensures Underway(P, B, calls, log, st')
  {
  }
}
