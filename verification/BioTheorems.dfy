/** What the buffer cache guarantees in every run: it agrees with the disk, caches no block
    twice, keeps its list whole, and recycles by age. */
module BioTheorems {
  import opened Common
  import opened BioSpec
  import opened BioMachine
  import opened BioProof

  ghost predicate CanRun(s: State, steps: seq<Step>)
    decreases |steps|
  {
    steps == [] || (Enabled(s, steps[0]) && CanRun(Apply(s, steps[0]), steps[1..]))
  }

  ghost function After(s: State, steps: seq<Step>): State
    requires CanRun(s, steps)
    decreases |steps|
  {
    if steps == [] then s else After(Apply(s, steps[0]), steps[1..])
  }

  lemma {:induction false} RunKeeps(s: State, steps: seq<Step>)
    requires Inv(s) && CanRun(s, steps)
    ensures Inv(After(s, steps))
    decreases |steps|
  {
    hide Inv;
    if steps != [] {
      StepKeeps(s, steps[0]);
      RunKeeps(Apply(s, steps[0]), steps[1..]);
    }
  }

  lemma Reached(s0: State, steps: seq<Step>)
    requires Init(s0) && CanRun(s0, steps)
    ensures Inv(After(s0, steps))
  {
    InitHolds(s0);
    RunKeeps(s0, steps);
  }

  /** bread(dev, block) has returned to process p, and p has not changed the data since, or
      has written it back: the buffer is that block's, and holds the bytes that the last
      bwrite of that block wrote, or the disk's own if there was none. */
  lemma ReadsLastWrite(s0: State, steps: seq<Step>, p: nat)
    requires Init(s0) && CanRun(s0, steps)
    requires var s := After(s0, steps); p < |s.procs| && s.procs[p].Holding?
    ensures var s := After(s0, steps); var k := s.procs[p].k; var id := s.procs[p].id;
      && (forall b :: b in s.disk0) && k < |s.c.slots|
      && s.c.slots[k].id == id && s.c.slots[k].valid && s.c.slots[k].data == LastWrite(s.disk0, s.log, id)
  {
    Reached(s0, steps);
    var s := After(s0, steps);
    HeldIsClean(s, p);
  }

  lemma HeldIsClean(s: State, p: nat)
    requires Sizes(s) && NameI(s.c.slots, s.procs) && HolderI(s.holder, s.procs) && DataI(s.c.slots, s.procs, s.disk)
    requires LogI(s.disk0, s.log, s.disk) && p < |s.procs| && s.procs[p].Holding?
    ensures var k := s.procs[p].k; var id := s.procs[p].id;
      k < |s.c.slots| && s.c.slots[k].id == id && s.c.slots[k].valid && s.c.slots[k].data == LastWrite(s.disk0, s.log, id)
  {
    var k := s.procs[p].k;
    forall q | 0 <= q < |s.procs| && s.procs[q].Dirty? ensures s.procs[q].k != k {
      Separate(s.holder, s.procs, p, q);
    }
    assert !DirtyIn(s.procs, k);
  }

  /** Two processes that have a block from bread are one process. */
  lemma OneUserPerBlock(s0: State, steps: seq<Step>, p: nat, q: nat)
    requires Init(s0) && CanRun(s0, steps)
    requires var s := After(s0, steps);
      p < |s.procs| && q < |s.procs| && HasLock(s.procs[p]) && HasLock(s.procs[q]) && s.procs[p].id == s.procs[q].id
    ensures p == q
  {
    Reached(s0, steps);
    var s := After(s0, steps);
    SameBlockSameBuffer(s, p, q);
    NobodyElse(s.holder, s.procs, p, q);
  }

  lemma SameBlockSameBuffer(s: State, p: nat, q: nat)
    requires NameI(s.c.slots, s.procs) && UniqueI(s.c.slots) && p < |s.procs| && q < |s.procs|
    requires !s.procs[p].Idle? && !s.procs[q].Idle? && s.procs[p].id == s.procs[q].id
    ensures s.procs[p].k == s.procs[q].k
  {
  }

  /** The list is always a permutation of all buffers, and no two buffers with a reference
      or valid data are for the same block. */
  lemma ListAndIdentity(s0: State, steps: seq<Step>)
    requires Init(s0) && CanRun(s0, steps)
    ensures var s := After(s0, steps);
      && Perm(s.c.order, |s.c.slots|)
      && forall i, j :: 0 <= i < j < |s.c.slots| && Active(s.c.slots[i]) && Active(s.c.slots[j]) ==> s.c.slots[i].id != s.c.slots[j].id
  {
    Reached(s0, steps);
  }

  /** A miss recycles an unreferenced buffer whose last release is oldest, and comes back
      without one only when every buffer is referenced. */
  lemma RecyclesOldest(s0: State, steps: seq<Step>, id: Id)
    requires Init(s0) && CanRun(s0, steps)
    requires forall j :: 0 <= j < |After(s0, steps).c.slots| ==> After(s0, steps).c.slots[j].id != id
    ensures Shape(After(s0, steps).c)
    ensures var s := After(s0, steps); var (c, k) := Get(s.c, id);
      && |s.released| == |s.c.slots|
      && (k.None? <==> forall j :: 0 <= j < |s.c.slots| ==> s.c.slots[j].links > 0)
      && (k.Some? ==> (&& s.c.slots[k.value].links == 0 && c.slots[k.value] == Slot(id, false, 1, s.c.slots[k.value].data)
                       && forall j :: 0 <= j < |s.c.slots| && s.c.slots[j].links == 0 ==> s.released[k.value] <= s.released[j]))
  {
    Reached(s0, steps);
    VictimOldest(After(s0, steps), id);
  }

  lemma VictimOldest(s: State, id: Id)
    requires Shape(s.c) && OldI(s.c, s.released, s.clock) && forall j :: 0 <= j < |s.c.slots| ==> s.c.slots[j].id != id
    ensures var (c, k) := Get(s.c, id);
      && (k.None? <==> forall j :: 0 <= j < |s.c.slots| ==> s.c.slots[j].links > 0)
      && (k.Some? ==> (&& s.c.slots[k.value].links == 0 && c.slots[k.value] == Slot(id, false, 1, s.c.slots[k.value].data)
                       && forall j :: 0 <= j < |s.c.slots| && s.c.slots[j].links == 0 ==> s.released[k.value] <= s.released[j]))
  {
    assert Hit(s.c, id, 0).None?;
    var v := Victim(s.c, |s.c.order|);
    forall j | 0 <= j < |s.c.slots| && s.c.slots[j].links == 0
      ensures v.Some? && s.released[s.c.order[v.value]] <= s.released[j]
    {
      PermCovers(s.c.order, |s.c.slots|, j);
      var at := PlaceOf(s.c.order, j);
    }
  }

  /** Whoever is in brelease can finish it: its buffer is in the list and has a reference
      to give up. */
  lemma ReleaseGoesThrough(s0: State, steps: seq<Step>, p: nat) returns (place: nat)
    requires Init(s0) && CanRun(s0, steps)
    requires var s := After(s0, steps); p < |s.procs| && s.procs[p].Dropping?
    ensures Enabled(After(s0, steps), Drop(p, place))
  {
    Reached(s0, steps);
    var s := After(s0, steps);
    PermCovers(s.c.order, |s.c.slots|, s.procs[p].k);
    place := PlaceOf(s.c.order, s.procs[p].k);
  }

  // ---- the way through the calls ---------------------------------------------------------------

  /** Each step of a call goes on: bread to the sleep lock of the buffer bget gave it, then,
      with the lock, to the data when that is valid and to the disk when it is not; brelease
      from giving up the lock to giving up the reference; and no other process moves. */
  lemma CallGoesOn(s: State, step: Step)
    requires Enabled(s, step)
    ensures var s' := Apply(s, step); var pc, pc' := s.procs[step.p], s'.procs[step.p];
      && |s'.procs| == |s.procs| && |s'.holder| == |s.holder|
      && (forall q :: 0 <= q < |s.procs| && q != step.p ==> s'.procs[q] == s.procs[q])
      && match step
         case Bget(p, id) => var k := Get(s.c, id).1; if k.Some? then pc' == Wait(k.value, id) else s' == s
         case Lock(p) => pc' == Check(pc.k, pc.id) && s'.holder == s.holder[pc.k := Some(p)]
         case Test(p) =>
           if s.c.slots[pc.k].valid then pc' == Holding(pc.k, pc.id) && s'.c == s.c
           else pc' == Mark(pc.k, pc.id) && s'.c.slots[pc.k].data == s.disk[s.c.slots[pc.k].id]
         case SetValid(p) => pc' == Holding(pc.k, pc.id) && s'.c.slots[pc.k].valid
         case Modify(p, data) => pc' == Dirty(pc.k, pc.id) && s'.c.slots[pc.k].data == data
         case Bwrite(p) => pc' == Holding(pc.k, pc.id) && s'.disk[s.c.slots[pc.k].id] == s.c.slots[pc.k].data
         case Unlock(p) => pc' == Dropping(pc.k, pc.id) && s'.holder == s.holder[pc.k := None]
         case Drop(p, place) => pc'.Idle? && s'.c.slots[pc.k].links == s.c.slots[pc.k].links - 1
  {
  }
}
