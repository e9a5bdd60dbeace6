/** Every step of BioMachine keeps its invariant. */
module BioProof {
  import opened Common
  import opened BioSpec
  import opened BioMachine

  // ---- counting references ----------------------------------------------------------------

  lemma SameReferrers(procs: seq<Pc>, p: nat, pc: Pc, k: nat)
    requires p < |procs| && (Refers(pc, k) <==> Refers(procs[p], k))
    ensures Referrers(procs[p := pc], k) == Referrers(procs, k)
  {
  }

  lemma MoreReferrers(procs: seq<Pc>, p: nat, pc: Pc, k: nat)
    requires p < |procs| && Refers(pc, k) && !Refers(procs[p], k)
    ensures |Referrers(procs[p := pc], k)| == |Referrers(procs, k)| + 1
  {
    assert Referrers(procs[p := pc], k) == Referrers(procs, k) + {p};
  }

  lemma FewerReferrers(procs: seq<Pc>, p: nat, pc: Pc, k: nat)
    requires p < |procs| && !Refers(pc, k) && Refers(procs[p], k)
    ensures |Referrers(procs[p := pc], k)| == |Referrers(procs, k)| - 1
  {
    assert Referrers(procs, k) == Referrers(procs[p := pc], k) + {p};
  }

  lemma Counted(slots: seq<Slot>, procs: seq<Pc>, p: nat)
    requires CountI(slots, procs) && p < |procs| && !procs[p].Idle? && procs[p].k < |slots|
    ensures slots[procs[p].k].links > 0
  {
    assert p in Referrers(procs, procs[p].k);
  }

  // ---- steps of a process with its buffer -----------------------------------------------------

  /** Apart from data, and `valid` on a buffer in use, the buffers are the same. */
  ghost predicate SameUse(slots: seq<Slot>, slots': seq<Slot>) {
    && |slots'| == |slots|
    && forall k :: 0 <= k < |slots| ==>
         slots'[k].id == slots[k].id && slots'[k].links == slots[k].links && (Active(slots'[k]) <==> Active(slots[k]))
  }

  lemma UseKeeps(c: Cache, c': Cache, released: seq<nat>, clock: nat)
    requires Shape(c) && c'.order == c.order && SameUse(c.slots, c'.slots)
    ensures Shape(c') && (UniqueI(c.slots) ==> UniqueI(c'.slots)) && (FreshI(c) ==> FreshI(c'))
    ensures OldI(c, released, clock) ==> OldI(c', released, clock)
  {
  }

  lemma UseCounts(slots: seq<Slot>, slots': seq<Slot>, procs: seq<Pc>, p: nat, pc: Pc)
    requires CountI(slots, procs) && SameUse(slots, slots') && p < |procs|
    requires !procs[p].Idle? && !pc.Idle? && pc.k == procs[p].k
    ensures CountI(slots', procs[p := pc])
  {
    forall k | 0 <= k < |slots'| ensures slots'[k].links == |Referrers(procs[p := pc], k)| { SameReferrers(procs, p, pc, k); }
  }

  lemma Undirtied(procs: seq<Pc>, p: nat, pc: Pc, k: nat)
    requires p < |procs| && !(procs[p].Dirty? && procs[p].k == k) && !(pc.Dirty? && pc.k == k)
    ensures DirtyIn(procs[p := pc], k) <==> DirtyIn(procs, k)
  {
    var procs' := procs[p := pc];
    if DirtyIn(procs, k) {
      var q :| 0 <= q < |procs| && procs[q].Dirty? && procs[q].k == k;
      assert procs'[q].Dirty?;
    }
    if DirtyIn(procs', k) {
      var q :| 0 <= q < |procs'| && procs'[q].Dirty? && procs'[q].k == k;
      assert procs[q].Dirty?;
    }
  }

  /** Where no process was or is in Dirty, DataI needs looking at only for its own slot. */
  lemma DataOne(slots: seq<Slot>, procs: seq<Pc>, disk: imap<Id, Data>, p: nat, pc: Pc, k: nat, slot: Slot)
    requires DataI(slots, procs, disk) && p < |procs| && k < |slots|
    requires (procs[p].Dirty? ==> procs[p].k == k) && (pc.Dirty? || pc.Mark? ==> pc.k == k)
    requires forall q :: 0 <= q < |procs| && q != p && procs[q].Mark? ==> procs[q].k != k
    requires slot.valid ==> DirtyIn(procs[p := pc], k) || slot.data == disk[slot.id]
    requires pc.Mark? ==> slot.data == disk[slot.id]
    ensures DataI(slots[k := slot], procs[p := pc], disk)
  {
    forall j | 0 <= j < |slots| && j != k ensures DirtyIn(procs[p := pc], j) <==> DirtyIn(procs, j) { Undirtied(procs, p, pc, j); }
  }

  lemma NobodyElse(holder: seq<Option<nat>>, procs: seq<Pc>, p: nat, q: nat)
    requires HolderI(holder, procs) && p < |procs| && q < |procs| && HasLock(procs[p]) && HasLock(procs[q]) && procs[p].k == procs[q].k
    ensures p == q
  {
  }

  lemma Separate(holder: seq<Option<nat>>, procs: seq<Pc>, p: nat, q: nat)
    requires HolderI(holder, procs) && p < |procs| && q < |procs| && HasLock(procs[p]) && HasLock(procs[q]) && p != q
    ensures procs[p].k != procs[q].k
  {
  }

  /** The steps between taking a buffer's sleep lock and giving the buffer back. */
  predicate Using(step: Step) { step.Lock? || step.Test? || step.SetValid? || step.Modify? || step.Bwrite? || step.Unlock? }

  lemma UsingSlots(s: State, step: Step)
    requires Sizes(s) && NameI(s.c.slots, s.procs) && Enabled(s, step) && Using(step)
    ensures var s' := Apply(s, step); var k := s.procs[step.p].k; var pc := s'.procs[step.p];
      && s'.c.order == s.c.order && SameUse(s.c.slots, s'.c.slots) && s'.procs == s.procs[step.p := pc]
      && k < |s.c.slots| && s'.c.slots == s.c.slots[k := s'.c.slots[k]]
      && !pc.Idle? && pc.k == k && pc.id == s.procs[step.p].id
      && s'.clock == s.clock && s'.released == s.released && s'.disk0 == s.disk0 && |s'.holder| == |s.holder|
  {
  }

  lemma UsingCounts(s: State, step: Step)
    requires Sizes(s) && CountI(s.c.slots, s.procs) && NameI(s.c.slots, s.procs) && Enabled(s, step) && Using(step)
    requires UniqueI(s.c.slots) && FreshI(s.c) && OldI(s.c, s.released, s.clock)
    ensures var s' := Apply(s, step);
      && Shape(s'.c) && CountI(s'.c.slots, s'.procs) && UniqueI(s'.c.slots) && FreshI(s'.c) && OldI(s'.c, s'.released, s'.clock)
  {
    var s' := Apply(s, step);
    UsingSlots(s, step);
    hide CountI, UniqueI, FreshI, OldI, NameI;
    UseKeeps(s.c, s'.c, s.released, s.clock);
    UseCounts(s.c.slots, s'.c.slots, s.procs, step.p, s'.procs[step.p]);
  }

  lemma UsingNames(s: State, step: Step)
    requires Sizes(s) && NameI(s.c.slots, s.procs) && HolderI(s.holder, s.procs) && Enabled(s, step) && Using(step)
    ensures var s' := Apply(s, step); NameI(s'.c.slots, s'.procs)
  {
    var s' := Apply(s, step);
    var p := step.p;
    forall q | 0 <= q < |s.procs| && q != p && s.procs[q].Mark? && HasLock(s.procs[p]) ensures s.procs[q].k != s.procs[p].k {
      Separate(s.holder, s.procs, p, q);
    }
  }

  lemma UsingHolders(s: State, step: Step)
    requires Sizes(s) && HolderI(s.holder, s.procs) && Enabled(s, step) && Using(step)
    ensures var s' := Apply(s, step); HolderI(s'.holder, s'.procs)
  {
    var s' := Apply(s, step);
    var p := step.p;
    if step.Lock? {
      TakesLock(s.holder, s.procs, p, s'.procs[p]);
    } else if step.Unlock? {
      DropsLock(s.holder, s.procs, p, s'.procs[p]);
    } else {
      SameLocks(s.holder, s.procs, p, s'.procs[p]);
    }
  }

  lemma TakesLock(holder: seq<Option<nat>>, procs: seq<Pc>, p: nat, pc: Pc)
    requires HolderI(holder, procs) && p < |procs| && HasLock(pc) && pc.k < |holder| && holder[pc.k] == None && !HasLock(procs[p])
    ensures HolderI(holder[pc.k := Some(p)], procs[p := pc])
  {
  }

  lemma DropsLock(holder: seq<Option<nat>>, procs: seq<Pc>, p: nat, pc: Pc)
    requires HolderI(holder, procs) && p < |procs| && HasLock(procs[p]) && !HasLock(pc) && procs[p].k < |holder|
    ensures HolderI(holder[procs[p].k := None], procs[p := pc])
  {
  }

  lemma SameLocks(holder: seq<Option<nat>>, procs: seq<Pc>, p: nat, pc: Pc)
    requires HolderI(holder, procs) && p < |procs| && HasLock(procs[p]) && HasLock(pc) && pc.k == procs[p].k
    ensures HolderI(holder, procs[p := pc])
  {
  }

  lemma UsingData(s: State, step: Step)
    requires Sizes(s) && NameI(s.c.slots, s.procs) && HolderI(s.holder, s.procs) && Enabled(s, step) && Using(step) && !step.Bwrite?
    requires DataI(s.c.slots, s.procs, s.disk)
    ensures var s' := Apply(s, step); DataI(s'.c.slots, s'.procs, s'.disk)
  {
    var s' := Apply(s, step);
    var p := step.p;
    var k := s.procs[p].k;
    UsingSlots(s, step);
    if HasLock(s.procs[p]) {
      forall q | 0 <= q < |s.procs| && q != p && s.procs[q].Mark? ensures s.procs[q].k != k {
        Separate(s.holder, s.procs, p, q);
      }
    }
    if step.Modify? { assert s'.procs[p].Dirty? && s'.procs[p].k == k; }
    if step.Lock? { LockData(s, p); } else { DataOne(s.c.slots, s.procs, s.disk, p, s'.procs[p], k, s'.c.slots[k]); }
  }

  lemma LockData(s: State, p: nat)
    requires Sizes(s) && DataI(s.c.slots, s.procs, s.disk) && p < |s.procs| && s.procs[p].Wait?
    ensures DataI(s.c.slots, s.procs[p := Check(s.procs[p].k, s.procs[p].id)], s.disk)
  {
    forall j | 0 <= j < |s.c.slots| ensures DirtyIn(s.procs[p := Check(s.procs[p].k, s.procs[p].id)], j) <==> DirtyIn(s.procs, j) {
      Undirtied(s.procs, p, Check(s.procs[p].k, s.procs[p].id), j);
    }
  }

  // ---- bwrite -----------------------------------------------------------------------------------

  /** Writing block slots[k].id leaves every other valid buffer right: none has that block. */
  lemma OthersElsewhere(slots: seq<Slot>, k: nat, j: nat)
    requires UniqueI(slots) && k < |slots| && j < |slots| && j != k && Active(slots[k]) && Active(slots[j])
    ensures slots[j].id != slots[k].id
  {
  }

  lemma BwriteData(s: State, p: nat)
    requires Sizes(s) && NameI(s.c.slots, s.procs) && HolderI(s.holder, s.procs) && UniqueI(s.c.slots)
    requires DataI(s.c.slots, s.procs, s.disk) && Enabled(s, Bwrite(p))
    ensures var s' := BwriteStep(s, p); DataI(s'.c.slots, s'.procs, s'.disk)
  {
    var k := s.procs[p].k;
    var s' := BwriteStep(s, p);
    forall j | 0 <= j < |s.c.slots| && s.c.slots[j].valid ensures DirtyIn(s'.procs, j) || s'.c.slots[j].data == s'.disk[s'.c.slots[j].id] {
      if j != k {
        OthersElsewhere(s.c.slots, k, j);
        Undirtied(s.procs, p, s'.procs[p], j);
      }
    }
    forall q | 0 <= q < |s.procs| && s.procs[q].Mark? ensures s.procs[q].k != k {
      Separate(s.holder, s.procs, p, q);
    }
    forall q | 0 <= q < |s'.procs| && s'.procs[q].Mark?
      ensures s'.procs[q].k < |s.c.slots| && s'.c.slots[s'.procs[q].k].data == s'.disk[s'.c.slots[s'.procs[q].k].id]
    {
      OthersElsewhere(s.c.slots, k, s.procs[q].k);
    }
  }

  lemma BwriteLog(s: State, p: nat)
    requires Sizes(s) && LogI(s.disk0, s.log, s.disk) && p < |s.procs| && !s.procs[p].Idle?
    ensures var s' := BwriteStep(s, p); LogI(s'.disk0, s'.log, s'.disk)
  {
    var s' := BwriteStep(s, p);
    assert s'.log[..|s'.log| - 1] == s.log;
  }

  lemma UsingKeeps(s: State, step: Step)
    requires Inv(s) && Enabled(s, step) && Using(step)
    ensures Inv(Apply(s, step))
  {
    hide CountI, NameI, HolderI, UniqueI, FreshI, DataI, OldI;
    UsingSlots(s, step);
    UsingCounts(s, step);
    UsingNames(s, step);
    UsingHolders(s, step);
    if step.Bwrite? {
      BwriteData(s, step.p);
      BwriteLog(s, step.p);
    } else {
      UsingData(s, step);
    }
    UsingSizes(s, step);
  }

  lemma UsingSizes(s: State, step: Step)
    requires Sizes(s) && Enabled(s, step) && Using(step)
    ensures Sizes(Apply(s, step)) && (!step.Bwrite? ==> Apply(s, step).disk == s.disk && Apply(s, step).log == s.log)
    ensures Apply(s, step).disk0 == s.disk0
  {
  }

  // ---- bget --------------------------------------------------------------------------------------

  lemma HitAt(c: Cache, id: Id)
    requires Shape(c) && Hit(c, id, 0).Some?
    ensures var i := Hit(c, id, 0).value; var k := c.order[i];
      && i < |c.order| && k < |c.slots| && c.slots[k].id == id
      && Get(c, id) == (c.(slots := c.slots[k := c.slots[k].(links := c.slots[k].links + 1)]), Some(k))
  {
  }

  lemma MissAt(c: Cache, id: Id)
    requires Shape(c) && Hit(c, id, 0).None? && Victim(c, |c.order|).Some?
    ensures var i := Victim(c, |c.order|).value; var k := c.order[i];
      && i < |c.order| && k < |c.slots| && c.slots[k].links == 0
      && Get(c, id) == (c.(slots := c.slots[k := Slot(id, false, 1, c.slots[k].data)]), Some(k))
    ensures forall j :: 0 <= j < |c.slots| ==> c.slots[j].id != id
  {
    forall j | 0 <= j < |c.slots| ensures c.slots[j].id != id {
      PermCovers(c.order, |c.slots|, j);
      var i := PlaceOf(c.order, j);
    }
  }

  /** One more user of buffer k, whose new contents `slot` has one more reference. */
  lemma GetCounts(slots: seq<Slot>, procs: seq<Pc>, p: nat, k: nat, id: Id, slot: Slot)
    requires CountI(slots, procs) && p < |procs| && procs[p].Idle? && k < |slots| && slot.links == slots[k].links + 1
    ensures CountI(slots[k := slot], procs[p := Wait(k, id)])
  {
    var procs' := procs[p := Wait(k, id)];
    forall j | 0 <= j < |slots| ensures slots[k := slot][j].links == |Referrers(procs', j)| {
      if j == k { MoreReferrers(procs, p, Wait(k, id), j); } else { SameReferrers(procs, p, Wait(k, id), j); }
    }
  }

  lemma Unreferenced(slots: seq<Slot>, procs: seq<Pc>, k: nat, p: nat)
    requires CountI(slots, procs) && k < |slots| && slots[k].links == 0 && p < |procs| && !procs[p].Idle?
    ensures procs[p].k != k
  {
    if procs[p].k < |slots| { Counted(slots, procs, p); }
  }

  lemma HitNames(slots: seq<Slot>, procs: seq<Pc>, p: nat, k: nat)
    requires NameI(slots, procs) && p < |procs| && procs[p].Idle? && k < |slots|
    ensures NameI(slots[k := slots[k].(links := slots[k].links + 1)], procs[p := Wait(k, slots[k].id)])
  {
  }

  lemma MissNames(slots: seq<Slot>, procs: seq<Pc>, p: nat, k: nat, id: Id)
    requires NameI(slots, procs) && CountI(slots, procs) && p < |procs| && procs[p].Idle? && k < |slots| && slots[k].links == 0
    ensures NameI(slots[k := Slot(id, false, 1, slots[k].data)], procs[p := Wait(k, id)])
  {
    forall q | 0 <= q < |procs| && !procs[q].Idle? ensures procs[q].k != k { Unreferenced(slots, procs, k, q); }
  }

  lemma HitUnique(c: Cache, id: Id)
    requires Shape(c) && UniqueI(c.slots) && FreshI(c) && Hit(c, id, 0).Some?
    ensures UniqueI(Get(c, id).0.slots)
  {
    var i := Hit(c, id, 0).value;
    var k := c.order[i];
    HitAt(c, id);
    forall j | 0 <= j < |c.slots| && j != k && Active(c.slots[j]) ensures c.slots[j].id != id {
      PermCovers(c.order, |c.slots|, j);
      var at := PlaceOf(c.order, j);
      if !Active(c.slots[k]) && at > i { assert !Active(c.slots[c.order[i]]) && Active(c.slots[c.order[at]]); }
    }
  }

  lemma HitFresh(c: Cache, id: Id)
    requires Shape(c) && FreshI(c) && Hit(c, id, 0).Some?
    ensures Shape(Get(c, id).0) && FreshI(Get(c, id).0)
  {
    var i := Hit(c, id, 0).value;
    HitAt(c, id);
    var c' := Get(c, id).0;
    forall a, b | 0 <= a < b < |c.order| && !Active(c'.slots[c.order[a]]) && Active(c'.slots[c.order[b]])
      ensures c'.slots[c.order[b]].id != ZERO
    {
      if b == i { assert c.slots[c.order[a]].id != id; }
    }
  }

  lemma MissUnique(c: Cache, id: Id)
    requires Shape(c) && UniqueI(c.slots) && Hit(c, id, 0).None? && Victim(c, |c.order|).Some?
    ensures UniqueI(Get(c, id).0.slots)
  {
    MissAt(c, id);
  }

  lemma MissFresh(c: Cache, id: Id)
    requires Shape(c) && FreshI(c) && Hit(c, id, 0).None? && Victim(c, |c.order|).Some?
    ensures Shape(Get(c, id).0) && FreshI(Get(c, id).0)
  {
    MissAt(c, id);
    var i := Victim(c, |c.order|).value;
    var c' := Get(c, id).0;
    forall a, b | 0 <= a < b < |c.order| && !Active(c'.slots[c.order[a]]) && Active(c'.slots[c.order[b]])
      ensures c'.slots[c.order[b]].id != ZERO
    {
      if b == i { assert c.slots[c.order[a]].id == ZERO; }
    }
  }

  /** A buffer that gets its first reference leaves the order of the others alone. */
  lemma GetOld(c: Cache, released: seq<nat>, clock: nat, k: nat, slot: Slot)
    requires Shape(c) && OldI(c, released, clock) && k < |c.slots| && slot.links > 0
    ensures OldI(c.(slots := c.slots[k := slot]), released, clock)
  {
  }

  lemma HitData(slots: seq<Slot>, procs: seq<Pc>, disk: imap<Id, Data>, p: nat, k: nat)
    requires DataI(slots, procs, disk) && p < |procs| && procs[p].Idle? && k < |slots|
    ensures DataI(slots[k := slots[k].(links := slots[k].links + 1)], procs[p := Wait(k, slots[k].id)], disk)
  {
    forall j | 0 <= j < |slots| ensures DirtyIn(procs[p := Wait(k, slots[k].id)], j) <==> DirtyIn(procs, j) {
      Undirtied(procs, p, Wait(k, slots[k].id), j);
    }
  }

  lemma MissData(slots: seq<Slot>, procs: seq<Pc>, disk: imap<Id, Data>, p: nat, k: nat, id: Id)
    requires DataI(slots, procs, disk) && CountI(slots, procs) && p < |procs| && procs[p].Idle? && k < |slots| && slots[k].links == 0
    ensures DataI(slots[k := Slot(id, false, 1, slots[k].data)], procs[p := Wait(k, id)], disk)
  {
    forall j | 0 <= j < |slots| ensures DirtyIn(procs[p := Wait(k, id)], j) <==> DirtyIn(procs, j) { Undirtied(procs, p, Wait(k, id), j); }
    forall q | 0 <= q < |procs| && procs[q].Mark? ensures procs[q].k != k { Unreferenced(slots, procs, k, q); }
  }

  lemma GetHolders(holder: seq<Option<nat>>, procs: seq<Pc>, p: nat, pc: Pc)
    requires HolderI(holder, procs) && p < |procs| && !HasLock(procs[p]) && !HasLock(pc)
    ensures HolderI(holder, procs[p := pc])
  {
  }

  lemma HitKeeps(s: State, p: nat, id: Id)
    requires Inv(s) && Enabled(s, Bget(p, id)) && Hit(s.c, id, 0).Some?
    ensures Inv(BgetStep(s, p, id))
  {
    hide CountI, NameI, HolderI, UniqueI, FreshI, DataI, OldI, LogI;
    HitAt(s.c, id);
    var k := s.c.order[Hit(s.c, id, 0).value];
    var slot := s.c.slots[k].(links := s.c.slots[k].links + 1);
    GetCounts(s.c.slots, s.procs, p, k, id, slot);
    HitNames(s.c.slots, s.procs, p, k);
    GetHolders(s.holder, s.procs, p, Wait(k, id));
    HitUnique(s.c, id);
    HitFresh(s.c, id);
    HitData(s.c.slots, s.procs, s.disk, p, k);
    GetOld(s.c, s.released, s.clock, k, slot);
    BgetSizes(s, p, id);
  }

  lemma MissKeeps(s: State, p: nat, id: Id)
    requires Inv(s) && Enabled(s, Bget(p, id)) && Hit(s.c, id, 0).None? && Victim(s.c, |s.c.order|).Some?
    ensures Inv(BgetStep(s, p, id))
  {
    hide CountI, NameI, HolderI, UniqueI, FreshI, DataI, OldI, LogI;
    MissAt(s.c, id);
    var k := s.c.order[Victim(s.c, |s.c.order|).value];
    var slot := Slot(id, false, 1, s.c.slots[k].data);
    GetCounts(s.c.slots, s.procs, p, k, id, slot);
    MissNames(s.c.slots, s.procs, p, k, id);
    GetHolders(s.holder, s.procs, p, Wait(k, id));
    MissUnique(s.c, id);
    MissFresh(s.c, id);
    MissData(s.c.slots, s.procs, s.disk, p, k, id);
    GetOld(s.c, s.released, s.clock, k, slot);
    BgetSizes(s, p, id);
  }

  lemma BgetSizes(s: State, p: nat, id: Id)
    requires Sizes(s) && p < |s.procs|
    ensures Sizes(BgetStep(s, p, id))
  {
  }

  lemma BgetKeeps(s: State, p: nat, id: Id)
    requires Inv(s) && Enabled(s, Bget(p, id))
    ensures Inv(Apply(s, Bget(p, id)))
  {
    hide CountI, NameI, HolderI, UniqueI, FreshI, DataI, OldI;
    if Hit(s.c, id, 0).Some? { HitKeeps(s, p, id); }
    else if Victim(s.c, |s.c.order|).Some? { MissKeeps(s, p, id); }
  }

  // ---- brelease ------------------------------------------------------------------------------------

  lemma DropCounts(slots: seq<Slot>, procs: seq<Pc>, p: nat, k: nat)
    requires CountI(slots, procs) && p < |procs| && Refers(procs[p], k) && k < |slots| && slots[k].links > 0
    ensures CountI(slots[k := slots[k].(links := slots[k].links - 1)], procs[p := Idle])
  {
    var slots' := slots[k := slots[k].(links := slots[k].links - 1)];
    forall j | 0 <= j < |slots| ensures slots'[j].links == |Referrers(procs[p := Idle], j)| {
      if j == k { FewerReferrers(procs, p, Idle, j); } else { SameReferrers(procs, p, Idle, j); }
    }
  }

  lemma DropNames(slots: seq<Slot>, procs: seq<Pc>, p: nat, k: nat)
    requires NameI(slots, procs) && CountI(slots, procs) && p < |procs| && Refers(procs[p], k) && k < |slots| && slots[k].links > 0
    ensures NameI(slots[k := slots[k].(links := slots[k].links - 1)], procs[p := Idle])
  {
    var slots' := slots[k := slots[k].(links := slots[k].links - 1)];
    DropCounts(slots, procs, p, k);
    forall q | 0 <= q < |procs| && q != p && !procs[q].Idle? ensures slots'[procs[q].k].links > 0 {
      assert procs[p := Idle][q] == procs[q];
      Counted(slots', procs[p := Idle], q);
    }
  }

  lemma DropData(slots: seq<Slot>, procs: seq<Pc>, disk: imap<Id, Data>, p: nat, k: nat)
    requires DataI(slots, procs, disk) && p < |procs| && procs[p].Dropping? && k < |slots| && slots[k].links > 0
    ensures DataI(slots[k := slots[k].(links := slots[k].links - 1)], procs[p := Idle], disk)
  {
    forall j | 0 <= j < |slots| ensures DirtyIn(procs[p := Idle], j) <==> DirtyIn(procs, j) { Undirtied(procs, p, Idle, j); }
  }

  lemma DropUnique(slots: seq<Slot>, k: nat)
    requires UniqueI(slots) && k < |slots| && slots[k].links > 0
    ensures UniqueI(slots[k := slots[k].(links := slots[k].links - 1)])
  {
  }

  /** Places after a move to the front, in terms of places before it. */
  lemma Places(c: Cache, place: nat, j: nat)
    requires Shape(c) && place < |c.order| && j < |c.order| && c.slots[c.order[place]].links > 0
    ensures var c' := Put(c, place); var front := c.slots[c.order[place]].links == 1;
      && |c'.order| == |c.order|
      && c'.order[j] == if !front || j > place then c.order[j] else if j == 0 then c.order[place] else c.order[j - 1]
  {
  }

  lemma PutShape(c: Cache, place: nat)
    requires Shape(c) && place < |c.order| && c.slots[c.order[place]].links > 0
    ensures Shape(Put(c, place)) && |Put(c, place).order| == |c.order|
  {
    ToFrontPerm(c.order, |c.slots|, place);
  }

  lemma DropFresh(c: Cache, place: nat)
    requires Shape(c) && FreshI(c) && place < |c.order| && c.slots[c.order[place]].links > 0 && c.slots[c.order[place]].valid
    ensures Shape(Put(c, place)) && FreshI(Put(c, place))
  {
    PutShape(c, place);
    var c' := Put(c, place);
    forall k | 0 <= k < |c.slots| ensures (Active(c'.slots[k]) <==> Active(c.slots[k])) && c'.slots[k].id == c.slots[k].id { }
    forall a, b | 0 <= a < b < |c'.order| && !Active(c'.slots[c'.order[a]]) && Active(c'.slots[c'.order[b]])
      ensures c'.slots[c'.order[b]].id != ZERO
    {
      Places(c, place, a);
      Places(c, place, b);
      hide Put;
    }
  }

  lemma DropOld(c: Cache, released: seq<nat>, clock: nat, place: nat)
    requires Shape(c) && OldI(c, released, clock) && place < |c.order| && c.slots[c.order[place]].links > 0
    ensures Shape(Put(c, place))
    ensures if c.slots[c.order[place]].links == 1 then OldI(Put(c, place), released[c.order[place] := clock + 1], clock + 1)
            else OldI(Put(c, place), released, clock)
  {
    PutShape(c, place);
    if c.slots[c.order[place]].links == 1 { FrontOld(c, released, clock, place); }
  }

  lemma FrontOld(c: Cache, released: seq<nat>, clock: nat, place: nat)
    requires Shape(c) && OldI(c, released, clock) && place < |c.order| && c.slots[c.order[place]].links == 1 && Shape(Put(c, place))
    ensures OldI(Put(c, place), released[c.order[place] := clock + 1], clock + 1)
  {
    var c' := Put(c, place);
    var k := c.order[place];
    var released' := released[k := clock + 1];
    forall a, b | 0 <= a < b < |c'.order| && c'.slots[c'.order[a]].links == 0 && c'.slots[c'.order[b]].links == 0
      ensures released'[c'.order[a]] >= released'[c'.order[b]]
    {
      Places(c, place, a);
      Places(c, place, b);
      assert c'.order[a] != c'.order[b];
    }
  }

  lemma DropKeeps(s: State, p: nat, place: nat)
    requires Inv(s) && Enabled(s, Drop(p, place))
    ensures Inv(Apply(s, Drop(p, place)))
  {
    var k := s.c.order[place];
    DropCounts(s.c.slots, s.procs, p, k);
    DropNames(s.c.slots, s.procs, p, k);
    GetHolders(s.holder, s.procs, p, Idle);
    DropUnique(s.c.slots, k);
    DropFresh(s.c, place);
    DropData(s.c.slots, s.procs, s.disk, p, k);
    DropOld(s.c, s.released, s.clock, place);
    DropSizes(s, p, place);
    hide CountI, NameI, HolderI, UniqueI, FreshI, DataI, OldI;
  }

  lemma DropSizes(s: State, p: nat, place: nat)
    requires Sizes(s) && Enabled(s, Drop(p, place))
    ensures Sizes(DropStep(s, p, place))
  {
    PutShape(s.c, place);
  }

  // ---- all steps ------------------------------------------------------------------------------------

  lemma StepKeeps(s: State, step: Step)
    requires Inv(s) && Enabled(s, step)
    ensures Inv(Apply(s, step))
  {
    hide Inv;
    match step
    case Bget(p, id) => BgetKeeps(s, p, id);
    case Drop(p, place) => DropKeeps(s, p, place);
    case _ => UsingKeeps(s, step);
  }

  lemma InitHolds(s: State)
    requires Init(s)
    ensures Inv(s)
  {
    forall k | 0 <= k < |s.c.slots| ensures Referrers(s.procs, k) == {} { }
  }
}
