/** Clients of the buffer cache: any number of processes call bread, change the data, call
    bwrite and brelease, interleaved. What bget and brelease do under cache.lock is one
    step; a buffer's sleep lock is taken after cache.lock is dropped; a disk transfer is
    one step. */
module BioMachine {
  import opened Common
  import opened BioSpec

  /** In bread: waiting for the buffer's sleep lock, about to look at `valid`, about to set
      it. Returned: data as read or as last written, or changed since. In brelease: the
      sleep lock given up, the reference still counted. */
  datatype Pc =
    | Idle
    | Wait(k: nat, id: Id) | Check(k: nat, id: Id) | Mark(k: nat, id: Id)
    | Holding(k: nat, id: Id) | Dirty(k: nat, id: Id)
    | Dropping(k: nat, id: Id)

  datatype Write = Write(id: Id, data: Data)

  /** `holder` is who has each buffer's sleep lock; `log` all calls of bwrite; `released`
      when each buffer last lost its last reference, on `clock`. */
  datatype State = State(c: Cache, holder: seq<Option<nat>>, procs: seq<Pc>, disk: imap<Id, Data>, disk0: imap<Id, Data>,
                         log: seq<Write>, clock: nat, released: seq<nat>)

  datatype Step =
    | Bget(p: nat, id: Id) | Lock(p: nat) | Test(p: nat) | SetValid(p: nat)
    | Modify(p: nat, data: Data) | Bwrite(p: nat) | Unlock(p: nat) | Drop(p: nat, place: nat)

  predicate Refers(pc: Pc, k: nat) { !pc.Idle? && pc.k == k }
  predicate HasLock(pc: Pc) { pc.Check? || pc.Mark? || pc.Holding? || pc.Dirty? }

  ghost predicate Sizes(s: State) {
    && Shape(s.c) && |s.holder| == |s.c.slots| && |s.released| == |s.c.slots|
    && (forall id :: id in s.disk) && (forall id :: id in s.disk0)
    && (forall p :: 0 <= p < |s.procs| && !s.procs[p].Idle? ==> s.procs[p].k < |s.c.slots|)
  }

  /** Clients change data only between bread and brelease, and release what they changed
      only after bwrite. */
  ghost predicate Enabled(s: State, step: Step) {
    && Sizes(s) && step.p < |s.procs|
    && var pc := s.procs[step.p];
      match step
      case Bget(_, _) => pc.Idle?
      case Lock(_) => pc.Wait? && s.holder[pc.k] == None
      case Test(_) => pc.Check?
      case SetValid(_) => pc.Mark?
      case Modify(_, _) => pc.Holding? || pc.Dirty?
      case Bwrite(_) => pc.Holding? || pc.Dirty?
      case Unlock(_) => pc.Holding?
      case Drop(_, place) => pc.Dropping? && place < |s.c.order| && s.c.order[place] == pc.k && s.c.slots[pc.k].links > 0
  }

  ghost function Go(s: State, p: nat, pc: Pc): State
    requires p < |s.procs|
  {
    s.(procs := s.procs[p := pc])
  }

  ghost function SetSlot(s: State, k: nat, slot: Slot): State
    requires k < |s.c.slots|
  {
    s.(c := s.c.(slots := s.c.slots[k := slot]))
  }

  /** When no buffer can be had, bget comes back without one and the call is over. */
  ghost function BgetStep(s: State, p: nat, id: Id): State
    requires Sizes(s) && p < |s.procs|
  {
    var (c, k) := Get(s.c, id);
    if k.None? then s else Go(s, p, Wait(k.value, id)).(c := c)
  }

  ghost function TestStep(s: State, p: nat): State
    requires Sizes(s) && p < |s.procs| && s.procs[p].Check?
  {
    var Check(k, id) := s.procs[p];
    var slot := s.c.slots[k];
    if slot.valid then Go(s, p, Holding(k, id))
    else SetSlot(Go(s, p, Mark(k, id)), k, slot.(data := s.disk[slot.id]))
  }

  ghost function BwriteStep(s: State, p: nat): State
    requires Sizes(s) && p < |s.procs| && !s.procs[p].Idle?
  {
    var k := s.procs[p].k;
    var slot := s.c.slots[k];
    Go(s, p, Holding(k, s.procs[p].id)).(disk := s.disk[slot.id := slot.data], log := s.log + [Write(slot.id, slot.data)])
  }

  ghost function DropStep(s: State, p: nat, place: nat): State
    requires Sizes(s) && p < |s.procs| && place < |s.c.order| && s.c.slots[s.c.order[place]].links > 0
  {
    var k := s.c.order[place];
    var s' := Go(s, p, Idle).(c := Put(s.c, place));
    if s.c.slots[k].links == 1 then s'.(clock := s.clock + 1, released := s.released[k := s.clock + 1]) else s'
  }

  ghost function Apply(s: State, step: Step): State
    requires Enabled(s, step)
  {
    var pc := s.procs[step.p];
    match step
    case Bget(p, id) => BgetStep(s, p, id)
    case Lock(p) => Go(s, p, Check(pc.k, pc.id)).(holder := s.holder[pc.k := Some(p)])
    case Test(p) => TestStep(s, p)
    case SetValid(p) => SetSlot(Go(s, p, Holding(pc.k, pc.id)), pc.k, s.c.slots[pc.k].(valid := true))
    case Modify(p, data) => SetSlot(Go(s, p, Dirty(pc.k, pc.id)), pc.k, s.c.slots[pc.k].(data := data))
    case Bwrite(p) => BwriteStep(s, p)
    case Unlock(p) => Go(s, p, Dropping(pc.k, pc.id)).(holder := s.holder[pc.k := None])
    case Drop(p, place) => DropStep(s, p, place)
  }

  const ZERO := Id(0, 0)

  /** After binit: static buffers, nothing cached, and a disk of any contents. */
  ghost predicate Init(s: State) {
    && Sizes(s) && s.disk == s.disk0 && s.log == [] && s.clock == 0
    && (forall k :: 0 <= k < |s.c.slots| ==> s.c.slots[k] == Slot(ZERO, false, 0, s.c.slots[k].data))
    && (forall k :: 0 <= k < |s.c.slots| ==> s.holder[k] == None && s.released[k] == 0)
    && (forall p :: 0 <= p < |s.procs| ==> s.procs[p].Idle?)
  }

  // ---- the invariant ---------------------------------------------------------------------

  predicate Active(slot: Slot) { slot.links > 0 || slot.valid }

  ghost function Referrers(procs: seq<Pc>, k: nat): set<nat> { set p: nat | p < |procs| && Refers(procs[p], k) }

  /** link_no counts the processes that use a buffer. */
  ghost predicate CountI(slots: seq<Slot>, procs: seq<Pc>) {
    forall k :: 0 <= k < |slots| ==> slots[k].links == |Referrers(procs, k)|
  }

  /** A buffer in use keeps the block it was got for, and is valid once returned. */
  ghost predicate NameI(slots: seq<Slot>, procs: seq<Pc>) {
    forall p :: 0 <= p < |procs| && !procs[p].Idle? ==>
      && procs[p].k < |slots| && slots[procs[p].k].id == procs[p].id && slots[procs[p].k].links > 0
      && (procs[p].Holding? || procs[p].Dirty? || procs[p].Dropping? ==> slots[procs[p].k].valid)
      && (procs[p].Mark? ==> !slots[procs[p].k].valid)
  }

  ghost predicate HolderI(holder: seq<Option<nat>>, procs: seq<Pc>) {
    && (forall p :: 0 <= p < |procs| && HasLock(procs[p]) ==> procs[p].k < |holder| && holder[procs[p].k] == Some(p))
    && (forall k :: 0 <= k < |holder| && holder[k].Some? ==>
          holder[k].value < |procs| && HasLock(procs[holder[k].value]) && procs[holder[k].value].k == k)
  }

  /** No block is cached twice. */
  ghost predicate UniqueI(slots: seq<Slot>) {
    forall i, j :: 0 <= i < j < |slots| && Active(slots[i]) && Active(slots[j]) ==> slots[i].id != slots[j].id
  }

  /** A buffer never used has the identity of zeroed memory, and comes after the buffer
      that really caches that block. */
  ghost predicate FreshI(c: Cache)
    requires Shape(c)
  {
    && (forall k :: 0 <= k < |c.slots| && !Active(c.slots[k]) ==> c.slots[k].id == ZERO)
    && forall i, j :: 0 <= i < j < |c.order| && !Active(c.slots[c.order[i]]) && Active(c.slots[c.order[j]]) ==> c.slots[c.order[j]].id != ZERO
  }

  ghost predicate DirtyIn(procs: seq<Pc>, k: nat) { exists p :: 0 <= p < |procs| && procs[p].Dirty? && procs[p].k == k }

  /** A valid buffer agrees with the disk unless its holder changed it; so does one that
      has been read and is about to be marked valid. */
  ghost predicate DataI(slots: seq<Slot>, procs: seq<Pc>, disk: imap<Id, Data>) {
    && (forall id :: id in disk)
    && (forall k :: 0 <= k < |slots| && slots[k].valid ==> DirtyIn(procs, k) || slots[k].data == disk[slots[k].id])
    && forall p :: 0 <= p < |procs| && procs[p].Mark? ==>
         procs[p].k < |slots| && slots[procs[p].k].data == disk[slots[procs[p].k].id]
  }

  /** The last bytes a call of bwrite gave a block, or what the disk held at first. */
  ghost function LastWrite(disk0: imap<Id, Data>, log: seq<Write>, id: Id): Data
    requires forall b :: b in disk0
  {
    if log == [] then disk0[id]
    else if log[|log| - 1].id == id then log[|log| - 1].data
    else LastWrite(disk0, log[..|log| - 1], id)
  }

  ghost predicate LogI(disk0: imap<Id, Data>, log: seq<Write>, disk: imap<Id, Data>)
    requires forall b :: b in disk0
  {
    forall id :: id in disk && disk[id] == LastWrite(disk0, log, id)
  }

  /** From the front, unreferenced buffers were released longer and longer ago. */
  ghost predicate OldI(c: Cache, released: seq<nat>, clock: nat)
    requires Shape(c)
  {
    && |released| == |c.slots|
    && (forall k :: 0 <= k < |released| ==> released[k] <= clock)
    && forall i, j :: 0 <= i < j < |c.order| && c.slots[c.order[i]].links == 0 && c.slots[c.order[j]].links == 0 ==>
         released[c.order[i]] >= released[c.order[j]]
  }

  ghost predicate Inv(s: State) {
    && Sizes(s) && CountI(s.c.slots, s.procs) && NameI(s.c.slots, s.procs) && HolderI(s.holder, s.procs)
    && UniqueI(s.c.slots) && FreshI(s.c) && DataI(s.c.slots, s.procs, s.disk) && LogI(s.disk0, s.log, s.disk)
    && OldI(s.c, s.released, s.clock)
  }
}
