/** The buffer cache as a value: what each buffer holds, and the order of the list from the
    most recently released end. */
module BioSpec {
  import opened Common

  type Data = seq<nat>

  datatype Id = Id(dev: nat, block: nat)

  datatype Slot = Slot(id: Id, valid: bool, links: nat, data: Data)

  datatype Cache = Cache(slots: seq<Slot>, order: seq<nat>)

  /** `order` lists every buffer once. */
  ghost predicate Perm(order: seq<nat>, n: nat) {
    && |order| == n
    && (forall i :: 0 <= i < n ==> order[i] < n)
    && (forall i, j :: 0 <= i < j < n ==> order[i] != order[j])
  }

  ghost predicate Shape(c: Cache) { Perm(c.order, |c.slots|) }

  /** bget's first loop from place i on: the first buffer that caches `id`. */
  ghost function Hit(c: Cache, id: Id, i: nat): (r: Option<nat>)
    requires Shape(c) && i <= |c.order|
    ensures r.Some? ==> i <= r.value < |c.order| && c.slots[c.order[r.value]].id == id
    ensures r.Some? ==> forall j :: i <= j < r.value ==> c.slots[c.order[j]].id != id
    ensures r.None? ==> forall j :: i <= j < |c.order| ==> c.slots[c.order[j]].id != id
    decreases |c.order| - i
  {
    if i == |c.order| then None
    else if c.slots[c.order[i]].id == id then Some(i)
    else Hit(c, id, i + 1)
  }

  /** bget's second loop from place i - 1 back: the last buffer without references. */
  ghost function Victim(c: Cache, i: nat): (r: Option<nat>)
    requires Shape(c) && i <= |c.order|
    ensures r.Some? ==> r.value < i && c.slots[c.order[r.value]].links == 0
    ensures r.Some? ==> forall j :: r.value < j < i ==> c.slots[c.order[j]].links > 0
    ensures r.None? ==> forall j :: 0 <= j < i ==> c.slots[c.order[j]].links > 0
  {
    if i == 0 then None
    else if c.slots[c.order[i - 1]].links == 0 then Some(i - 1)
    else Victim(c, i - 1)
  }

  /** bget up to the sleep lock: the buffer it settled on, if any. */
  ghost function Get(c: Cache, id: Id): (r: (Cache, Option<nat>))
    requires Shape(c)
    ensures Shape(r.0) && (r.1.Some? ==> r.1.value < |c.slots|) && |r.0.slots| == |c.slots|
  {
    var hit := Hit(c, id, 0);
    if hit.Some? then
      var k := c.order[hit.value];
      (c.(slots := c.slots[k := c.slots[k].(links := c.slots[k].links + 1)]), Some(k))
    else
      var victim := Victim(c, |c.order|);
      if victim.Some? then
        var k := c.order[victim.value];
        (c.(slots := c.slots[k := Slot(id, false, 1, c.slots[k].data)]), Some(k))
      else (c, None)
  }

  /** Place i of the list moved to the front. */
  ghost function ToFront(order: seq<nat>, i: nat): (r: seq<nat>)
    requires i < |order|
  {
    [order[i]] + order[..i] + order[i + 1..]
  }

  ghost function PlaceOf(order: seq<nat>, k: nat): (i: nat)
    requires k in order
    ensures i < |order| && order[i] == k
  {
    var i :| 0 <= i < |order| && order[i] == k; i
  }

  /** brelease after the sleep lock: a buffer left without references goes to the front. */
  ghost function Put(c: Cache, i: nat): (r: Cache)
    requires Shape(c) && i < |c.order| && c.slots[c.order[i]].links > 0
    ensures |r.slots| == |c.slots|
  {
    var k := c.order[i];
    var links := c.slots[k].links - 1;
    Cache(c.slots[k := c.slots[k].(links := links)], if links == 0 then ToFront(c.order, i) else c.order)
  }

  lemma ToFrontPerm(order: seq<nat>, n: nat, i: nat)
    requires Perm(order, n) && i < n
    ensures Perm(ToFront(order, i), n)
  {
    var r := ToFront(order, i);
    forall j | 0 <= j < n ensures r[j] == (if j == 0 then order[i] else if j <= i then order[j - 1] else order[j]) { }
  }

  /** Every buffer is somewhere in the list. */
  lemma {:induction false} PermCovers(order: seq<nat>, n: nat, k: nat)
    requires Perm(order, n) && k < n
    ensures k in order
  {
    var s := set i | 0 <= i < n :: order[i];
    if k !in order {
      PlacesCount(order, n);
      assert s <= Below(n) - {k};
      SubsetSize(s, Below(n) - {k});
    }
  }

  ghost function Below(n: nat): (r: set<nat>)
    ensures |r| == n && forall k: nat :: k in r <==> k < n
  {
    if n == 0 then {} else Below(n - 1) + {n - 1}
  }

  lemma {:induction false} PlacesCount(order: seq<nat>, n: nat)
    requires n <= |order| && forall i, j :: 0 <= i < j < |order| ==> order[i] != order[j]
    ensures |set i | 0 <= i < n :: order[i]| == n
  {
    if n > 0 {
      PlacesCount(order, n - 1);
      assert (set i | 0 <= i < n :: order[i]) == (set i | 0 <= i < n - 1 :: order[i]) + {order[n - 1]};
    }
  }
}
