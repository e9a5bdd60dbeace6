/** One split ring seen from outside: `ring` holds the entries `q` still to be consumed,
    from the consumer's 16-bit index `base` up to the producer's 16-bit index `top`. */
module VirtioRing {
  import Arith
  import opened VirtioQueue

  /** The slot of the k-th pending entry. */
  ghost function Slot(base: nat, k: nat): (r: nat)
    ensures r < NUM
  {
    SlotOf(base + k)
  }

  ghost predicate Ring(ring: seq<nat>, base: nat, top: nat, q: seq<nat>) {
    && |ring| == NUM
    && base < IDX_MOD && |q| <= NUM
    && top == (base + |q|) % IDX_MOD
    && forall k {:trigger q[k]} :: 0 <= k < |q| ==> ring[Slot(base, k)] == q[k]
  }

  ghost predicate Distinct(q: seq<nat>) {
    && (forall k :: 0 <= k < |q| ==> q[k] < NUM)
    && forall j, k :: 0 <= j < k < |q| ==> q[j] != q[k]
  }

  lemma SlotShift(base: nat, k: nat)
    ensures Slot((base + 1) % IDX_MOD, k) == Slot(base, k + 1)
  {
    var b := base + 1;
    assert b + k == IDX_MOD * (b / IDX_MOD) + (b % IDX_MOD + k);
    Arith.ModAddMultiple(b % IDX_MOD + k, IDX_MOD, b / IDX_MOD);
    SlotOfIndex(b % IDX_MOD + k);
    SlotOfIndex(b + k);
  }

  /** Entries of distinct descriptors leave a slot for one more descriptor. */
  lemma RoomFor(q: seq<nat>, h: nat)
    requires Distinct(q) && h < NUM && h !in q
    ensures |q| < NUM
  {
    DistinctFit(q, Upto(NUM) - {h});
  }

  ghost function Upto(n: nat): (s: set<nat>)
    ensures forall i: nat :: i in s <==> i < n
    ensures |s| == n
  {
    if n == 0 then {} else Upto(n - 1) + {n - 1}
  }

  lemma {:induction false} DistinctFit(q: seq<nat>, s: set<nat>)
    requires forall j, k :: 0 <= j < k < |q| ==> q[j] != q[k]
    requires forall k :: 0 <= k < |q| ==> q[k] in s
    ensures |q| <= |s|
    decreases |q|
  {
    if q != [] {
      DistinctFit(q[1..], s - {q[0]});
    }
  }

  lemma DistinctTail(q: seq<nat>)
    requires Distinct(q) && q != []
    ensures Distinct(q[1..]) && q[0] !in q[1..]
    ensures forall h :: h in q <==> h == q[0] || h in q[1..]
  {
  }

  lemma SlotOfTop(base: nat, top: nat, n: nat)
    requires top == (base + n) % IDX_MOD
    ensures SlotOf(top) == Slot(base, n)
  {
    SlotOfIndex(base + n);
  }

  lemma SlotsDiffer(base: nat, j: nat, k: nat)
    requires j < k < j + NUM
    ensures Slot(base, j) != Slot(base, k)
  {
    SlotOfMod(base + j);
    SlotOfMod(base + k);
    Arith.ResiduesDiffer(base, j, k, NUM);
  }

  /** Writing the producer's slot overwrites nothing the consumer has yet to read, even
      after the 16-bit indices have wrapped. */
  lemma PutKeepsPending(ring: seq<nat>, base: nat, top: nat, q: seq<nat>, h: nat)
    requires Ring(ring, base, top, q) && |q| < NUM
    ensures Ring(ring[SlotOf(top) := h], base, top, q)
    ensures forall k :: 0 <= k < |q| ==> Slot(base, k) != SlotOf(top)
  {
    SlotOfTop(base, top, |q|);
    forall k | 0 <= k < |q| ensures Slot(base, k) != SlotOf(top) {
      SlotsDiffer(base, k, |q|);
    }
  }

  lemma IdxNext(x: nat)
    ensures (x % IDX_MOD + 1) % IDX_MOD == (x + 1) % IDX_MOD
  {
  }

  lemma BumpAppends(ring: seq<nat>, base: nat, top: nat, q: seq<nat>)
    requires Ring(ring, base, top, q) && |q| < NUM
    ensures Ring(ring, base, (top + 1) % IDX_MOD, q + [ring[SlotOf(top)]])
  {
    SlotOfTop(base, top, |q|);
    IdxNext(base + |q|);
  }

  lemma ConsumeHead(ring: seq<nat>, base: nat, top: nat, q: seq<nat>)
    requires Ring(ring, base, top, q) && q != []
    ensures ring[SlotOf(base)] == q[0]
    ensures Ring(ring, (base + 1) % IDX_MOD, top, q[1..])
  {
    assert ring[Slot(base, 0)] == q[0];
    forall k | 0 <= k < |q| - 1 ensures ring[Slot((base + 1) % IDX_MOD, k)] == q[1..][k] {
      SlotShift(base, k);
      assert q[1..][k] == q[k + 1];
    }
    assert ((base + 1) % IDX_MOD + (|q| - 1)) % IDX_MOD == (base + |q|) % IDX_MOD;
  }

  /** Equal 16-bit indices mean an empty backlog: with at most NUM - 1 entries pending, a
      full turn of the index cannot hide any. */
  lemma EqualIffEmpty(ring: seq<nat>, base: nat, top: nat, q: seq<nat>)
    requires Ring(ring, base, top, q) && |q| < NUM
    ensures base == top <==> q == []
  {
  }
}
