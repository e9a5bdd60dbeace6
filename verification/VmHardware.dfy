/** What the MMU makes of the tables in memory: the walk of section 4.4.1 of the RISC-V
    Privileged Architecture (version 20211203) for three levels, on the words of memory
    alone. */
module VmHardware {
  import opened Common
  import opened VmTables
  import Arith
  import Bits

  /** The page that a valid entry points at: bits 53 to 10. */
  function Ppn(pte: word): nat { pte / 1024 % 0x1000_0000_0000 }

  /** The table that entry k of the table on page f points at, if that is valid. */
  function Next(mem: seq<Page>, f: nat, k: nat): Option<nat>
    requires k < 512
  {
    if f < |mem| && mem[f][k] % 2 == 1 then Some(Ppn(mem[f][k])) else None
  }

  /** The nine bits of va that select an entry at a level, the root's being level 2. */
  function Field(va: word, level: nat): (k: nat)
    requires level <= 2
    ensures k < 512
  {
    if level == 2 then va / 0x4000_0000 % 512 else if level == 1 then va / 0x20_0000 % 512 else va / 0x1000 % 512
  }

  /** The physical address, None for a page fault. */
  function Translated(mem: seq<Page>, root: nat, va: word): Option<nat> {
    match Next(mem, root, Field(va, 2))
    case None => None
    case Some(f) =>
      match Next(mem, f, Field(va, 1))
      case None => None
      case Some(g) =>
        match Next(mem, g, Field(va, 0))
        case None => None
        case Some(x) => Some(x * 4096 + va % 4096)
  }

  lemma Fields(va: word)
    ensures Field(va, 2) == Vpn(va) / MIDSPAN && Field(va, 1) == Vpn(va) / 512 % 512 && Field(va, 0) == Vpn(va) % 512
  {
    TopDigit(va / 4096);
    MiddleDigit(va / 4096);
    LastDigit(va / 4096);
    Shifts(va);
  }

  lemma FollowsLink(mem: seq<Page>, link: nat, t: Tables, n: Node)
    requires Wf(mem, link, t) && IsTable(n) && Parent(n) in t.at
    ensures Next(mem, t.at[Parent(n)], Slot(n)) == if n in t.at then Some(t.at[n]) else None
  {
    assert LinkIs(mem, t, n);
    if n in t.at {
      LinkWord(t.at[n]);
      Arith.DivModUnique(t.at[n] * 1024 + 1, 1024, t.at[n], 1);
    }
  }

  lemma FindsLeaf(mem: seq<Page>, link: nat, t: Tables, va: word)
    requires Wf(mem, link, t) && Root in t.at
    ensures var u := Vpn(va) / 512; var f := Next(mem, t.at[Root], Field(va, 2));
      && (Leaf(u) in t.at ==> f.Some? && Next(mem, f.value, Field(va, 1)) == Some(t.at[Leaf(u)]))
      && (Leaf(u) !in t.at ==> f.None? || Next(mem, f.value, Field(va, 1)).None?)
  {
    Fields(va);
    var v := Vpn(va);
    Arith.DivModUnique(v, MIDSPAN, v / 512 / 512, 512 * (v / 512 % 512) + v % 512);
    FollowsLink(mem, link, t, Mid(v / MIDSPAN));
    hide Next, Field;
    if Mid(v / MIDSPAN) in t.at { FollowsLink(mem, link, t, Leaf(v / 512)); }
  }

  /** The hardware translates by the flat map: for every address, the page of its entry at
      the same offset, or a fault where the entry is not valid. */
  lemma HardwareAgrees(mem: seq<Page>, link: nat, t: Tables, va: word)
    requires Wf(mem, link, t) && Root in t.at
    ensures var e := Flat(mem, t, Vpn(va));
      e < 0x1_0000_0000_0000_0000 && Translated(mem, t.at[Root], va) == if e % 2 == 1 then Some(Ppn(e) * 4096 + va % 4096) else None
  {
    FindsLeaf(mem, link, t, va);
    Fields(va);
    hide Field, Linked, Listed, Ppn;
    var u := Vpn(va) / 512;
    if Leaf(u) in t.at { assert Flat(mem, t, Vpn(va)) == mem[t.at[Leaf(u)]][Vpn(va) % 512]; }
  }

  lemma OddFlags(perm: nat)
    ensures Bits.Or(perm, PTE_V) % 2 == 1
  {
    OrOne(perm);
    hide Bits.Or;
    var h := perm / 2;
    if perm % 2 == 0 { assert perm + 1 == 2 * h + 1; }
  }

  /** An entry with the V flag, for a frame below 2^44. */
  lemma EntryParts(e: nat, f: nat, flags: nat)
    requires e / 1024 == f < 0x1000_0000_0000 && e % 1024 == flags && flags % 2 == 1
    ensures e % 2 == 1 && e / 1024 % 0x1000_0000_0000 == f
  {
    Arith.DivModUnique(e, 2, 512 * f + flags / 2, 1);
    Arith.DivModUnique(f, 0x1000_0000_0000, 0, f);
  }

  /** A page that map has given a frame below 2^56 is found there by the hardware. */
  lemma MappedIsReached(mem: seq<Page>, link: nat, t: Tables, va: word, pa: nat, k: nat, perm: nat)
    requires Wf(mem, link, t) && Root in t.at && MapsTo(Flat(mem, t, Vpn(va)), pa + 4096 * k, perm) && pa + 4096 * k < 0x100_0000_0000_0000
    ensures Translated(mem, t.at[Root], va) == Some(PhysicalAt(pa, k, va))
  {
    var e := Flat(mem, t, Vpn(va));
    assert e / 1024 == (pa + 4096 * k) / 4096 && e % 1024 == Bits.Or(perm, PTE_V);
    HardwareAgrees(mem, link, t, va);
    hide Wf, Flat, Translated, Vpn, Entry, Bits.Or, MapsTo;
    OddFlags(perm);
    Arith.DivModUnique(pa + 4096 * k, 4096, pa / 4096 + k, pa % 4096);
    EntryParts(e, pa / 4096 + k, Bits.Or(perm, PTE_V));
  }

  /** Every address of pages v .. v + n - 1 leads to its byte of the frames from pa's on. */
  predicate Reached(mem: seq<Page>, root: nat, v: nat, n: nat, pa: nat) {
    forall va: word :: v <= Vpn(va) < v + n ==> Translated(mem, root, va) == Some(PhysicalAt(pa, Vpn(va) - v, va))
  }

  /** So for the whole range of a map. */
  lemma RangeIsReached(m0: seq<Page>, t0: Tables, mem: seq<Page>, link: nat, t: Tables, v: nat, n: nat, pa: word, perm: nat)
    requires Wf(mem, link, t) && Root in t.at && Placed(m0, t0) && FlatMapped(m0, t0, mem, t, v, n, pa, perm)
    requires pa + 4096 * n <= 0x100_0000_0000_0000
    ensures Reached(mem, t.at[Root], v, n, pa)
  {
    assert Placed(mem, t);
    hide Flat, Translated, Vpn, MapsTo, Wf, PhysicalAt;
    forall va: word | v <= Vpn(va) < v + n ensures Translated(mem, t.at[Root], va) == Some(PhysicalAt(pa, Vpn(va) - v, va)) {
      var k := Vpn(va) - v;
      assert MapsTo(Flat(mem, t, Vpn(va)), pa + 4096 * (Vpn(va) - v), perm);
      MappedIsReached(mem, link, t, va, pa, k, perm);
    }
  }

  /** Under a root that maps nothing every address faults. */
  lemma NothingIsReached(mem: seq<Page>, link: nat, t: Tables, va: word)
    requires Wf(mem, link, t) && Root in t.at && MapsNothing(mem, t)
    ensures Translated(mem, t.at[Root], va).None?
  {
    HardwareAgrees(mem, link, t, va);
  }
}
