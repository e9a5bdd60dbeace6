/** Three-level page tables in page-indexed memory, section 4.4 of the RISC-V Privileged
    Architecture (version 20211203), with the list of free pages that new tables come from.
    Frame f is the page at physical address 4096 * f. */
module VmTables {
  import opened Common
  import Arith
  import Bits

  type word = n: nat | n < 0x1_0000_0000_0000_0000
  type Page = p: seq<word> | |p| == 512 ghost witness seq(512, _ => 0)

  const FRAMES := 0x1000_0000_0000 // 2^44: a physical page number has 44 bits
  const VPNS := 0x800_0000         // 2^27: so many pages fit the 39-bit space
  const MIDSPAN := 0x4_0000        // 2^18 pages under an entry of the root
  const PTE_V := 1

  function Fill(v: nat): (p: Page)
    requires v < 256
  {
    seq(512, _ => v * 0x0101_0101_0101_0101)
  }

  /** Page p as 4096 bytes, least significant first in each word. */
  function PageByte(p: Page, o: nat): nat
    requires o < 4096
  {
    p[o / 8] / Bits.Pow2(8 * (o % 8)) % 256
  }

  /** The number whose n low bytes are 1. */
  function Ones(n: nat): nat { if n == 0 then 0 else 256 * Ones(n - 1) + 1 }

  lemma DivDiv(x: nat, p: nat)
    requires p > 0
    ensures x / 256 / p == x / (256 * p)
  {
    var q, r := x / 256 / p, x / 256 % p;
    assert x / 256 == p * q + r;
    assert 256 * (p * q) == 256 * p * q;
    Arith.DivModUnique(x, 256 * p, q, 256 * r + x % 256);
  }

  lemma {:induction false} OnesBytes(v: nat, n: nat, j: nat)
    requires v < 256 && j < n
    ensures v * Ones(n) / Bits.Pow2(8 * j) % 256 == v
    decreases j
  {
    var x, rest := v * Ones(n), v * Ones(n - 1);
    assert x == 256 * rest + v;
    Arith.DivModUnique(x, 256, rest, v);
    if j > 0 {
      OnesBytes(v, n - 1, j - 1);
      assert Bits.Pow2(8) == 256;
      Bits.PowSum(8, 8 * (j - 1));
      DivDiv(x, Bits.Pow2(8 * (j - 1)));
    }
  }

  /** set_memory(pa, v, 4096): every byte of the page is v. */
  lemma FillBytes(v: nat, o: nat)
    requires v < 256 && o < 4096
    ensures PageByte(Fill(v), o) == v
  {
    assert Ones(8) == 0x0101_0101_0101_0101;
    OnesBytes(v, 8, o % 8);
  }

  function Addr(f: nat): nat { 4096 * f }

  lemma FrameOf(f: nat)
    ensures Addr(f) / 4096 == f
  {
    Arith.DivModUnique(4096 * f, 4096, f, 0);
  }

  // ---- indices and entries as vm.c computes them -----------------------------------------

  /** The 27-bit page number of a virtual address. */
  function Vpn(va: word): (v: nat)
    ensures v < VPNS
  {
    va / 4096 % VPNS
  }

  /** (va >> (12 + 9 * (2 - level))) & 0x1FF. */
  function Index(va: word, level: nat): (i: nat)
    requires level <= 2
    ensures i < 512
  {
    Bits.MaskIsMod(va / Bits.Pow2(12 + 9 * (2 - level)), 9);
    assert Bits.Pow2(9) == 512;
    Bits.And(va / Bits.Pow2(12 + 9 * (2 - level)), 0x1FF)
  }

  lemma TopDigit(n: nat)
    ensures n % VPNS / MIDSPAN == n / MIDSPAN % 512
  {
    var q, r := n / VPNS, n % VPNS;
    Arith.DivModUnique(n, MIDSPAN, 512 * q + r / MIDSPAN, r % MIDSPAN);
    Arith.DivModUnique(512 * q + r / MIDSPAN, 512, q, r / MIDSPAN);
  }

  lemma MiddleDigit(n: nat)
    ensures n % VPNS / 512 % 512 == n / 512 % 512
  {
    var q, r := n / VPNS, n % VPNS;
    Arith.DivModUnique(n, 512, MIDSPAN * q + r / 512, r % 512);
    Arith.DivModUnique(MIDSPAN * q + r / 512, 512, 512 * q + r / 512 / 512, r / 512 % 512);
  }

  lemma LastDigit(n: nat)
    ensures n % VPNS % 512 == n % 512
  {
    var q, r := n / VPNS, n % VPNS;
    Arith.DivModUnique(n, 512, MIDSPAN * q + r / 512, r % 512);
  }

  lemma Shifts(n: nat)
    ensures n / 0x4000_0000 == n / 4096 / MIDSPAN && n / 0x20_0000 == n / 4096 / 512
  {
    var q := n / 4096;
    Arith.DivModUnique(n, 0x4000_0000, q / MIDSPAN, 4096 * (q % MIDSPAN) + n % 4096);
    Arith.DivModUnique(n, 0x20_0000, q / 512, 4096 * (q % 512) + n % 4096);
  }

  lemma Pow16(k: nat)
    ensures Bits.Pow2(k + 4) == 16 * Bits.Pow2(k)
  {
    assert Bits.Pow2(k + 4) == 2 * Bits.Pow2(k + 3) == 4 * Bits.Pow2(k + 2) == 8 * Bits.Pow2(k + 1);
  }

  lemma Powers()
    ensures Bits.Pow2(9) == 512 && Bits.Pow2(12) == 4096 && Bits.Pow2(21) == 0x20_0000 && Bits.Pow2(30) == 0x4000_0000
  {
    assert Bits.Pow2(9) == 512 && Bits.Pow2(12) == 4096 && Bits.Pow2(10) == 1024;
    Pow16(9);
    Pow16(13);
    Pow16(17);
    Pow16(10);
    Pow16(14);
    Pow16(18);
    Pow16(22);
    Pow16(26);
  }

  lemma IndexMod(va: word, level: nat)
    requires level <= 2
    ensures Index(va, level) == va / Bits.Pow2(12 + 9 * (2 - level)) % 512
  {
    Powers();
    hide Bits.Pow2, Bits.And;
    Bits.MaskIsMod(va / Bits.Pow2(12 + 9 * (2 - level)), 9);
  }

  /** The index at each level is a digit of the page number in base 512. */
  lemma IndexIs(va: word)
    ensures Index(va, 0) == Vpn(va) / MIDSPAN
    ensures Index(va, 1) == Vpn(va) / 512 % 512
    ensures Index(va, 2) == Vpn(va) % 512
  {
    hide Index, Bits.Pow2;
    IndexMod(va, 0);
    IndexMod(va, 1);
    IndexMod(va, 2);
    Powers();
    Shifts(va);
    TopDigit(va / 4096);
    MiddleDigit(va / 4096);
    LastDigit(va / 4096);
  }

  lemma OrOne(x: nat)
    ensures Bits.Or(x, 1) == if x % 2 == 1 then x else x + 1
  {
    Bits.OrZero(x / 2);
  }

  lemma FlagSum(n: nat, perm: nat)
    requires perm < 1024
    ensures Bits.Or(n * 1024, perm) == n * 1024 + perm
  {
    assert Bits.Pow2(10) == 1024;
    Arith.DivModUnique(n * 1024, 1024, n, 0);
    hide Bits.Or, Bits.Pow2;
    Bits.OrIsSum(n * 1024, perm, 10);
  }

  lemma FlagValid(n: nat, perm: nat)
    requires perm < 1024
    ensures Bits.Or(perm, PTE_V) < 1024 && Bits.Or(n * 1024 + perm, PTE_V) == n * 1024 + Bits.Or(perm, PTE_V)
  {
    OrOne(perm);
    OrOne(n * 1024 + perm);
    hide Bits.Or;
    Arith.DivModUnique(n * 1024 + perm, 2, n * 512 + perm / 2, perm % 2);
  }

  lemma FlagBits(n: nat, perm: nat)
    requires perm < 1024
    ensures Bits.Or(n * 1024, perm) == n * 1024 + perm && Bits.Or(perm, PTE_V) < 1024
    ensures Bits.Or(n * 1024 + perm, PTE_V) == n * 1024 + Bits.Or(perm, PTE_V)
  {
    hide Bits.Or;
    FlagSum(n, perm);
    FlagValid(n, perm);
  }

  /** (pa >> 12) << 10 | V, as walk links a new table. */
  function Pack(pa: word): (w: word)
    ensures w == pa / 4096 * 1024 + 1
  {
    OrOne(pa / 4096 * 1024);
    Arith.DivModUnique(pa / 4096 * 1024, 2, pa / 4096 * 512, 0);
    Bits.Or(pa / 4096 * 1024, PTE_V)
  }

  /** ((pa >> 12) << 10) | permission | V, as map fills a leaf. */
  function Entry(pa: word, perm: nat): (w: word)
    requires perm < 1024
    ensures w / 1024 == pa / 4096 && w % 1024 == Bits.Or(perm, PTE_V)
  {
    FlagBits(pa / 4096, perm);
    Arith.DivModUnique(pa / 4096 * 1024 + Bits.Or(perm, PTE_V), 1024, pa / 4096, Bits.Or(perm, PTE_V));
    Bits.Or(Bits.Or(pa / 4096 * 1024, perm), PTE_V)
  }

  /** (pte >> 10) << 12 in 64 bits. */
  function Target(pte: word): word { pte / 1024 * 4096 % 0x1_0000_0000_0000_0000 }

  lemma TargetAligned(pte: word)
    ensures Target(pte) % 4096 == 0 && Target(pte) <= 0x1_0000_0000_0000_0000 - 4096
  {
    var x := pte / 1024;
    var q, r := x / 0x10_0000_0000_0000, x % 0x10_0000_0000_0000;
    Arith.DivModUnique(x * 4096, 0x1_0000_0000_0000_0000, q, r * 4096);
    Arith.DivModUnique(r * 4096, 4096, r, 0);
  }

  lemma TargetIs(pte: word, q: nat, flags: nat)
    requires pte == q * 1024 + flags && flags < 1024 && q * 4096 < 0x1_0000_0000_0000_0000
    ensures Target(pte) == q * 4096
  {
    Arith.DivModUnique(pte, 1024, q, flags);
  }

  /** What find_pa makes of an entry and the offset. */
  function Translate(pte: word, va: word): (pa: word)
    ensures pa == Target(pte) + va % 4096
  {
    assert Bits.Pow2(12) == 4096;
    Bits.MaskIsMod(va, 12);
    TargetAligned(pte);
    Bits.OrIsSum(Target(pte), va % 4096, 12);
    Bits.Or(Target(pte), Bits.And(va, 0xFFF))
  }

  /** Packing a page address and unpacking the entry gives it back, whatever the flags. */
  lemma PackUnpack(pa: word, perm: nat)
    requires perm < 1024
    ensures Target(Pack(pa)) == pa / 4096 * 4096 == Target(Entry(pa, perm))
    ensures pa % 4096 == 0 ==> Target(Pack(pa)) == pa
  {
    hide Target, Entry, Pack;
    TargetIs(Pack(pa), pa / 4096, 1);
    TargetIs(Entry(pa, perm), pa / 4096, Entry(pa, perm) % 1024);
  }

  // ---- tables and free pages ---------------------------------------------------------------

  /** A page in use: the root, the table for one root entry, the table for one entry of
      such a table, or place k of the free list, counted from its end. */
  datatype Node = Root | Mid(i: nat) | Leaf(u: nat) | Free(k: nat)

  /** Where each node is, and what each frame is for. */
  datatype Tables = Tables(at: map<Node, nat>, who: map<nat, Node>, count: nat)

  predicate IsTable(n: Node) { (n.Mid? && n.i < 512) || (n.Leaf? && n.u < MIDSPAN) }

  function Parent(n: Node): Node
    requires IsTable(n)
  {
    if n.Mid? then Root else Mid(n.u / 512)
  }

  function Slot(n: Node): (s: nat)
    requires IsTable(n)
    ensures s < 512
  {
    if n.Mid? then n.i else n.u % 512
  }

  /** Frames and nodes correspond one to one: no table is shared, none is on the free list. */
  ghost predicate Placed(mem: seq<Page>, t: Tables) {
    && |mem| <= FRAMES
    && (forall n :: n in t.at ==> t.at[n] in t.who && t.who[t.at[n]] == n && 1 <= t.at[n] < |mem|)
    && (forall f :: f in t.who ==> t.who[f] in t.at && t.at[t.who[f]] == f)
  }

  /** The free list: page_link points at the last place, each page at the one before. */
  ghost predicate Listed(mem: seq<Page>, link: nat, t: Tables) {
    && (forall k: nat :: Free(k) in t.at <==> k < t.count)
    && link == (if t.count == 0 then 0 else Addr(t.at[Free(t.count - 1)]))
    && forall k: nat {:trigger NextIs(mem, t, k)} :: k < t.count ==> NextIs(mem, t, k)
  }

  ghost predicate NextIs(mem: seq<Page>, t: Tables, k: nat)
    requires Free(k) in t.at
  {
    t.at[Free(k)] < |mem| && (k > 0 ==> Free(k - 1) in t.at)
    && mem[t.at[Free(k)]][0] == if k == 0 then 0 else Addr(t.at[Free(k - 1)])
  }

  /** The tree: below each table, the entry of a child is valid and points at it, or is
      not valid because there is none. */
  ghost predicate Linked(mem: seq<Page>, t: Tables) {
    && (forall n :: n in t.at && !n.Root? && !n.Free? ==> IsTable(n) && Parent(n) in t.at)
    && forall n :: IsTable(n) && Parent(n) in t.at ==> LinkIs(mem, t, n)
  }

  ghost predicate LinkIs(mem: seq<Page>, t: Tables, n: Node)
    requires IsTable(n) && Parent(n) in t.at
  {
    && t.at[Parent(n)] < |mem|
    && var pte := mem[t.at[Parent(n)]][Slot(n)];
      if n in t.at then pte == t.at[n] * 1024 + 1 else pte % 2 == 0
  }

  ghost predicate Wf(mem: seq<Page>, link: nat, t: Tables) {
    Placed(mem, t) && Listed(mem, link, t) && Linked(mem, t)
  }

  /** What walk reads: V exactly when there is a child, and then its address. */
  lemma EntryMeans(mem: seq<Page>, link: nat, t: Tables, n: Node)
    requires Wf(mem, link, t) && IsTable(n) && Parent(n) in t.at
    ensures 1 <= t.at[Parent(n)] < |mem|
    ensures var pte := mem[t.at[Parent(n)]][Slot(n)];
      (pte % 2 == 1 <==> n in t.at) && (n in t.at ==> Target(pte) == Addr(t.at[n]))
  {
    assert LinkIs(mem, t, n);
    hide Linked, Listed, Target;
    if n in t.at { LinkWord(t.at[n]); }
  }

  lemma LinkWord(f: nat)
    requires f < FRAMES
    ensures (f * 1024 + 1) % 2 == 1 && Target(f * 1024 + 1) == Addr(f)
  {
    TargetIs(f * 1024 + 1, f, 1);
    Arith.DivModUnique(f * 1024 + 1, 2, f * 512, 1);
  }

  /** The flat map the tree stands for: the entry of page number v, 0 where no leaf table
      covers it. */
  ghost function Flat(mem: seq<Page>, t: Tables, v: nat): nat
    requires Placed(mem, t)
  {
    if Leaf(v / 512) in t.at then mem[t.at[Leaf(v / 512)]][v % 512] else 0
  }

  ghost predicate SameFlat(mem: seq<Page>, t: Tables, mem': seq<Page>, t': Tables)
    requires Placed(mem, t) && Placed(mem', t')
  {
    forall v :: 0 <= v < VPNS ==> Flat(mem', t', v) == Flat(mem, t, v)
  }

  lemma FlatAt(mem: seq<Page>, t: Tables, v: nat, f: nat, slot: nat)
    requires Placed(mem, t) && Leaf(v / 512) in t.at && f == t.at[Leaf(v / 512)] && slot == v % 512
    ensures f < |mem| && Flat(mem, t, v) == mem[f][slot]
  {
  }

  /** Two addresses have the same leaf slot just when their page numbers agree. */
  lemma SameSlot(mem: seq<Page>, t: Tables, va: word, vb: word)
    requires Placed(mem, t) && Leaf(Vpn(va) / 512) in t.at && Leaf(Vpn(vb) / 512) in t.at
    ensures (t.at[Leaf(Vpn(va) / 512)], Index(va, 2)) == (t.at[Leaf(Vpn(vb) / 512)], Index(vb, 2)) <==> Vpn(va) == Vpn(vb)
  {
    IndexIs(va);
    IndexIs(vb);
  }

  // ---- taking a page from the list ----------------------------------------------------------

  ghost function Pop(t: Tables): Tables
    requires 0 < t.count && Free(t.count - 1) in t.at
  {
    Tables(t.at - {Free(t.count - 1)}, t.who - {t.at[Free(t.count - 1)]}, t.count - 1)
  }

  ghost function Put(t: Tables, n: Node, f: nat): Tables {
    Tables(t.at[n := f], t.who[f := n], if n.Free? then t.count + 1 else t.count)
  }

  lemma PopStill(mem: seq<Page>, link: nat, t: Tables, n: Node)
    requires Wf(mem, link, t) && 0 < t.count && IsTable(n) && Parent(n) in t.at && n !in t.at
    ensures Free(t.count - 1) in t.at && n !in Pop(t).at
    ensures Parent(n) in Pop(t).at && Pop(t).at[Parent(n)] == t.at[Parent(n)] < |mem| && t.at[Parent(n)] != t.at[Free(t.count - 1)]
  {
  }

  lemma PopPlaced(mem: seq<Page>, link: nat, t: Tables, p: Page)
    requires Placed(mem, t) && Listed(mem, link, t) && 0 < t.count
    ensures var f := t.at[Free(t.count - 1)]; Placed(mem[f := p], Pop(t)) && f !in Pop(t).who
  {
  }

  lemma PopListed(mem: seq<Page>, link: nat, t: Tables, p: Page)
    requires Placed(mem, t) && Listed(mem, link, t) && 0 < t.count
    ensures var f := t.at[Free(t.count - 1)]; link == Addr(f) && Listed(mem[f := p], mem[f][0], Pop(t))
  {
    var f := t.at[Free(t.count - 1)];
    var mem', t' := mem[f := p], Pop(t);
    assert NextIs(mem, t, t.count - 1);
    forall k: nat {:trigger NextIs(mem', t', k)} | k < t'.count ensures NextIs(mem', t', k) {
      assert NextIs(mem, t, k);
    }
  }

  lemma PopLinked(mem: seq<Page>, link: nat, t: Tables, p: Page)
    requires Wf(mem, link, t) && 0 < t.count
    ensures var f := t.at[Free(t.count - 1)]; Linked(mem[f := p], Pop(t))
  {
    var f := t.at[Free(t.count - 1)];
    forall n {:trigger IsTable(n)} | IsTable(n) && Parent(n) in Pop(t).at ensures LinkIs(mem[f := p], Pop(t), n) {
      assert LinkIs(mem, t, n);
    }
  }

  /** The list is empty exactly when page_link is null, and page 0 is nobody's. */
  lemma ListHead(mem: seq<Page>, link: nat, t: Tables)
    requires Placed(mem, t) && Listed(mem, link, t) && 0 < |mem|
    ensures link == 0 <==> t.count == 0
    ensures 0 !in t.who && link % 4096 == 0 && link / 4096 < |mem|
  {
    if 0 < t.count { Arith.DivModUnique(link, 4096, t.at[Free(t.count - 1)], 0); }
  }

  /** kalloc: the first page of the list, whatever is then written to it. */
  lemma PopKeeps(mem: seq<Page>, link: nat, t: Tables, p: Page)
    requires Wf(mem, link, t) && 0 < t.count
    ensures var f := t.at[Free(t.count - 1)]; var mem' := mem[f := p];
      && link == Addr(f) && Wf(mem', mem[f][0], Pop(t)) && f !in Pop(t).who && SameFlat(mem, t, mem', Pop(t))
  {
    PopPlaced(mem, link, t, p);
    PopListed(mem, link, t, p);
    PopLinked(mem, link, t, p);
  }

  // ---- writing ------------------------------------------------------------------------------

  /** A page that is no table and not free may hold anything. */
  lemma LooseWrite(mem: seq<Page>, link: nat, t: Tables, f: nat, p: Page)
    requires Wf(mem, link, t) && f < |mem| && f !in t.who
    ensures Wf(mem[f := p], link, t) && SameFlat(mem, t, mem[f := p], t)
  {
    var mem' := mem[f := p];
    forall k: nat {:trigger NextIs(mem', t, k)} | k < t.count ensures NextIs(mem', t, k) { assert NextIs(mem, t, k); }
    forall n {:trigger IsTable(n)} | IsTable(n) && Parent(n) in t.at ensures LinkIs(mem[f := p], t, n) { assert LinkIs(mem, t, n); }
  }

  /** walk links a zeroed page as table n. */
  ghost function Attach(mem: seq<Page>, t: Tables, n: Node, f: nat): (mem': seq<Page>)
    requires Placed(mem, t) && IsTable(n) && Parent(n) in t.at && 1 <= f < |mem|
    ensures |mem'| == |mem|
  {
    var p := t.at[Parent(n)];
    mem[p := mem[p][Slot(n) := Pack(Addr(f))]]
  }

  lemma AttachLinked(mem: seq<Page>, t: Tables, n: Node, f: nat)
    requires Placed(mem, t) && Linked(mem, t) && IsTable(n) && Parent(n) in t.at && n !in t.at
    requires 1 <= f < |mem| && f !in t.who && mem[f] == Fill(0)
    ensures Linked(Attach(mem, t, n, f), Put(t, n, f))
  {
    var mem', t' := Attach(mem, t, n, f), Put(t, n, f);
    forall m {:trigger IsTable(m)} | IsTable(m) && Parent(m) in t'.at ensures LinkIs(mem', t', m) {
      if Parent(m) != n { AttachLink(mem, t, n, f, m); } else { NoGrandchild(mem, t, n, m); }
    }
  }

  lemma NoGrandchild(mem: seq<Page>, t: Tables, n: Node, m: Node)
    requires Linked(mem, t) && n !in t.at && IsTable(n) && IsTable(m) && Parent(m) == n
    ensures m !in t.at
  {
  }

  lemma AttachLink(mem: seq<Page>, t: Tables, n: Node, f: nat, m: Node)
    requires Placed(mem, t) && Linked(mem, t) && IsTable(n) && Parent(n) in t.at && n !in t.at
    requires 1 <= f < |mem| && f !in t.who && IsTable(m) && Parent(m) in t.at
    ensures Parent(m) in Put(t, n, f).at && LinkIs(Attach(mem, t, n, f), Put(t, n, f), m)
  {
    assert LinkIs(mem, t, m);
    hide Linked, Placed, Attach, Slot, Parent;
    if m == n { NewEntry(mem, t, n, f); } else { OldEntry(mem, t, n, f, m); }
  }

  lemma NewEntry(mem: seq<Page>, t: Tables, n: Node, f: nat)
    requires Placed(mem, t) && IsTable(n) && Parent(n) in t.at && 1 <= f < |mem|
    ensures t.at[Parent(n)] < |mem| && Attach(mem, t, n, f)[t.at[Parent(n)]][Slot(n)] == f * 1024 + 1
  {
    hide Pack;
    Arith.DivModUnique(Addr(f), 4096, f, 0);
    assert Attach(mem, t, n, f)[t.at[Parent(n)]][Slot(n)] == Pack(Addr(f));
  }

  /** The entries of the other tables are where they were. */
  lemma OldEntry(mem: seq<Page>, t: Tables, n: Node, f: nat, m: Node)
    requires Placed(mem, t) && IsTable(n) && Parent(n) in t.at && 1 <= f < |mem| && IsTable(m) && Parent(m) in t.at && m != n
    ensures t.at[Parent(m)] < |mem| && Attach(mem, t, n, f)[t.at[Parent(m)]][Slot(m)] == mem[t.at[Parent(m)]][Slot(m)]
  {
    hide Pack;
    if Parent(m) == Parent(n) {
      OtherSlot(m, n);
    } else {
      assert t.at[Parent(m)] != t.at[Parent(n)];
    }
  }

  lemma OtherSlot(m: Node, n: Node)
    requires IsTable(m) && IsTable(n) && Parent(m) == Parent(n) && m != n
    ensures Slot(m) != Slot(n)
  {
  }

  lemma AttachListed(mem: seq<Page>, link: nat, t: Tables, n: Node, f: nat)
    requires Placed(mem, t) && Listed(mem, link, t) && IsTable(n) && Parent(n) in t.at && 1 <= f < |mem|
    ensures Listed(Attach(mem, t, n, f), link, Put(t, n, f))
  {
    hide Pack;
    var mem', t' := Attach(mem, t, n, f), Put(t, n, f);
    forall k: nat {:trigger NextIs(mem', t', k)} | k < t'.count ensures NextIs(mem', t', k) {
      assert NextIs(mem, t, k);
      assert t.at[Free(k)] != t.at[Parent(n)];
    }
  }

  lemma AttachFlat(mem: seq<Page>, t: Tables, n: Node, f: nat)
    requires Placed(mem, t) && IsTable(n) && Parent(n) in t.at && n !in t.at
    requires 1 <= f < |mem| && f !in t.who && mem[f] == Fill(0) && Placed(Attach(mem, t, n, f), Put(t, n, f))
    ensures SameFlat(mem, t, Attach(mem, t, n, f), Put(t, n, f))
  {
  }

  /** The tree grows by an empty table: the flat map stays as it was. */
  lemma AttachKeeps(mem: seq<Page>, link: nat, t: Tables, n: Node, f: nat)
    requires Wf(mem, link, t) && IsTable(n) && Parent(n) in t.at && n !in t.at
    requires 1 <= f < |mem| && f !in t.who && mem[f] == Fill(0)
    ensures var mem', t' := Attach(mem, t, n, f), Put(t, n, f); Wf(mem', link, t') && SameFlat(mem, t, mem', t')
  {
    AttachLinked(mem, t, n, f);
    AttachListed(mem, link, t, n, f);
    assert Placed(Attach(mem, t, n, f), Put(t, n, f));
    AttachFlat(mem, t, n, f);
  }

  /** A zeroed page becomes the root. */
  lemma RootKeeps(mem: seq<Page>, link: nat, t: Tables, f: nat)
    requires Wf(mem, link, t) && Root !in t.at && 1 <= f < |mem| && f !in t.who && mem[f] == Fill(0)
    ensures Wf(mem, link, Put(t, Root, f)) && SameFlat(mem, t, mem, Put(t, Root, f))
  {
    var t' := Put(t, Root, f);
    forall k: nat {:trigger NextIs(mem, t', k)} | k < t'.count ensures NextIs(mem, t', k) { assert NextIs(mem, t, k); }
    forall m {:trigger IsTable(m)} | IsTable(m) && Parent(m) in t'.at ensures LinkIs(mem, t', m) {
      if Parent(m) != Root { assert LinkIs(mem, t, m); }
    }
  }

  lemma LeafHasRoot(mem: seq<Page>, t: Tables, u: nat)
    requires Linked(mem, t) && Leaf(u) in t.at
    ensures Root in t.at
  {
    assert IsTable(Leaf(u)) && Parent(Leaf(u)) == Mid(u / 512) && Parent(Mid(u / 512)) == Root;
  }

  lemma NoRootNoFlat(mem: seq<Page>, t: Tables)
    requires Placed(mem, t) && Linked(mem, t) && Root !in t.at
    ensures forall v :: 0 <= v < VPNS ==> Flat(mem, t, v) == 0
  {
    forall v | 0 <= v < VPNS ensures Leaf(v / 512) in t.at ==> Root in t.at {
      if Leaf(v / 512) in t.at { LeafHasRoot(mem, t, v / 512); }
    }
  }

  ghost predicate MapsNothing(mem: seq<Page>, t: Tables)
    requires Placed(mem, t)
  {
    forall v :: 0 <= v < VPNS ==> Flat(mem, t, v) == 0
  }

  lemma EmptyRoot(mem: seq<Page>, link: nat, t: Tables, f: nat)
    requires Wf(mem, link, t) && Root !in t.at && 1 <= f < |mem| && f !in t.who && mem[f] == Fill(0)
    ensures var t' := Put(t, Root, f); Wf(mem, link, t') && Placed(mem, t') && MapsNothing(mem, t')
  {
    RootKeeps(mem, link, t, f);
    NoRootNoFlat(mem, t);
    hide Linked, Listed, Flat;
  }

  /** map writes one leaf entry. */
  ghost function Store(mem: seq<Page>, t: Tables, v: nat, w: word): (mem': seq<Page>)
    requires Placed(mem, t) && Leaf(v / 512) in t.at
    ensures |mem'| == |mem|
  {
    var p := t.at[Leaf(v / 512)];
    mem[p := mem[p][v % 512 := w]]
  }

  lemma StoreKeeps(mem: seq<Page>, link: nat, t: Tables, v: nat, w: word)
    requires Wf(mem, link, t) && Leaf(v / 512) in t.at
    ensures var mem' := Store(mem, t, v, w); Wf(mem', link, t) && FlatStored(mem, mem', t, v, w)
  {
    var mem' := Store(mem, t, v, w);
    forall k: nat {:trigger NextIs(mem', t, k)} | k < t.count ensures NextIs(mem', t, k) { assert NextIs(mem, t, k); }
    forall m {:trigger IsTable(m)} | IsTable(m) && Parent(m) in t.at ensures LinkIs(mem', t, m) { assert LinkIs(mem, t, m); }
    StoreFlat(mem, t, v, w);
  }

  lemma StoreFlat(mem: seq<Page>, t: Tables, v: nat, w: word)
    requires Placed(mem, t) && Leaf(v / 512) in t.at
    ensures var mem' := Store(mem, t, v, w);
      Placed(mem', t) && forall x :: 0 <= x < VPNS ==> Flat(mem', t, x) == if x == v then w else Flat(mem, t, x)
  {
    var mem' := Store(mem, t, v, w);
    forall x | 0 <= x < VPNS ensures Flat(mem', t, x) == if x == v then w else Flat(mem, t, x) {
      if Leaf(x / 512) in t.at && t.at[Leaf(x / 512)] == t.at[Leaf(v / 512)] { assert Leaf(x / 512) == Leaf(v / 512); }
    }
  }

  /** free_page puts a page that nothing uses at the front of the list. */
  lemma PushKeeps(mem: seq<Page>, link: word, t: Tables, f: nat, p: Page)
    requires Wf(mem, link, t) && 1 <= f < |mem| && f !in t.who && p[0] == link
    ensures var mem', t' := mem[f := p], Put(t, Free(t.count), f); Wf(mem', Addr(f), t') && SameFlat(mem, t, mem', t')
  {
    var mem', t' := mem[f := p], Put(t, Free(t.count), f);
    forall k: nat {:trigger NextIs(mem', t', k)} | k < t'.count ensures NextIs(mem', t', k) {
      if k < t.count { assert NextIs(mem, t, k); }
    }
    forall m {:trigger IsTable(m)} | IsTable(m) && Parent(m) in t'.at ensures LinkIs(mem', t', m) { assert LinkIs(mem, t, m); }
  }

  // ---- what calls of walk add up to -----------------------------------------------------------

  /** The tables that page number v needs below the root. */
  function Path(v: nat): set<Node> { {Mid(v / MIDSPAN), Leaf(v / 512)} }

  /** The tables that pages v .. v + n - 1 need. */
  function Paths(v: nat, n: nat): set<Node> { if n == 0 then {} else Paths(v, n - 1) + Path(v + n - 1) }

  /** From (mem, t) to (mem', t') exactly the tables P were added where missing, each on a
      page from the free list, in a tree that otherwise kept its pages; table pages and free
      pages together are conserved, and no page outside them was touched. */
  ghost predicate Grew(mem: seq<Page>, t: Tables, mem': seq<Page>, t': Tables, P: set<Node>) {
    && |mem'| == |mem| && |P - t.at.Keys| <= t.count && t'.count == t.count - |P - t.at.Keys|
    && (forall n: Node :: !n.Free? ==> (n in t'.at <==> n in t.at || n in P))
    && (forall n :: n in t.at && !n.Free? ==> n in t'.at && t'.at[n] == t.at[n])
    && (forall k: nat :: k < t'.count && Free(k) in t.at ==> Free(k) in t'.at && t'.at[Free(k)] == t.at[Free(k)])
    && (forall n :: n in t'.at ==> t'.at[n] in t.who)
    && (forall f :: 0 <= f < |mem| && f !in t.who ==> mem'[f] == mem[f])
  }

  lemma GrewNothing(mem: seq<Page>, t: Tables, P: set<Node>)
    requires Placed(mem, t) && P <= t.at.Keys
    ensures Grew(mem, t, mem, t, P)
  {
    assert P - t.at.Keys == {};
  }

  lemma GrewOne(mem: seq<Page>, link: nat, t: Tables, mem': seq<Page>, n: Node, f: nat)
    requires Wf(mem, link, t) && IsTable(n) && Parent(n) in t.at && n !in t.at
    requires 0 < t.count && f == t.at[Free(t.count - 1)]
    requires var mem1 := mem[f := Fill(0)]; Placed(mem1, Pop(t)) && mem' == Attach(mem1, Pop(t), n, f)
    ensures Grew(mem, t, mem', Put(Pop(t), n, f), {n})
  {
    hide Linked, NextIs, Pack;
    assert {n} - t.at.Keys == {n};
  }

  /** Page g zeroed, and entry cur of the table on frame f pointing at it. */
  function LinkFresh(mem: seq<Page>, g: nat, f: nat, cur: nat): (mem': seq<Page>)
    requires g < |mem| && f < |mem| <= FRAMES && cur < 512
    ensures |mem'| == |mem|
  {
    var z := mem[g := Fill(0)];
    z[f := z[f][cur := Pack(Addr(g))]]
  }

  /** Page `next` came from kalloc, was zeroed, and linked from entry cur of the table on f. */
  ghost predicate TookPage(m0: seq<Page>, link0: nat, t0: Tables, m: seq<Page>, link: nat, t: Tables, f: nat, cur: nat, next: nat) {
    && f < |m0| <= FRAMES && cur < 512 && next / 4096 < |m0| && m == LinkFresh(m0, next / 4096, f, cur)
    && if t0.count == 0 then next == 0 && t == t0 && link == link0
       else && Free(t0.count - 1) in t0.at && next == Addr(t0.at[Free(t0.count - 1)]) && next / 4096 == t0.at[Free(t0.count - 1)]
            && t == Pop(t0) && next / 4096 !in t.who && Placed(m0, t0)
            && Wf(m0[next / 4096 := Fill(0)], link, t) && SameFlat(m0, t0, m0[next / 4096 := Fill(0)], t)
  }

  /** Table n was added on page `next`; where no page was left only the memory changed, and
      page 0 was linked in its place. */
  ghost predicate MadeChild(m0: seq<Page>, link0: nat, t0: Tables, m: seq<Page>, link: nat, t: Tables, n: Node, next: nat) {
    if t0.count == 0 then
      && IsTable(n) && Parent(n) in t0.at && t0.at[Parent(n)] < |m0| <= FRAMES && 0 < |m0|
      && next == 0 && t == t0 && link == link0 && m == LinkFresh(m0, 0, t0.at[Parent(n)], Slot(n))
    else
      && Wf(m, link, t) && n in t.at && next == Addr(t.at[n])
      && Placed(m0, t0) && SameFlat(m0, t0, m, t) && Grew(m0, t0, m, t, {n})
  }

  lemma ChildKeeps(m0: seq<Page>, link0: nat, t0: Tables, m: seq<Page>, link: nat, t: Tables, n: Node, next: nat)
    requires Wf(m0, link0, t0) && IsTable(n) && Parent(n) in t0.at && n !in t0.at
    requires TookPage(m0, link0, t0, m, link, t, t0.at[Parent(n)], Slot(n), next)
    ensures MadeChild(m0, link0, t0, m, link, if t0.count == 0 then t else Put(t, n, next / 4096), n, next)
  {
    if t0.count == 0 { return; }
    var f := t0.at[Free(t0.count - 1)];
    var mem1 := m0[f := Fill(0)];
    PopStill(m0, link0, t0, n);
    AttachKeeps(mem1, link, t, n, f);
    GrewOne(m0, link0, t0, m, n, f);
    SameFlatOn(m0, t0, mem1, t, m, Put(t, n, f));
  }

  lemma GrewCount(t: Tables, t1: Tables, P: set<Node>, Q: set<Node>)
    requires forall n :: n in P || n in Q ==> !n.Free?
    requires forall n: Node :: !n.Free? ==> (n in t1.at <==> n in t.at || n in P)
    ensures |P + Q - t.at.Keys| == |P - t.at.Keys| + |Q - t1.at.Keys|
  {
    assert P + Q - t.at.Keys == (P - t.at.Keys) + (Q - t1.at.Keys);
  }

  lemma GrewOn(m0: seq<Page>, t0: Tables, m1: seq<Page>, t1: Tables, m2: seq<Page>, t2: Tables, P: set<Node>, Q: set<Node>)
    requires Grew(m0, t0, m1, t1, P) && Grew(m1, t1, m2, t2, Q)
    requires forall n :: n in P || n in Q ==> !n.Free?
    requires Placed(m0, t0) && Placed(m1, t1)
    ensures Grew(m0, t0, m2, t2, P + Q)
  {
    GrewCount(t0, t1, P, Q);
    forall f | f in t1.who ensures f in t0.who { assert t1.at[t1.who[f]] == f; }
  }

  /** The table walk is in at each level of the way to page number v. */
  function NodeAt(v: nat, level: nat): Node
    requires level <= 2
  {
    if level == 0 then Root else if level == 1 then Mid(v / MIDSPAN) else Leaf(v / 512)
  }

  function PathTo(v: nat, level: nat): set<Node>
    requires level <= 2
  {
    if level == 0 then {} else if level == 1 then {Mid(v / MIDSPAN)} else Path(v)
  }

  lemma NextNode(va: word, level: nat)
    requires level < 2
    ensures var n := NodeAt(Vpn(va), level + 1);
      && IsTable(n) && Parent(n) == NodeAt(Vpn(va), level) && Slot(n) == Index(va, level)
      && PathTo(Vpn(va), level + 1) == PathTo(Vpn(va), level) + {n} && n !in PathTo(Vpn(va), level)
  {
    IndexIs(va);
  }

  lemma RoomSets(v: nat, level: nat, have: set<Node>)
    requires level < 2 && NodeAt(v, level + 1) !in have
    ensures PathTo(v, level) - have + {NodeAt(v, level + 1)} <= Path(v) - have
    ensures |PathTo(v, level) - have + {NodeAt(v, level + 1)}| == |PathTo(v, level) - have| + 1
  {
  }

  lemma VpnOf(k: nat)
    requires k < VPNS
    ensures Vpn(4096 * k) == k
  {
    Arith.DivModUnique(4096 * k, 4096, k, 0);
  }

  lemma PathRoom(m0: seq<Page>, t0: Tables, m: seq<Page>, t: Tables, v: nat, level: nat)
    requires level < 2 && Grew(m0, t0, m, t, PathTo(v, level)) && |Path(v) - t0.at.Keys| <= t0.count
    ensures NodeAt(v, level + 1) in t.at || 0 < t.count
  {
    hide Placed;
    var n := NodeAt(v, level + 1);
    if n !in t.at {
      RoomSets(v, level, t0.at.Keys);
      SubsetSize(PathTo(v, level) - t0.at.Keys + {n}, Path(v) - t0.at.Keys);
    }
  }

  lemma SameFlatOn(m0: seq<Page>, t0: Tables, m1: seq<Page>, t1: Tables, m2: seq<Page>, t2: Tables)
    requires Placed(m0, t0) && Placed(m1, t1) && Placed(m2, t2) && SameFlat(m0, t0, m1, t1) && SameFlat(m1, t1, m2, t2)
    ensures SameFlat(m0, t0, m2, t2)
  {
  }

  /** The flat map after mapping n pages from page number v to the frames from pa on. */
  ghost predicate FlatMapped(m0: seq<Page>, t0: Tables, m: seq<Page>, t: Tables, v: nat, n: nat, pa: word, perm: nat)
    requires Placed(m0, t0) && Placed(m, t)
  {
    forall x :: 0 <= x < VPNS ==>
      if v <= x < v + n then MapsTo(Flat(m, t, x), pa + 4096 * (x - v), perm) else Flat(m, t, x) == Flat(m0, t0, x)
  }

  predicate MapsTo(pte: nat, pa: nat, perm: nat) { pa < 0x1_0000_0000_0000_0000 && perm < 1024 && pte == Entry(pa, perm) }

  /** map's cursors after i pages, and the whole range within bounds. */
  predicate Cursor(v: nat, pa: word, n: nat, at: nat, to: nat, i: nat) {
    && at == 4096 * (v + i) && to == pa + 4096 * i
    && v + n <= VPNS && pa + 4096 * n <= 0x1_0000_0000_0000_0000 && i <= n
  }

  lemma CursorOn(v: nat, pa: word, n: nat, at: nat, to: nat, i: nat)
    requires Cursor(v, pa, n, at, to, i) && i < n
    ensures Cursor(v, pa, n, at + 4096, to + 4096, i + 1)
    ensures at < 0x80_0000_0000 && to < 0x1_0000_0000_0000_0000
  {
  }

  lemma MappedNothing(m: seq<Page>, t: Tables, v: nat, pa: word, perm: nat)
    requires Placed(m, t)
    ensures FlatMapped(m, t, m, t, v, 0, pa, perm) && Grew(m, t, m, t, Paths(v, 0))
  {
    GrewNothing(m, t, {});
  }

  lemma RootStays(m0: seq<Page>, t0: Tables, m: seq<Page>, t: Tables, P: set<Node>)
    requires Grew(m0, t0, m, t, P) && Root in t0.at
    ensures Root in t.at && t.at[Root] == t0.at[Root]
  {
  }

  ghost predicate FlatStored(m: seq<Page>, m': seq<Page>, t: Tables, x: nat, w: word)
    requires Placed(m, t) && Placed(m', t)
  {
    forall y :: 0 <= y < VPNS ==> Flat(m', t, y) == if y == x then w else Flat(m, t, y)
  }

  lemma FlatMapStep(m0: seq<Page>, t0: Tables, m1: seq<Page>, t1: Tables, m2: seq<Page>, t2: Tables, m3: seq<Page>,
                    v: nat, n: nat, pa: word, perm: nat, x: nat, to: word)
    requires Placed(m0, t0) && Placed(m1, t1) && Placed(m2, t2) && Placed(m3, t2) && perm < 1024
    requires pa + 4096 * (n + 1) <= 0x1_0000_0000_0000_0000 && FlatMapped(m0, t0, m1, t1, v, n, pa, perm)
    requires SameFlat(m1, t1, m2, t2) && x == v + n && to == pa + 4096 * n
    requires FlatStored(m2, m3, t2, x, Entry(to, perm))
    ensures FlatMapped(m0, t0, m3, t2, v, n + 1, pa, perm)
  {
  }

  lemma GrewStore(m0: seq<Page>, t0: Tables, m: seq<Page>, t: Tables, P: set<Node>, v: nat, w: word)
    requires Grew(m0, t0, m, t, P) && Placed(m, t) && Leaf(v / 512) in t.at
    ensures Grew(m0, t0, Store(m, t, v, w), t, P)
  {
    assert t.at[Leaf(v / 512)] in t0.who;
  }

  lemma {:induction false} PathsGrow(v: nat, n: nat, k: nat)
    requires k <= n
    ensures Paths(v, k) <= Paths(v, n)
    ensures k < n ==> Path(v + k) <= Paths(v, n)
    ensures forall m :: m in Paths(v, n) ==> !m.Free?
    decreases n
  {
    if k < n { PathsGrow(v, n - 1, k); } else if n > 0 { PathsGrow(v, n - 1, n - 1); }
  }

  lemma PathsNext(v: nat, n: nat, x: nat)
    requires x == v + n
    ensures Paths(v, n + 1) == Paths(v, n) + Path(x)
    ensures forall m :: m in Paths(v, n) || m in Path(x) ==> !m.Free?
  {
    PathsGrow(v, n, n);
  }

  /** Enough pages for the whole range are enough for the next page. */
  lemma MapRoom(m0: seq<Page>, t0: Tables, m: seq<Page>, t: Tables, v: nat, n: nat, k: nat, x: nat)
    requires k < n && Grew(m0, t0, m, t, Paths(v, k)) && |Paths(v, n) - t0.at.Keys| <= t0.count && x == v + k
    ensures |Path(x) - t.at.Keys| <= t.count
  {
    PathsGrow(v, n, k);
    PathsNext(v, k, x);
    hide Path, Paths;
    assert Path(x) <= Paths(v, n);
    GrewCount(t0, t, Paths(v, k), Path(x));
    SubsetSize(Paths(v, k) + Path(x) - t0.at.Keys, Paths(v, n) - t0.at.Keys);
  }

  // ---- how many tables a range of pages takes ------------------------------------------------

  ghost function Leaves(P: set<Node>): set<Node> { set m | m in P && m.Leaf? }
  ghost function Mids(P: set<Node>): set<Node> { set m | m in P && m.Mid? }

  ghost function LeafRange(a: nat, n: nat): (r: set<Node>)
    ensures |r| == n
    ensures forall m :: m in r <==> m.Leaf? && a <= m.u < a + n
  {
    if n == 0 then {} else LeafRange(a, n - 1) + {Leaf(a + n - 1)}
  }

  ghost function MidRange(a: nat, n: nat): (r: set<Node>)
    ensures |r| == n
    ensures forall m :: m in r <==> m.Mid? && a <= m.i < a + n
  {
    if n == 0 then {} else MidRange(a, n - 1) + {Mid(a + n - 1)}
  }

  /** m is on the path of some page number between v and w. */
  predicate Between(v: nat, w: nat, m: Node) {
    (m.Leaf? && v / 512 <= m.u <= w / 512) || (m.Mid? && v / MIDSPAN <= m.i <= w / MIDSPAN)
  }

  lemma {:induction false} InPaths(v: nat, n: nat, m: Node)
    requires m in Paths(v, n)
    ensures 0 < n && Between(v, v + n - 1, m)
    decreases n
  {
    if m !in Path(v + n - 1) { InPaths(v, n - 1, m); }
  }

  lemma PathsRange(v: nat, n: nat)
    requires 0 < n
    ensures Leaves(Paths(v, n)) <= LeafRange(v / 512, (v + n - 1) / 512 - v / 512 + 1)
    ensures Mids(Paths(v, n)) <= MidRange(v / MIDSPAN, (v + n - 1) / MIDSPAN - v / MIDSPAN + 1)
    ensures forall m :: m in Paths(v, n) ==> m.Leaf? || m.Mid?
  {
    forall m | m in Paths(v, n) ensures Between(v, v + n - 1, m) { InPaths(v, n, m); }
  }

  /** Mapping n consecutive pages takes at most (n + 510) / 512 + 1 last-level and
      (n + 262142) / 262144 + 1 middle-level tables from the pool, and none else. */
  lemma TablesBound(v: nat, n: nat, have: set<Node>)
    requires 0 < n
    ensures var added := Paths(v, n) - have;
      && |Leaves(added)| <= (n + 510) / 512 + 1
      && |Mids(added)| <= (n + 262142) / 262144 + 1
      && |added| == |Leaves(added)| + |Mids(added)|
  {
    PathsRange(v, n);
    var added := Paths(v, n) - have;
    SubsetSize(Leaves(added), LeafRange(v / 512, (v + n - 1) / 512 - v / 512 + 1));
    SubsetSize(Mids(added), MidRange(v / MIDSPAN, (v + n - 1) / MIDSPAN - v / MIDSPAN + 1));
    assert added == Leaves(added) + Mids(added);
    SpanOf(v, n, 512);
    SpanOf(v, n, MIDSPAN);
  }

  lemma SpanOf(v: nat, n: nat, d: nat)
    requires 0 < n && (d == 512 || d == MIDSPAN)
    ensures (v + n - 1) / d - v / d + 1 <= (n + d - 2) / d + 1
  {
  }

  // ---- map, then find_pa ---------------------------------------------------------------------

  /** The byte of va's offset in the k-th frame from pa's on. */
  function PhysicalAt(pa: nat, k: nat, va: nat): nat { (pa / 4096 + k) * 4096 + va % 4096 }

  lemma PhysicalAligned(pa: nat, k: nat, va: nat)
    ensures pa % 4096 == 0 ==> PhysicalAt(pa, k, va) == pa + 4096 * k + va % 4096
  {
  }

  /** After map each address of the range translates to the frame map was given for its
      page, with the permissions asked for and V; all other page numbers keep their entry. */
  lemma MapTranslates(m0: seq<Page>, t0: Tables, m: seq<Page>, t: Tables, v: nat, n: nat, pa: word, perm: nat, va: word)
    requires Placed(m0, t0) && Placed(m, t) && FlatMapped(m0, t0, m, t, v, n, pa, perm)
    ensures var x := Vpn(va); var pte := Flat(m, t, x);
      if v <= x < v + n then
        && Translate(pte, va) == PhysicalAt(pa, x - v, va) && pte % 1024 == Bits.Or(perm, PTE_V)
        && (pa % 4096 == 0 ==> Translate(pte, va) == pa + 4096 * (x - v) + va % 4096)
      else pte == Flat(m0, t0, x)
  {
    var x := Vpn(va);
    hide Flat, Vpn, Translate;
    if v <= x < v + n { PageOf(pa, x - v, perm, va, Flat(m, t, x)); }
  }

  lemma PageOf(pa: word, k: nat, perm: nat, va: word, pte: nat)
    requires MapsTo(pte, pa + 4096 * k, perm)
    ensures pte < 0x1_0000_0000_0000_0000
    ensures Translate(pte, va) == PhysicalAt(pa, k, va) && pte % 1024 == Bits.Or(perm, PTE_V)
    ensures pa % 4096 == 0 ==> Translate(pte, va) == pa + 4096 * k + va % 4096
  {
    hide Translate, Target, Entry;
    PackUnpack(pa + 4096 * k, perm);
    Arith.DivModUnique(pa + 4096 * k, 4096, pa / 4096 + k, pa % 4096);
  }

  /** Where there is a leaf table, there is the table above it. */
  lemma LeafHasPath(mem: seq<Page>, t: Tables, v: nat)
    requires Linked(mem, t) && Leaf(v / 512) in t.at
    ensures Path(v) <= t.at.Keys
  {
    assert Parent(Leaf(v / 512)) == Mid(v / 512 / 512);
    Arith.DivModUnique(v, MIDSPAN, v / 512 / 512, 512 * (v / 512 % 512) + v % 512);
  }

  /** A page that anything is mapped to has its tables, so that find_pa on it changes nothing. */
  lemma MappedHasPath(mem: seq<Page>, t: Tables, v: nat)
    requires Placed(mem, t) && Linked(mem, t) && Flat(mem, t, v) != 0
    ensures Path(v) <= t.at.Keys
  {
    LeafHasPath(mem, t, v);
  }

  lemma GrewHasPath(m0: seq<Page>, t0: Tables, m: seq<Page>, t: Tables, v: nat, n: nat, x: nat)
    requires Grew(m0, t0, m, t, Paths(v, n)) && v <= x < v + n
    ensures Path(x) <= t.at.Keys
  {
    hide Path, Grew;
    PathsGrow(v, n, x - v);
    assert v + (x - v) == x;
    forall p | p in Path(x) ensures p in t.at { GrewHas(m0, t0, m, t, Paths(v, n), p); }
  }

  lemma GrewHas(m0: seq<Page>, t0: Tables, m: seq<Page>, t: Tables, P: set<Node>, p: Node)
    requires Grew(m0, t0, m, t, P) && p in P && !p.Free?
    ensures p in t.at
  {
  }

  lemma PathThere(t: Tables, x: nat)
    requires Path(x) <= t.at.Keys
    ensures Path(x) - t.at.Keys == {} && Leaf(x / 512) in t.at
  {
  }

  /** What map leaves for find_pa on an address of its range. */
  lemma AfterMap(m0: seq<Page>, t0: Tables, m: seq<Page>, t: Tables, v: nat, n: nat, pa: word, perm: nat, va: word)
    requires Placed(m0, t0) && Placed(m, t) && FlatMapped(m0, t0, m, t, v, n, pa, perm) && Grew(m0, t0, m, t, Paths(v, n))
    requires v <= Vpn(va) < v + n
    ensures |Path(Vpn(va)) - t.at.Keys| == 0 && Leaf(Vpn(va) / 512) in t.at && Flat(m, t, Vpn(va)) < 0x1_0000_0000_0000_0000
    ensures Translate(Flat(m, t, Vpn(va)), va) == PhysicalAt(pa, Vpn(va) - v, va)
  {
    MapTranslates(m0, t0, m, t, v, n, pa, perm, va);
    hide Flat, FlatMapped, Path, Paths, Translate, PhysicalAt, Vpn, Grew;
    GrewHasPath(m0, t0, m, t, v, n, Vpn(va));
    PathThere(t, Vpn(va));
  }

  ghost function InTree(t: Tables): set<Node> { set n | n in t.at.Keys && !n.Free? }

  ghost function FreeRange(n: nat): (r: set<Node>)
    ensures |r| == n
    ensures forall m :: m in r <==> m.Free? && m.k < n
  {
    if n == 0 then {} else FreeRange(n - 1) + {Free(n - 1)}
  }

  ghost predicate FreeBelow(t: Tables) { forall k: nat :: Free(k) in t.at <==> k < t.count }

  lemma NodeCount(t: Tables)
    requires FreeBelow(t)
    ensures |t.at.Keys| == |InTree(t)| + t.count
  {
    assert t.at.Keys == InTree(t) + FreeRange(t.count);
  }

  lemma TreeCount(m0: seq<Page>, t0: Tables, m: seq<Page>, t: Tables, P: set<Node>)
    requires Grew(m0, t0, m, t, P) && forall n :: n in P ==> !n.Free?
    ensures |InTree(t)| + t.count == |InTree(t0)| + t0.count
  {
    assert InTree(t) == InTree(t0) + (P - t0.at.Keys);
  }

  /** Table pages and free pages are conserved: as many together as before, and the very
      same frames. */
  lemma PagesConserved(m0: seq<Page>, t0: Tables, m: seq<Page>, t: Tables, P: set<Node>)
    requires Placed(m0, t0) && Placed(m, t) && Grew(m0, t0, m, t, P) && FreeBelow(t0) && FreeBelow(t)
    requires forall n :: n in P ==> !n.Free?
    ensures |InTree(t)| + t.count == |InTree(t0)| + t0.count
    ensures t.who.Keys == t0.who.Keys
  {
    TreeCount(m0, t0, m, t, P);
    FramesKept(m0, t0, m, t, P);
    hide Grew;
    NodeCount(t0);
    NodeCount(t);
    FramesMatch(m0, t0);
    FramesMatch(m, t);
    hide Placed;
    SameSizeSubset(t.who.Keys, t0.who.Keys);
  }

  lemma FramesKept(m0: seq<Page>, t0: Tables, m: seq<Page>, t: Tables, P: set<Node>)
    requires Placed(m, t) && Grew(m0, t0, m, t, P)
    ensures t.who.Keys <= t0.who.Keys
  {
    forall f | f in t.who ensures f in t0.who { assert t.at[t.who[f]] == f; }
  }

  /** As many frames as nodes. */
  lemma FramesMatch(m: seq<Page>, t: Tables)
    requires Placed(m, t)
    ensures |t.who.Keys| == |t.at.Keys|
  {
    ImageSize(t.at, t.at.Keys);
    assert t.who.Keys == set n | n in t.at.Keys :: t.at[n];
  }

  lemma {:induction false} ImageSize(at: map<Node, nat>, ns: set<Node>)
    requires ns <= at.Keys && forall a, b :: a in ns && b in ns && at[a] == at[b] ==> a == b
    ensures |set n | n in ns :: at[n]| == |ns|
    decreases ns
  {
    var image := set n | n in ns :: at[n];
    if ns != {} {
      var a :| a in ns;
      ImageSize(at, ns - {a});
      var rest := set n | n in ns - {a} :: at[n];
      assert image == rest + {at[a]};
    }
  }

  lemma SameSizeSubset(a: set<nat>, b: set<nat>)
    requires a <= b && |a| == |b|
    ensures a == b
  {
    assert b == a + (b - a);
  }

  // ---- no page left ---------------------------------------------------------------------------

  /** With an empty free list kalloc returns null, and walk takes page 0 for a missing table.
      An entry w stored in it is then lost when another entry of the table on frame f misses
      a table too, and both entries go through page 0. */
  lemma NullTableShared(mem: seq<Page>, f: nat, i: nat, j: nat, k: nat, w: word)
    requires 0 < f < |mem| <= FRAMES && i < 512 && j < 512 && k < 512
    ensures var m1 := LinkFresh(mem, 0, f, i); var m2 := m1[0 := m1[0][k := w]]; var m3 := LinkFresh(m2, 0, f, j);
      && m2[0][k] == w && m3[0][k] == 0
      && m3[f][i] % 2 == m3[f][j] % 2 == 1 && Target(m3[f][i]) == Target(m3[f][j]) == 0
  {
    var m1 := LinkFresh(mem, 0, f, i);
    var m3 := LinkFresh(m1[0 := m1[0][k := w]], 0, f, j);
    assert m3[f][i] == 1 && m3[f][j] == 1;
  }
}
