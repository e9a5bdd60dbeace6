/** kalloc.c and vm.c over physical memory, changed in place. The locks around the free list
    are left out: these calls run one at a time. */
module VmMemory {
  import opened Common
  import opened VmTables
  import opened VmHardware

  class Memory {
    const mem: array<Page>
    /** page_list_keeper.page_link: the address of the first free page, 0 when there is none. */
    var link: word
    /** What each page is for. */
    ghost var t: Tables

    ghost predicate Valid()
      reads this, mem
    {
      Wf(mem[..], link, t)
    }

    /** No free pages and no tables yet. */
    constructor (pages: array<Page>)
      requires pages.Length <= FRAMES
      ensures mem == pages && Valid() && t == Tables(map[], map[], 0)
    {
      mem := pages;
      link := 0;
      t := Tables(map[], map[], 0);
    }

    /** set_memory over a whole page. */
    method SetMemory(pa: word, value: nat)
      requires value < 256 && pa / 4096 < mem.Length && pa % 4096 == 0
      modifies mem
      ensures mem[..] == old(mem[..])[pa / 4096 := Fill(value)]
    {
      mem[pa / 4096] := Fill(value);
    }

    /** free_page, for a page-aligned address. */
    method FreePage(pa: word)
      requires Valid() && pa % 4096 == 0 && 1 <= pa / 4096 < mem.Length && pa / 4096 !in t.who
      modifies mem, this`link, this`t
      ensures Valid() && t == Put(old(t), Free(old(t).count), pa / 4096)
      ensures mem[pa / 4096] == Fill(1)[0 := old(link)] && link == pa
      ensures SameFlat(old(mem[..]), old(t), mem[..], t)
      ensures forall f :: 0 <= f < mem.Length && f != pa / 4096 ==> mem[f] == old(mem[f])
    {
      ghost var was := mem[..];
      SetMemory(pa, 1);
      mem[pa / 4096] := mem[pa / 4096][0 := link];
      PushKeeps(was, link, t, pa / 4096, mem[pa / 4096]);
      assert mem[..] == was[pa / 4096 := mem[pa / 4096]];
      link := pa;
      t := Put(t, Free(t.count), pa / 4096);
    }

    /** kalloc: the first page of the list, filled with 5s. With no page left it returns null,
        and it is page 0 that is filled. */
    method Kalloc() returns (pa: word)
      requires Valid() && 0 < mem.Length
      modifies mem, this`link, this`t
      ensures pa / 4096 < mem.Length
      ensures Valid() && mem[..] == old(mem[..])[pa / 4096 := Fill(5)] && SameFlat(old(mem[..]), old(t), mem[..], t)
      ensures if old(t).count == 0 then pa == 0 && t == old(t) && link == old(link)
              else t == Pop(old(t)) && pa == Addr(old(t).at[Free(old(t).count - 1)]) && 1 <= pa / 4096 < mem.Length && pa / 4096 !in t.who
    {
      ListHead(mem[..], link, t);
      pa := link;
      if pa == 0 {
        LooseWrite(mem[..], link, t, 0, Fill(5));
      } else {
        PopKeeps(mem[..], link, t, Fill(5));
        link := mem[pa / 4096][0];
        t := Pop(t);
      }
      SetMemory(pa, 5);
    }

    /** kalloc and then set_memory to 0. */
    method NewTable() returns (pa: word)
      requires Valid() && 0 < mem.Length
      modifies mem, this`link, this`t
      ensures Valid() && Placed(mem[..], t) && SameFlat(old(mem[..]), old(t), mem[..], t)
      ensures pa / 4096 !in t.who && pa / 4096 < mem.Length && mem[..] == old(mem[..])[pa / 4096 := Fill(0)]
      ensures if old(t).count == 0 then pa == 0 && t == old(t) && link == old(link)
              else t == Pop(old(t)) && pa == Addr(old(t).at[Free(old(t).count - 1)]) && 1 <= pa / 4096
    {
      hide Flat;
      ListHead(mem[..], link, t);
      pa := Kalloc();
      LooseWrite(mem[..], link, t, pa / 4096, Fill(0));
      SetMemory(pa, 0);
      assert mem[..] == old(mem[..])[pa / 4096 := Fill(0)];
    }

    /** empty_vm_create, the table becoming the root. */
    method EmptyVmCreate() returns (pagetable: word)
      requires Valid() && 0 < t.count && Root !in t.at
      modifies mem, this`link, this`t
      ensures Valid() && Root in t.at && pagetable == Addr(t.at[Root])
      ensures t == Put(Pop(old(t)), Root, old(t).at[Free(old(t).count - 1)])
      ensures Placed(mem[..], t) && MapsNothing(mem[..], t)
      ensures forall va: word :: Translated(mem[..], t.at[Root], va) == None
    {
      ListHead(mem[..], link, t);
      hide Wf, Placed, Flat;
      pagetable := NewTable();
      EmptyRoot(mem[..], link, t, pagetable / 4096);
      t := Put(t, Root, pagetable / 4096);
      forall va: word ensures Translated(mem[..], t.at[Root], va) == None { NothingIsReached(mem[..], link, t, va); }
    }

    /** table[slot] = w. */
    method StoreWord(table: word, slot: nat, w: word)
      requires table / 4096 < mem.Length && slot < 512
      modifies mem
      ensures mem[..] == old(mem[..])[table / 4096 := old(mem[..])[table / 4096][slot := w]]
    {
      mem[table / 4096] := mem[table / 4096][slot := w];
    }

    /** A new table and the entry for it. */
    method LinkTable(table: word, cur: nat) returns (next: word)
      requires Valid() && table / 4096 < mem.Length && cur < 512
      modifies mem, this`link, this`t
      ensures TookPage(old(mem[..]), old(link), old(t), mem[..], link, t, table / 4096, cur, next)
    {
      hide Flat, SameFlat, Pack, Linked, NextIs;
      next := NewTable();
      StoreWord(table, cur, Pack(next));
    }

    /** A new table, linked from slot cur of the current one; page 0 where there is no page left. */
    method NewChild(table: word, cur: nat, ghost n: Node) returns (next: word)
      requires Valid() && IsTable(n) && Parent(n) in t.at && table == Addr(t.at[Parent(n)]) && cur == Slot(n)
      requires n !in t.at && 0 < table / 4096 < mem.Length
      modifies mem, this`link, this`t
      ensures MadeChild(old(mem[..]), old(link), old(t), mem[..], link, t, n, next)
    {
      ghost var mem0, link0, t0 := mem[..], link, t;
      FrameOf(t.at[Parent(n)]);
      hide Wf, TookPage, MadeChild;
      next := LinkTable(table, cur);
      ChildKeeps(mem0, link0, t0, mem[..], link, t, n, next);
      t := if t0.count == 0 then t else Put(t, n, next / 4096);
    }

    /** One level of walk: follow the entry for node n of the current table, or make the
        table it should point at. */
    method Descend(table: word, cur: nat, ghost n: Node) returns (next: word)
      requires Valid() && IsTable(n) && Parent(n) in t.at && table == Addr(t.at[Parent(n)]) && cur == Slot(n)
      modifies mem, this`link, this`t
      ensures n in old(t).at ==> mem[..] == old(mem[..]) && t == old(t) && link == old(link) && next == Addr(t.at[n])
      ensures n !in old(t).at ==> MadeChild(old(mem[..]), old(link), old(t), mem[..], link, t, n, next)
    {
      EntryMeans(mem[..], link, t, n);
      FrameOf(t.at[Parent(n)]);
      var pte := mem[table / 4096][cur];
      hide Wf, MadeChild;
      if pte % 2 == 1 {
        next := Target(pte);
      } else {
        next := NewChild(table, cur, n);
      }
    }

    /** walk: where the entry for va is, tables on the way made as needed. */
    method Walk(pagetable: word, va: word) returns (table: word, slot: nat)
      requires Valid() && Root in t.at && pagetable == Addr(t.at[Root])
      requires |Path(Vpn(va)) - t.at.Keys| <= t.count
      modifies mem, this`link, this`t
      ensures Valid() && Placed(old(mem[..]), old(t)) && Placed(mem[..], t)
      ensures Leaf(Vpn(va) / 512) in t.at && table == Addr(t.at[Leaf(Vpn(va) / 512)]) && slot == Vpn(va) % 512
      ensures SameFlat(old(mem[..]), old(t), mem[..], t)
      ensures Grew(old(mem[..]), old(t), mem[..], t, Path(Vpn(va)))
      ensures Path(Vpn(va)) <= old(t).at.Keys ==> mem[..] == old(mem[..]) && t == old(t) && link == old(link)
    {
      ghost var mem0, t0, v := mem[..], t, Vpn(va);
      table := pagetable;
      GrewNothing(mem0, t0, {});
      var i := 0;
      while i < 2
        invariant i <= 2 && Valid() && NodeAt(v, i) in t.at && table == Addr(t.at[NodeAt(v, i)])
        invariant Placed(mem[..], t) && SameFlat(mem0, t0, mem[..], t) && Grew(mem0, t0, mem[..], t, PathTo(v, i))
        invariant Path(v) <= t0.at.Keys ==> mem[..] == mem0 && t == t0 && link == old(link)
      {
        table := WalkStep(mem0, t0, table, va, i);
        i := i + 1;
      }
      slot := Index(va, 2);
      IndexIs(va);
    }

    method WalkStep(ghost mem0: seq<Page>, ghost t0: Tables, table: word, va: word, i: nat) returns (next: word)
      requires i < 2 && Valid() && NodeAt(Vpn(va), i) in t.at && table == Addr(t.at[NodeAt(Vpn(va), i)])
      requires Placed(mem0, t0) && Placed(mem[..], t) && SameFlat(mem0, t0, mem[..], t)
      requires Grew(mem0, t0, mem[..], t, PathTo(Vpn(va), i)) && |Path(Vpn(va)) - t0.at.Keys| <= t0.count
      modifies mem, this`link, this`t
      ensures Valid() && NodeAt(Vpn(va), i + 1) in t.at && next == Addr(t.at[NodeAt(Vpn(va), i + 1)])
      ensures Placed(mem[..], t) && SameFlat(mem0, t0, mem[..], t)
      ensures Grew(mem0, t0, mem[..], t, PathTo(Vpn(va), i + 1))
      ensures NodeAt(Vpn(va), i + 1) in old(t).at ==> mem[..] == old(mem[..]) && t == old(t) && link == old(link)
    {
      hide Placed, Flat, Grew, SameFlat;
      ghost var mem1, t1, n := mem[..], t, NodeAt(Vpn(va), i + 1);
      NextNode(va, i);
      PathRoom(mem0, t0, mem1, t1, Vpn(va), i);
      var cur := Index(va, i);
      next := Descend(table, cur, n);
      if n in t1.at { GrewNothing(mem1, t1, {n}); }
      GrewOn(mem0, t0, mem1, t1, mem[..], t, PathTo(Vpn(va), i), {n});
      SameFlatOn(mem0, t0, mem1, t1, mem[..], t);
    }

    /** find_pa. */
    method FindPa(pagetable: word, va: word) returns (pa: word)
      requires Valid() && Root in t.at && pagetable == Addr(t.at[Root])
      requires |Path(Vpn(va)) - t.at.Keys| <= t.count
      modifies mem, this`link, this`t
      ensures Valid() && Placed(old(mem[..]), old(t)) && Placed(mem[..], t)
      ensures SameFlat(old(mem[..]), old(t), mem[..], t)
      ensures pa == Translate(Flat(old(mem[..]), old(t), Vpn(va)), va)
      ensures Leaf(Vpn(va) / 512) in old(t).at ==> mem[..] == old(mem[..]) && t == old(t) && link == old(link)
    {
      if Leaf(Vpn(va) / 512) in t.at { LeafHasPath(mem[..], t, Vpn(va)); }
      hide Path;
      var table, slot := Walk(pagetable, va);
      hide Wf, Grew, Translate, Vpn, Flat, Placed;
      FlatAt(mem[..], t, Vpn(va), table / 4096, slot);
      pa := Translate(mem[table / 4096][slot], va);
    }

    /** map: n pages from the one of va on, to the frames from the one of pa on, where the
        hardware finds them if it can address them. */
    method Map(va: word, pa: word, pagetable: word, n: nat, perm: nat)
      requires Valid() && Root in t.at && pagetable == Addr(t.at[Root]) && perm < 1024
      requires va / 4096 + n <= VPNS && pa + 4096 * n <= 0x1_0000_0000_0000_0000
      requires |Paths(va / 4096, n) - t.at.Keys| <= t.count
      modifies mem, this`link, this`t
      ensures Valid() && Placed(old(mem[..]), old(t)) && Placed(mem[..], t)
      ensures FlatMapped(old(mem[..]), old(t), mem[..], t, va / 4096, n, pa, perm)
      ensures Grew(old(mem[..]), old(t), mem[..], t, Paths(va / 4096, n))
      ensures Root in t.at && pagetable == Addr(t.at[Root])
      ensures pa + 4096 * n <= 0x100_0000_0000_0000 ==> Reached(mem[..], t.at[Root], va / 4096, n, pa)
    {
      ghost var mem0, t0 := mem[..], t;
      MapPages(va / 4096 * 4096, pa, pagetable, n, perm, va / 4096);
      RootStays(mem0, t0, mem[..], t, Paths(va / 4096, n));
      hide Wf, Placed, Grew, Flat, FlatMapped, Paths, Reached;
      if pa + 4096 * n <= 0x100_0000_0000_0000 { RangeIsReached(mem0, t0, mem[..], link, t, va / 4096, n, pa, perm); }
    }

    /** map, and then find_pa on an address of the range: the frame that was asked for, and
        find_pa changes nothing. */
    method MapThenFind(va: word, pa: word, pagetable: word, n: nat, perm: nat, vb: word) returns (r: word)
      requires Valid() && Root in t.at && pagetable == Addr(t.at[Root]) && perm < 1024
      requires va / 4096 + n <= VPNS && pa + 4096 * n <= 0x1_0000_0000_0000_0000
      requires |Paths(va / 4096, n) - t.at.Keys| <= t.count && va / 4096 <= Vpn(vb) < va / 4096 + n
      modifies mem, this`link, this`t
      ensures Valid() && Placed(old(mem[..]), old(t)) && Placed(mem[..], t)
      ensures r == PhysicalAt(pa, Vpn(vb) - va / 4096, vb)
      ensures pa % 4096 == 0 ==> r == pa + 4096 * (Vpn(vb) - va / 4096) + vb % 4096
      ensures FlatMapped(old(mem[..]), old(t), mem[..], t, va / 4096, n, pa, perm)
    {
      ghost var mem0, t0 := mem[..], t;
      hide Wf, Placed, Grew, Flat, FlatMapped, Path, Paths, Translate, Translated, PhysicalAt, Vpn, Reached;
      Map(va, pa, pagetable, n, perm);
      AfterMap(mem0, t0, mem[..], t, va / 4096, n, pa, perm, vb);
      r := FindPa(pagetable, vb);
      PhysicalAligned(pa, Vpn(vb) - va / 4096, vb);
    }

    /** map's loop, from the page of number v on. */
    method MapPages(va_start: word, pa: word, pagetable: word, n: nat, perm: nat, ghost v: nat)
      requires Valid() && Root in t.at && pagetable == Addr(t.at[Root]) && perm < 1024
      requires va_start == 4096 * v && v + n <= VPNS && pa + 4096 * n <= 0x1_0000_0000_0000_0000
      requires |Paths(v, n) - t.at.Keys| <= t.count
      modifies mem, this`link, this`t
      ensures Valid() && Placed(old(mem[..]), old(t)) && Placed(mem[..], t)
      ensures FlatMapped(old(mem[..]), old(t), mem[..], t, v, n, pa, perm)
      ensures Grew(old(mem[..]), old(t), mem[..], t, Paths(v, n))
    {
      ghost var mem0, t0 := mem[..], t;
      assert Placed(mem0, t0);
      assert Cursor(v, pa, n, va_start, pa, 0);
      hide Wf, Placed, Flat, SameFlat, Grew, FlatMapped, Paths, Cursor;
      MappedNothing(mem0, t0, v, pa, perm);
      var at: nat, to: nat := va_start, pa;
      for i := 0 to n
        invariant Valid() && Root in t.at && pagetable == Addr(t.at[Root])
        invariant Cursor(v, pa, n, at, to, i)
        invariant Placed(mem[..], t) && Grew(mem0, t0, mem[..], t, Paths(v, i))
        invariant FlatMapped(mem0, t0, mem[..], t, v, i, pa, perm)
      {
        CursorOn(v, pa, n, at, to, i);
        MapStep(mem0, t0, at, to, pagetable, n, perm, i, pa, v);
        at := at + 4096;
        to := to + 4096;
      }
    }

    method MapStep(ghost mem0: seq<Page>, ghost t0: Tables, at: word, to: word, pagetable: word, ghost n: nat, perm: nat,
                   ghost i: nat, ghost pa: word, ghost v: nat)
      requires Valid() && Root in t.at && pagetable == Addr(t.at[Root]) && perm < 1024
      requires i < n && Cursor(v, pa, n, at, to, i)
      requires Placed(mem0, t0) && |Paths(v, n) - t0.at.Keys| <= t0.count
      requires Placed(mem[..], t) && Grew(mem0, t0, mem[..], t, Paths(v, i)) && FlatMapped(mem0, t0, mem[..], t, v, i, pa, perm)
      modifies mem, this`link, this`t
      ensures Valid() && Root in t.at && pagetable == Addr(t.at[Root])
      ensures Placed(mem[..], t) && Grew(mem0, t0, mem[..], t, Paths(v, i + 1)) && FlatMapped(mem0, t0, mem[..], t, v, i + 1, pa, perm)
    {
      hide Wf, Placed, Grew, SameFlat, Flat, FlatMapped, FlatStored, Vpn, Path, Paths, Entry;
      ghost var mem1, t1, x := mem[..], t, Vpn(at);
      VpnOf(v + i);
      assert x == v + i;
      MapRoom(mem0, t0, mem1, t1, v, n, i, x);
      var table, slot := Walk(pagetable, at);
      ghost var mem2 := mem[..];
      RootStays(mem1, t1, mem2, t, Path(x));
      var pte := Entry(to, perm);
      PathsNext(v, i, x);
      GrewOn(mem0, t0, mem1, t1, mem2, t, Paths(v, i), Path(x));
      GrewStore(mem0, t0, mem2, t, Paths(v, i + 1), x, pte);
      StoreEntry(table, slot, x, pte);
      FlatMapStep(mem0, t0, mem1, t1, mem2, t, mem[..], v, i, pa, perm, x, to);
    }

    /** *pte = w. */
    method StoreEntry(table: word, slot: nat, ghost v: nat, w: word)
      requires Valid() && Placed(mem[..], t) && Leaf(v / 512) in t.at && table == Addr(t.at[Leaf(v / 512)]) && slot == v % 512
      modifies mem
      ensures Valid() && Placed(mem[..], t) && mem[..] == Store(old(mem[..]), t, v, w)
      ensures FlatStored(old(mem[..]), mem[..], t, v, w)
    {
      StoreKeeps(mem[..], link, t, v, w);
      hide Linked, Listed, FlatStored;
      StoreWord(table, slot, w);
    }
  }
}
