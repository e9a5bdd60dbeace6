/** The image built by ialloc and iappend represents byte sequences, accounts for every
    block, and does not depend on how the appended bytes were cut up. */
module MkfsProof {
  import opened Common
  import opened Arith
  import opened MkfsSpec

  // ---- arithmetic of file blocks ------------------------------------------------------

  /** Adding n bytes, 0 < n, without leaving the current block. */
  lemma BlocksGrow(size: nat, n: nat)
    requires 0 < n && Mod(size, BSIZE) + n <= BSIZE
    ensures BlocksOf(size + n) == if Mod(size, BSIZE) == 0 then BlocksOf(size) + 1 else BlocksOf(size)
    ensures BlocksOf(size + n) == Div(size, BSIZE) + 1
  {
    if Mod(size, BSIZE) + n < BSIZE { DivSame(size, n, BSIZE); } else { DivNext(size, n, BSIZE); }
  }

  lemma InBlocks(j: nat, size: nat)
    requires j < size
    ensures Div(j, BSIZE) < BlocksOf(size)
  {
    DivMod(j, BSIZE);
    DivMod(size, BSIZE);
    if Div(size, BSIZE) < Div(j, BSIZE) { MulMonotone(Div(size, BSIZE), Div(j, BSIZE), BSIZE); }
  }

  // ---- locating a block ------------------------------------------------------------------

  ghost predicate Fits(w: Work) { WorkShape(w) && 0 < w.freeblock }

  /** What Locate did once it need not do again. */
  lemma LocateTwice(w: Work, fbn: nat)
    requires Fits(w) && Locate(w, fbn).Some?
    ensures var (w1, x) := Locate(w, fbn).value; Locate(w1, fbn) == Some((w1, x))
  {
    if fbn < MAXFILE && fbn >= NDIRECT {
      var w1 := LocateIndirect(w).value;
      var ia := w1.din.addrs[NDIRECT];
      if GetWord(w1.blocks[ia], fbn - NDIRECT) == 0 {
        PutGetWord(w1.blocks[ia], fbn - NDIRECT, w1.freeblock, fbn - NDIRECT);
      }
    }
  }

  /** Nor does writing data and changing the size make a difference, unless the data went
      into the indirect block. */
  lemma LocateAfterWrite(w: Work, fbn: nat, x: nat, o: nat, p: seq<byte>)
    requires WorkShape(w) && x < FSSIZE && o + |p| <= BSIZE
    requires Locate(w, fbn) == Some((w, x)) && (fbn >= NDIRECT ==> x != w.din.addrs[NDIRECT])
    ensures Locate(Write(w, x, o, p), fbn) == Some((Write(w, x, o, p), x))
  {
  }

  ghost predicate Apart(w: Work, fbn: nat)
    requires WorkShape(w)
  {
    var r := Locate(w, fbn);
    (r.Some? && fbn >= NDIRECT) ==> r.value.1 != r.value.0.din.addrs[NDIRECT]
  }

  lemma SpliceTwice(b: Block, o: nat, p: seq<byte>, q: seq<byte>)
    requires o + |p| + |q| <= BSIZE
    ensures Splice(Splice(b, o, p), o + |p|, q) == Splice(b, o, p + q)
  {
  }

  lemma WriteTwice(w: Work, x: nat, o: nat, p: seq<byte>, q: seq<byte>)
    requires WorkShape(w) && x < FSSIZE && o + |p| + |q| <= BSIZE
    ensures Write(Write(w, x, o, p), x, o + |p|, q) == Write(w, x, o, p + q)
  {
    SpliceTwice(w.blocks[x], o, p, q);
    assert Write(Write(w, x, o, p), x, o + |p|, q).blocks == Write(w, x, o, p + q).blocks;
  }

  /** Writing two pieces one after the other in a block is writing them at once. */
  lemma ChunkJoin(w: Work, p: seq<byte>, q: seq<byte>)
    requires Fits(w) && 0 < |q| && Mod(w.din.size, BSIZE) + |p| + |q| <= BSIZE
    requires Apart(w, Div(w.din.size, BSIZE))
    ensures var r := ChunkStep(w, p);
      && (r.Some? <==> ChunkStep(w, p + q).Some?)
      && (r.Some? ==> Mod(r.value.din.size, BSIZE) + |q| <= BSIZE && ChunkStep(w, p + q) == ChunkStep(r.value, q))
  {
    var fbn, o := Div(w.din.size, BSIZE), Mod(w.din.size, BSIZE);
    DivSame(w.din.size, |p|, BSIZE);
    if Locate(w, fbn).Some? {
      var (w1, x) := Locate(w, fbn).value;
      LocateTwice(w, fbn);
      LocateAfterWrite(w1, fbn, x, o, p);
      WriteTwice(w1, x, o, p, q);
    }
  }

  // ---- what Locate finds in a good image ---------------------------------------------------

  ghost predicate Ready(fs: Fs, own: map<nat, Slot>, i: nat) { Good(fs, own) && 1 <= i < fs.freeinode }

  /** Live, had inode i n blocks. */
  ghost predicate LiveIf(fs: Fs, i: nat, n: nat, s: Slot)
    requires Shape(fs)
  {
    if s.i == i then
      1 <= i < fs.freeinode && i < NI && match s case Ind(_) => n > NDIRECT case Data(_, k) => k < n && k < MAXFILE
    else Live(fs, s)
  }

  ghost predicate OwnedIf(fs: Fs, own: map<nat, Slot>, i: nat, n: nat)
    requires Shape(fs)
  {
    && (forall x :: x in own <==> nmeta <= x < fs.freeblock)
    && (forall x :: x in own ==> LiveIf(fs, i, n, own[x]) && Addr(fs, own[x]) == x)
    && (forall s :: LiveIf(fs, i, n, s) ==> Addr(fs, s) in own && own[Addr(fs, s)] == s)
  }

  ghost predicate UnusedIn(fs: Fs, i: nat, n: nat)
    requires Shape(fs) && i < NI
  {
    var addrs := fs.inodes[i].addrs;
    && (forall k {:trigger addrs[k]} :: n <= k < NDIRECT ==> addrs[k] == 0)
    && (n <= NDIRECT ==> addrs[NDIRECT] == 0)
    && (n > NDIRECT && addrs[NDIRECT] < FSSIZE ==>
          forall k {:trigger GetWord(fs.blocks[addrs[NDIRECT]], k)} :: n - NDIRECT <= k < NINDIRECT ==> GetWord(fs.blocks[addrs[NDIRECT]], k) == 0)
  }

  function NeedFor(n: nat): nat { n + (if n > NDIRECT then 1 else 0) }

  /** The image with block fbn of inode i in place at x, the size still to be raised. */
  ghost predicate Grown(fs: Fs, own: map<nat, Slot>, i: nat, w: Work, x: nat, own1: map<nat, Slot>)
    requires Shape(fs) && i < NI
  {
    var fbn := Div(fs.inodes[i].size, BSIZE);
    && WorkShape(w) && x < FSSIZE && fbn < MAXFILE
    && var fs1 := Close(fs, i, w);
    && w.din.size == fs.inodes[i].size
    && w.freeblock <= FSSIZE && w.freeblock == fs.freeblock + NeedFor(fbn + 1) - Need(fs.inodes[i].size)
    && OwnedIf(fs1, own1, i, fbn + 1) && x in own1 && own1[x] == Data(i, fbn)
    && (forall y :: y in own ==> y in own1 && own1[y] == own[y])
    && (forall y :: y in own && own[y].Data? ==> y < FSSIZE && w.blocks[y] == fs.blocks[y])
    && ZeroTail(fs1) && UnusedIn(fs1, i, fbn + 1)
    && (forall y :: y in own && own[y].Ind? && own[y].i != i ==> y < FSSIZE && w.blocks[y] == fs.blocks[y])
  }

  lemma LiveData(fs: Fs, own: map<nat, Slot>, i: nat, k: nat)
    requires Ready(fs, own, i) && k < BlocksOf(fs.inodes[i].size)
    ensures var x := Addr(fs, Data(i, k)); x in own && own[x] == Data(i, k) && nmeta <= x < fs.freeblock
    ensures k >= NDIRECT ==> var ia := fs.inodes[i].addrs[NDIRECT]; ia in own && own[ia] == Ind(i) && nmeta <= ia < fs.freeblock
  {
    assert Live(fs, Data(i, k));
    if k >= NDIRECT { assert Live(fs, Ind(i)); assert Addr(fs, Ind(i)) == fs.inodes[i].addrs[NDIRECT]; }
  }

  lemma GrowInside(fs: Fs, own: map<nat, Slot>, i: nat)
    requires Ready(fs, own, i) && Mod(fs.inodes[i].size, BSIZE) != 0
    ensures var w := Open(fs, i); var fbn := Div(fs.inodes[i].size, BSIZE); var x := Addr(fs, Data(i, fbn));
      Locate(w, fbn) == Some((w, x)) && Grown(fs, own, i, w, x, own)
  {
    var fbn := Div(fs.inodes[i].size, BSIZE);
    LiveData(fs, own, i, fbn);
    InsideLocates(fs, own, i);
    OwnedAsIs(fs, own, i);
    UnusedIns(fs);
    hide Locate, Owned, OwnedIf, Unused, UnusedIn, Addr;
    assert Close(fs, i, Open(fs, i)) == fs;
  }

  lemma OwnedAsIs(fs: Fs, own: map<nat, Slot>, i: nat)
    requires Shape(fs) && Owned(fs, own) && 1 <= i < fs.freeinode && i < NI
    ensures OwnedIf(fs, own, i, BlocksOf(fs.inodes[i].size))
  {
    hide Addr;
    assert forall s :: LiveIf(fs, i, BlocksOf(fs.inodes[i].size), s) <==> Live(fs, s);
  }

  lemma InsideLocates(fs: Fs, own: map<nat, Slot>, i: nat)
    requires Ready(fs, own, i) && Mod(fs.inodes[i].size, BSIZE) != 0
    ensures var fbn := Div(fs.inodes[i].size, BSIZE); Locate(Open(fs, i), fbn) == Some((Open(fs, i), Addr(fs, Data(i, fbn))))
  {
    LiveData(fs, own, i, Div(fs.inodes[i].size, BSIZE));
    hide Unused, ZeroTail, Accounted, Owned;
  }

  /** Owned carries over when old slots keep their addresses and the new ones get the
      new blocks. */
  lemma GrowOwned(fs: Fs, own: map<nat, Slot>, fs1: Fs, own1: map<nat, Slot>, i: nat, n: nat)
    requires Shape(fs) && Shape(fs1) && Owned(fs, own) && fs.freeblock <= fs1.freeblock
    requires forall s :: Live(fs, s) ==> LiveIf(fs1, i, n, s) && Addr(fs1, s) == Addr(fs, s)
    requires forall s :: LiveIf(fs1, i, n, s) && !Live(fs, s) ==> Addr(fs1, s) in own1 && own1[Addr(fs1, s)] == s
    requires forall y :: y in own1 <==> nmeta <= y < fs1.freeblock
    requires forall y :: y in own ==> y in own1 && own1[y] == own[y]
    requires forall y :: y in own1 && y !in own ==> LiveIf(fs1, i, n, own1[y]) && Addr(fs1, own1[y]) == y
    ensures OwnedIf(fs1, own1, i, n)
  {
  }

  /** The slots that one more block of inode i calls for. */
  ghost predicate NewSlot(i: nat, k: nat, s: Slot) { s == Data(i, k) || (k == NDIRECT && s == Ind(i)) }

  lemma LiveGrows(fs: Fs, fs1: Fs, i: nat, k: nat, s: Slot)
    requires Shape(fs) && Shape(fs1) && 1 <= i < fs.freeinode == fs1.freeinode && i < NI
    requires k == BlocksOf(fs.inodes[i].size) && k < MAXFILE
    requires forall r :: 0 <= r < NI && r != i ==> fs1.inodes[r].size == fs.inodes[r].size
    ensures LiveIf(fs1, i, k + 1, s) <==> Live(fs, s) || NewSlot(i, k, s)
    ensures NewSlot(i, k, s) ==> !Live(fs, s)
  {
  }

  /** One more data block for inode i in a direct entry. */
  ghost function DirectWork(fs: Fs, i: nat, k: nat): (w: Work)
    requires Shape(fs) && i < NI && k < NDIRECT
    ensures WorkShape(w)
  {
    var d := fs.inodes[i];
    Work(fs.blocks, fs.freeblock + 1, d.(addrs := d.addrs[k := fs.freeblock]))
  }

  lemma DirectAddrs(fs: Fs, i: nat, k: nat, s: Slot)
    requires Shape(fs) && i < NI && k < NDIRECT && s.i < NI
    ensures Addr(Close(fs, i, DirectWork(fs, i, k)), s) == if s == Data(i, k) then fs.freeblock else Addr(fs, s)
  {
  }

  lemma DirectOwned(fs: Fs, own: map<nat, Slot>, i: nat, k: nat)
    requires Shape(fs) && 1 <= i < fs.freeinode && i < NI && Owned(fs, own) && nmeta <= fs.freeblock
    requires k == BlocksOf(fs.inodes[i].size) && k < NDIRECT
    ensures OwnedIf(Close(fs, i, DirectWork(fs, i, k)), own[fs.freeblock := Data(i, k)], i, k + 1)
  {
    var fs1 := Close(fs, i, DirectWork(fs, i, k));
    forall s: Slot ensures LiveIf(fs1, i, k + 1, s) <==> Live(fs, s) || s == Data(i, k) { LiveGrows(fs, fs1, i, k, s); }
    forall s: Slot | LiveIf(fs1, i, k + 1, s) ensures Addr(fs1, s) == if s == Data(i, k) then fs.freeblock else Addr(fs, s) {
      DirectAddrs(fs, i, k, s);
    }
    LiveGrows(fs, fs1, i, k, Data(i, k));
    GrowOwned(fs, own, fs1, own[fs.freeblock := Data(i, k)], i, k + 1);
  }

  lemma DirectUnused(fs: Fs, i: nat, k: nat)
    requires Shape(fs) && 1 <= i < fs.freeinode && i < NI && Unused(fs) && ZeroTail(fs)
    requires k == BlocksOf(fs.inodes[i].size) && k < NDIRECT
    ensures var fs1 := Close(fs, i, DirectWork(fs, i, k)); UnusedIn(fs1, i, k + 1) && ZeroTail(fs1)
    ensures fs.inodes[i].addrs[k] == 0
  {
  }

  lemma GrowDirect(fs: Fs, own: map<nat, Slot>, i: nat)
    requires Ready(fs, own, i) && Mod(fs.inodes[i].size, BSIZE) == 0 && Div(fs.inodes[i].size, BSIZE) < NDIRECT
    ensures var k := Div(fs.inodes[i].size, BSIZE); var x := fs.freeblock; var r := Locate(Open(fs, i), k);
      if x >= FSSIZE then r.None?
      else r == Some((DirectWork(fs, i, k), x)) && Grown(fs, own, i, DirectWork(fs, i, k), x, own[x := Data(i, k)])
  {
    var k, x := Div(fs.inodes[i].size, BSIZE), fs.freeblock;
    DirectUnused(fs, i, k);
    if x < FSSIZE { DirectOwned(fs, own, i, k); }
  }

  /** The first indirect block and the first data block behind it. */
  ghost function FirstWork(fs: Fs, i: nat): (w: Work)
    requires Shape(fs) && i < NI && fs.freeblock < FSSIZE && 0 < NINDIRECT
    ensures WorkShape(w)
  {
    var d := fs.inodes[i];
    var x := fs.freeblock;
    Work(fs.blocks[x := PutWord(fs.blocks[x], 0, x + 1)], x + 2, d.(addrs := d.addrs[NDIRECT := x]))
  }

  lemma FirstAddrs(fs: Fs, i: nat, s: Slot)
    requires Shape(fs) && i < NI && fs.freeblock + 1 < FSSIZE && 0 < NINDIRECT && s.i < NI
    requires s.i != i ==> fs.inodes[s.i].addrs[NDIRECT] != fs.freeblock
    requires s.i == i ==> s == Ind(i) || s == Data(i, NDIRECT) || (s.Data? && s.k < NDIRECT)
    ensures Addr(Close(fs, i, FirstWork(fs, i)), s) == FirstAddr(fs, i, s)
  {
    PutGetWord(fs.blocks[fs.freeblock], 0, fs.freeblock + 1, 0);
  }

  ghost function FirstOwn(fs: Fs, own: map<nat, Slot>, i: nat): map<nat, Slot> {
    own[fs.freeblock := Ind(i)][fs.freeblock + 1 := Data(i, NDIRECT)]
  }

  /** A live slot does not go through a block yet to be allocated. */
  lemma OthersBelow(fs: Fs, own: map<nat, Slot>, s: Slot)
    requires Shape(fs) && Owned(fs, own) && Unused(fs) && nmeta <= fs.freeblock && Live(fs, s)
    ensures fs.inodes[s.i].addrs[NDIRECT] != fs.freeblock
  {
    if BlocksOf(fs.inodes[s.i].size) > NDIRECT {
      assert Live(fs, Ind(s.i));
      assert Addr(fs, Ind(s.i)) == fs.inodes[s.i].addrs[NDIRECT];
    }
  }

  lemma FirstOwned(fs: Fs, own: map<nat, Slot>, i: nat)
    requires Shape(fs) && 1 <= i < fs.freeinode && i < NI && Owned(fs, own) && Unused(fs) && nmeta <= fs.freeblock
    requires BlocksOf(fs.inodes[i].size) == NDIRECT && fs.freeblock + 1 < FSSIZE && 0 < NINDIRECT
    ensures OwnedIf(Close(fs, i, FirstWork(fs, i)), FirstOwn(fs, own, i), i, NDIRECT + 1)
  {
    var fs1 := Close(fs, i, FirstWork(fs, i));
    FirstSlots(fs, own, i);
    FirstDomain(fs, own, i);
    hide Live, LiveIf, Addr, Unused, NewSlot, BlocksOf, FirstWork, FirstOwn;
    GrowOwned(fs, own, fs1, FirstOwn(fs, own, i), i, NDIRECT + 1);
  }

  lemma FirstDomain(fs: Fs, own: map<nat, Slot>, i: nat)
    requires nmeta <= fs.freeblock && forall x :: x in own <==> nmeta <= x < fs.freeblock
    ensures var own1 := FirstOwn(fs, own, i);
      && (forall y :: y in own1 <==> nmeta <= y < fs.freeblock + 2)
      && (forall y :: y in own ==> y in own1 && own1[y] == own[y])
      && (forall y :: y in own1 && y !in own ==> NewSlot(i, NDIRECT, own1[y]) && y == FirstAddr0(fs, i, own1[y]))
      && own1[fs.freeblock] == Ind(i) && own1[fs.freeblock + 1] == Data(i, NDIRECT)
  {
  }

  ghost function FirstAddr0(fs: Fs, i: nat, s: Slot): nat { if s == Ind(i) then fs.freeblock else fs.freeblock + 1 }

  lemma FirstSlots(fs: Fs, own: map<nat, Slot>, i: nat)
    requires Shape(fs) && 1 <= i < fs.freeinode && i < NI && Owned(fs, own) && Unused(fs) && nmeta <= fs.freeblock
    requires BlocksOf(fs.inodes[i].size) == NDIRECT && fs.freeblock + 1 < FSSIZE && 0 < NINDIRECT
    ensures var fs1 := Close(fs, i, FirstWork(fs, i));
      && (forall s: Slot :: LiveIf(fs1, i, NDIRECT + 1, s) <==> Live(fs, s) || NewSlot(i, NDIRECT, s))
      && (forall s: Slot :: NewSlot(i, NDIRECT, s) ==> LiveIf(fs1, i, NDIRECT + 1, s) && !Live(fs, s) && Addr(fs1, s) == FirstAddr0(fs, i, s))
      && (forall s: Slot :: Live(fs, s) ==> Addr(fs1, s) == Addr(fs, s))
  {
    var fs1 := Close(fs, i, FirstWork(fs, i));
    forall s: Slot ensures LiveIf(fs1, i, NDIRECT + 1, s) <==> Live(fs, s) || NewSlot(i, NDIRECT, s) { LiveGrows(fs, fs1, i, NDIRECT, s); }
    forall s: Slot | Live(fs, s) ensures Addr(fs1, s) == Addr(fs, s) { FirstSlot(fs, own, i, s); LiveGrows(fs, fs1, i, NDIRECT, s); }
    forall s: Slot | NewSlot(i, NDIRECT, s)
      ensures LiveIf(fs1, i, NDIRECT + 1, s) && !Live(fs, s) && Addr(fs1, s) == FirstAddr0(fs, i, s)
    {
      FirstSlot(fs, own, i, s);
      LiveGrows(fs, fs1, i, NDIRECT, s);
    }
  }

  ghost function FirstAddr(fs: Fs, i: nat, s: Slot): nat
    requires Shape(fs) && s.i < NI
  {
    if s == Ind(i) then fs.freeblock else if s == Data(i, NDIRECT) then fs.freeblock + 1 else Addr(fs, s)
  }

  lemma FirstSlot(fs: Fs, own: map<nat, Slot>, i: nat, s: Slot)
    requires Shape(fs) && 1 <= i < fs.freeinode && i < NI && Owned(fs, own) && Unused(fs) && nmeta <= fs.freeblock
    requires BlocksOf(fs.inodes[i].size) == NDIRECT && fs.freeblock + 1 < FSSIZE && 0 < NINDIRECT
    requires Live(fs, s) || NewSlot(i, NDIRECT, s)
    ensures Addr(Close(fs, i, FirstWork(fs, i)), s) == FirstAddr(fs, i, s)
  {
    if s.i != i { OthersBelow(fs, own, s); }
    FirstAddrs(fs, i, s);
  }

  lemma FirstUnused(fs: Fs, i: nat)
    requires Shape(fs) && 1 <= i < fs.freeinode && i < NI && Unused(fs) && ZeroTail(fs)
    requires BlocksOf(fs.inodes[i].size) == NDIRECT && fs.freeblock < FSSIZE && 0 < NINDIRECT
    ensures var fs1 := Close(fs, i, FirstWork(fs, i)); UnusedIn(fs1, i, NDIRECT + 1) && ZeroTail(fs1)
    ensures fs.inodes[i].addrs[NDIRECT] == 0 && GetWord(fs.blocks[fs.freeblock], 0) == 0
  {
    var b := fs.blocks[fs.freeblock];
    FirstWords(b, fs.freeblock + 1);
    hide GetWord, PutWord;
    var fs1 := Close(fs, i, FirstWork(fs, i));
    assert fs1.blocks[fs1.inodes[i].addrs[NDIRECT]] == PutWord(b, 0, fs.freeblock + 1);
  }

  lemma FirstWords(b: Block, v: nat)
    requires IsZero(b) && v < U32 && 0 < NINDIRECT
    ensures GetWord(b, 0) == 0 && forall k :: 0 < k < NINDIRECT ==> GetWord(PutWord(b, 0, v), k) == 0
  {
    forall k | 0 <= k < NINDIRECT ensures GetWord(b, k) == 0 && (k > 0 ==> GetWord(PutWord(b, 0, v), k) == 0) {
      ZeroWords(b, k);
      PutGetWord(b, 0, v, k);
    }
  }

  lemma FirstLocates(fs: Fs, i: nat)
    requires Shape(fs) && i < NI && 0 < NINDIRECT && fs.inodes[i].addrs[NDIRECT] == 0
    requires fs.freeblock < FSSIZE ==> GetWord(fs.blocks[fs.freeblock], 0) == 0
    ensures Locate(Open(fs, i), NDIRECT) ==
            if fs.freeblock + 1 >= FSSIZE then None else Some((FirstWork(fs, i), fs.freeblock + 1))
  {
  }

  lemma FirstKeeps(fs: Fs, own: map<nat, Slot>, i: nat)
    requires Shape(fs) && i < NI && fs.freeblock < FSSIZE && 0 < NINDIRECT && nmeta <= fs.freeblock
    requires forall x :: x in own <==> nmeta <= x < fs.freeblock
    ensures forall y :: y in own ==> y in FirstOwn(fs, own, i) && FirstOwn(fs, own, i)[y] == own[y]
    ensures forall y :: y in own ==> y < FSSIZE && FirstWork(fs, i).blocks[y] == fs.blocks[y]
  {
  }

  lemma GrowFirst(fs: Fs, own: map<nat, Slot>, i: nat)
    requires Ready(fs, own, i) && Mod(fs.inodes[i].size, BSIZE) == 0 && Div(fs.inodes[i].size, BSIZE) == NDIRECT
    ensures 0 < NINDIRECT
    ensures var x := fs.freeblock; var r := Locate(Open(fs, i), NDIRECT);
      if x + 1 >= FSSIZE then r.None?
      else r == Some((FirstWork(fs, i), x + 1)) && Grown(fs, own, i, FirstWork(fs, i), x + 1, FirstOwn(fs, own, i))
  {
    if fs.freeblock < FSSIZE { FirstUnused(fs, i); }
    FullInode(fs, i);
    FirstLocates(fs, i);
    if fs.freeblock + 1 < FSSIZE {
      FirstOwned(fs, own, i);
      FirstKeeps(fs, own, i);
      FirstGrown(fs, own, i);
    }
  }

  lemma FirstGrown(fs: Fs, own: map<nat, Slot>, i: nat)
    requires Shape(fs) && i < NI && fs.freeblock + 1 < FSSIZE && 0 < NINDIRECT
    requires Mod(fs.inodes[i].size, BSIZE) == 0 && Div(fs.inodes[i].size, BSIZE) == NDIRECT
    requires var fs1 := Close(fs, i, FirstWork(fs, i));
      OwnedIf(fs1, FirstOwn(fs, own, i), i, NDIRECT + 1) && UnusedIn(fs1, i, NDIRECT + 1) && ZeroTail(fs1)
    requires forall y :: y in own ==> y in FirstOwn(fs, own, i) && FirstOwn(fs, own, i)[y] == own[y]
    requires forall y :: y in own ==> y < FSSIZE && FirstWork(fs, i).blocks[y] == fs.blocks[y]
    ensures Grown(fs, own, i, FirstWork(fs, i), fs.freeblock + 1, FirstOwn(fs, own, i))
  {
  }

  lemma FullInode(fs: Fs, i: nat)
    requires Shape(fs) && Unused(fs) && 1 <= i < fs.freeinode && i < NI && BlocksOf(fs.inodes[i].size) <= NDIRECT
    ensures fs.inodes[i].addrs[NDIRECT] == 0
  {
  }

  /** One more data block for inode i behind its indirect block. */
  ghost function MoreWork(fs: Fs, i: nat, k: nat): (w: Work)
    requires Shape(fs) && i < NI && NDIRECT <= k < MAXFILE && fs.inodes[i].addrs[NDIRECT] < FSSIZE
    ensures WorkShape(w)
  {
    var ia := fs.inodes[i].addrs[NDIRECT];
    Work(fs.blocks[ia := PutWord(fs.blocks[ia], k - NDIRECT, fs.freeblock)], fs.freeblock + 1, fs.inodes[i])
  }

  lemma MoreAddrs(fs: Fs, i: nat, k: nat, s: Slot)
    requires Shape(fs) && i < NI && NDIRECT <= k < MAXFILE && fs.inodes[i].addrs[NDIRECT] < FSSIZE && fs.freeblock < FSSIZE && s.i < NI
    requires s.i != i ==> fs.inodes[s.i].addrs[NDIRECT] != fs.inodes[i].addrs[NDIRECT]
    ensures Addr(Close(fs, i, MoreWork(fs, i, k)), s) == if s == Data(i, k) then fs.freeblock else Addr(fs, s)
  {
    var ia := fs.inodes[i].addrs[NDIRECT];
    if s.Data? && NDIRECT <= s.k < MAXFILE {
      PutGetWord(fs.blocks[ia], k - NDIRECT, fs.freeblock, s.k - NDIRECT);
    }
  }

  lemma OthersIndirect(fs: Fs, own: map<nat, Slot>, i: nat, s: Slot)
    requires Shape(fs) && Owned(fs, own) && Unused(fs) && 0 < nmeta
    requires Live(fs, Ind(i)) && Live(fs, s) && s.i != i
    ensures fs.inodes[s.i].addrs[NDIRECT] != fs.inodes[i].addrs[NDIRECT]
  {
    assert Addr(fs, Ind(i)) == fs.inodes[i].addrs[NDIRECT];
    if BlocksOf(fs.inodes[s.i].size) > NDIRECT {
      assert Live(fs, Ind(s.i));
      assert Addr(fs, Ind(s.i)) == fs.inodes[s.i].addrs[NDIRECT];
    }
  }

  lemma MoreOwned(fs: Fs, own: map<nat, Slot>, i: nat, k: nat)
    requires Shape(fs) && 1 <= i < fs.freeinode && i < NI && Owned(fs, own) && Unused(fs) && nmeta <= fs.freeblock < FSSIZE
    requires k == BlocksOf(fs.inodes[i].size) && NDIRECT < k < MAXFILE && fs.inodes[i].addrs[NDIRECT] < FSSIZE
    ensures OwnedIf(Close(fs, i, MoreWork(fs, i, k)), own[fs.freeblock := Data(i, k)], i, k + 1)
  {
    var fs1 := Close(fs, i, MoreWork(fs, i, k));
    forall s: Slot ensures LiveIf(fs1, i, k + 1, s) <==> Live(fs, s) || s == Data(i, k) { LiveGrows(fs, fs1, i, k, s); }
    forall s: Slot | LiveIf(fs1, i, k + 1, s) ensures Addr(fs1, s) == if s == Data(i, k) then fs.freeblock else Addr(fs, s) {
      MoreSlot(fs, own, i, k, s);
    }
    LiveGrows(fs, fs1, i, k, Data(i, k));
    GrowOwned(fs, own, fs1, own[fs.freeblock := Data(i, k)], i, k + 1);
  }

  lemma MoreSlot(fs: Fs, own: map<nat, Slot>, i: nat, k: nat, s: Slot)
    requires Shape(fs) && 1 <= i < fs.freeinode && i < NI && Owned(fs, own) && Unused(fs) && nmeta <= fs.freeblock < FSSIZE
    requires k == BlocksOf(fs.inodes[i].size) && NDIRECT < k < MAXFILE && fs.inodes[i].addrs[NDIRECT] < FSSIZE
    requires Live(fs, s) || s == Data(i, k)
    ensures Addr(Close(fs, i, MoreWork(fs, i, k)), s) == if s == Data(i, k) then fs.freeblock else Addr(fs, s)
  {
    assert Live(fs, Ind(i));
    if s.i != i { OthersIndirect(fs, own, i, s); }
    MoreAddrs(fs, i, k, s);
  }

  lemma MoreUnused(fs: Fs, i: nat, k: nat)
    requires Shape(fs) && 1 <= i < fs.freeinode && i < NI && Unused(fs) && ZeroTail(fs) && fs.freeblock < FSSIZE
    requires k == BlocksOf(fs.inodes[i].size) && NDIRECT < k < MAXFILE && fs.inodes[i].addrs[NDIRECT] < fs.freeblock
    ensures var fs1 := Close(fs, i, MoreWork(fs, i, k)); UnusedIn(fs1, i, k + 1) && ZeroTail(fs1)
    ensures GetWord(fs.blocks[fs.inodes[i].addrs[NDIRECT]], k - NDIRECT) == 0
  {
    var b := fs.blocks[fs.inodes[i].addrs[NDIRECT]];
    var b1 := PutWord(b, k - NDIRECT, fs.freeblock);
    forall j | k + 1 - NDIRECT <= j < NINDIRECT ensures GetWord(b1, j) == 0 {
      PutGetWord(b, k - NDIRECT, fs.freeblock, j);
      assert GetWord(b, j) == 0;
    }
    assert GetWord(b, k - NDIRECT) == 0;
  }

  lemma GrowMore(fs: Fs, own: map<nat, Slot>, i: nat)
    requires Ready(fs, own, i) && Mod(fs.inodes[i].size, BSIZE) == 0 && NDIRECT < Div(fs.inodes[i].size, BSIZE) < MAXFILE
    ensures fs.inodes[i].addrs[NDIRECT] < FSSIZE
    ensures var k := Div(fs.inodes[i].size, BSIZE); var x := fs.freeblock; var r := Locate(Open(fs, i), k);
      if x >= FSSIZE then r.None?
      else r == Some((MoreWork(fs, i, k), x)) && Grown(fs, own, i, MoreWork(fs, i, k), x, own[x := Data(i, k)])
  {
    var k, x := Div(fs.inodes[i].size, BSIZE), fs.freeblock;
    IndirectOwned(fs, own, i);
    if x < FSSIZE { MoreUnused(fs, i, k); }
    MoreLocates(fs, i, k);
    if x < FSSIZE {
      MoreOwned(fs, own, i, k);
      MoreGrown(fs, own, i, k);
    }
  }

  lemma MoreLocates(fs: Fs, i: nat, k: nat)
    requires Shape(fs) && i < NI && NDIRECT < k < MAXFILE
    requires var ia := fs.inodes[i].addrs[NDIRECT]; 0 < ia < FSSIZE && GetWord(fs.blocks[ia], k - NDIRECT) == 0
    ensures Locate(Open(fs, i), k) == if fs.freeblock >= FSSIZE then None else Some((MoreWork(fs, i, k), fs.freeblock))
  {
  }

  lemma MoreGrown(fs: Fs, own: map<nat, Slot>, i: nat, k: nat)
    requires Shape(fs) && i < NI && NDIRECT < k < MAXFILE && fs.freeblock < FSSIZE
    requires Mod(fs.inodes[i].size, BSIZE) == 0 && Div(fs.inodes[i].size, BSIZE) == k
    requires var ia := fs.inodes[i].addrs[NDIRECT]; ia < FSSIZE && ia in own && own[ia] == Ind(i)
    requires forall y :: y in own ==> y < fs.freeblock
    requires var fs1 := Close(fs, i, MoreWork(fs, i, k));
      OwnedIf(fs1, own[fs.freeblock := Data(i, k)], i, k + 1) && UnusedIn(fs1, i, k + 1) && ZeroTail(fs1)
    ensures Grown(fs, own, i, MoreWork(fs, i, k), fs.freeblock, own[fs.freeblock := Data(i, k)])
  {
  }

  /** Locate under the invariant: it fails exactly when the file or the image is full, and
      otherwise leaves the image with the block in place. */
  ghost predicate Room(fs: Fs, i: nat)
    requires Shape(fs) && i < NI
  {
    var k := Div(fs.inodes[i].size, BSIZE);
    k < MAXFILE && fs.freeblock + NeedFor(k + 1) <= FSSIZE + Need(fs.inodes[i].size)
  }

  lemma RoomCases(fs: Fs, i: nat)
    requires Shape(fs) && Sized(fs) && i < NI
    ensures var k := Div(fs.inodes[i].size, BSIZE);
      Room(fs, i) <==>
        if Mod(fs.inodes[i].size, BSIZE) != 0 then true
        else if k == NDIRECT then k < MAXFILE && fs.freeblock + 1 < FSSIZE
        else k < MAXFILE && fs.freeblock < FSSIZE
  {
  }

  lemma Grows(fs: Fs, own: map<nat, Slot>, i: nat) returns (own1: map<nat, Slot>)
    requires Ready(fs, own, i)
    ensures var r := Locate(Open(fs, i), Div(fs.inodes[i].size, BSIZE));
      && (r.Some? <==> Room(fs, i))
      && (r.Some? ==> Grown(fs, own, i, r.value.0, r.value.1, own1))
  {
    var size := fs.inodes[i].size;
    var k := Div(size, BSIZE);
    own1 := own;
    RoomCases(fs, i);
    if Mod(size, BSIZE) != 0 {
      GrowInside(fs, own, i);
    } else if k < NDIRECT {
      GrowDirect(fs, own, i);
      own1 := own[fs.freeblock := Data(i, k)];
    } else if k == NDIRECT {
      GrowFirst(fs, own, i);
      own1 := FirstOwn(fs, own, i);
    } else if k < MAXFILE {
      GrowMore(fs, own, i);
      own1 := own[fs.freeblock := Data(i, k)];
    }
  }

  // ---- one chunk --------------------------------------------------------------------------------

  /** fs2 is fs1 with data written into block x of inode i, its size raised to n blocks. */
  ghost predicate Filled(fs1: Fs, fs2: Fs, i: nat, x: nat, n: nat)
    requires Shape(fs1)
  {
    && Shape(fs2) && i < NI && x < FSSIZE
    && fs2.blocks == fs1.blocks[x := fs2.blocks[x]] && fs2.freeblock == fs1.freeblock && fs2.freeinode == fs1.freeinode
    && fs2.inodes == fs1.inodes[i := fs1.inodes[i].(size := fs2.inodes[i].size)] && BlocksOf(fs2.inodes[i].size) == n
  }

  lemma FilledLive(fs1: Fs, fs2: Fs, i: nat, x: nat, n: nat, s: Slot)
    requires Shape(fs1) && Filled(fs1, fs2, i, x, n)
    ensures Live(fs2, s) <==> LiveIf(fs1, i, n, s)
  {
  }

  lemma FilledAddr(fs1: Fs, fs2: Fs, own: map<nat, Slot>, i: nat, x: nat, n: nat, s: Slot)
    requires Shape(fs1) && Filled(fs1, fs2, i, x, n) && OwnedIf(fs1, own, i, n) && x in own && own[x].Data?
    requires LiveIf(fs1, i, n, s)
    ensures Addr(fs2, s) == Addr(fs1, s)
  {
    if s.Data? && s.k >= NDIRECT {
      assert LiveIf(fs1, i, n, Ind(s.i));
      assert Addr(fs1, Ind(s.i)) == fs1.inodes[s.i].addrs[NDIRECT];
    }
  }

  lemma FilledOwned(fs1: Fs, fs2: Fs, own: map<nat, Slot>, i: nat, x: nat, n: nat)
    requires Shape(fs1) && Filled(fs1, fs2, i, x, n) && OwnedIf(fs1, own, i, n) && x in own && own[x].Data?
    ensures Owned(fs2, own)
  {
    forall s: Slot ensures Live(fs2, s) <==> LiveIf(fs1, i, n, s) { FilledLive(fs1, fs2, i, x, n, s); }
    forall s: Slot | LiveIf(fs1, i, n, s) ensures Addr(fs2, s) == Addr(fs1, s) { FilledAddr(fs1, fs2, own, i, x, n, s); }
  }

  /** The entries beyond the size of an inode, wherever its indirect block is kept as is. */
  lemma KeepUnused(a: Fs, b: Fs, r: nat, n: nat)
    requires Shape(a) && Shape(b) && r < NI && UnusedIn(a, r, n) && b.inodes[r].addrs == a.inodes[r].addrs
    requires n > NDIRECT && a.inodes[r].addrs[NDIRECT] < FSSIZE ==> b.blocks[a.inodes[r].addrs[NDIRECT]] == a.blocks[a.inodes[r].addrs[NDIRECT]]
    ensures UnusedIn(b, r, n)
  {
  }

  lemma UnusedIns(fs: Fs)
    requires Shape(fs)
    ensures Unused(fs) <==> forall r {:trigger fs.inodes[r]} :: 1 <= r < fs.freeinode && r < NI ==> UnusedIn(fs, r, BlocksOf(fs.inodes[r].size))
  {
  }

  lemma IndirectOwned(fs: Fs, own: map<nat, Slot>, r: nat)
    requires Shape(fs) && Owned(fs, own) && 1 <= r < fs.freeinode && r < NI && BlocksOf(fs.inodes[r].size) > NDIRECT
    ensures var ia := fs.inodes[r].addrs[NDIRECT]; ia in own && own[ia] == Ind(r)
  {
    assert Live(fs, Ind(r));
    assert Addr(fs, Ind(r)) == fs.inodes[r].addrs[NDIRECT];
  }

  lemma FilledUnused(fs: Fs, own: map<nat, Slot>, i: nat, w: Work, x: nat, own1: map<nat, Slot>, fs2: Fs)
    requires Ready(fs, own, i) && Grown(fs, own, i, w, x, own1)
    requires Filled(Close(fs, i, w), fs2, i, x, Div(fs.inodes[i].size, BSIZE) + 1)
    requires Owned(fs2, own1)
    ensures Unused(fs2)
  {
    var n := Div(fs.inodes[i].size, BSIZE) + 1;
    UnusedIns(fs);
    forall r | 1 <= r < fs2.freeinode && r < NI ensures UnusedIn(fs2, r, BlocksOf(fs2.inodes[r].size)) {
      if r == i {
        if n > NDIRECT { IndirectOwned(fs2, own1, i); }
        KeepUnused(Close(fs, i, w), fs2, i, n);
      } else {
        FilledOthers(fs, own, i, w, x, own1, fs2, r);
      }
    }
    UnusedIns(fs2);
  }

  lemma FilledOthers(fs: Fs, own: map<nat, Slot>, i: nat, w: Work, x: nat, own1: map<nat, Slot>, fs2: Fs, r: nat)
    requires Shape(fs) && Owned(fs, own) && i < NI && Grown(fs, own, i, w, x, own1)
    requires Filled(Close(fs, i, w), fs2, i, x, Div(fs.inodes[i].size, BSIZE) + 1)
    requires 1 <= r < fs.freeinode && r < NI && r != i && UnusedIn(fs, r, BlocksOf(fs.inodes[r].size))
    ensures UnusedIn(fs2, r, BlocksOf(fs2.inodes[r].size))
  {
    assert fs2.inodes[r] == fs.inodes[r];
    if BlocksOf(fs.inodes[r].size) > NDIRECT { IndirectOwned(fs, own, r); }
    KeepUnused(fs, fs2, r, BlocksOf(fs.inodes[r].size));
  }

  lemma {:induction false} TotalOf(a: seq<Dinode>, b: seq<Dinode>, i: nat, n: nat)
    requires |a| == |b| && i < |a| && n <= |a| && forall r :: 0 <= r < |a| && r != i ==> b[r].size == a[r].size
    ensures Total(b, n) == Total(a, n) + (if 1 <= i < n then Need(b[i].size) - Need(a[i].size) else 0)
    decreases n
  {
    if n > 1 { TotalOf(a, b, i, n - 1); }
  }

  lemma FilledAccounts(fs: Fs, own: map<nat, Slot>, i: nat, w: Work, x: nat, own1: map<nat, Slot>, fs2: Fs)
    requires Ready(fs, own, i) && Grown(fs, own, i, w, x, own1)
    requires Filled(Close(fs, i, w), fs2, i, x, Div(fs.inodes[i].size, BSIZE) + 1)
    ensures Accounted(fs2) && Sized(fs2) && ZeroTail(fs2)
  {
    TotalOf(fs.inodes, fs2.inodes, i, fs.freeinode);
  }

  /** The n bytes at the end of inode i, the only inode that changed. */
  ghost predicate Extended(fs: Fs, fs2: Fs, i: nat, c: seq<byte>)
    requires Shape(fs) && i < NI
  {
    && Shape(fs2) && fs2.freeinode == fs.freeinode
    && Content(fs2, i) == Content(fs, i) + c
    && forall r :: 1 <= r < fs.freeinode && r < NI && r != i ==> Content(fs2, r) == Content(fs, r)
  }

  ghost predicate KeepsHead(a: Block, b: Block, n: nat) { forall o :: 0 <= o < n && o < BSIZE ==> b[o] == a[o] }

  /** Bytes already there stay: their blocks keep their addresses, and only block x is
      written, from the end of inode i on. */
  lemma OldBytes(fs: Fs, own: map<nat, Slot>, i: nat, w: Work, x: nat, own1: map<nat, Slot>, fs2: Fs, r: nat, j: nat)
    requires Ready(fs, own, i) && Grown(fs, own, i, w, x, own1)
    requires Filled(Close(fs, i, w), fs2, i, x, Div(fs.inodes[i].size, BSIZE) + 1) && Owned(fs2, own1)
    requires KeepsHead(w.blocks[x], fs2.blocks[x], Mod(fs.inodes[i].size, BSIZE))
    requires 1 <= r < fs.freeinode && r < NI && j < fs.inodes[r].size
    ensures ByteAt(fs2, r, j) == ByteAt(fs, r, j)
  {
    InBlocks(j, fs.inodes[r].size);
    LiveData(fs, own, r, Div(j, BSIZE));
    OldAddr(fs, own, i, w, x, own1, fs2, Data(r, Div(j, BSIZE)));
    OldBlock(fs, own, i, w, x, own1, Data(r, Div(j, BSIZE)));
    SameByte(fs, fs2, i, w, x, r, j);
  }

  lemma OldBlock(fs: Fs, own: map<nat, Slot>, i: nat, w: Work, x: nat, own1: map<nat, Slot>, s: Slot)
    requires Shape(fs) && i < NI && Grown(fs, own, i, w, x, own1)
    requires s.i < NI && s.Data? && Addr(fs, s) in own && own[Addr(fs, s)] == s
    ensures var y := Addr(fs, s); y < FSSIZE && w.blocks[y] == fs.blocks[y] && (y == x ==> s == Data(i, Div(fs.inodes[i].size, BSIZE)))
  {
  }

  lemma SameByte(fs: Fs, fs2: Fs, i: nat, w: Work, x: nat, r: nat, j: nat)
    requires Shape(fs) && Shape(fs2) && WorkShape(w) && i < NI && r < NI && x < FSSIZE && j < fs.inodes[r].size
    requires fs2.blocks == w.blocks[x := fs2.blocks[x]] && KeepsHead(w.blocks[x], fs2.blocks[x], Mod(fs.inodes[i].size, BSIZE))
    requires var y := Addr(fs, Data(r, Div(j, BSIZE)));
      && Addr(fs2, Data(r, Div(j, BSIZE))) == y
      && y < FSSIZE && w.blocks[y] == fs.blocks[y] && (y == x ==> r == i && Div(j, BSIZE) == Div(fs.inodes[i].size, BSIZE))
    ensures ByteAt(fs2, r, j) == ByteAt(fs, r, j)
  {
    if Addr(fs, Data(r, Div(j, BSIZE))) == x { InLastBlock(j, fs.inodes[i].size); }
  }

  lemma OldAddr(fs: Fs, own: map<nat, Slot>, i: nat, w: Work, x: nat, own1: map<nat, Slot>, fs2: Fs, s: Slot)
    requires Ready(fs, own, i) && Grown(fs, own, i, w, x, own1)
    requires Filled(Close(fs, i, w), fs2, i, x, Div(fs.inodes[i].size, BSIZE) + 1) && Owned(fs2, own1)
    requires Live(fs, s) && Addr(fs, s) in own && own[Addr(fs, s)] == s
    ensures Addr(fs2, s) == Addr(fs, s)
  {
    var y := Addr(fs, s);
    assert y in own1 && own1[y] == s;
    assert Addr(fs2, own1[y]) == y;
  }

  lemma InLastBlock(j: nat, size: nat)
    requires j < size && Div(j, BSIZE) == Div(size, BSIZE)
    ensures Mod(j, BSIZE) < Mod(size, BSIZE)
  {
    DivMod(j, BSIZE);
    DivMod(size, BSIZE);
  }

  /** The bytes just written are read back. */
  lemma NewBytes(fs2: Fs, own1: map<nat, Slot>, i: nat, x: nat, size: nat, c: seq<byte>, t: nat)
    requires Shape(fs2) && Owned(fs2, own1) && i < NI && x in own1 && x < FSSIZE && own1[x] == Data(i, Div(size, BSIZE))
    requires t < |c| && Mod(size, BSIZE) + |c| <= BSIZE
    requires forall o {:trigger fs2.blocks[x][o]} :: Mod(size, BSIZE) <= o < Mod(size, BSIZE) + |c| ==> fs2.blocks[x][o] == c[o - Mod(size, BSIZE)]
    ensures ByteAt(fs2, i, size + t) == c[t]
  {
    DivSame(size, t, BSIZE);
    assert Addr(fs2, own1[x]) == x;
  }

  /** One chunk: the invariant again, the chunk at the end of the file, all other files as
      they were; and it is refused exactly when the file or the image is full. */
  lemma ChunkGood(fs: Fs, own: map<nat, Slot>, i: nat, c: seq<byte>) returns (own1: map<nat, Slot>)
    requires Ready(fs, own, i) && 0 < |c| && Mod(fs.inodes[i].size, BSIZE) + |c| <= BSIZE
    ensures var r := ChunkStep(Open(fs, i), c);
      && (r.Some? <==> Room(fs, i))
      && (r.Some? ==> Good(Close(fs, i, r.value), own1) && Extended(fs, Close(fs, i, r.value), i, c))
  {
    own1 := Grows(fs, own, i);
    var r := Locate(Open(fs, i), Div(fs.inodes[i].size, BSIZE));
    if r.Some? {
      var (w, x) := r.value;
      var fs2 := Close(fs, i, Write(w, x, Mod(fs.inodes[i].size, BSIZE), c));
      ChunkKeeps(fs, own, i, w, x, own1, c, fs2);
      ChunkExtends(fs, own, i, w, x, own1, c, fs2);
    }
  }

  /** Grown, and chunk c then written. */
  ghost predicate Wrote(fs: Fs, own: map<nat, Slot>, i: nat, w: Work, x: nat, own1: map<nat, Slot>, c: seq<byte>, fs2: Fs) {
    && Ready(fs, own, i) && 0 < |c| && Mod(fs.inodes[i].size, BSIZE) + |c| <= BSIZE && Grown(fs, own, i, w, x, own1)
    && fs2 == Close(fs, i, Write(w, x, Mod(fs.inodes[i].size, BSIZE), c))
  }

  lemma WroteFilled(fs: Fs, own: map<nat, Slot>, i: nat, w: Work, x: nat, own1: map<nat, Slot>, c: seq<byte>, fs2: Fs)
    requires Wrote(fs, own, i, w, x, own1, c, fs2)
    ensures Filled(Close(fs, i, w), fs2, i, x, Div(fs.inodes[i].size, BSIZE) + 1) && Owned(fs2, own1)
    ensures x in own1 && own1[x] == Data(i, Div(fs.inodes[i].size, BSIZE))
    ensures fs2.blocks[x] == Splice(w.blocks[x], Mod(fs.inodes[i].size, BSIZE), c) && KeepsHead(w.blocks[x], fs2.blocks[x], Mod(fs.inodes[i].size, BSIZE))
  {
    hide Owned, OwnedIf, Unused, UnusedIn, ZeroTail, Accounted, Locate, KeepsHead;
    BlocksGrow(fs.inodes[i].size, |c|);
    WriteFills(fs, i, w, x, Mod(fs.inodes[i].size, BSIZE), c);
    FilledOwned(Close(fs, i, w), fs2, own1, i, x, Div(fs.inodes[i].size, BSIZE) + 1);
  }

  lemma WriteFills(fs: Fs, i: nat, w: Work, x: nat, o: nat, c: seq<byte>)
    requires Shape(fs) && i < NI && WorkShape(w) && x < FSSIZE && o + |c| <= BSIZE
    ensures var fs2 := Close(fs, i, Write(w, x, o, c));
      Filled(Close(fs, i, w), fs2, i, x, BlocksOf(w.din.size + |c|)) && fs2.blocks[x] == Splice(w.blocks[x], o, c) && KeepsHead(w.blocks[x], fs2.blocks[x], o)
  {
    var fs2 := Close(fs, i, Write(w, x, o, c));
    assert fs2.inodes[i] == w.din.(size := w.din.size + |c|);
    assert fs2.inodes == Close(fs, i, w).inodes[i := w.din.(size := fs2.inodes[i].size)];
    assert fs2.blocks == w.blocks[x := fs2.blocks[x]];
  }

  lemma ChunkKeeps(fs: Fs, own: map<nat, Slot>, i: nat, w: Work, x: nat, own1: map<nat, Slot>, c: seq<byte>, fs2: Fs)
    requires Wrote(fs, own, i, w, x, own1, c, fs2)
    ensures Good(fs2, own1)
  {
    WroteFilled(fs, own, i, w, x, own1, c, fs2);
    FilledUnused(fs, own, i, w, x, own1, fs2);
    FilledAccounts(fs, own, i, w, x, own1, fs2);
  }

  lemma OthersSame(fs: Fs, own: map<nat, Slot>, i: nat, w: Work, x: nat, own1: map<nat, Slot>, fs2: Fs, r: nat)
    requires Ready(fs, own, i) && Grown(fs, own, i, w, x, own1)
    requires Filled(Close(fs, i, w), fs2, i, x, Div(fs.inodes[i].size, BSIZE) + 1) && Owned(fs2, own1)
    requires KeepsHead(w.blocks[x], fs2.blocks[x], Mod(fs.inodes[i].size, BSIZE))
    requires 1 <= r < fs.freeinode && r < NI
    ensures SameBytes(fs, fs2, r)
  {
    forall j | 0 <= j < fs.inodes[r].size ensures ByteAt(fs2, r, j) == ByteAt(fs, r, j) { OldBytes(fs, own, i, w, x, own1, fs2, r, j); }
  }

  lemma SameContent(a: Fs, b: Fs, r: nat)
    requires Shape(a) && Shape(b) && r < NI && a.inodes[r].size == b.inodes[r].size
    requires SameBytes(a, b, r)
    ensures Content(b, r) == Content(a, r)
  {
  }

  lemma LongerContent(a: Fs, b: Fs, r: nat, c: seq<byte>)
    requires Shape(a) && Shape(b) && r < NI && b.inodes[r].size == a.inodes[r].size + |c|
    requires SameBytes(a, b, r)
    requires ReadsBack(b, r, a.inodes[r].size, c)
    ensures Content(b, r) == Content(a, r) + c
  {
    var size := a.inodes[r].size;
    forall j | 0 <= j < size + |c| ensures Content(b, r)[j] == (Content(a, r) + c)[j] {
      if j >= size { assert ByteAt(b, r, size + (j - size)) == c[j - size]; }
    }
  }

  ghost predicate ReadsBack(fs: Fs, i: nat, at: nat, c: seq<byte>)
    requires Shape(fs) && i < NI
  {
    forall t :: 0 <= t < |c| ==> ByteAt(fs, i, at + t) == c[t]
  }

  lemma AllNewBytes(fs2: Fs, own1: map<nat, Slot>, i: nat, x: nat, size: nat, c: seq<byte>, b: Block)
    requires Shape(fs2) && Owned(fs2, own1) && i < NI && x in own1 && x < FSSIZE && own1[x] == Data(i, Div(size, BSIZE))
    requires Mod(size, BSIZE) + |c| <= BSIZE && fs2.blocks[x] == Splice(b, Mod(size, BSIZE), c)
    ensures ReadsBack(fs2, i, size, c)
  {
    forall t | 0 <= t < |c| ensures ByteAt(fs2, i, size + t) == c[t] { NewBytes(fs2, own1, i, x, size, c, t); }
  }

  ghost predicate Lengthened(fs: Fs, fs2: Fs, i: nat, c: seq<byte>)
    requires Shape(fs) && i < NI
  {
    && Shape(fs2) && fs2.freeinode == fs.freeinode
    && (forall r :: 0 <= r < NI ==> fs2.inodes[r].size == fs.inodes[r].size + if r == i then |c| else 0)
    && (forall r :: 1 <= r < fs.freeinode && r < NI ==> SameBytes(fs, fs2, r))
    && ReadsBack(fs2, i, fs.inodes[i].size, c)
  }

  ghost predicate SameBytes(fs: Fs, fs2: Fs, r: nat)
    requires Shape(fs) && Shape(fs2) && r < NI
  {
    forall j :: 0 <= j < fs.inodes[r].size ==> ByteAt(fs2, r, j) == ByteAt(fs, r, j)
  }

  lemma LengthenedExtends(fs: Fs, fs2: Fs, i: nat, c: seq<byte>)
    requires Shape(fs) && 1 <= i < fs.freeinode && i < NI && Lengthened(fs, fs2, i, c)
    ensures Extended(fs, fs2, i, c)
  {
    forall r | 1 <= r < fs.freeinode && r < NI && r != i ensures Content(fs2, r) == Content(fs, r) { SameContent(fs, fs2, r); }
    assert SameBytes(fs, fs2, i);
    LongerContent(fs, fs2, i, c);
  }

  lemma ChunkExtends(fs: Fs, own: map<nat, Slot>, i: nat, w: Work, x: nat, own1: map<nat, Slot>, c: seq<byte>, fs2: Fs)
    requires Wrote(fs, own, i, w, x, own1, c, fs2)
    ensures Extended(fs, fs2, i, c)
  {
    ChunkOthers(fs, own, i, w, x, own1, c, fs2);
    ChunkBytes(fs, own, i, w, x, own1, c, fs2);
    LengthenedExtends(fs, fs2, i, c);
  }

  lemma WroteKept(fs: Fs, own: map<nat, Slot>, i: nat, w: Work, x: nat, own1: map<nat, Slot>, c: seq<byte>, fs2: Fs, r: nat)
    requires Wrote(fs, own, i, w, x, own1, c, fs2) && 1 <= r < fs.freeinode && r < NI
    ensures Shape(fs2) && SameBytes(fs, fs2, r)
  {
    WroteFilled(fs, own, i, w, x, own1, c, fs2);
    OthersSame(fs, own, i, w, x, own1, fs2, r);
  }

  lemma ChunkOthers(fs: Fs, own: map<nat, Slot>, i: nat, w: Work, x: nat, own1: map<nat, Slot>, c: seq<byte>, fs2: Fs)
    requires Wrote(fs, own, i, w, x, own1, c, fs2)
    ensures Shape(fs2) && forall r :: 1 <= r < fs.freeinode && r < NI ==> SameBytes(fs, fs2, r)
  {
    forall r | 1 <= r < fs.freeinode && r < NI ensures SameBytes(fs, fs2, r) { WroteKept(fs, own, i, w, x, own1, c, fs2, r); }
  }

  lemma WroteOwned(fs: Fs, own: map<nat, Slot>, i: nat, w: Work, x: nat, own1: map<nat, Slot>, c: seq<byte>, fs2: Fs)
    requires Wrote(fs, own, i, w, x, own1, c, fs2)
    ensures Shape(fs2) && Owned(fs2, own1) && x < FSSIZE && x in own1 && own1[x] == Data(i, Div(fs.inodes[i].size, BSIZE))
    ensures |w.blocks| == FSSIZE && fs2.blocks[x] == Splice(w.blocks[x], Mod(fs.inodes[i].size, BSIZE), c)
  {
    WroteFilled(fs, own, i, w, x, own1, c, fs2);
  }

  lemma ChunkBytes(fs: Fs, own: map<nat, Slot>, i: nat, w: Work, x: nat, own1: map<nat, Slot>, c: seq<byte>, fs2: Fs)
    requires Wrote(fs, own, i, w, x, own1, c, fs2)
    ensures Shape(fs2) && ReadsBack(fs2, i, fs.inodes[i].size, c)
  {
    WroteOwned(fs, own, i, w, x, own1, c, fs2);
    AllNewBytes(fs2, own1, i, x, fs.inodes[i].size, c, w.blocks[x]);
  }

  // ---- iappend ------------------------------------------------------------------------------------

  /** iappend is one chunk and then iappend of the rest. */
  lemma IappendUnfolds(fs: Fs, i: nat, p: seq<byte>)
    requires Shape(fs) && i < NI && p != []
    ensures var n := ChunkSize(fs.inodes[i].size, |p|); var r := ChunkStep(Open(fs, i), p[..n]);
      Iappend(fs, i, p) == if r.None? then None else Iappend(Close(fs, i, r.value), i, p[n..])
  {
    var n := ChunkSize(fs.inodes[i].size, |p|);
    var r := ChunkStep(Open(fs, i), p[..n]);
    if r.Some? {
      var fs1 := Close(fs, i, r.value);
      assert Open(fs1, i) == r.value;
      var z := Chunks(r.value, p[n..]);
      if z.Some? { assert Close(fs1, i, z.value) == Close(fs, i, z.value); }
    }
  }

  /** iappend refines appending to a byte sequence: reading the file back through its
      direct and indirect blocks gives the old bytes and then the new ones, every other
      file is unchanged, and the invariant (with exact block accounting) holds again. */
  lemma {:induction false} IappendRefines(fs: Fs, own: map<nat, Slot>, i: nat, p: seq<byte>) returns (own1: map<nat, Slot>)
    requires Ready(fs, own, i) && Iappend(fs, i, p).Some?
    ensures Good(Iappend(fs, i, p).value, own1) && Extended(fs, Iappend(fs, i, p).value, i, p)
    decreases |p|
  {
    if p == [] {
      own1 := own;
      assert Close(fs, i, Open(fs, i)) == fs;
    } else {
      var n := ChunkSize(fs.inodes[i].size, |p|);
      IappendUnfolds(fs, i, p);
      own1 := ChunkGood(fs, own, i, p[..n]);
      var fs1 := Close(fs, i, ChunkStep(Open(fs, i), p[..n]).value);
      own1 := IappendRefines(fs1, own1, i, p[n..]);
      assert p == p[..n] + p[n..];
    }
  }

  /** The image after one piece, the inode written back. */
  ghost function AfterChunk(fs: Fs, i: nat, c: seq<byte>): (r: Option<Fs>)
    requires Shape(fs) && i < NI && Mod(fs.inodes[i].size, BSIZE) + |c| <= BSIZE
    ensures r.Some? ==> Shape(r.value)
  {
    match ChunkStep(Open(fs, i), c)
    case None => None
    case Some(w) => Some(Close(fs, i, w))
  }

  lemma FirstChunk(fs: Fs, own: map<nat, Slot>, i: nat, c: seq<byte>) returns (own1: map<nat, Slot>)
    requires Shape(fs) && i < NI && Ready(fs, own, i) && 0 < |c| && Mod(fs.inodes[i].size, BSIZE) + |c| <= BSIZE
    ensures match AfterChunk(fs, i, c)
      case None => !HasRoom(fs.inodes[i].size, fs.freeblock, |c|)
      case Some(fs1) =>
        && HasRoom(fs.inodes[i].size, fs.freeblock, |c|) && Ready(fs1, own1, i) && fs1.inodes[i].size == fs.inodes[i].size + |c|
        && fs1.freeblock == fs.freeblock + Need(fs1.inodes[i].size) - Need(fs.inodes[i].size)
  {
    hide Owned, Unused, ZeroTail, Extended, Room, HasRoom;
    own1 := ChunkGood(fs, own, i, c);
    RoomIs(fs, i, |c|);
    var r := ChunkStep(Open(fs, i), c);
    if r.Some? { ChunkAccounts(fs, own, Close(fs, i, r.value), own1, i); }
  }

  /** One piece off p: None where there is no room for it, or for all of p. */
  lemma FitsPiece(fs: Fs, own: map<nat, Slot>, i: nat, p: seq<byte>) returns (fs1: Option<Fs>, own1: map<nat, Slot>, rest: seq<byte>)
    requires Ready(fs, own, i) && p != []
    ensures |rest| < |p|
    ensures match fs1
      case None => Iappend(fs, i, p).None? && !HasRoom(fs.inodes[i].size, fs.freeblock, |p|)
      case Some(fs1) =>
        && Ready(fs1, own1, i) && Iappend(fs, i, p) == Iappend(fs1, i, rest)
        && (HasRoom(fs.inodes[i].size, fs.freeblock, |p|) <==> HasRoom(fs1.inodes[i].size, fs1.freeblock, |rest|))
  {
    assert Shape(fs) && i < NI;
    hide HasRoom, Ready, ChunkStep, Chunks, Iappend, Mod;
    var n := ChunkSize(fs.inodes[i].size, |p|);
    own1 := RoomAfter(fs, own, i, p[..n], |p|);
    IappendUnfolds(fs, i, p);
    rest := p[n..];
    fs1 := AfterChunk(fs, i, p[..n]);
  }

  /** iappend gets through exactly when the file stays within MAXFILE blocks and the image
      has the blocks it comes to need. */
  lemma {:induction false} IappendFits(fs: Fs, own: map<nat, Slot>, i: nat, p: seq<byte>)
    requires Ready(fs, own, i)
    ensures Iappend(fs, i, p).Some? <==> HasRoom(fs.inodes[i].size, fs.freeblock, |p|)
    decreases |p|
  {
    if p == [] {
      RoomForNone(fs, own, i);
      AppendNothing(fs, i);
    } else {
      var fs1, own1, rest := FitsPiece(fs, own, i, p);
      if fs1.Some? { IappendFits(fs1.value, own1, i, rest); }
    }
  }

  lemma RoomAfter(fs: Fs, own: map<nat, Slot>, i: nat, c: seq<byte>, m: nat) returns (own1: map<nat, Slot>)
    requires Shape(fs) && i < NI && Ready(fs, own, i) && 0 < |c| <= m && Mod(fs.inodes[i].size, BSIZE) + |c| <= BSIZE
    ensures match AfterChunk(fs, i, c)
      case None => !HasRoom(fs.inodes[i].size, fs.freeblock, m)
      case Some(fs1) =>
        Ready(fs1, own1, i) && (HasRoom(fs.inodes[i].size, fs.freeblock, m) <==> HasRoom(fs1.inodes[i].size, fs1.freeblock, m - |c|))
  {
    hide HasRoom, Ready, AfterChunk, Need, Mod;
    own1 := FirstChunk(fs, own, i, c);
    match AfterChunk(fs, i, c)
    case None => RoomNot(fs.inodes[i].size, fs.freeblock, |c|, m);
    case Some(fs1) => RoomRest(fs.inodes[i].size, fs.freeblock, |c|, m, fs1.inodes[i].size, fs1.freeblock);
  }

  lemma RoomNot(size: nat, freeblock: nat, n: nat, m: nat)
    requires n <= m && !HasRoom(size, freeblock, n)
    ensures !HasRoom(size, freeblock, m)
  {
    BlocksMonotone(size + n, size + m);
  }

  lemma RoomRest(size: nat, freeblock: nat, n: nat, m: nat, size1: nat, freeblock1: nat)
    requires n <= m && HasRoom(size, freeblock, n) && size1 == size + n && freeblock1 == freeblock + Need(size1) - Need(size)
    ensures HasRoom(size, freeblock, m) <==> HasRoom(size1, freeblock1, m - n)
  {
    assert size1 + (m - n) == size + m;
  }

  lemma AppendNothing(fs: Fs, i: nat)
    requires Shape(fs) && i < NI
    ensures Iappend(fs, i, []) == Some(fs)
  {
    assert Close(fs, i, Open(fs, i)) == fs;
  }

  lemma RoomForNone(fs: Fs, own: map<nat, Slot>, i: nat)
    requires Ready(fs, own, i)
    ensures HasRoom(fs.inodes[i].size, fs.freeblock, 0)
  {
  }

  predicate HasRoom(size: nat, freeblock: nat, n: nat) {
    BlocksOf(size + n) <= MAXFILE && freeblock + Need(size + n) <= FSSIZE + Need(size)
  }

  lemma RoomIs(fs: Fs, i: nat, n: nat)
    requires Shape(fs) && i < NI && 0 < n && Mod(fs.inodes[i].size, BSIZE) + n <= BSIZE
    ensures Room(fs, i) <==> HasRoom(fs.inodes[i].size, fs.freeblock, n)
  {
    BlocksGrow(fs.inodes[i].size, n);
  }

  lemma ChunkAccounts(fs: Fs, own: map<nat, Slot>, fs1: Fs, own1: map<nat, Slot>, i: nat)
    requires Ready(fs, own, i) && Good(fs1, own1) && fs1.freeinode == fs.freeinode
    requires forall r :: 0 <= r < NI && r != i ==> fs1.inodes[r] == fs.inodes[r]
    ensures fs1.freeblock == fs.freeblock + Need(fs1.inodes[i].size) - Need(fs.inodes[i].size)
  {
    TotalOf(fs.inodes, fs1.inodes, i, fs.freeinode);
  }

  lemma BlocksMonotone(a: nat, b: nat)
    requires a <= b
    ensures BlocksOf(a) <= BlocksOf(b) && Need(a) <= Need(b)
  {
    DivMod(a, BSIZE);
    DivMod(b, BSIZE);
    if Div(b, BSIZE) < Div(a, BSIZE) { MulMonotone(Div(b, BSIZE), Div(a, BSIZE), BSIZE); }
  }
}
