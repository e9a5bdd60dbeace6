/** What follows for whole runs of mkfs: how appended bytes were cut up does not matter, and
    after any sequence of ialloc and iappend every block is accounted for. */
module MkfsTheorems {
  import opened Common
  import opened Arith
  import opened MkfsSpec
  import opened MkfsProof

  // ---- chunking -------------------------------------------------------------------------

  ghost function Then(r: Option<Fs>, i: nat, q: seq<byte>): (s: Option<Fs>)
    requires (r.Some? ==> Shape(r.value)) && i < NI
  {
    if r.None? then None else Iappend(r.value, i, q)
  }

  lemma GrownApart(fs: Fs, own: map<nat, Slot>, i: nat)
    requires Ready(fs, own, i)
    ensures Apart(Open(fs, i), Div(fs.inodes[i].size, BSIZE))
  {
    var k := Div(fs.inodes[i].size, BSIZE);
    var own1 := Grows(fs, own, i);
    var r := Locate(Open(fs, i), k);
    if r.Some? && k >= NDIRECT {
      GrownIndirect(fs, own, i, r.value.0, r.value.1, own1);
    }
  }

  lemma GrownIndirect(fs: Fs, own: map<nat, Slot>, i: nat, w: Work, x: nat, own1: map<nat, Slot>)
    requires Shape(fs) && 1 <= i < fs.freeinode && i < NI && Grown(fs, own, i, w, x, own1) && Div(fs.inodes[i].size, BSIZE) >= NDIRECT
    ensures x != w.din.addrs[NDIRECT]
  {
    var fs1 := Close(fs, i, w);
    assert LiveIf(fs1, i, Div(fs.inodes[i].size, BSIZE) + 1, Ind(i));
    assert Addr(fs1, Ind(i)) == w.din.addrs[NDIRECT];
  }

  /** One chunk that is all of p. */
  lemma IappendOne(fs: Fs, i: nat, p: seq<byte>)
    requires Shape(fs) && i < NI && p != [] && Mod(fs.inodes[i].size, BSIZE) + |p| <= BSIZE
    ensures var r := ChunkStep(Open(fs, i), p); Iappend(fs, i, p) == if r.None? then None else Some(Close(fs, i, r.value))
  {
    assert p[..|p|] == p && p[|p|..] == [];
    IappendUnfolds(fs, i, p);
    var r := ChunkStep(Open(fs, i), p);
    if r.Some? { IappendNothing(Close(fs, i, r.value), i); }
  }

  /** p stops short of the end of a block, so that q goes on in it. */
  lemma JoinInside(fs: Fs, i: nat, p: seq<byte>, q: seq<byte>)
    requires Shape(fs) && 0 < fs.freeblock && i < NI && Apart(Open(fs, i), Div(fs.inodes[i].size, BSIZE))
    requires p != [] && q != [] && Mod(fs.inodes[i].size, BSIZE) + |p| < BSIZE
    ensures Iappend(fs, i, p + q) == Then(Iappend(fs, i, p), i, q)
  {
    hide Chunks, Apart;
    var w, size := Open(fs, i), fs.inodes[i].size;
    var t := ChunkSize(size + |p|, |q|);
    JoinSizes(size, p, q);
    IappendOne(fs, i, p);
    IappendUnfolds(fs, i, p + q);
    ChunkJoin(w, p, q[..t]);
    var r := ChunkStep(w, p);
    if r.Some? { JoinRest(fs, i, r.value, q, t); }
  }

  lemma JoinSizes(size: nat, p: seq<byte>, q: seq<byte>)
    requires Mod(size, BSIZE) + |p| < BSIZE
    ensures var t := ChunkSize(size + |p|, |q|);
      && t <= |q| && ChunkSize(size, |p + q|) == |p| + t && Mod(size, BSIZE) + |p| + t <= BSIZE
      && (p + q)[..|p| + t] == p + q[..t] && (p + q)[|p| + t..] == q[t..]
  {
    DivSame(size, |p|, BSIZE);
  }

  lemma JoinRest(fs: Fs, i: nat, w: Work, q: seq<byte>, t: nat)
    requires Shape(fs) && i < NI && WorkShape(w) && q != [] && t == ChunkSize(w.din.size, |q|)
    ensures var r := ChunkStep(w, q[..t]);
      Iappend(Close(fs, i, w), i, q) == if r.None? then None else Iappend(Close(fs, i, r.value), i, q[t..])
  {
    var fs1 := Close(fs, i, w);
    assert Open(fs1, i) == w;
    IappendUnfolds(fs1, i, q);
    var r := ChunkStep(w, q[..t]);
    if r.Some? { assert Close(fs1, i, r.value) == Close(fs, i, r.value); }
  }

  lemma IappendNothing(fs: Fs, i: nat)
    requires Shape(fs) && i < NI
    ensures Iappend(fs, i, []) == Some(fs)
  {
    assert Close(fs, i, Open(fs, i)) == fs;
  }

  /** Appending p and then q gives the image that appending both at once gives, block for
      block, or stops where that would; wherever p ends. */
  lemma {:induction false} ChunkingIrrelevant(fs: Fs, own: map<nat, Slot>, i: nat, p: seq<byte>, q: seq<byte>)
    requires Ready(fs, own, i)
    ensures Iappend(fs, i, p + q) == Then(Iappend(fs, i, p), i, q)
    decreases |p|
  {
    var size := fs.inodes[i].size;
    var n := ChunkSize(size, |p|);
    if p == [] {
      IappendNothing(fs, i);
      assert p + q == q;
    } else if q == [] {
      assert p + q == p;
      var r := Iappend(fs, i, p);
      if r.Some? { IappendNothing(r.value, i); }
    } else if Mod(size, BSIZE) + |p| < BSIZE {
      GrownApart(fs, own, i);
      JoinInside(fs, i, p, q);
    } else {
      assert ChunkSize(size, |p + q|) == n;
      assert (p + q)[..n] == p[..n] && (p + q)[n..] == p[n..] + q;
      IappendUnfolds(fs, i, p);
      IappendUnfolds(fs, i, p + q);
      var own1 := ChunkGood(fs, own, i, p[..n]);
      var r := ChunkStep(Open(fs, i), p[..n]);
      if r.Some? { ChunkingIrrelevant(Close(fs, i, r.value), own1, i, p[n..], q); }
    }
  }

  // ---- ialloc -----------------------------------------------------------------------------

  /** An inode number that had not been handed out, for an empty file with one link; no file
      changes. */
  lemma IallocRefines(fs: Fs, own: map<nat, Slot>, typ: nat)
    requires Good(fs, own) && fs.freeinode < NI
    ensures var fs1 := Ialloc(fs, typ); var i := fs.freeinode;
      && Good(fs1, own) && Content(fs1, i) == [] && fs1.inodes[i].typ == typ
      && fs1.inodes[i].nlink == 1 && fs1.inodes[i].major == 0 && fs1.inodes[i].minor == 0 && fs1.inodes[i].size == 0
      && (forall k :: 0 <= k <= NDIRECT ==> fs1.inodes[i].addrs[k] == 0)
      && forall r :: 1 <= r < fs.freeinode ==> Content(fs1, r) == Content(fs, r) && fs1.inodes[r] == fs.inodes[r]
  {
    var fs1 := Ialloc(fs, typ);
    NothingNeeded();
    IallocOwned(fs, own, typ);
    IallocUnused(fs, typ);
    IallocAccounts(fs, typ);
    forall r | 1 <= r < fs.freeinode ensures Content(fs1, r) == Content(fs, r) { IallocOthers(fs, typ, r); }
  }

  lemma NothingNeeded()
    ensures BlocksOf(0) == 0 && Need(0) == 0
  {
  }

  lemma IallocOthers(fs: Fs, typ: nat, r: nat)
    requires Shape(fs) && fs.freeinode < NI && r < fs.freeinode
    ensures Content(Ialloc(fs, typ), r) == Content(fs, r)
  {
    var fs1 := Ialloc(fs, typ);
    assert SameBytes(fs, fs1, r);
    SameContent(fs, fs1, r);
  }

  lemma IallocOwned(fs: Fs, own: map<nat, Slot>, typ: nat)
    requires Shape(fs) && fs.freeinode < NI && Owned(fs, own)
    ensures Owned(Ialloc(fs, typ), own)
  {
    var fs1 := Ialloc(fs, typ);
    forall s: Slot ensures Live(fs1, s) <==> Live(fs, s) { NothingNeeded(); }
    forall s: Slot | Live(fs, s) ensures Addr(fs1, s) == Addr(fs, s) { }
  }

  lemma IallocUnused(fs: Fs, typ: nat)
    requires Shape(fs) && fs.freeinode < NI && Unused(fs)
    ensures Unused(Ialloc(fs, typ))
  {
    var fs1 := Ialloc(fs, typ);
    UnusedIns(fs);
    forall r | 1 <= r < fs1.freeinode && r < NI ensures UnusedIn(fs1, r, BlocksOf(fs1.inodes[r].size)) {
      if r < fs.freeinode { KeepUnused(fs, fs1, r, BlocksOf(fs.inodes[r].size)); } else { NothingNeeded(); }
    }
    UnusedIns(fs1);
  }

  lemma IallocAccounts(fs: Fs, typ: nat)
    requires Shape(fs) && 1 <= fs.freeinode < NI && Accounted(fs)
    ensures Accounted(Ialloc(fs, typ))
  {
    NothingNeeded();
    TotalFirst(fs.inodes, Ialloc(fs, typ).inodes, fs.freeinode);
  }

  lemma {:induction false} TotalFirst(a: seq<Dinode>, b: seq<Dinode>, n: nat)
    requires n <= |a| && n <= |b| && forall r :: 0 <= r < n ==> b[r].size == a[r].size
    ensures Total(b, n) == Total(a, n)
    decreases n
  {
    if n > 1 { TotalFirst(a, b, n - 1); }
  }

  // ---- whole runs -------------------------------------------------------------------------

  datatype Op = Alloc(typ: nat) | Append(i: nat, data: seq<byte>)

  /** ialloc and iappend calls in order; None when one of them stops the program, or names an
      inode that was not allocated. */
  ghost function Step(fs: Fs, op: Op): (r: Option<Fs>)
    requires Shape(fs)
    ensures r.Some? ==> Shape(r.value)
  {
    match op
    case Alloc(typ) => if fs.freeinode < NI then Some(Ialloc(fs, typ)) else None
    case Append(i, data) => if 1 <= i < fs.freeinode && i < NI then Iappend(fs, i, data) else None
  }

  ghost function Run(fs: Fs, ops: seq<Op>): (r: Option<Fs>)
    requires Shape(fs)
    ensures r.Some? ==> Shape(r.value)
    decreases |ops|
  {
    if ops == [] then Some(fs) else
    match Step(fs, ops[0])
    case None => None
    case Some(fs1) => Run(fs1, ops[1..])
  }

  /** What main writes before the first ialloc: an all-zero image past the superblock. */
  ghost predicate Blank(fs: Fs) {
    && Shape(fs) && fs.freeblock == nmeta && fs.freeinode == 1
    && (forall i :: 0 <= i < NI ==> fs.inodes[i].size == 0)
    && (forall x :: nmeta <= x < FSSIZE ==> IsZero(fs.blocks[x]))
  }

  /** The files of a run, from the calls alone: file i is entry i - 1. */
  function Files(ops: seq<Op>): (files: seq<seq<byte>>)
    decreases |ops|
  {
    if ops == [] then [] else
    var files := Files(ops[..|ops| - 1]);
    match ops[|ops| - 1]
    case Alloc(_) => files + [[]]
    case Append(i, data) => if 1 <= i <= |files| then files[i - 1 := files[i - 1] + data] else files
  }

  lemma BlankGood(fs: Fs)
    requires Blank(fs)
    ensures Good(fs, map[]) && nmeta <= FSSIZE
  {
    NothingNeeded();
  }

  lemma {:induction false} RunLast(fs: Fs, ops: seq<Op>)
    requires Shape(fs) && ops != []
    ensures var r := Run(fs, ops[..|ops| - 1]);
      Run(fs, ops) == if r.None? then None else Step(r.value, ops[|ops| - 1])
    decreases |ops|
  {
    var r := Step(fs, ops[0]);
    if |ops| == 1 {
      assert ops[..0] == [] && ops[1..] == [];
    } else if r.Some? {
      var front := ops[..|ops| - 1];
      RunLast(r.value, ops[1..]);
      assert ops[1..][..|ops| - 2] == front[1..] && front[0] == ops[0];
    }
  }

  ghost predicate Holds(fs: Fs, files: seq<seq<byte>>)
    requires Shape(fs)
  {
    fs.freeinode == |files| + 1 && fs.freeinode <= NI && forall i :: 1 <= i < fs.freeinode ==> Content(fs, i) == files[i - 1]
  }

  lemma StepHolds(fs: Fs, own: map<nat, Slot>, files: seq<seq<byte>>, op: Op) returns (own1: map<nat, Slot>)
    requires Good(fs, own) && Holds(fs, files) && Step(fs, op).Some?
    ensures Good(Step(fs, op).value, own1)
    ensures Holds(Step(fs, op).value,
                  match op case Alloc(_) => files + [[]]
                           case Append(i, data) => if 1 <= i <= |files| then files[i - 1 := files[i - 1] + data] else files)
  {
    match op
    case Alloc(typ) =>
      own1 := own;
      IallocRefines(fs, own, typ);
    case Append(i, data) =>
      own1 := IappendRefines(fs, own, i, data);
  }

  lemma StepGood(fs: Fs, own: map<nat, Slot>, op: Op) returns (own1: map<nat, Slot>)
    requires Good(fs, own) && Step(fs, op).Some?
    ensures Good(Step(fs, op).value, own1)
  {
    match op
    case Alloc(typ) =>
      own1 := own;
      IallocRefines(fs, own, typ);
    case Append(i, data) =>
      own1 := IappendRefines(fs, own, i, data);
  }

  /** After any run each file holds what was appended to it, in order, and the invariant
      holds with some owner map. */
  lemma {:induction false} RunRefines(fs: Fs, ops: seq<Op>) returns (own: map<nat, Slot>)
    requires Blank(fs) && Run(fs, ops).Some?
    ensures Good(Run(fs, ops).value, own) && Holds(Run(fs, ops).value, Files(ops))
    decreases |ops|
  {
    if ops == [] {
      own := map[];
      BlankGood(fs);
    } else {
      RunLast(fs, ops);
      var front := ops[..|ops| - 1];
      own := RunRefines(fs, front);
      own := StepHolds(Run(fs, front).value, own, Files(front), ops[|ops| - 1]);
    }
  }

  /** Blocks that the files call for. */
  function FileBlocks(files: seq<seq<byte>>): nat {
    if files == [] then 0 else FileBlocks(files[..|files| - 1]) + Need(|files[|files| - 1]|)
  }

  lemma {:induction false} TotalIsBlocks(fs: Fs, files: seq<seq<byte>>, n: nat)
    requires Shape(fs) && Holds(fs, files) && n <= |files|
    ensures Total(fs.inodes, n + 1) == FileBlocks(files[..n])
    decreases n
  {
    if n > 0 {
      TotalIsBlocks(fs, files, n - 1);
      assert files[..n][..n - 1] == files[..n - 1];
      assert |Content(fs, n)| == |files[n - 1]|;
    }
  }

  ghost predicate Refers(fs: Fs, s: Slot, x: nat)
    requires Shape(fs)
  {
    Live(fs, s) && Addr(fs, s) == x
  }

  /** Block x belongs to some file. */
  ghost predicate Reached(fs: Fs, x: nat)
    requires Shape(fs)
  {
    exists s :: Refers(fs, s, x)
  }

  /** Exact accounting after any run: freeblock - nmeta is the blocks that the file lengths
      call for, and a block is below freeblock exactly when it is a metadata block or one a
      file reaches. */
  lemma RunAccounts(fs: Fs, ops: seq<Op>)
    requires Blank(fs) && Run(fs, ops).Some?
    ensures var fs1 := Run(fs, ops).value;
      && fs1.freeblock == nmeta + FileBlocks(Files(ops))
      && forall x :: 0 <= x < FSSIZE ==> (x < fs1.freeblock <==> x < nmeta || Reached(fs1, x))
  {
    var fs1 := Run(fs, ops).value;
    var own := RunRefines(fs, ops);
    var files := Files(ops);
    TotalIsBlocks(fs1, files, |files|);
    assert files[..|files|] == files;
    Reaches(fs1, own);
  }

  lemma Reaches(fs: Fs, own: map<nat, Slot>)
    requires Good(fs, own)
    ensures forall x :: 0 <= x < FSSIZE ==> (x < fs.freeblock <==> x < nmeta || Reached(fs, x))
  {
    forall x | 0 <= x < FSSIZE ensures x < fs.freeblock <==> x < nmeta || Reached(fs, x) {
      if nmeta <= x < fs.freeblock { assert Refers(fs, own[x], x); }
    }
  }

  // ---- the bitmap ---------------------------------------------------------------------------

  /** The image with a metadata block outside the inode table rewritten. */
  ghost function Rewritten(fs: Fs, m: nat, b: Block): (r: Fs)
    requires Shape(fs) && m < nmeta
    ensures Shape(r)
  {
    fs.(blocks := fs.blocks[m := b])
  }

  /** Files live beyond the metadata, so writing the bitmap changes none of them. */
  lemma RewrittenKeeps(fs: Fs, own: map<nat, Slot>, m: nat, b: Block)
    requires Good(fs, own) && m < nmeta
    ensures Good(Rewritten(fs, m, b), own)
    ensures forall i :: 1 <= i < fs.freeinode && i < NI ==> Content(Rewritten(fs, m, b), i) == Content(fs, i)
  {
    var fs1 := Rewritten(fs, m, b);
    forall s: Slot | Live(fs, s) ensures Addr(fs1, s) == Addr(fs, s) { RewrittenAddr(fs, own, m, b, s); }
    RewrittenOwned(fs, own, m, b);
    RewrittenUnused(fs, own, m, b);
    forall i | 1 <= i < fs.freeinode && i < NI ensures Content(fs1, i) == Content(fs, i) { RewrittenContent(fs, own, m, b, i); }
  }

  lemma RewrittenAddr(fs: Fs, own: map<nat, Slot>, m: nat, b: Block, s: Slot)
    requires Shape(fs) && Owned(fs, own) && m < nmeta && Live(fs, s)
    ensures Addr(Rewritten(fs, m, b), s) == Addr(fs, s) && nmeta <= Addr(fs, s)
  {
    if s.Data? && s.k >= NDIRECT { IndirectOwned(fs, own, s.i); }
  }

  lemma RewrittenOwned(fs: Fs, own: map<nat, Slot>, m: nat, b: Block)
    requires Shape(fs) && Owned(fs, own) && m < nmeta
    ensures Owned(Rewritten(fs, m, b), own)
  {
    var fs1 := Rewritten(fs, m, b);
    forall s: Slot ensures Live(fs1, s) <==> Live(fs, s) { }
    forall s: Slot | Live(fs, s) ensures Addr(fs1, s) == Addr(fs, s) { RewrittenAddr(fs, own, m, b, s); }
  }

  lemma RewrittenUnused(fs: Fs, own: map<nat, Slot>, m: nat, b: Block)
    requires Shape(fs) && Owned(fs, own) && Unused(fs) && m < nmeta
    ensures Unused(Rewritten(fs, m, b))
  {
    var fs1 := Rewritten(fs, m, b);
    UnusedIns(fs);
    forall r | 1 <= r < fs1.freeinode && r < NI ensures UnusedIn(fs1, r, BlocksOf(fs1.inodes[r].size)) {
      if BlocksOf(fs.inodes[r].size) > NDIRECT { IndirectOwned(fs, own, r); }
      KeepUnused(fs, fs1, r, BlocksOf(fs.inodes[r].size));
    }
    UnusedIns(fs1);
  }

  lemma RewrittenContent(fs: Fs, own: map<nat, Slot>, m: nat, b: Block, i: nat)
    requires Good(fs, own) && m < nmeta && 1 <= i < fs.freeinode && i < NI
    ensures Content(Rewritten(fs, m, b), i) == Content(fs, i)
  {
    var fs1 := Rewritten(fs, m, b);
    forall j | 0 <= j < fs.inodes[i].size ensures ByteAt(fs1, i, j) == ByteAt(fs, i, j) {
      InBlocks(j, fs.inodes[i].size);
      RewrittenAddr(fs, own, m, b, Data(i, Div(j, BSIZE)));
    }
    SameContent(fs, fs1, i);
  }
}
