/** What ialloc and iappend leave alone: the metadata blocks, and all of an inode but its
    size and addresses. */
module MkfsKeeps {
  import opened Common
  import opened Arith
  import opened MkfsSpec
  import opened MkfsProof
  import opened MkfsTheorems

  /** The blocks before the data are as they were. */
  ghost predicate SameMeta(a: seq<Block>, b: seq<Block>) {
    |a| == |b| == FSSIZE && forall x :: 0 <= x < nmeta && x < FSSIZE ==> b[x] == a[x]
  }

  /** Nothing but inode i's size and addresses, and blocks beyond the metadata, changes. */
  ghost predicate OnlyFile(fs: Fs, fs1: Fs, i: nat)
    requires Shape(fs) && Shape(fs1) && i < NI
  {
    && SameMeta(fs.blocks, fs1.blocks) && fs1.freeinode == fs.freeinode && SameHead(fs.inodes[i], fs1.inodes[i])
    && forall r :: 0 <= r < NI && r != i ==> fs1.inodes[r] == fs.inodes[r]
  }

  lemma LocateKeeps(w: Work, fbn: nat)
    requires WorkShape(w) && Locate(w, fbn).Some?
    ensures var (w1, x) := Locate(w, fbn).value;
      && SameHead(w.din, w1.din)
      && forall y :: 0 <= y < FSSIZE && (fbn >= NDIRECT ==> y != w1.din.addrs[NDIRECT]) ==> w1.blocks[y] == w.blocks[y]
  {
  }

  lemma GrownBeyond(fs: Fs, own: map<nat, Slot>, i: nat, w: Work, x: nat, own1: map<nat, Slot>)
    requires Ready(fs, own, i) && i < NI && Grown(fs, own, i, w, x, own1)
    ensures nmeta <= x && (Div(fs.inodes[i].size, BSIZE) >= NDIRECT ==> nmeta <= w.din.addrs[NDIRECT])
  {
    var k := Div(fs.inodes[i].size, BSIZE);
    var fs1 := Close(fs, i, w);
    if k >= NDIRECT {
      assert LiveIf(fs1, i, k + 1, Ind(i));
      assert Addr(fs1, Ind(i)) == w.din.addrs[NDIRECT];
    }
  }

  lemma ChunkOnlyFile(fs: Fs, own: map<nat, Slot>, i: nat, c: seq<byte>)
    requires Ready(fs, own, i) && i < NI && Mod(fs.inodes[i].size, BSIZE) + |c| <= BSIZE && ChunkStep(Open(fs, i), c).Some?
    ensures OnlyFile(fs, Close(fs, i, ChunkStep(Open(fs, i), c).value), i)
  {
    var fbn := Div(fs.inodes[i].size, BSIZE);
    var own1 := Grows(fs, own, i);
    var (w, x) := Locate(Open(fs, i), fbn).value;
    LocateKeeps(Open(fs, i), fbn);
    GrownBeyond(fs, own, i, w, x, own1);
    hide Locate, Ready, Grown;
  }

  lemma OnlyFileOn(a: Fs, b: Fs, c: Fs, i: nat)
    requires Shape(a) && Shape(b) && Shape(c) && i < NI && OnlyFile(a, b, i) && OnlyFile(b, c, i)
    ensures OnlyFile(a, c, i)
  {
  }

  /** iappend changes a file's bytes and nothing else that an inode or the metadata says. */
  lemma {:induction false} IappendOnlyFile(fs: Fs, own: map<nat, Slot>, i: nat, p: seq<byte>)
    requires Ready(fs, own, i) && i < NI && Iappend(fs, i, p).Some?
    ensures OnlyFile(fs, Iappend(fs, i, p).value, i)
    decreases |p|
  {
    if p == [] {
      AppendNothing(fs, i);
    } else {
      var n := ChunkSize(fs.inodes[i].size, |p|);
      IappendUnfolds(fs, i, p);
      var own1 := ChunkGood(fs, own, i, p[..n]);
      ChunkOnlyFile(fs, own, i, p[..n]);
      hide ChunkStep, Good, Chunks, Iappend, OnlyFile, Extended, Room;
      var fs1 := Close(fs, i, ChunkStep(Open(fs, i), p[..n]).value);
      IappendOnlyFile(fs1, own1, i, p[n..]);
      OnlyFileOn(fs, fs1, Iappend(fs, i, p).value, i);
    }
  }

  /** The types asked for by the ialloc calls of a run, in order. */
  function Types(ops: seq<Op>): seq<nat>
    decreases |ops|
  {
    if ops == [] then [] else
    var types := Types(ops[..|ops| - 1]);
    if ops[|ops| - 1].Alloc? then types + [ops[|ops| - 1].typ] else types
  }

  /** Inode i is of type types[i - 1], with one link and no device numbers. */
  ghost predicate Typed(fs: Fs, types: seq<nat>)
    requires Shape(fs)
  {
    && fs.freeinode == |types| + 1 <= NI
    && forall i :: 1 <= i < fs.freeinode ==>
         fs.inodes[i].typ == types[i - 1] && fs.inodes[i].nlink == 1 && fs.inodes[i].major == 0 && fs.inodes[i].minor == 0
  }

  lemma StepTyped(fs: Fs, own: map<nat, Slot>, types: seq<nat>, op: Op)
    requires Good(fs, own) && Typed(fs, types) && Step(fs, op).Some?
    ensures SameMeta(fs.blocks, Step(fs, op).value.blocks)
    ensures Typed(Step(fs, op).value, if op.Alloc? then types + [op.typ] else types)
  {
    match op
    case Alloc(typ) => IallocRefines(fs, own, typ);
    case Append(i, data) => IappendOnlyFile(fs, own, i, data);
  }

  /** After any run every inode is of the type it was allocated for, with one link, and the
      metadata blocks are as they were at the start. */
  lemma {:induction false} RunTyped(fs: Fs, ops: seq<Op>)
    requires Blank(fs) && Run(fs, ops).Some?
    ensures SameMeta(fs.blocks, Run(fs, ops).value.blocks) && Typed(Run(fs, ops).value, Types(ops))
    decreases |ops|
  {
    if ops != [] {
      RunLast(fs, ops);
      var front := ops[..|ops| - 1];
      var own := RunRefines(fs, front);
      RunTyped(fs, front);
      hide Good, Step, Blank;
      StepTyped(Run(fs, front).value, own, Types(front), ops[|ops| - 1]);
    }
  }
}
