/** What mkfs builds, as a value: the decoded inode table and the blocks outside it.
    MkfsImage proves the code on raw bytes against these functions; MkfsProof shows that
    they represent byte sequences. */
module MkfsSpec {
  import opened Common
  import opened Arith

  /** The constants of param.h, fs.h and stat.h that mkfs.c is compiled with. */
  datatype Constants = Constants(ndirect: nat, ipb: nat, bsize: nat, fssize: nat, ninodes: nat, logsize: nat)

  /** What the assertions and the layout of mkfs.c ask of them. */
  predicate Consistent(g: Constants) {
    && 0 < g.ipb && g.bsize == Mul(g.ipb, 12 + 4 * (g.ndirect + 1)) // BSIZE % sizeof(struct dinode) == 0
    && g.bsize % 4 == 0 && 32 <= g.bsize                          // the superblock fits a block
    && Mul(g.ndirect + g.bsize / 4, g.bsize) < 0x1_0000_0000        // file sizes fit 32 bits
    && g.ninodes < 0x1_0000_0000
    && 2 + g.logsize + (Div(g.ninodes, g.ipb) + 1) + (Div(g.fssize, 8 * g.bsize) + 1) <= g.fssize < 0x1_0000_0000
  }

  /** The image is smaller than 4 GiB, so that sec * BSIZE in 32 bits is the place of every
      sector, and of the first one past the end, which is how a full image is noticed. */
  predicate Addressable(g: Constants) { Mul(g.fssize, g.bsize) < 0x1_0000_0000 }

  predicate Sensible(g: Constants) { Consistent(g) && Addressable(g) }

  type Geometry = g: Constants | Sensible(g) witness Constants(4, 1, 32, 4, 0, 0)
  const G: Geometry

  const NDIRECT: nat := G.ndirect
  const BSIZE: nat := G.bsize
  const NINDIRECT: nat := BSIZE / 4 // BSIZE / sizeof(uint)
  const MAXFILE: nat := NDIRECT + NINDIRECT
  const IPB: nat := G.ipb
  const DSIZE: nat := 12 + 4 * (NDIRECT + 1) // sizeof(struct dinode)
  const FSSIZE: nat := G.fssize

  const nbitmap: nat := Div(FSSIZE, 8 * BSIZE) + 1
  const ninodeblocks: nat := Div(G.ninodes, IPB) + 1
  const nlog: nat := G.logsize
  const nmeta: nat := 2 + nlog + ninodeblocks + nbitmap
  const inodestart: nat := 2 + nlog
  const bmapstart: nat := 2 + nlog + ninodeblocks
  const NI: nat := Mul(ninodeblocks, IPB) // inode slots in the table

  const U32 := 0x1_0000_0000

  type Block = b: seq<byte> | |b| == BSIZE ghost witness seq(BSIZE, _ => 0)

  ghost predicate IsZero(b: Block) { forall o :: 0 <= o < BSIZE ==> b[o] == 0 }

  datatype Dinode = Dinode(typ: nat, major: nat, minor: nat, nlink: nat, size: nat, addrs: seq<nat>)

  /** All of an inode but its size and addresses. */
  predicate SameHead(a: Dinode, b: Dinode) {
    b.typ == a.typ && b.major == a.major && b.minor == a.minor && b.nlink == a.nlink
  }

  datatype Fs = Fs(inodes: seq<Dinode>, blocks: seq<Block>, freeblock: nat, freeinode: nat)

  ghost predicate Shape(fs: Fs) {
    && |fs.inodes| == NI && |fs.blocks| == FSSIZE
    && forall i :: 0 <= i < NI ==> |fs.inodes[i].addrs| == NDIRECT + 1
  }

  // ---- uint arrays in a block, least significant byte first ----------------------------

  function LE32(v: nat): (b: seq<byte>)
    ensures |b| == 4
  {
    [v % 256, v / 256 % 256, v / 65536 % 256, v / 16777216 % 256]
  }

  function Dec32(b: seq<byte>): nat
    requires |b| == 4
  {
    b[0] as nat + 256 * b[1] as nat + 65536 * b[2] as nat + 16777216 * b[3] as nat
  }

  function Splice(b: Block, o: nat, c: seq<byte>): (r: Block)
    requires o + |c| <= BSIZE
  {
    b[..o] + c + b[o + |c|..]
  }

  lemma SpliceInside(b: Block, o: nat, c: seq<byte>)
    requires o + |c| <= BSIZE
    ensures Splice(b, o, c)[o..o + |c|] == c
  {
  }

  lemma SpliceOutside(b: Block, o: nat, c: seq<byte>, at: nat, n: nat)
    requires o + |c| <= BSIZE && at + n <= BSIZE && (at + n <= o || o + |c| <= at)
    ensures Splice(b, o, c)[at..at + n] == b[at..at + n]
  {
    if at + n <= o { assert Splice(b, o, c)[..o] == b[..o]; } else { assert Splice(b, o, c)[o + |c|..] == b[o + |c|..]; }
  }

  /** indirect[k] of a block read into a uint array. */
  function GetWord(b: Block, k: nat): nat
    requires k < NINDIRECT
  {
    Dec32(b[4 * k..4 * k + 4])
  }

  function PutWord(b: Block, k: nat, v: nat): (r: Block)
    requires k < NINDIRECT
  {
    Splice(b, 4 * k, LE32(v))
  }

  lemma Dec32Of(v: nat)
    requires v < U32
    ensures Dec32(LE32(v)) == v
  {
    var a, b, c := v / 256, v / 65536, v / 16777216;
    assert b == a / 256 && c == b / 256;
    assert v == 256 * a + v % 256 && a == 256 * b + a % 256 && b == 256 * c + b % 256;
  }

  lemma LE32Of(b: seq<byte>)
    requires |b| == 4
    ensures LE32(Dec32(b)) == b && Dec32(b) < U32
  {
    var v := Dec32(b);
    assert v / 256 == b[1] as nat + 256 * b[2] as nat + 65536 * b[3] as nat;
    assert v / 65536 == b[2] as nat + 256 * b[3] as nat;
    assert v / 16777216 == b[3];
  }

  lemma PutGetWord(b: Block, k: nat, v: nat, j: nat)
    requires k < NINDIRECT && j < NINDIRECT && v < U32
    ensures GetWord(PutWord(b, k, v), j) == if j == k then v else GetWord(b, j)
  {
    var r := PutWord(b, k, v);
    if j == k {
      assert r[4 * k..4 * k + 4] == LE32(v);
      Dec32Of(v);
    } else {
      assert r[4 * j..4 * j + 4] == b[4 * j..4 * j + 4];
    }
  }

  lemma ZeroWords(b: Block, k: nat)
    requires k < NINDIRECT && IsZero(b)
    ensures GetWord(b, k) == 0
  {
  }

  // ---- iappend ----------------------------------------------------------------------------

  /** iappend in progress: the image, freeblock, and the dinode in memory (its size is off). */
  datatype Work = Work(blocks: seq<Block>, freeblock: nat, din: Dinode)

  ghost predicate WorkShape(w: Work) { |w.blocks| == FSSIZE && |w.din.addrs| == NDIRECT + 1 }

  /** The block of file block fbn, allocating it, and the indirect block, where missing.
      None: the MAXFILE assertion, or a sector the image does not have. */
  ghost function Locate(w: Work, fbn: nat): (r: Option<(Work, nat)>)
    requires WorkShape(w)
    ensures r.Some? ==> WorkShape(r.value.0) && r.value.1 < FSSIZE && r.value.0.din.size == w.din.size
  {
    if fbn >= MAXFILE then None
    else if fbn < NDIRECT then
      if w.din.addrs[fbn] == 0 then
        if w.freeblock >= FSSIZE then None
        else Some((w.(freeblock := w.freeblock + 1, din := w.din.(addrs := w.din.addrs[fbn := w.freeblock])), w.freeblock))
      else if w.din.addrs[fbn] >= FSSIZE then None else Some((w, w.din.addrs[fbn]))
    else
      match LocateIndirect(w)
      case None => None
      case Some(w1) =>
        var ia := w1.din.addrs[NDIRECT];
        var x := GetWord(w1.blocks[ia], fbn - NDIRECT);
        if x == 0 then
          if w1.freeblock >= FSSIZE then None
          else Some((w1.(freeblock := w1.freeblock + 1,
                         blocks := w1.blocks[ia := PutWord(w1.blocks[ia], fbn - NDIRECT, w1.freeblock)]), w1.freeblock))
        else if x >= FSSIZE then None else Some((w1, x))
  }

  ghost function LocateIndirect(w: Work): (r: Option<Work>)
    requires WorkShape(w)
    ensures r.Some? ==> WorkShape(r.value) && r.value.din.addrs[NDIRECT] < FSSIZE && r.value.din.size == w.din.size
  {
    var ia := w.din.addrs[NDIRECT];
    if ia == 0 then
      if w.freeblock >= FSSIZE then None
      else Some(w.(freeblock := w.freeblock + 1, din := w.din.(addrs := w.din.addrs[NDIRECT := w.freeblock])))
    else if ia >= FSSIZE then None else Some(w)
  }

  /** rsect, bcopy, wsect, and off moved on. */
  ghost function Write(w: Work, x: nat, o: nat, chunk: seq<byte>): (r: Work)
    requires WorkShape(w) && x < FSSIZE && o + |chunk| <= BSIZE
    ensures WorkShape(r)
  {
    w.(blocks := w.blocks[x := Splice(w.blocks[x], o, chunk)], din := w.din.(size := w.din.size + |chunk|))
  }

  /** One round of iappend's loop: `chunk` stays within the block that off is in. */
  ghost function ChunkStep(w: Work, chunk: seq<byte>): (r: Option<Work>)
    requires WorkShape(w) && Mod(w.din.size, BSIZE) + |chunk| <= BSIZE
    ensures r.Some? ==> WorkShape(r.value) && r.value.din.size == w.din.size + |chunk|
  {
    match Locate(w, Div(w.din.size, BSIZE))
    case None => None
    case Some((w1, x)) => Some(Write(w1, x, Mod(w.din.size, BSIZE), chunk))
  }

  /** n1: what is left of p, or of the block. */
  function ChunkSize(size: nat, n: nat): (m: nat)
    ensures m <= n && Mod(size, BSIZE) + m <= BSIZE && (n > 0 ==> m > 0)
  {
    if n <= BSIZE - Mod(size, BSIZE) then n else BSIZE - Mod(size, BSIZE)
  }

  ghost function Chunks(w: Work, p: seq<byte>): (r: Option<Work>)
    requires WorkShape(w)
    ensures r.Some? ==> WorkShape(r.value)
    decreases |p|
  {
    if p == [] then Some(w) else
    var n := ChunkSize(w.din.size, |p|);
    match ChunkStep(w, p[..n])
    case None => None
    case Some(w1) => Chunks(w1, p[n..])
  }

  ghost function Open(fs: Fs, i: nat): (w: Work)
    requires Shape(fs) && i < NI
    ensures WorkShape(w)
  {
    Work(fs.blocks, fs.freeblock, fs.inodes[i])
  }

  ghost function Close(fs: Fs, i: nat, w: Work): (r: Fs)
    requires Shape(fs) && i < NI && WorkShape(w)
    ensures Shape(r)
  {
    fs.(inodes := fs.inodes[i := w.din], blocks := w.blocks, freeblock := w.freeblock)
  }

  /** iappend(i, p, |p|); None when it stops at an assertion or in die(). */
  ghost function Iappend(fs: Fs, i: nat, p: seq<byte>): (r: Option<Fs>)
    requires Shape(fs) && i < NI
    ensures r.Some? ==> Shape(r.value)
  {
    match Chunks(Open(fs, i), p)
    case None => None
    case Some(w) => Some(Close(fs, i, w))
  }

  /** The dinode that ialloc writes: no bytes, one link. */
  function Empty(typ: nat): (d: Dinode)
    ensures |d.addrs| == NDIRECT + 1
  {
    Dinode(typ, 0, 0, 1, 0, seq(NDIRECT + 1, _ => 0))
  }

  /** ialloc. */
  ghost function Ialloc(fs: Fs, typ: nat): (r: Fs)
    requires Shape(fs) && fs.freeinode < NI
    ensures Shape(r)
  {
    fs.(inodes := fs.inodes[fs.freeinode := Empty(typ)], freeinode := fs.freeinode + 1)
  }

  // ---- what an image means --------------------------------------------------------------

  /** Blocks a file of this size occupies: size / BSIZE rounded up. */
  function BlocksOf(size: nat): nat { Div(size, BSIZE) + (if Mod(size, BSIZE) == 0 then 0 else 1) }

  /** Data blocks and, past NDIRECT, the indirect block. */
  function Need(size: nat): nat { BlocksOf(size) + (if BlocksOf(size) > NDIRECT then 1 else 0) }

  datatype Slot = Ind(i: nat) | Data(i: nat, k: nat)

  /** The slots that the sizes of the allocated inodes call for. */
  ghost predicate Live(fs: Fs, s: Slot)
    requires Shape(fs)
  {
    && 1 <= s.i < fs.freeinode && s.i < NI
    && match s
       case Ind(i) => BlocksOf(fs.inodes[i].size) > NDIRECT
       case Data(i, k) => k < BlocksOf(fs.inodes[i].size) && k < MAXFILE
  }

  /** The block a slot refers to. */
  ghost function Addr(fs: Fs, s: Slot): nat
    requires Shape(fs) && s.i < NI
  {
    var addrs := fs.inodes[s.i].addrs;
    match s
    case Ind(i) => addrs[NDIRECT]
    case Data(i, k) =>
      if k < NDIRECT then addrs[k]
      else if addrs[NDIRECT] < FSSIZE && k < MAXFILE then GetWord(fs.blocks[addrs[NDIRECT]], k - NDIRECT)
      else 0
  }

  /** Byte j of a file, found the way a reader of the file system finds it. */
  ghost function ByteAt(fs: Fs, i: nat, j: nat): byte
    requires Shape(fs) && i < NI
  {
    var x := Addr(fs, Data(i, Div(j, BSIZE)));
    if x < FSSIZE then fs.blocks[x][Mod(j, BSIZE)] else 0
  }

  ghost function Content(fs: Fs, i: nat): (c: seq<byte>)
    requires Shape(fs) && i < NI
    ensures |c| == fs.inodes[i].size
  {
    seq(fs.inodes[i].size, j requires 0 <= j => ByteAt(fs, i, j))
  }

  /** Blocks needed by inodes 1 .. n-1. */
  ghost function Total(inodes: seq<Dinode>, n: nat): nat
    requires n <= |inodes|
  {
    if n <= 1 then 0 else Total(inodes, n - 1) + Need(inodes[n - 1].size)
  }

  // The invariant: own[x] is the slot block x is for.

  ghost predicate Sized(fs: Fs)
    requires Shape(fs)
  {
    && nmeta <= fs.freeblock <= FSSIZE && 1 <= fs.freeinode <= NI
    && forall i :: 0 <= i < NI ==> BlocksOf(fs.inodes[i].size) <= MAXFILE
  }

  ghost predicate ZeroTail(fs: Fs)
    requires Shape(fs)
  {
    forall x :: fs.freeblock <= x < FSSIZE ==> IsZero(fs.blocks[x])
  }

  ghost predicate Owned(fs: Fs, own: map<nat, Slot>)
    requires Shape(fs)
  {
    && (forall x :: x in own <==> nmeta <= x < fs.freeblock)
    && (forall x :: x in own ==> Live(fs, own[x]) && Addr(fs, own[x]) == x)
    && (forall s :: Live(fs, s) ==> Addr(fs, s) in own && own[Addr(fs, s)] == s)
  }

  /** Address entries beyond the size are zero. */
  ghost predicate Unused(fs: Fs)
    requires Shape(fs)
  {
    forall i {:trigger fs.inodes[i]} :: 1 <= i < fs.freeinode && i < NI ==>
      var d := fs.inodes[i];
      var nb := BlocksOf(d.size);
      && (forall k {:trigger d.addrs[k]} :: nb <= k < NDIRECT ==> d.addrs[k] == 0)
      && (nb <= NDIRECT ==> d.addrs[NDIRECT] == 0)
      && (nb > NDIRECT && d.addrs[NDIRECT] < FSSIZE ==>
            forall k {:trigger GetWord(fs.blocks[d.addrs[NDIRECT]], k)} :: nb - NDIRECT <= k < NINDIRECT ==> GetWord(fs.blocks[d.addrs[NDIRECT]], k) == 0)
  }

  ghost predicate Accounted(fs: Fs)
    requires Shape(fs)
  {
    fs.freeinode <= NI && fs.freeblock == nmeta + Total(fs.inodes, fs.freeinode)
  }

  ghost predicate Good(fs: Fs, own: map<nat, Slot>) {
    Shape(fs) && Sized(fs) && ZeroTail(fs) && Owned(fs, own) && Unused(fs) && Accounted(fs)
  }
}
