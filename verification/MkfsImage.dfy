/** mkfs.c on the bytes of the image file: sectors read, changed and written back, the global
    counters, and the loops of iappend and balloc. */
module MkfsImage {
  import opened Common
  import opened Arith
  import opened MkfsSpec
  import opened MkfsProof
  import opened MkfsTheorems
  import opened MkfsLayout
  import opened MkfsPlaces
  import opened MkfsReader
  import opened MkfsKeeps
  import Bits

  /** The superblock after its magic number, which alone is stored in host order. */
  function SuperWords(): seq<nat> {
    [FSSIZE, FSSIZE - nmeta, G.ninodes, nlog, 2, inodestart, bmapstart]
  }

  function Super(h: Host, magic: nat): (b: Block) {
    Splice(Zeroes(), 0, Store(h, magic) + Words(SuperWords()))
  }

  /** The regions boot, superblock, log, inodes, bitmap and data follow one another and fill
      the image; the table has a slot for every inode and the bitmap a bit for every block. */
  lemma LayoutFits()
    ensures 2 + nlog == inodestart && inodestart + ninodeblocks == bmapstart && bmapstart + nbitmap == nmeta <= FSSIZE
    ensures G.ninodes < NI && FSSIZE < Mul(nbitmap, 8 * BSIZE)
    ensures forall i :: 0 <= i <= G.ninodes ==> InTable(IBlock(i))
  {
    DivMod(G.ninodes, IPB);
    DivMod(FSSIZE, 8 * BSIZE);
    forall i | 0 <= i <= G.ninodes ensures InTable(IBlock(i)) { InodePlace(i); }
  }

  lemma {:induction false} SuperWord(h: Host, magic: nat, k: nat)
    requires k < 7
    ensures Super(h, magic)[4 * (k + 1)..4 * (k + 1) + 4] == LE32(SuperWords()[k])
  {
    var b := Super(h, magic);
    WordsAt(SuperWords(), k);
    assert b[4..32] == Words(SuperWords());
    assert b[4 * (k + 1)..4 * (k + 1) + 4] == Words(SuperWords())[4 * k..4 * k + 4];
  }

  /** The superblock of the layout, as the kernel reads it from block 1. */
  predicate SuperIs(file: seq<byte>, h: Host, magic: nat) {
    && 2 * BSIZE <= |file| && 32 <= BSIZE
    && Load(h, file[BSIZE..BSIZE + 4]) == magic
    && WordAt(file, BSIZE + 4) == FSSIZE && WordAt(file, BSIZE + 8) == FSSIZE - nmeta && WordAt(file, BSIZE + 12) == G.ninodes
    && WordAt(file, BSIZE + 16) == nlog && WordAt(file, BSIZE + 20) == 2
    && WordAt(file, BSIZE + 24) == inodestart && WordAt(file, BSIZE + 28) == bmapstart
  }

  lemma SuperField(file: seq<byte>, h: Host, magic: nat, k: nat, v: nat)
    requires |file| == Mul(FSSIZE, BSIZE) && Sectors(file)[1] == Super(h, magic) && k < 7 && v == SuperWords()[k] && v < U32
    ensures 2 * BSIZE <= |file| && WordAt(file, BSIZE + 4 * (k + 1)) == v
  {
    BlockOne(file);
    SuperWord(h, magic, k);
    Dec32Of(v);
    hide Mul, Super, SuperWords, LE32, Dec32, WordAt;
    WordOf(file, BSIZE, Sectors(file)[1], 4 * (k + 1));
  }

  lemma BlockOne(file: seq<byte>)
    requires |file| == Mul(FSSIZE, BSIZE)
    ensures 2 * BSIZE <= |file| && Sectors(file)[1] == file[BSIZE..BSIZE + BSIZE]
  {
    ReadSector(1);
    assert Mul(1, BSIZE) == BSIZE;
  }

  lemma SuperMagic(file: seq<byte>, h: Host, magic: nat)
    requires |file| == Mul(FSSIZE, BSIZE) && Sectors(file)[1] == Super(h, magic) && magic < U32
    ensures 2 * BSIZE <= |file| && Load(h, file[BSIZE..BSIZE + 4]) == magic
  {
    BlockOne(file);
    var b := Super(h, magic);
    assert b[..4] == Store(h, magic);
    SliceSlice(file, BSIZE, b, 0, 4);
    StoreLoad(h, magic);
  }

  lemma StoreLoad(h: Host, v: nat)
    requires v < U32
    ensures Load(h, Store(h, v)) == v
  {
    Dec32Of(v);
    var b := LE32(v);
    assert [b[0], b[1], b[2], b[3]] == b;
  }

  /** Where block 1 is the one that mkfs writes, each field of the superblock read back is the
      start or the size it is named for. */
  lemma SuperReads(file: seq<byte>, h: Host, magic: nat)
    requires |file| == Mul(FSSIZE, BSIZE) && Sectors(file)[1] == Super(h, magic) && magic < U32
    ensures SuperIs(file, h, magic)
  {
    SuperMagic(file, h, magic);
    SuperField(file, h, magic, 0, FSSIZE);
    SuperField(file, h, magic, 1, FSSIZE - nmeta);
    SuperField(file, h, magic, 2, G.ninodes);
    SuperField(file, h, magic, 3, nlog);
    SuperField(file, h, magic, 4, 2);
    SuperField(file, h, magic, 5, inodestart);
    SuperField(file, h, magic, 6, bmapstart);
  }

  /** Bit x of the bitmap block. */
  ghost predicate BitSet(b: Block, x: nat)
    requires x < 8 * BSIZE
  {
    Bits.Bit(b[x / 8], x % 8)
  }

  /** Bit x of the bitmap in the image file. */
  predicate BitAt(file: seq<byte>, x: nat) {
    BlockStart(bmapstart) + x / 8 < |file| && file[BlockStart(bmapstart) + x / 8] / Bits.Pow2(x % 8) % 2 == 1
  }

  lemma BitmapByte(file: seq<byte>, x: nat)
    requires |file| == Mul(FSSIZE, BSIZE) && x < 8 * BSIZE
    ensures BitAt(file, x) <==> BitSet(Sectors(file)[bmapstart], x)
  {
    hide Mul, BlockStart;
    LayoutFits();
    BlockThere(file, bmapstart);
    Bits.BitIs(Sectors(file)[bmapstart][x / 8], x % 8);
  }

  lemma SetBit(was: byte, r: nat, k: nat)
    requires r < 8 && k < 8
    ensures Bits.Or(was, Bits.Pow2(r)) < 256
    ensures Bits.Bit(Bits.Or(was, Bits.Pow2(r)), k) <==> Bits.Bit(was, k) || k == r
  {
    assert Bits.Pow2(8) == 256;
    Bits.PowGrows(r, 8);
    Bits.OrBelow(was, Bits.Pow2(r), 8);
    Bits.OrBits(was, Bits.Pow2(r), k);
    Bits.PowBits(r, k);
  }

  /** off / BSIZE and what is left of the block, as the code computes them. */
  lemma BlockOf(off: nat)
    ensures var fbn := off / BSIZE;
      fbn == Div(off, BSIZE) && off - fbn * BSIZE == Mod(off, BSIZE) && (fbn + 1) * BSIZE - off == BSIZE - Mod(off, BSIZE)
  {
    DivModAre(off, BSIZE);
    assert (off / BSIZE + 1) * BSIZE == off / BSIZE * BSIZE + BSIZE;
  }

  /** Addresses and sizes of allocated inodes fit their fields. */
  lemma GoodFits(fs: Fs, own: map<nat, Slot>, i: nat)
    requires Ready(fs, own, i)
    ensures fs.inodes[i].size < U32 && forall k :: 0 <= k <= NDIRECT ==> fs.inodes[i].addrs[k] < U32
  {
    SizeFits(fs.inodes[i].size);
    forall k | 0 <= k < NDIRECT ensures fs.inodes[i].addrs[k] < U32 {
      if k < BlocksOf(fs.inodes[i].size) { LiveData(fs, own, i, k); assert Addr(fs, Data(i, k)) == fs.inodes[i].addrs[k]; }
    }
    if BlocksOf(fs.inodes[i].size) > NDIRECT { IndirectOwned(fs, own, i); }
  }

  lemma SizeFits(size: nat)
    requires BlocksOf(size) <= MAXFILE
    ensures size < U32
  {
    DivMod(size, BSIZE);
    if Div(size, BSIZE) < MAXFILE { MulMonotone(Div(size, BSIZE), MAXFILE, BSIZE); }
  }

  /** No address in use points into the inode table. */
  predicate OffTable(a: nat) { !InTable(a) }

  lemma IndirectOff(fs: Fs, own: map<nat, Slot>, i: nat)
    requires Ready(fs, own, i)
    ensures OffTable(fs.inodes[i].addrs[NDIRECT])
  {
    if BlocksOf(fs.inodes[i].size) > NDIRECT { IndirectOwned(fs, own, i); }
  }

  lemma StillFits(fs: Fs, own: map<nat, Slot>, i: nat, w: Work, d: Dinode)
    requires Shape(fs) && i < NI && WorkShape(w) && Ready(Close(fs, i, w), own, i) && Fitting(d) && SameHead(d, w.din)
    ensures Fitting(w.din)
  {
    GoodFits(Close(fs, i, w), own, i);
  }

  lemma AppendDone(fs: Fs, i: nat, w: Work, p: seq<byte>)
    requires Shape(fs) && i < NI && WorkShape(w) && Chunks(Open(fs, i), p) == Chunks(w, [])
    ensures MkfsSpec.Iappend(fs, i, p) == Some(Close(fs, i, w))
  {
  }

  /** min(n, (fbn + 1) * BSIZE - off). */
  method NextPiece(off: nat, n: nat) returns (n1: nat)
    ensures n1 == ChunkSize(off, n)
  {
    BlockOf(off);
    var fbn := off / BSIZE;
    n1 := if n < (fbn + 1) * BSIZE - off then n else (fbn + 1) * BSIZE - off;
  }

  /** The addresses that iappend finds for file block fbn are of sectors of the image, or of
      the one past it. */
  ghost predicate Stored(w: Work, fbn: nat)
    requires WorkShape(w)
  {
    if fbn < NDIRECT then w.din.addrs[fbn] <= FSSIZE else
    var ia := if w.din.addrs[NDIRECT] == 0 then w.freeblock else w.din.addrs[NDIRECT];
    ia <= FSSIZE && (ia < FSSIZE && fbn < MAXFILE ==> GetWord(w.blocks[ia], fbn - NDIRECT) <= FSSIZE)
  }

  lemma ReadyStored(fs: Fs, own: map<nat, Slot>, i: nat)
    requires Ready(fs, own, i)
    ensures Stored(Open(fs, i), Div(fs.inodes[i].size, BSIZE))
  {
    var fbn := Div(fs.inodes[i].size, BSIZE);
    if Mod(fs.inodes[i].size, BSIZE) != 0 {
      LiveData(fs, own, i, fbn);
    } else if NDIRECT < fbn {
      IndirectOwned(fs, own, i);
    } else if NDIRECT == fbn && fs.freeblock < FSSIZE && fbn < MAXFILE {
      ZeroWords(fs.blocks[fs.freeblock], 0);
    }
  }

  /** IBLOCK(inum, sb), and where in that block the inode starts. */
  method InodeSpot(h: Host, inum: nat) returns (bn: nat, at: nat)
    ensures bn == InodeSector(h, inum) && at == IOffset(inum) && at + DSIZE <= BSIZE
  {
    hide Xint;
    DivModAre(inum, IPB);
    MulIsTimes(inum % IPB, DSIZE);
    MulMonotone(Mod(inum, IPB), IPB, DSIZE);
    bn := (inum / IPB + Xint(h, inodestart)) % U32;
    at := (inum % IPB) * DSIZE;
  }

  class Image {
    /** Byte order of the machine mkfs runs on. */
    const h: Host
    /** The file fs.img. */
    var file: seq<byte>
    var freeblock: nat
    var freeinode: nat

    /** The file has its full length. */
    ghost predicate Valid()
      reads this
    {
      |file| == Mul(FSSIZE, BSIZE)
    }

    ghost function Disk(): (img: seq<Block>)
      reads this
      requires Valid()
      ensures |img| == FSSIZE
    {
      Sectors(file)
    }

    ghost function Abs(): (fs: Fs)
      reads this
      requires Valid()
      ensures Shape(fs)
    {
      Means(file, freeblock, freeinode)
    }

    /** The work in progress on an inode, its dinode in memory. */
    ghost function Here(d: Dinode): (w: Work)
      reads this
      requires Valid() && |d.addrs| == NDIRECT + 1
      ensures WorkShape(w)
    {
      Work(Blocks(Disk()), freeblock, d)
    }

    /** main up to the first ialloc. */
    constructor (h: Host, magic: nat)
      requires magic < U32
      ensures this.h == h && Valid() && Blank(Abs()) && SuperIs(file, h, magic)
      ensures forall x :: 0 <= x < FSSIZE && x != 1 ==> IsZero(Disk()[x])
    {
      this.h := h;
      file := [];
      freeblock := nmeta;
      freeinode := 1;
      new;
      var i := 0;
      while i < FSSIZE
        invariant i <= FSSIZE && |file| == Mul(i, BSIZE) && freeblock == nmeta && freeinode == 1
        invariant forall o :: 0 <= o < |file| ==> file[o] == 0
      {
        ReadSector(i);
        Wsect(i, Zeroes());
        i := i + 1;
      }
      ghost var zeroed := file;
      hide Blank, SuperIs, Means, IsZero, Sectors, WriteAt, Seek, Mul, Super, Zeroes;
      Wsect(1, Super(h, magic));
      FirstImage(zeroed, file, h, magic);
    }

    /** lseek and write. */
    method Wsect(sec: nat, buf: Block)
      requires sec < U32
      modifies this`file
      ensures file == WriteAt(old(file), Seek(BSIZE, sec), buf)
      ensures old(Valid()) && sec < FSSIZE ==> Valid() && Disk() == old(Disk())[sec := buf]
    {
      if Valid() && sec < FSSIZE { WriteSector(file, sec, buf); }
      MulIsTimes(sec, BSIZE);
      var at := sec * BSIZE % U32;
      if at > |file| { file := file + seq(at - |file|, _ => 0); }
      file := file[..at] + buf + if at + BSIZE <= |file| then file[at + BSIZE..] else [];
    }

    /** ok is false where the read comes up short and the program dies. */
    method Rsect(sec: nat) returns (ok: bool, buf: Block)
      requires sec < U32
      ensures ok <==> Seek(BSIZE, sec) + BSIZE <= |file|
      ensures ok ==> buf == file[Seek(BSIZE, sec)..Seek(BSIZE, sec) + BSIZE]
      ensures Valid() && sec <= FSSIZE ==> (ok <==> sec < FSSIZE) && (ok ==> buf == Disk()[sec])
    {
      if sec <= FSSIZE { ReadSector(sec); }
      MulIsTimes(sec, BSIZE);
      var at := sec * BSIZE % U32;
      ok := at + BSIZE <= |file|;
      buf := if ok then file[at..at + BSIZE] else Zeroes();
    }

    method Rinode(inum: nat) returns (ok: bool, d: Dinode)
      requires inum < U32
      ensures |d.addrs| == NDIRECT + 1 && (ok <==> InodeAt(h, inum) + BSIZE <= |file|)
      ensures ok ==>
        && IOffset(inum) + DSIZE <= BSIZE && Fitting(d)
        && d == Decode(file[InodeAt(h, inum) + IOffset(inum)..InodeAt(h, inum) + IOffset(inum) + DSIZE])
      ensures Valid() && WellPlaced(h) && inum < NI ==> ok && d == Abs().inodes[inum]
    {
      hide Xint, Decode, Means, Sectors, Seek, InodeSector, IOffset, Fitting, Mul, Div, Mod;
      var bn, at := InodeSpot(h, inum);
      var buf;
      ok, buf := Rsect(bn);
      if ok { SliceSlice(file, InodeAt(h, inum), buf, at, DSIZE); }
      DecodeFits(buf[at..at + DSIZE]);
      d := Decode(buf[at..at + DSIZE]);
      if Valid() && WellPlaced(h) && inum < NI { InodeRead(file, h, inum, freeblock, freeinode); }
    }

    method Winode(inum: nat, d: Dinode) returns (ok: bool)
      requires inum < U32 && Fitting(d)
      modifies this`file
      ensures ok <==> InodeAt(h, inum) + BSIZE <= |old(file)|
      ensures file == if ok then WriteAt(old(file), InodeAt(h, inum) + IOffset(inum), Encode(d)) else old(file)
      ensures old(Valid()) && WellPlaced(h) && inum < NI ==>
        ok && Valid() && Abs() == old(Abs()).(inodes := old(Abs()).inodes[inum := d])
    {
      hide Xint, Encode, Means, Sectors, Seek, InodeSector, IOffset, WriteAt, Mul, Div, Mod, Splice;
      var bn, at := InodeSpot(h, inum);
      var buf;
      ok, buf := Rsect(bn);
      if ok {
        WritePart(file, InodeAt(h, inum), at, Encode(d));
        buf := Splice(buf, at, Encode(d));
        Wsect(bn, buf);
      }
      if old(Valid()) && WellPlaced(h) && inum < NI { InodeWritten(old(file), h, inum, d, freeblock, freeinode); }
    }

    method Ialloc(typ: nat) returns (ok: bool, inum: nat)
      requires typ < 65536 && freeinode < U32
      modifies this`file, this`freeinode
      ensures inum == old(freeinode) && freeinode == (inum + 1) % U32
      ensures ok <==> InodeAt(h, inum) + BSIZE <= |old(file)|
      ensures file == if ok then WriteAt(old(file), InodeAt(h, inum) + IOffset(inum), Encode(Empty(typ))) else old(file)
      ensures old(Valid()) && WellPlaced(h) && inum < NI ==> ok && Valid() && Abs() == MkfsSpec.Ialloc(old(Abs()), typ)
    {
      inum := freeinode;
      hide Encode, Means, Seek, InodeSector, IOffset, WriteAt, Mul, Div, Mod;
      freeinode := (freeinode + 1) % U32;
      ok := Winode(inum, Empty(typ));
      if old(Valid()) && WellPlaced(h) && inum < NI { Allocated(old(file), file, h, freeblock, inum, typ); }
    }

    /** The indirect block, allocated when there is none, and what it holds. */
    method LocateIndirect(din: Dinode) returns (ok: bool, din1: Dinode, indirect: Block)
      requires Valid() && |din.addrs| == NDIRECT + 1 && nmeta <= freeblock <= FSSIZE
      requires OffTable(din.addrs[NDIRECT]) && din.addrs[NDIRECT] <= FSSIZE
      modifies this`freeblock
      ensures |din1.addrs| == NDIRECT + 1 && nmeta <= freeblock && OffTable(din1.addrs[NDIRECT]) && SameHead(din, din1)
      ensures din1.addrs[NDIRECT] == if din.addrs[NDIRECT] == 0 then old(freeblock) else din.addrs[NDIRECT]
      ensures MkfsSpec.LocateIndirect(old(Here(din))) == if ok then Some(Here(din1)) else None
      ensures ok ==> din1.addrs[NDIRECT] < FSSIZE && indirect == Blocks(Disk())[din1.addrs[NDIRECT]] && freeblock <= FSSIZE
    {
      hide Sectors, Meaning;
      din1 := din;
      if din1.addrs[NDIRECT] == 0 {
        din1 := din1.(addrs := din1.addrs[NDIRECT := freeblock]);
        freeblock := freeblock + 1;
      }
      ok, indirect := Rsect(din1.addrs[NDIRECT]);
    }

    /** The block for file block fbn; both branches of iappend's loop. */
    method Locate(din: Dinode, fbn: nat) returns (ok: bool, din1: Dinode, x: nat)
      requires Valid() && |din.addrs| == NDIRECT + 1 && nmeta <= freeblock <= FSSIZE && OffTable(din.addrs[NDIRECT]) && Stored(Here(din), fbn)
      modifies this`file, this`freeblock
      ensures Valid() && |din1.addrs| == NDIRECT + 1 && Inodes(Disk()) == old(Inodes(Disk())) && SameHead(din, din1)
      ensures MkfsSpec.Locate(old(Here(din)), fbn) == if ok then Some((Here(din1), x)) else None
    {
      hide GetWord, PutWord, Inodes, Blocks, InTable, Sectors, WriteAt, Seek;
      din1 := din;
      x := 0;
      if fbn >= MAXFILE { return false, din1, x; }
      if fbn < NDIRECT {
        if din1.addrs[fbn] == 0 {
          din1 := din1.(addrs := din1.addrs[fbn := freeblock]);
          freeblock := freeblock + 1;
        }
        x := din1.addrs[fbn];
      } else {
        var found, indirect;
        found, din1, indirect := LocateIndirect(din1);
        if !found { return false, din1, x; }
        x := GetWord(indirect, fbn - NDIRECT);
        if x == 0 {
          x := freeblock;
          indirect := PutWord(indirect, fbn - NDIRECT, freeblock);
          freeblock := freeblock + 1;
          WriteBlockMeans(Disk(), din1.addrs[NDIRECT], indirect);
          Wsect(din1.addrs[NDIRECT], indirect);
        }
      }
      var there, _ := Rsect(x);
      ok := there;
    }

    /** One round of iappend's loop. */
    method AppendChunk(ghost fs: Fs, ghost own: map<nat, Slot>, inum: nat, din: Dinode, off: nat, chunk: seq<byte>)
      returns (ok: bool, din1: Dinode)
      requires Valid() && |din.addrs| == NDIRECT + 1 && din.size == off && Mod(off, BSIZE) + |chunk| <= BSIZE
      requires Shape(fs) && inum < NI && Ready(Close(fs, inum, Here(din)), own, inum)
      modifies this`file, this`freeblock
      ensures Valid() && |din1.addrs| == NDIRECT + 1 && Inodes(Disk()) == old(Inodes(Disk())) && SameHead(din, din1)
      ensures ChunkStep(old(Here(din)), chunk) == if ok then Some(Here(din1)) else None
    {
      hide MkfsSpec.Locate, Owned, Unused, ZeroTail, Accounted, Inodes, Blocks, Stored, Sectors, WriteAt, Seek, GetWord, Addr;
      ghost var fs1 := Close(fs, inum, Here(din));
      assert Open(fs1, inum) == Here(din);
      IndirectOff(fs1, own, inum);
      LocatedOff(fs1, own, inum);
      ReadyStored(fs1, own, inum);
      BlockOf(off);
      var fbn := off / BSIZE;
      var x;
      ok, din1, x := Locate(din, fbn);
      if !ok { return; }
      var _, buf := Rsect(x);
      BlockAt(Disk(), x);
      buf := Splice(buf, off - fbn * BSIZE, chunk);
      WriteBlockMeans(Disk(), x, buf);
      Wsect(x, buf);
      din1 := din1.(size := off + |chunk|);
    }

    /** iappend(inum, p, |p|) of image fs has come to `rest`, with din the dinode in memory. */
    ghost predicate Going(fs: Fs, own: map<nat, Slot>, inum: nat, p: seq<byte>, din0: Dinode, din: Dinode, rest: seq<byte>)
      reads this
    {
      && Valid() && |din.addrs| == NDIRECT + 1 && SameHead(din0, din)
      && Shape(fs) && inum < NI && Inodes(Disk()) == fs.inodes && freeinode == fs.freeinode
      && Ready(Close(fs, inum, Here(din)), own, inum)
      && Chunks(Open(fs, inum), p) == Chunks(Here(din), rest)
    }

    /** The next piece of p. */
    method AppendNext(ghost fs: Fs, ghost own: map<nat, Slot>, inum: nat, ghost p: seq<byte>, ghost din0: Dinode, din: Dinode, rest: seq<byte>)
      returns (ok: bool, din1: Dinode, n1: nat, ghost own1: map<nat, Slot>)
      requires Going(fs, own, inum, p, din0, din, rest) && rest != []
      modifies this`file, this`freeblock
      ensures Valid() && 0 < n1 <= |rest|
      ensures if ok then Going(fs, own1, inum, p, din0, din1, rest[n1..]) else Chunks(Open(fs, inum), p).None?
    {
      hide ChunkStep, Good, Inodes, Blocks, ChunkSize, Ready, Sectors;
      n1 := NextPiece(din.size, |rest|);
      own1 := NextOwner(fs, own, inum, Here(din), rest[..n1]);
      ok, din1 := AppendChunk(fs, own, inum, din, din.size, rest[..n1]);
    }

    /** The inode written back, p being used up. */
    method CloseInode(ghost fs: Fs, ghost own: map<nat, Slot>, inum: nat, ghost p: seq<byte>, ghost din0: Dinode, din: Dinode)
      requires WellPlaced(h) && Going(fs, own, inum, p, din0, din, []) && Fitting(din0)
      modifies this`file
      ensures Valid() && MkfsSpec.Iappend(fs, inum, p) == Some(Abs())
    {
      hide Good, Chunks, Inodes, Blocks, Ready, Sectors;
      AppendDone(fs, inum, Here(din), p);
      StillFits(fs, own, inum, Here(din), din0);
      FewInodes();
      var _ := Winode(inum, din);
    }

    lemma Starts(own: map<nat, Slot>, inum: nat, p: seq<byte>)
      requires Valid() && Ready(Abs(), own, inum)
      ensures inum < NI < U32 && Going(Abs(), own, inum, p, Abs().inodes[inum], Abs().inodes[inum], p)
    {
      FewInodes();
      hide Inodes, Blocks, Chunks, Sectors;
      assert Here(Abs().inodes[inum]) == Open(Abs(), inum) && Close(Abs(), inum, Open(Abs(), inum)) == Abs();
    }

    /** iappend's loop. */
    method AppendAll(ghost fs: Fs, ghost own: map<nat, Slot>, inum: nat, p: seq<byte>, ghost din0: Dinode, din: Dinode)
      returns (ok: bool, din1: Dinode, ghost own1: map<nat, Slot>)
      requires Going(fs, own, inum, p, din0, din, p)
      modifies this`file, this`freeblock
      ensures Valid()
      ensures if ok then Going(fs, own1, inum, p, din0, din1, []) else Chunks(Open(fs, inum), p).None?
    {
      assert Valid();
      hide Ready, Going, Chunks, Open, Mul, Means;
      din1, own1 := din, own;
      var n, rest := |p|, p;
      while n > 0
        invariant n == |rest| && Valid() && Going(fs, own1, inum, p, din0, din1, rest)
      {
        var n1;
        ok, din1, n1, own1 := AppendNext(fs, own1, inum, p, din0, din1, rest);
        if !ok { return; }
        n, rest := n - n1, rest[n1..];
      }
      ok := true;
    }

    /** ok is false where the program stops: too long a file, or no block left in the image. */
    method Iappend(ghost own: map<nat, Slot>, inum: nat, p: seq<byte>) returns (ok: bool)
      requires Valid() && WellPlaced(h) && Ready(Abs(), own, inum)
      modifies this`file, this`freeblock
      ensures Valid()
      ensures MkfsSpec.Iappend(old(Abs()), inum, p) == if ok then Some(Abs()) else None
    {
      Starts(own, inum, p);
      var _, din := Rinode(inum);
      ghost var din0, fs, own1 := din, Abs(), own;
      hide Ready, Going, Chunks, Fitting, WellPlaced, Means, Open, Close, Mul;
      ok, din, own1 := AppendAll(fs, own, inum, p, din0, din);
      if ok { CloseInode(fs, own1, inum, p, din0, din); }
    }

    /** The bitmap block for the first `used` blocks; ok is false at the assertion. */
    method Balloc(used: nat) returns (ok: bool, ghost bits: Block)
      modifies this`file
      ensures ok <==> used < BSIZE * 8
      ensures ok ==> forall x :: 0 <= x < BSIZE * 8 ==> (BitSet(bits, x) <==> x < used)
      ensures file == if ok then WriteAt(old(file), Seek(BSIZE, BitmapSector(h)), bits) else old(file)
      ensures ok && old(Valid()) && WellPlaced(h) ==> Valid() && Disk() == old(Disk())[bmapstart := bits]
    {
      LayoutFits();
      StartExact(h, bmapstart);
      bits := Zeroes();
      if used >= BSIZE * 8 { return false, bits; }
      var buf := new byte[BSIZE](_ => 0);
      var i := 0;
      NoneSet(buf[..]);
      while i < used
        invariant i <= used && file == old(file)
        invariant FirstSet(buf[..], i)
      {
        ghost var was := buf[..];
        SetBit(buf[i / 8], i % 8, 0);
        buf[i / 8] := Bits.Or(buf[i / 8], Bits.Pow2(i % 8));
        OneMore(was, i, buf[..]);
        i := i + 1;
      }
      bits := buf[..];
      Wsect(Xint(h, bmapstart), buf[..]);
      return true, bits;
    }

    method Call(ghost own: map<nat, Slot>, op: Op) returns (ok: bool, ghost own1: map<nat, Slot>)
      requires Valid() && WellPlaced(h) && Good(Abs(), own)
      requires match op case Alloc(typ) => typ < 65536 && freeinode < NI case Append(i, _) => 1 <= i < freeinode
      modifies this
      ensures Valid() && Step(old(Abs()), op) == (if ok then Some(Abs()) else None)
      ensures ok ==> Good(Abs(), own1) && freeinode == old(freeinode) + (if op.Alloc? then 1 else 0)
    {
      assert freeinode <= NI;
      FewInodes();
      hide Good, MkfsSpec.Ialloc, MkfsSpec.Iappend, Sectors, WriteAt, Encode, WellPlaced;
      own1 := own;
      if Step(Abs(), op).Some? { own1 := StepGood(Abs(), own, op); }
      match op
      case Alloc(typ) =>
        var there, _ := Ialloc(typ);
        ok := there;
      case Append(i, data) =>
        ok := Iappend(own, i, data);
    }

    /** The calls of main in order; ok is false where one of them stops the program. */
    method RunAll(ops: seq<Op>, ghost own: map<nat, Slot>) returns (ok: bool, ghost own1: map<nat, Slot>)
      requires Valid() && WellPlaced(h) && Good(Abs(), own) && Proper(ops, freeinode)
      modifies this
      ensures Valid() && Run(old(Abs()), ops) == if ok then Some(Abs()) else None
      ensures ok ==> Good(Abs(), own1)
    {
      hide Good, Step, WellPlaced, Sectors;
      ghost var fs0 := Abs();
      own1 := own;
      ok := true;
      var rest := ops;
      while rest != []
        invariant Valid() && Good(Abs(), own1) && Run(Abs(), rest) == Run(fs0, ops) && Proper(rest, freeinode) && ok
        decreases |rest|
      {
        ok, own1 := Call(own1, rest[0]);
        if !ok { return; }
        rest := rest[1..];
      }
    }

    /** main from the first ialloc to the bitmap, as the calls it makes, on a host that finds
        the regions where the layout has them. ok is false where the program stops. */
    method Build(ops: seq<Op>) returns (ok: bool, ghost own: map<nat, Slot>)
      requires Valid() && WellPlaced(h) && Blank(Abs()) && Proper(ops, 1)
      modifies this
      ensures Valid()
      ensures var r := Run(old(Abs()), ops);
        && (ok <==> r.Some? && r.value.freeblock < BSIZE * 8)
        && (ok ==> Abs() == Rewritten(r.value, bmapstart, Disk()[bmapstart]) && Good(Abs(), own) && Holds(Abs(), Files(ops)))
      ensures ok ==> forall x :: 0 <= x < FSSIZE && x < BSIZE * 8 ==> (BitAt(file, x) <==> x < nmeta || Reached(Abs(), x))
      ensures ok ==> forall i, j :: 1 <= i <= |Files(ops)| && 0 <= j ==>
        FileByte(file, i, j) == if j < |Files(ops)[i - 1]| then Some(Files(ops)[i - 1][j]) else None
      ensures ok ==> Typed(Abs(), Types(ops)) && Disk()[1] == old(Disk()[1])
    {
      ghost var file0, freeblock0, freeinode0 := file, freeblock, freeinode;
      BlankGood(Abs());
      hide Good, Blank, Reached, Holds, BitSet, BitAt, FileByte, Means, Run, Sectors, WriteAt, WellPlaced, Mul, Files, Types, Typed, Proper, Rewritten;
      ok, own := RunAll(ops, map[]);
      if !ok { return; }
      ghost var was := file;
      ghost var bits;
      ok, bits := Balloc(freeblock);
      if ok { Finished(file0, freeblock0, freeinode0, ops, was, file, freeblock, freeinode, own, bits); }
    }
  }

  /** The first n bits and no others. */
  ghost predicate FirstSet(b: seq<byte>, n: nat) {
    |b| == BSIZE && forall x :: 0 <= x < BSIZE * 8 ==> (BitSet(b, x) <==> x < n)
  }

  lemma NoneSet(b: seq<byte>)
    requires |b| == BSIZE && forall o :: 0 <= o < BSIZE ==> b[o] == 0
    ensures FirstSet(b, 0)
  {
    forall x | 0 <= x < BSIZE * 8 ensures !BitSet(b, x) { Bits.NoBits(x % 8); }
  }

  lemma OneMore(a: seq<byte>, n: nat, b: seq<byte>)
    requires FirstSet(a, n) && n < BSIZE * 8 && Bits.Or(a[n / 8], Bits.Pow2(n % 8)) < 256
    requires b == a[n / 8 := Bits.Or(a[n / 8], Bits.Pow2(n % 8))]
    ensures FirstSet(b, n + 1)
  {
    forall x | 0 <= x < BSIZE * 8 ensures BitSet(b, x) <==> x < n + 1 {
      SetBit(a[n / 8], n % 8, x % 8);
      assert BitSet(a, x) <==> x < n;
    }
  }

  /** Calls that name only inodes already allocated and do not overrun the inode table,
      whose end the program does not check for. */
  predicate Proper(ops: seq<Op>, n: nat)
    decreases |ops|
  {
    ops == [] ||
    match ops[0]
    case Alloc(typ) => typ < 65536 && n < NI && Proper(ops[1..], n + 1)
    case Append(i, _) => 1 <= i < n && Proper(ops[1..], n)
  }

  lemma FinalImage(fs0: Fs, ops: seq<Op>, fs: Fs, own: map<nat, Slot>, b: Block)
    requires Blank(fs0) && Run(fs0, ops) == Some(fs) && Good(fs, own)
    ensures var fs1 := Rewritten(fs, bmapstart, b);
      && Good(fs1, own) && Holds(fs1, Files(ops))
      && forall x :: 0 <= x < FSSIZE ==> (x < fs.freeblock <==> x < nmeta || Reached(fs1, x))
  {
    RewrittenKeeps(fs, own, bmapstart, b);
    Reaches(Rewritten(fs, bmapstart, b), own);
    var _ := RunRefines(fs0, ops);
  }

  lemma BitmapMeans(file: seq<byte>, r: seq<byte>, freeblock: nat, freeinode: nat, bits: Block)
    requires |file| == Mul(FSSIZE, BSIZE) == |r| && Sectors(r) == Sectors(file)[bmapstart := bits]
    ensures Sectors(r)[bmapstart] == bits && Means(file, freeblock, freeinode).freeblock == freeblock
    ensures Means(r, freeblock, freeinode) == Rewritten(Means(file, freeblock, freeinode), bmapstart, bits)
  {
    WriteBlockMeans(Sectors(file), bmapstart, bits);
  }

  /** What main has written before the first ialloc. */
  lemma FirstImage(zeroed: seq<byte>, file: seq<byte>, h: Host, magic: nat)
    requires |zeroed| == |file| == Mul(FSSIZE, BSIZE) && magic < U32 && forall o :: 0 <= o < |zeroed| ==> zeroed[o] == 0
    requires Sectors(file) == Sectors(zeroed)[1 := Super(h, magic)]
    ensures Blank(Means(file, nmeta, 1)) && SuperIs(file, h, magic)
    ensures forall x :: 0 <= x < FSSIZE && x != 1 ==> IsZero(Sectors(file)[x])
  {
    ZeroSectors(zeroed);
    SuperReads(file, h, magic);
    WriteBlockMeans(Sectors(zeroed), 1, Super(h, magic));
    forall i | 0 <= i < NI ensures ReadInode(Sectors(zeroed), i).size == 0 { InodePlace(i); ZeroInode(Sectors(zeroed), i); }
    hide SuperIs, Super, Sectors, ReadInode, Mul;
  }

  /** The run over, and the bitmap written. */
  lemma Finished(file0: seq<byte>, freeblock0: nat, freeinode0: nat, ops: seq<Op>,
                 was: seq<byte>, file: seq<byte>, freeblock: nat, freeinode: nat, own: map<nat, Slot>, bits: Block)
    requires |file0| == |was| == |file| == Mul(FSSIZE, BSIZE) && Blank(Means(file0, freeblock0, freeinode0))
    requires Run(Means(file0, freeblock0, freeinode0), ops) == Some(Means(was, freeblock, freeinode)) && Good(Means(was, freeblock, freeinode), own)
    requires Sectors(file) == Sectors(was)[bmapstart := bits] && forall x :: 0 <= x < BSIZE * 8 ==> (BitSet(bits, x) <==> x < freeblock)
    ensures Means(was, freeblock, freeinode).freeblock == freeblock && Sectors(file)[bmapstart] == bits
    ensures var fs := Means(file, freeblock, freeinode);
      && fs == Rewritten(Means(was, freeblock, freeinode), bmapstart, bits) && Good(fs, own) && Holds(fs, Files(ops)) && Typed(fs, Types(ops))
      && forall x :: 0 <= x < FSSIZE && x < BSIZE * 8 ==> (BitAt(file, x) <==> x < nmeta || Reached(fs, x))
    ensures forall i, j :: 1 <= i <= |Files(ops)| && 0 <= j ==>
      FileByte(file, i, j) == if j < |Files(ops)[i - 1]| then Some(Files(ops)[i - 1][j]) else None
    ensures Sectors(file)[1] == Sectors(file0)[1]
  {
    var fs0, fs1, fs := Means(file0, freeblock0, freeinode0), Means(was, freeblock, freeinode), Means(file, freeblock, freeinode);
    SameSuper(file0, was, freeblock0, freeinode0, freeblock, freeinode, ops);
    hide Good, Blank, Reached, Holds, BitSet, BitAt, FileByte, Run, Sectors, Mul, Files, Types, Inodes, Blocks;
    BitmapMeans(was, file, freeblock, freeinode, bits);
    FinalImage(fs0, ops, fs1, own, bits);
    RunTyped(fs0, ops);
    FinalFile(file, fs, own, ops, bits);
  }

  lemma SameSuper(file0: seq<byte>, was: seq<byte>, freeblock0: nat, freeinode0: nat, freeblock: nat, freeinode: nat, ops: seq<Op>)
    requires |file0| == |was| == Mul(FSSIZE, BSIZE) && Blank(Means(file0, freeblock0, freeinode0))
    requires Run(Means(file0, freeblock0, freeinode0), ops) == Some(Means(was, freeblock, freeinode))
    ensures Sectors(was)[1] == Sectors(file0)[1] && bmapstart != 1
  {
    RunTyped(Means(file0, freeblock0, freeinode0), ops);
    hide Blank, Run, Typed, Mul, Sectors;
    assert Blocks(Sectors(was))[1] == Blocks(Sectors(file0))[1];
    BlockAt(Sectors(was), 1);
    BlockAt(Sectors(file0), 1);
  }

  /** The finished image, as the kernel reads it. */
  lemma FinalFile(file: seq<byte>, fs: Fs, own: map<nat, Slot>, ops: seq<Op>, bits: Block)
    requires |file| == Mul(FSSIZE, BSIZE) && Sectors(file)[bmapstart] == bits
    requires Good(fs, own) && Holds(fs, Files(ops)) && fs.inodes == Inodes(Sectors(file)) && fs.blocks == Blocks(Sectors(file))
    ensures forall x :: 0 <= x < BSIZE * 8 ==> (BitAt(file, x) <==> BitSet(bits, x))
    ensures forall i, j :: 1 <= i <= |Files(ops)| && 0 <= j ==>
      FileByte(file, i, j) == if j < |Files(ops)[i - 1]| then Some(Files(ops)[i - 1][j]) else None
  {
    forall x | 0 <= x < BSIZE * 8 ensures BitAt(file, x) <==> BitSet(bits, x) { BitmapByte(file, x); }
    forall i, j | 1 <= i <= |Files(ops)| && 0 <= j
      ensures FileByte(file, i, j) == if j < |Files(ops)[i - 1]| then Some(Files(ops)[i - 1][j]) else None
    {
      ReaderFinds(file, fs, own, i, j);
    }
  }

  lemma ZeroInode(img: seq<Block>, i: nat)
    requires |img| == FSSIZE && i < NI && IBlock(i) < FSSIZE && img[IBlock(i)] == Zeroes()
    ensures ReadInode(img, i).size == 0
  {
    InodePlace(i);
    var b := img[IBlock(i)][IOffset(i)..IOffset(i) + DSIZE];
    assert forall k :: 0 <= k < DSIZE ==> b[k] == 0;
    assert b[8..12] == [0, 0, 0, 0];
  }

  lemma ZeroSectors(file: seq<byte>)
    requires |file| == Mul(FSSIZE, BSIZE) && forall o :: 0 <= o < |file| ==> file[o] == 0
    ensures forall x :: 0 <= x < FSSIZE ==> Sectors(file)[x] == Zeroes()
  {
    forall x | 0 <= x < FSSIZE ensures Sector(file, x) == Zeroes() { ReadSector(x); }
  }

  /** Locate never answers with a metadata block. */
  lemma LocatedOff(fs: Fs, own: map<nat, Slot>, i: nat)
    requires Ready(fs, own, i)
    ensures var r := Locate(Open(fs, i), Div(fs.inodes[i].size, BSIZE)); r.Some? ==> OffTable(r.value.1) && r.value.1 < FSSIZE
  {
    var own1 := Grows(fs, own, i);
  }

  lemma NextOwner(fs: Fs, own: map<nat, Slot>, i: nat, w: Work, c: seq<byte>) returns (own1: map<nat, Slot>)
    requires Shape(fs) && i < NI && WorkShape(w) && Ready(Close(fs, i, w), own, i)
    requires 0 < |c| && Mod(w.din.size, BSIZE) + |c| <= BSIZE
    ensures var r := ChunkStep(w, c); r.Some? ==> Ready(Close(fs, i, r.value), own1, i)
  {
    var fs1 := Close(fs, i, w);
    assert Open(fs1, i) == w;
    own1 := ChunkGood(fs1, own, i, c);
    var r := ChunkStep(w, c);
    if r.Some? { assert Close(fs1, i, r.value) == Close(fs, i, r.value); }
  }
}
