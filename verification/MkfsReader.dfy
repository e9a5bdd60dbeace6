/** The image file as the RISC-V kernel reads it: raw bytes at places it computes with the
    operators of C, least significant byte first. Every meaning that MkfsLayout and MkfsSpec
    give to an image is shown to be what such a reader finds. */
module MkfsReader {
  import opened Common
  import opened Arith
  import opened MkfsSpec
  import opened MkfsProof
  import opened MkfsLayout
  import opened MkfsPlaces

  function ShortAt(file: seq<byte>, at: nat): nat
    requires at + 2 <= |file|
  {
    file[at] as nat + 0x100 * file[at + 1] as nat
  }

  function WordAt(file: seq<byte>, at: nat): nat
    requires at + 4 <= |file|
  {
    file[at] as nat + 0x100 * file[at + 1] as nat + 0x1_0000 * file[at + 2] as nat + 0x100_0000 * file[at + 3] as nat
  }

  /** Where block x starts. */
  function BlockStart(x: nat): nat { x * BSIZE }

  /** Where inode i is: the table is an array of struct dinode from block inodestart on. */
  function InodeByte(i: nat): nat { BlockStart(inodestart) + i * DSIZE }

  /** struct dinode in memory. */
  predicate InodeIs(file: seq<byte>, at: nat, d: Dinode) {
    && at + DSIZE <= |file| && |d.addrs| == NDIRECT + 1
    && d.typ == ShortAt(file, at) && d.major == ShortAt(file, at + 2) && d.minor == ShortAt(file, at + 4) && d.nlink == ShortAt(file, at + 6)
    && d.size == WordAt(file, at + 8)
    && forall k :: 0 <= k <= NDIRECT ==> d.addrs[k] == WordAt(file, at + 12 + 4 * k)
  }

  lemma {:induction false} MulSum(a: nat, b: nat, d: nat)
    ensures Mul(a + b, d) == Mul(a, d) + Mul(b, d)
  {
    if b > 0 { MulSum(a, b - 1, d); }
  }

  lemma {:induction false} MulMul(q: nat, k: nat, d: nat)
    ensures Mul(q, Mul(k, d)) == Mul(Mul(q, k), d)
  {
    if q > 0 {
      MulMul(q - 1, k, d);
      MulSum(Mul(q - 1, k), k, d);
    }
  }

  lemma ArrayEntry(q: nat, r: nat)
    ensures Mul(q + inodestart, BSIZE) + Mul(r, DSIZE) == Mul(inodestart, BSIZE) + Mul(Mul(q, IPB) + r, DSIZE)
  {
    hide Mul;
    assert BSIZE == Mul(IPB, DSIZE);
    MulSum(q, inodestart, BSIZE);
    MulMul(q, IPB, DSIZE);
    MulSum(Mul(q, IPB), r, DSIZE);
  }

  lemma InodeByteIs(i: nat)
    ensures InodeByte(i) == Mul(inodestart, BSIZE) + Mul(i, DSIZE)
  {
    hide Mul;
    MulIsTimes(inodestart, BSIZE);
    MulIsTimes(i, DSIZE);
  }

  /** The table is one array: IBLOCK and the place in that block come to the byte where
      entry i of an array of inodes is, for every inode number. */
  lemma InodeArray(i: nat)
    ensures Mul(IBlock(i), BSIZE) + IOffset(i) == Mul(inodestart, BSIZE) + Mul(i, DSIZE) == InodeByte(i)
  {
    hide Mul;
    DivMod(i, IPB);
    ArrayEntry(Div(i, IPB), Mod(i, IPB));
    InodeByteIs(i);
  }

  lemma InodeSlice(file: seq<byte>, i: nat)
    requires |file| == Mul(FSSIZE, BSIZE) && i < NI
    ensures InodeByte(i) + DSIZE <= |file|
    ensures Inodes(Sectors(file))[i] == Decode(file[InodeByte(i)..InodeByte(i) + DSIZE])
  {
    hide Mul, Div, IBlock, IOffset, InodeByte, Decode, Seek, InTable;
    InodeArray(i);
    InodePlace(i);
    ReadSector(IBlock(i));
    SectorSlice(file, IBlock(i), IOffset(i), DSIZE);
  }

  lemma SectorSlice(file: seq<byte>, x: nat, o: nat, n: nat)
    requires |file| == Mul(FSSIZE, BSIZE) && x < FSSIZE && o + n <= BSIZE
    ensures Mul(x, BSIZE) + BSIZE <= |file| && Sectors(file)[x][o..o + n] == file[Mul(x, BSIZE) + o..Mul(x, BSIZE) + o + n]
  {
    hide Mul;
    ReadSector(x);
    SliceSlice(file, Mul(x, BSIZE), Sectors(file)[x], o, n);
  }

  /** An inode of the image is what the bytes of entry i of the table say, field by field. */
  lemma InodeBytes(file: seq<byte>, i: nat)
    requires |file| == Mul(FSSIZE, BSIZE) && i < NI
    ensures InodeIs(file, InodeByte(i), Inodes(Sectors(file))[i])
  {
    InodeSlice(file, i);
    hide Mul, InodeByte, InodeIs, Decode, Sectors, Inodes;
    DecodedBytes(file, InodeByte(i), file[InodeByte(i)..InodeByte(i) + DSIZE]);
  }

  lemma DecodedBytes(file: seq<byte>, at: nat, b: seq<byte>)
    requires at + DSIZE <= |file| && |b| == DSIZE && b == file[at..at + DSIZE]
    ensures InodeIs(file, at, Decode(b))
  {
    forall k | 0 <= k <= NDIRECT ensures Decode(b).addrs[k] == WordAt(file, at + 12 + 4 * k) { WordOf(file, at, b, 12 + 4 * k); }
    WordOf(file, at, b, 8);
    ShortOf(file, at, b, 0);
    ShortOf(file, at, b, 2);
    ShortOf(file, at, b, 4);
    ShortOf(file, at, b, 6);
    hide Dec16, Dec32, ShortAt, WordAt;
  }

  lemma WordOf(file: seq<byte>, at: nat, b: seq<byte>, o: nat)
    requires at + |b| <= |file| && b == file[at..at + |b|] && o + 4 <= |b|
    ensures Dec32(b[o..o + 4]) == WordAt(file, at + o)
  {
    SliceSlice(file, at, b, o, 4);
    var w := file[at + o..at + o + 4];
    assert w[0] == file[at + o] && w[1] == file[at + o + 1] && w[2] == file[at + o + 2] && w[3] == file[at + o + 3];
  }

  lemma ShortOf(file: seq<byte>, at: nat, b: seq<byte>, o: nat)
    requires at + |b| <= |file| && b == file[at..at + |b|] && o + 2 <= |b|
    ensures Dec16(b[o..o + 2]) == ShortAt(file, at + o)
  {
    SliceSlice(file, at, b, o, 2);
    var w := file[at + o..at + o + 2];
    assert w[0] == file[at + o] && w[1] == file[at + o + 1];
  }

  lemma BlockThere(file: seq<byte>, x: nat)
    requires |file| == Mul(FSSIZE, BSIZE) && x < FSSIZE
    ensures BlockStart(x) + BSIZE <= |file| && Sectors(file)[x] == file[BlockStart(x)..BlockStart(x) + BSIZE]
  {
    ReadSector(x);
    MulIsTimes(x, BSIZE);
  }

  lemma BlockWord(file: seq<byte>, x: nat, k: nat)
    requires |file| == Mul(FSSIZE, BSIZE) && x < FSSIZE && k < NINDIRECT
    ensures BlockStart(x) + 4 * k + 4 <= |file| && GetWord(Sectors(file)[x], k) == WordAt(file, BlockStart(x) + 4 * k)
  {
    hide Mul, BlockStart;
    BlockThere(file, x);
    WordOf(file, BlockStart(x), Sectors(file)[x], 4 * k);
  }

  // ---- files ---------------------------------------------------------------------------------

  function Word(file: seq<byte>, at: nat): Option<nat> { if at + 4 <= |file| then Some(WordAt(file, at)) else None }

  /** The block that file block n of inode i is in: the inode's entry n, or entry
      n - NDIRECT of the block its last entry names. */
  function FileBlock(file: seq<byte>, i: nat, n: nat): Option<nat> {
    if n < NDIRECT then Word(file, InodeByte(i) + 12 + 4 * n)
    else match Word(file, InodeByte(i) + 12 + 4 * NDIRECT)
         case None => None
         case Some(x) => if n < MAXFILE then Word(file, BlockStart(x) + 4 * (n - NDIRECT)) else None
  }

  function Byte(file: seq<byte>, at: nat): Option<byte> { if at < |file| then Some(file[at]) else None }

  function Quotient(j: nat): nat {
    DivModAre(j, BSIZE);
    j / BSIZE
  }

  function Remainder(j: nat): nat { j % BSIZE }

  /** Byte j of file i, None past its end. */
  function FileByte(file: seq<byte>, i: nat, j: nat): Option<byte> {
    match Word(file, InodeByte(i) + 8)
    case None => None
    case Some(size) =>
      if j >= size then None else
      match FileBlock(file, i, Quotient(j))
      case None => None
      case Some(x) => Byte(file, BlockStart(x) + Remainder(j))
  }

  lemma ReadsInode(file: seq<byte>, i: nat, k: nat)
    requires |file| == Mul(FSSIZE, BSIZE) && i < NI && k <= NDIRECT
    ensures var d := Inodes(Sectors(file))[i];
      Word(file, InodeByte(i) + 8) == Some(d.size) && Word(file, InodeByte(i) + 12 + 4 * k) == Some(d.addrs[k])
  {
    hide Mul, InodeByte, WordAt;
    InodeBytes(file, i);
  }

  /** An indirect block as the reader and as the meaning has it. */
  lemma ReadsIndirect(file: seq<byte>, x: nat, k: nat)
    requires |file| == Mul(FSSIZE, BSIZE) && nmeta <= x < FSSIZE && k < NINDIRECT
    ensures Word(file, BlockStart(x) + 4 * k) == Some(GetWord(Blocks(Sectors(file))[x], k))
  {
    hide Mul, BlockStart, GetWord, WordAt;
    BlockWord(file, x, k);
    BlockAt(Sectors(file), x);
  }

  lemma ReadsAddr(file: seq<byte>, fs: Fs, i: nat, n: nat)
    requires |file| == Mul(FSSIZE, BSIZE) && Shape(fs) && fs.inodes == Inodes(Sectors(file)) && fs.blocks == Blocks(Sectors(file))
    requires i < NI && n < MAXFILE && (n >= NDIRECT ==> nmeta <= fs.inodes[i].addrs[NDIRECT] < FSSIZE)
    ensures FileBlock(file, i, n) == Some(Addr(fs, Data(i, n)))
  {
    hide Mul, InodeByte, BlockStart, Word, GetWord, Inodes, Blocks, Sectors;
    ReadsInode(file, i, if n < NDIRECT then n else NDIRECT);
    if n >= NDIRECT { ReadsIndirect(file, fs.inodes[i].addrs[NDIRECT], n - NDIRECT); }
  }

  lemma LiveBounds(fs: Fs, own: map<nat, Slot>, i: nat, n: nat)
    requires Ready(fs, own, i) && n < BlocksOf(fs.inodes[i].size)
    ensures n < MAXFILE && nmeta <= Addr(fs, Data(i, n)) < FSSIZE && (n >= NDIRECT ==> nmeta <= fs.inodes[i].addrs[NDIRECT] < FSSIZE)
  {
    LiveData(fs, own, i, n);
  }

  lemma BlockAt(img: seq<Block>, x: nat)
    requires |img| == FSSIZE && x < FSSIZE && !InTable(x)
    ensures Blocks(img)[x] == img[x]
  {
  }

  lemma ReadsData(file: seq<byte>, x: nat, o: nat)
    requires |file| == Mul(FSSIZE, BSIZE) && nmeta <= x < FSSIZE && o < BSIZE
    ensures Byte(file, BlockStart(x) + o) == Some(Blocks(Sectors(file))[x][o])
  {
    hide Mul, BlockStart;
    BlockThere(file, x);
    BlockAt(Sectors(file), x);
  }

  /** Quotient and remainder, and that a byte of a file is in one of its blocks. */
  lemma InFile(j: nat, size: nat)
    ensures Quotient(j) == Div(j, BSIZE) && Remainder(j) == Mod(j, BSIZE) < BSIZE
    ensures j < size ==> Quotient(j) < BlocksOf(size)
  {
    DivModAre(j, BSIZE);
    if j < size { InBlocks(j, size); }
  }

  /** Whoever reads file i of the image byte by byte gets its contents, and then its end. */
  lemma ReaderFinds(file: seq<byte>, fs: Fs, own: map<nat, Slot>, i: nat, j: nat)
    requires |file| == Mul(FSSIZE, BSIZE) && Ready(fs, own, i) && i < NI
    requires fs.inodes == Inodes(Sectors(file)) && fs.blocks == Blocks(Sectors(file))
    ensures FileByte(file, i, j) == if j < |Content(fs, i)| then Some(Content(fs, i)[j]) else None
  {
    hide Mul, Div, Mod, Quotient, Remainder, InodeByte, Word, Ready, FileBlock, Addr, Inodes, Blocks, Sectors, BlocksOf, ByteAt;
    ReadsInode(file, i, 0);
    if j < fs.inodes[i].size { ReadsByte(file, fs, own, i, j); }
  }

  lemma ReadsByte(file: seq<byte>, fs: Fs, own: map<nat, Slot>, i: nat, j: nat)
    requires |file| == Mul(FSSIZE, BSIZE) && Ready(fs, own, i) && i < NI && j < fs.inodes[i].size
    requires fs.inodes == Inodes(Sectors(file)) && fs.blocks == Blocks(Sectors(file))
    ensures var x := FileBlock(file, i, Quotient(j)); x.Some? && Byte(file, BlockStart(x.value) + Remainder(j)) == Some(ByteAt(fs, i, j))
  {
    hide Mul, Div, Mod, Quotient, Remainder, BlockStart, Byte, Ready, FileBlock, Addr, Inodes, Blocks, Sectors, BlocksOf;
    InFile(j, fs.inodes[i].size);
    LiveBounds(fs, own, i, Quotient(j));
    ReadsAddr(file, fs, i, Quotient(j));
    ReadsData(file, Addr(fs, Data(i, Quotient(j))), Remainder(j));
  }
}
