/** Where mkfs reads and writes in the image file: sector offsets in 32-bit arithmetic, and
    the region starts of the superblock, which are kept in RISC-V byte order and used as
    they are. */
module MkfsPlaces {
  import opened Common
  import opened Arith
  import opened MkfsSpec
  import opened MkfsLayout
  import Bits

  // ---- sectors -----------------------------------------------------------------------------

  /** sec * BSIZE, as wsect and rsect compute it. */
  function Seek(bsize: nat, sec: nat): (at: nat)
    ensures at < U32
  {
    Mul(sec, bsize) % U32
  }

  /** Every sector of an image, and the first one past it, is where it should be exactly when
      the image is smaller than 4 GiB. */
  lemma SeekExact(bsize: nat, sectors: nat)
    requires 0 < bsize
    ensures (forall sec :: 0 <= sec <= sectors ==> Seek(bsize, sec) == Mul(sec, bsize)) <==> Mul(sectors, bsize) < U32
  {
    if Mul(sectors, bsize) < U32 {
      forall sec | 0 <= sec <= sectors ensures Seek(bsize, sec) == Mul(sec, bsize) {
        if sec < sectors { MulMonotone(sec, sectors, bsize); }
      }
    } else {
      assert Seek(bsize, sectors) != Mul(sectors, bsize);
    }
  }

  /** With 64 KiB blocks and all else in order, sector 65537 of a larger image is written over
      the superblock; and in one of exactly 4 GiB the sector past the end is the boot block. */
  lemma SectorAliases()
    ensures var g := Constants(12, 1024, 65536, 70000, 200, 30);
      Consistent(g) && !Addressable(g) && 65537 < g.fssize && Seek(g.bsize, 65537) == Seek(g.bsize, 1)
    ensures var g := Constants(12, 1024, 65536, 65536, 200, 30);
      Consistent(g) && !Addressable(g) && Seek(g.bsize, g.fssize) == Seek(g.bsize, 0)
  {
    MulIsTimes(1024, 64);
    MulIsTimes(12 + 65536 / 4, 65536);
    DivModAre(200, 1024);
    DivModAre(70000, 8 * 65536);
    DivModAre(65536, 8 * 65536);
    MulIsTimes(70000, 65536);
    MulIsTimes(65536, 65536);
    MulIsTimes(65537, 65536);
    MulIsTimes(1, 65536);
    MulIsTimes(0, 65536);
  }

  function Sector(file: seq<byte>, x: nat): Block
    requires |file| == Mul(FSSIZE, BSIZE) && x < FSSIZE
  {
    MulMonotone(x, FSSIZE, BSIZE);
    file[Mul(x, BSIZE)..Mul(x, BSIZE) + BSIZE]
  }

  function Sectors(file: seq<byte>): (s: seq<Block>)
    requires |file| == Mul(FSSIZE, BSIZE)
    ensures |s| == FSSIZE && forall x :: 0 <= x < FSSIZE ==> s[x] == Sector(file, x)
  {
    seq(FSSIZE, x requires 0 <= x < FSSIZE => Sector(file, x))
  }

  /** The bytes b written from `at` on: past the end the file grows, with zeroes in between. */
  function WriteAt(file: seq<byte>, at: nat, b: seq<byte>): (r: seq<byte>)
    ensures |r| == if at + |b| <= |file| then |file| else at + |b|
    ensures r[at..at + |b|] == b
    ensures forall o :: 0 <= o < |r| && !(at <= o < at + |b|) ==> r[o] == if o < |file| then file[o] else 0
  {
    if at + |b| <= |file| then file[..at] + b + file[at + |b|..]
    else if at <= |file| then file[..at] + b
    else file + seq(at - |file|, _ => 0) + b
  }

  lemma SliceSlice(file: seq<byte>, at: nat, b: seq<byte>, o: nat, n: nat)
    requires at + |b| <= |file| && b == file[at..at + |b|] && o + n <= |b|
    ensures b[o..o + n] == file[at + o..at + o + n]
  {
    var r := file[at + o..at + o + n];
    forall k | 0 <= k < n ensures r[k] == b[o + k] { assert b[o + k] == file[at + (o + k)]; }
  }

  /** The sectors of the image are there to be read, and the next one is not. */
  lemma ReadSector(x: nat)
    requires x <= FSSIZE
    ensures Seek(BSIZE, x) == Mul(x, BSIZE)
    ensures x < FSSIZE ==> Mul(x, BSIZE) + BSIZE <= Mul(FSSIZE, BSIZE)
  {
    SeekExact(BSIZE, FSSIZE);
    if x < FSSIZE { MulMonotone(x, FSSIZE, BSIZE); }
  }

  /** Writing a sector changes it and no other. */
  lemma WriteSector(file: seq<byte>, x: nat, b: Block)
    requires |file| == Mul(FSSIZE, BSIZE) && x < FSSIZE
    ensures var r := WriteAt(file, Seek(BSIZE, x), b); |r| == |file| && Sectors(r) == Sectors(file)[x := b]
  {
    ReadSector(x);
    var r := WriteAt(file, Mul(x, BSIZE), b);
    forall y | 0 <= y < FSSIZE ensures Sector(r, y) == if y == x then b else Sector(file, y) {
      ReadSector(y);
      if y < x { MulMonotone(y, x, BSIZE); } else if x < y { MulMonotone(x, y, BSIZE); }
    }
  }

  /** Part of a sector replaced, by a read, a change and a write. */
  lemma WritePart(file: seq<byte>, at: nat, o: nat, c: seq<byte>)
    requires at + BSIZE <= |file| && o + |c| <= BSIZE
    ensures WriteAt(file, at, Splice(file[at..at + BSIZE], o, c)) == WriteAt(file, at + o, c)
  {
    var b: Block := file[at..at + BSIZE];
    var s := Splice(b, o, c);
    forall k | 0 <= k < BSIZE ensures s[k] == if o <= k < o + |c| then c[k - o] else file[at + k] {
      if k < o { assert s[k] == b[k]; } else if k >= o + |c| { assert s[k] == b[k]; }
    }
    var l, r := WriteAt(file, at, s), WriteAt(file, at + o, c);
    forall k | 0 <= k < |file| ensures l[k] == r[k] {
      if at <= k < at + BSIZE { assert l[k] == l[at..at + BSIZE][k - at]; }
      if at + o <= k < at + o + |c| { assert r[k] == r[at + o..at + o + |c|][k - at - o]; }
    }
  }

  // ---- byte order --------------------------------------------------------------------------

  /** bn of winode and rinode: IBLOCK(inum, sb), with the inodestart that the host loads from
      the superblock. */
  function InodeSector(h: Host, i: nat): (bn: nat)
    ensures bn < U32
  {
    (Div(i, IPB) + Xint(h, inodestart)) % U32
  }

  /** The sector balloc writes. */
  function BitmapSector(h: Host): nat { Xint(h, bmapstart) }

  /** The two starts read the same in both byte orders, or the host's is RISC-V's. */
  predicate WellPlaced(h: Host) { Xint(h, inodestart) == inodestart && Xint(h, bmapstart) == bmapstart }

  type byte4 = b: seq<byte> | |b| == 4 witness [0, 0, 0, 0]

  function Reversed(b: byte4): byte4 { [b[3], b[2], b[1], b[0]] }

  /** The low n bytes as a number, and the others as a multiple of 2^(8 n). */
  lemma LowBytes(b: byte4)
    ensures Dec32(b) == b[0] as nat + 256 * b[1] as nat + 65536 * (b[2] as nat + 256 * b[3] as nat)
    ensures Dec32(b) % 65536 == b[0] as nat + 256 * b[1] as nat
    ensures Dec32(b) % 0x100_0000 == b[0] as nat + 256 * b[1] as nat + 65536 * b[2] as nat
  {
    DivModUnique(Dec32(b), 65536, b[2] as nat + 256 * b[3] as nat, b[0] as nat + 256 * b[1] as nat);
    DivModUnique(Dec32(b), 0x100_0000, b[3] as nat, b[0] as nat + 256 * b[1] as nat + 65536 * b[2] as nat);
  }

  lemma SplitPower(e: nat, j: nat, k: nat) returns (m: nat)
    requires k <= j
    ensures e * Bits.Pow2(j) == m * Bits.Pow2(k)
  {
    m := e * Bits.Pow2(j - k);
    Bits.PowSum(j - k, k);
    assert e * (Bits.Pow2(j - k) * Bits.Pow2(k)) == e * Bits.Pow2(j - k) * Bits.Pow2(k);
  }

  lemma Powers()
    ensures Bits.Pow2(16) == 65536 && Bits.Pow2(24) == 0x100_0000 && Bits.Pow2(32) == U32
  {
    assert Bits.Pow2(8) == 256;
    Bits.PowSum(8, 8);
    Bits.PowSum(8, 16);
    Bits.PowSum(16, 16);
  }

  lemma PowAtMost(j: nat, k: nat)
    requires j <= k
    ensures Bits.Pow2(j) <= Bits.Pow2(k)
  {
    if j < k { Bits.PowGrows(j, k); }
  }

  lemma SameRemainder(x: nat, v: nat, m: nat, d: nat)
    requires 0 < d && x == v + m * d
    ensures x % d == v % d
  {
    ModAddMultiple(v, d, m);
    assert d * m == m * d;
  }

  // A number below 2^j, and its bytes reversed, that agree modulo 2^j.

  lemma SwapShort(b: byte4, e: nat, j: nat)
    requires j <= 16 && Dec32(b) < Bits.Pow2(j) && Dec32(Reversed(b)) == Dec32(b) + e * Bits.Pow2(j)
    ensures Reversed(b) == b
  {
    ShortTop(b, j);
    hide Bits.Pow2, Dec32;
    Powers();
    var k := SplitPower(b[1] as nat + 256 * b[0] as nat, 16, j);
    NoRemainder(Dec32(b), e, k, Bits.Pow2(j));
  }

  lemma ShortTop(b: byte4, j: nat)
    requires j <= 16 && Dec32(b) < Bits.Pow2(j)
    ensures Dec32(Reversed(b)) == (b[1] as nat + 256 * b[0] as nat) * 65536
    ensures Dec32(b) == 0 ==> Reversed(b) == b
  {
    hide Bits.Pow2;
    Powers();
    PowAtMost(j, 16);
  }

  lemma NoRemainder(v: nat, e: nat, k: nat, p: nat)
    requires v < p && v + e * p == k * p
    ensures v == 0
  {
    DivModUnique(k * p, p, e, v);
    DivModUnique(k * p, p, k, 0);
  }

  lemma SwapMiddle(b: byte4, e: nat, j: nat)
    requires 16 <= j <= 24 && Dec32(b) < Bits.Pow2(j) && Dec32(Reversed(b)) == Dec32(b) + e * Bits.Pow2(j)
    ensures Reversed(b) == b
  {
    hide Bits.Pow2;
    Powers();
    PowAtMost(j, 24);
    LowBytes(b);
    LowBytes(Reversed(b));
    var m := SplitPower(e, j, 16);
    SameRemainder(Dec32(Reversed(b)), Dec32(b), m, 65536);
    assert b[3] == 0;
  }

  lemma SwapLong(b: byte4, e: nat, j: nat)
    requires 24 <= j && Dec32(Reversed(b)) == Dec32(b) + e * Bits.Pow2(j)
    ensures Reversed(b) == b
  {
    hide Bits.Pow2;
    Powers();
    LowBytes(b);
    LowBytes(Reversed(b));
    var m := SplitPower(e, j, 24);
    SameRemainder(Dec32(Reversed(b)), Dec32(b), m, 0x100_0000);
  }

  /** A product that fits 32 bits and the 32-bit product with that factor's bytes reversed
      agree only where reversing them changes nothing. */
  lemma SwapSeek(b: byte4, n: nat)
    requires 0 < n && Dec32(b) * n < U32 && Dec32(Reversed(b)) * n % U32 == Dec32(b) * n
    ensures Reversed(b) == b
  {
    var v, x := Dec32(b), Dec32(Reversed(b));
    var m := x * n / U32;
    hide Dec32, Bits.Pow2;
    Powers();
    assert x * n == m * U32 + v * n;
    Factored(x, v, n, m);
    var j, e, f := Bits.TwosShared(x - v, n, m, 32);
    Below(v, n, j, f);
    SwapPower(b, e, j);
  }

  lemma SwapPower(b: byte4, e: nat, j: nat)
    requires Dec32(b) < Bits.Pow2(j) && Dec32(Reversed(b)) == Dec32(b) + e * Bits.Pow2(j)
    ensures Reversed(b) == b
  {
    hide Dec32, Bits.Pow2;
    if j <= 16 { SwapShort(b, e, j); } else if j <= 24 { SwapMiddle(b, e, j); } else { SwapLong(b, e, j); }
  }

  lemma Factored(x: nat, v: nat, n: nat, m: nat)
    requires 0 < n && x * n == m * U32 + v * n
    ensures v <= x && (x - v) * n == m * U32
  {
    assert (x - v) * n == m * U32;
    if x < v { MulBound(n, x - v); assert false; }
  }

  lemma Below(v: nat, n: nat, j: nat, f: nat)
    requires j <= 32 && n == f * Bits.Pow2(32 - j) && 0 < n && v * n < U32
    ensures v < Bits.Pow2(j)
  {
    hide Bits.Pow2;
    Powers();
    Bits.PowSum(j, 32 - j);
    if v >= Bits.Pow2(j) { AtLeast(v, Bits.Pow2(j), f, Bits.Pow2(32 - j)); assert false; }
  }

  lemma AtLeast(v: nat, p: nat, f: nat, q: nat)
    requires v >= p && 0 < f * q
    ensures v * (f * q) >= p * q
  {
    assert f >= 1;
    assert f * q == (f - 1) * q + q;
    assert v * (f * q) == p * (f * q) + (v - p) * (f * q);
    assert p * (f * q) == p * ((f - 1) * q) + p * q;
  }

  lemma XintSame(v: nat)
    requires v < U32
    ensures Xint(BigEndian, v) == Dec32(Reversed(LE32(v))) && Dec32(LE32(v)) == v
    ensures Reversed(LE32(v)) == LE32(v) <==> Xint(BigEndian, v) == v
  {
    Dec32Of(v);
    LE32Of(Reversed(LE32(v)));
  }

  /** A start read as the host reads it leads to its own place in the file just when the
      host reads its value. */
  lemma StartExact(h: Host, v: nat)
    requires v <= FSSIZE
    ensures Xint(h, v) < U32 && (Seek(BSIZE, Xint(h, v)) == Mul(v, BSIZE) <==> Xint(h, v) == v)
  {
    LE32Of(LE32(v));
    LE32Of(Reversed(LE32(v)));
    XintSame(v);
    ReadSector(v);
    MulIsTimes(v, BSIZE);
    MulIsTimes(Xint(h, v), BSIZE);
    hide LE32, Dec32;
    if h.BigEndian? && Seek(BSIZE, Xint(h, v)) == Mul(v, BSIZE) { SwapSeek(LE32(v), BSIZE); }
  }

  lemma InodeThere(h: Host, i: nat)
    requires i < NI && Xint(h, inodestart) == inodestart
    ensures InodeSector(h, i) == IBlock(i) && Seek(BSIZE, InodeSector(h, i)) == Mul(IBlock(i), BSIZE)
  {
    hide Xint, Mul, Seek;
    InodePlace(i);
    ReadSector(IBlock(i));
  }

  lemma FirstInode(h: Host)
    ensures 0 < NI && IBlock(0) == inodestart && (Xint(h, inodestart) < U32 ==> InodeSector(h, 0) == Xint(h, inodestart))
  {
    hide Xint;
    TableEnds();
  }

  /** Byte offset of the sector that rinode and winode read and write. */
  function InodeAt(h: Host, i: nat): nat { Seek(BSIZE, InodeSector(h, i)) }

  /** What a full-length file stands for. */
  ghost function Means(file: seq<byte>, freeblock: nat, freeinode: nat): (fs: Fs)
    requires |file| == Mul(FSSIZE, BSIZE)
    ensures Shape(fs)
  {
    Meaning(Sectors(file), freeblock, freeinode)
  }

  /** In a full-length image an inode is read from the table of the layout. */
  lemma InodeRead(file: seq<byte>, h: Host, i: nat, freeblock: nat, freeinode: nat)
    requires |file| == Mul(FSSIZE, BSIZE) && i < NI && Xint(h, inodestart) == inodestart
    ensures InodeAt(h, i) + BSIZE <= |file| && IOffset(i) + DSIZE <= BSIZE
    ensures Decode(file[InodeAt(h, i) + IOffset(i)..InodeAt(h, i) + IOffset(i) + DSIZE]) == Means(file, freeblock, freeinode).inodes[i]
  {
    hide Decode, Xint, Seek, InodeSector, IOffset;
    InodePlace(i);
    InodeThere(h, i);
    ReadSector(IBlock(i));
    var at := InodeAt(h, i);
    assert Sectors(file)[IBlock(i)] == file[at..at + BSIZE];
    SliceSlice(file, at, Sectors(file)[IBlock(i)], IOffset(i), DSIZE);
  }

  /** And written there, with nothing else changed. */
  lemma InodeWritten(file: seq<byte>, h: Host, i: nat, d: Dinode, freeblock: nat, freeinode: nat)
    requires |file| == Mul(FSSIZE, BSIZE) && i < NI && Xint(h, inodestart) == inodestart && Fitting(d)
    ensures InodeAt(h, i) + BSIZE <= |file| && IOffset(i) + DSIZE <= BSIZE
    ensures var r := WriteAt(file, InodeAt(h, i) + IOffset(i), Encode(d)); var fs := Means(file, freeblock, freeinode);
      |r| == |file| && Means(r, freeblock, freeinode) == fs.(inodes := fs.inodes[i := d])
  {
    hide Decode, Encode, Xint, Seek, InodeSector, IOffset, Inodes, Blocks, Sectors, WriteAt;
    InodePlace(i);
    InodeThere(h, i);
    ReadSector(IBlock(i));
    var at := InodeAt(h, i);
    WritePart(file, at, IOffset(i), Encode(d));
    assert Sectors(file)[IBlock(i)] == file[at..at + BSIZE];
    WriteSector(file, IBlock(i), Splice(Sectors(file)[IBlock(i)], IOffset(i), Encode(d)));
    WriteInodeMeans(Sectors(file), i, d);
  }

  /** ialloc's write, the counter raised. */
  lemma Allocated(file: seq<byte>, r: seq<byte>, h: Host, freeblock: nat, n: nat, typ: nat)
    requires |file| == Mul(FSSIZE, BSIZE) && n < NI && Xint(h, inodestart) == inodestart && typ < 65536
    requires r == WriteAt(file, InodeAt(h, n) + IOffset(n), Encode(Empty(typ)))
    ensures InodeAt(h, n) + BSIZE <= |file| == |r| && (n + 1) % U32 == n + 1 && Means(file, freeblock, n).freeinode == n
    ensures Means(r, freeblock, n + 1) == MkfsSpec.Ialloc(Means(file, freeblock, n), typ)
  {
    FewInodes();
    hide Encode, Xint, Seek, InodeSector, IOffset, Inodes, Blocks, Sectors, WriteAt, Mul, Div, Mod;
    InodeWritten(file, h, n, Empty(typ), freeblock, n);
  }

  /** On any host inodes are written where the layout has them exactly when inodestart reads
      the same in the host's byte order, and the bitmap exactly when bmapstart does. */
  lemma PlacedExact(h: Host)
    ensures (forall i :: 0 <= i < NI ==> Seek(BSIZE, InodeSector(h, i)) == Mul(IBlock(i), BSIZE)) <==> Xint(h, inodestart) == inodestart
    ensures Seek(BSIZE, BitmapSector(h)) == Mul(bmapstart, BSIZE) <==> Xint(h, bmapstart) == bmapstart
  {
    hide Xint, Mul, Seek, InodeSector, IBlock;
    StartExact(h, inodestart);
    StartExact(h, bmapstart);
    FirstInode(h);
    if Xint(h, inodestart) == inodestart {
      forall i | 0 <= i < NI ensures Seek(BSIZE, InodeSector(h, i)) == Mul(IBlock(i), BSIZE) { InodeThere(h, i); }
    }
  }

  /** So it is on every host of RISC-V's byte order, and on no other while the log is
      shorter than 65790 blocks. */
  lemma HostsPlaced(h: Host)
    ensures h.LittleEndian? ==> WellPlaced(h)
    ensures h.BigEndian? && inodestart < 65792 ==> !WellPlaced(h)
  {
    Dec32Of(inodestart);
    Dec32Of(bmapstart);
    if h.BigEndian? && Xint(h, inodestart) == inodestart {
      XintSame(inodestart);
      hide Dec32, LE32;
      Palindrome(LE32(inodestart));
    }
  }

  lemma Palindrome(b: byte4)
    requires Reversed(b) == b && Dec32(b) > 0
    ensures Dec32(b) >= 65792
  {
    assert b[0] == Reversed(b)[0] && b[1] == Reversed(b)[1];
  }

  lemma TopByte(v: nat)
    requires v < 256
    ensures Xint(BigEndian, v) == 0x100_0000 * v
  {
    assert LE32(v) == [v, 0, 0, 0];
  }

  lemma Wrapped(q: nat, v: nat)
    requires q < 256 && v < 256
    ensures (q + 0x100_0000 * v) % U32 == q + 0x100_0000 * v && Seek(1024, q + 0x100_0000 * v) == 1024 * q
  {
    hide Mul;
    MulIsTimes(q + 0x100_0000 * v, 1024);
    DivModUnique(1024 * q + U32 * (4 * v), U32, 4 * v, 1024 * q);
  }

  /** With 1024-byte blocks and starts below 256 a big-endian host writes the inode table
      from the boot block on, over the superblock, and the bitmap on the boot block. */
  lemma BigEndianOverlays(i: nat)
    requires BSIZE == 1024 && bmapstart < 256 && i < NI
    ensures Seek(BSIZE, InodeSector(BigEndian, i)) == Mul(Div(i, IPB), BSIZE)
    ensures Seek(BSIZE, BitmapSector(BigEndian)) == 0
  {
    InodePlace(i);
    hide Seek, Xint, Mul;
    TopByte(inodestart);
    TopByte(bmapstart);
    Wrapped(Div(i, IPB), inodestart);
    Wrapped(0, bmapstart);
    MulIsTimes(Div(i, IPB), 1024);
  }
}
