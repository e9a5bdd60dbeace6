/** The disk image as bytes: where mkfs puts inodes, how an inode is encoded, and what a
    sequence of raw blocks means as an MkfsSpec.Fs. */
module MkfsLayout {
  import opened Common
  import opened Arith
  import opened MkfsSpec

  // ---- byte order ------------------------------------------------------------------------

  /** Byte order of the machine mkfs runs on. */
  datatype Host = LittleEndian | BigEndian

  function LE16(v: nat): (b: seq<byte>)
    ensures |b| == 2
  {
    [v % 256, v / 256 % 256]
  }

  function Dec16(b: seq<byte>): nat
    requires |b| == 2
  {
    b[0] as nat + 256 * b[1] as nat
  }

  /** A uint loaded from its bytes by the host. */
  function Load(h: Host, b: seq<byte>): nat
    requires |b| == 4
  {
    if h.LittleEndian? then Dec32(b) else Dec32([b[3], b[2], b[1], b[0]])
  }

  function Store(h: Host, v: nat): (b: seq<byte>)
    ensures |b| == 4
  {
    var b := LE32(v);
    if h.LittleEndian? then b else [b[3], b[2], b[1], b[0]]
  }

  function Load16(h: Host, b: seq<byte>): nat
    requires |b| == 2
  {
    if h.LittleEndian? then Dec16(b) else Dec16([b[1], b[0]])
  }

  function Store16(h: Host, v: nat): (b: seq<byte>)
    ensures |b| == 2
  {
    var b := LE16(v);
    if h.LittleEndian? then b else [b[1], b[0]]
  }

  /** xint: bytes a[0..3] of the result are x's bytes from the low end up. */
  function Xint(h: Host, x: nat): nat { Load(h, LE32(x)) }

  function Xshort(h: Host, x: nat): nat { Load16(h, LE16(x)) }

  /** On either kind of host, a field set with xint is stored least significant byte first,
      and xint of such a field is its value: xint converts both ways. */
  lemma XintBothWays(h: Host, v: nat)
    requires v < U32
    ensures Store(h, Xint(h, v)) == LE32(v)
    ensures var b := Store(h, Xint(h, v)); v == b[0] as nat + 0x100 * b[1] as nat + 0x1_0000 * b[2] as nat + 0x100_0000 * b[3] as nat
    ensures Xint(h, Load(h, LE32(v))) == v
  {
    var b := LE32(v);
    var r := [b[3], b[2], b[1], b[0]];
    LE32Of(b);
    LE32Of(r);
    Dec32Of(v);
    if h.BigEndian? {
      assert [r[3], r[2], r[1], r[0]] == b;
      assert LE32(Dec32(r)) == r;
    }
  }

  lemma XshortBothWays(h: Host, v: nat)
    requires v < 65536
    ensures Store16(h, Xshort(h, v)) == LE16(v)
    ensures var b := Store16(h, Xshort(h, v)); v == b[0] as nat + 0x100 * b[1] as nat
    ensures Xshort(h, Load16(h, LE16(v))) == v
  {
    var b := LE16(v);
    LE16Of(b);
    LE16Of([b[1], b[0]]);
    if h.BigEndian? { assert [[b[1], b[0]][1], [b[1], b[0]][0]] == b; }
  }

  lemma LE16Of(b: seq<byte>)
    requires |b| == 2
    ensures LE16(Dec16(b)) == b && Dec16(b) < 65536
  {
  }

  // ---- inodes in blocks --------------------------------------------------------------------

  function Words(a: seq<nat>): (b: seq<byte>)
    ensures |b| == 4 * |a|
  {
    if a == [] then [] else Words(a[..|a| - 1]) + LE32(a[|a| - 1])
  }

  lemma {:induction false} WordsAt(a: seq<nat>, k: nat)
    requires k < |a|
    ensures Words(a)[4 * k..4 * k + 4] == LE32(a[k])
  {
    var front := a[..|a| - 1];
    if k < |a| - 1 {
      WordsAt(front, k);
      assert Words(a)[4 * k..4 * k + 4] == Words(front)[4 * k..4 * k + 4];
    }
  }

  /** struct dinode. */
  function Encode(d: Dinode): (b: seq<byte>)
    requires |d.addrs| == NDIRECT + 1
    ensures |b| == DSIZE
  {
    LE16(d.typ) + LE16(d.major) + LE16(d.minor) + LE16(d.nlink) + LE32(d.size) + Words(d.addrs)
  }

  function Decode(b: seq<byte>): (d: Dinode)
    requires |b| == DSIZE
    ensures |d.addrs| == NDIRECT + 1
  {
    Dinode(Dec16(b[0..2]), Dec16(b[2..4]), Dec16(b[4..6]), Dec16(b[6..8]), Dec32(b[8..12]),
           seq(NDIRECT + 1, k requires 0 <= k < NDIRECT + 1 => Dec32(b[12 + 4 * k..16 + 4 * k])))
  }

  /** The fields are within their widths. */
  ghost predicate Fitting(d: Dinode) {
    && d.typ < 65536 && d.major < 65536 && d.minor < 65536 && d.nlink < 65536 && d.size < U32
    && |d.addrs| == NDIRECT + 1 && forall k :: 0 <= k <= NDIRECT ==> d.addrs[k] < U32
  }

  lemma EncodedHead(d: Dinode)
    requires Fitting(d)
    ensures var b := Encode(d);
      b[0..2] == LE16(d.typ) && b[2..4] == LE16(d.major) && b[4..6] == LE16(d.minor) && b[6..8] == LE16(d.nlink)
      && b[8..12] == LE32(d.size) && b[12..] == Words(d.addrs)
  {
    hide LE16, LE32, Words;
  }

  lemma EncodedAddr(d: Dinode, k: nat)
    requires Fitting(d) && k <= NDIRECT
    ensures Dec32(Encode(d)[12 + 4 * k..16 + 4 * k]) == d.addrs[k]
  {
    EncodedHead(d);
    WordsAt(d.addrs, k);
    Dec32Of(d.addrs[k]);
    hide Encode, Dec32, LE32, Words;
    assert Encode(d)[12 + 4 * k..16 + 4 * k] == Encode(d)[12..][4 * k..4 * k + 4];
  }

  lemma Dec16Of(v: nat)
    requires v < 65536
    ensures Dec16(LE16(v)) == v
  {
    assert v == 256 * (v / 256) + v % 256;
  }

  lemma DecodedHead(d: Dinode)
    requires Fitting(d)
    ensures var r := Decode(Encode(d));
      r.typ == d.typ && r.major == d.major && r.minor == d.minor && r.nlink == d.nlink && r.size == d.size
  {
    EncodedHead(d);
    Dec16Of(d.typ);
    Dec16Of(d.major);
    Dec16Of(d.minor);
    Dec16Of(d.nlink);
    Dec32Of(d.size);
    hide Encode, Dec32, LE32, Dec16, LE16, Words;
  }

  lemma EncodeDecode(d: Dinode)
    requires Fitting(d)
    ensures Decode(Encode(d)) == d
  {
    DecodedHead(d);
    forall k | 0 <= k <= NDIRECT ensures Decode(Encode(d)).addrs[k] == d.addrs[k] { EncodedAddr(d, k); }
    hide Encode, Dec32, LE32, Dec16, LE16, Words;
    assert Decode(Encode(d)).addrs == d.addrs;
  }

  lemma DecodeFits(b: seq<byte>)
    requires |b| == DSIZE
    ensures Fitting(Decode(b))
  {
    LE16Of(b[0..2]);
    LE16Of(b[2..4]);
    LE16Of(b[4..6]);
    LE16Of(b[6..8]);
    LE32Of(b[8..12]);
    forall k | 0 <= k <= NDIRECT ensures Decode(b).addrs[k] < U32 { LE32Of(b[12 + 4 * k..16 + 4 * k]); }
  }

  /** IBLOCK. */
  function IBlock(i: nat): nat { Div(i, IPB) + inodestart }

  /** Where in that block the inode starts. */
  function IOffset(i: nat): nat { Mul(Mod(i, IPB), DSIZE) }

  /** Blocks of the inode table. */
  predicate InTable(x: nat) { inodestart <= x < bmapstart }

  lemma InodePlace(i: nat)
    requires i < NI
    ensures InTable(IBlock(i)) && IBlock(i) < FSSIZE && IOffset(i) + DSIZE <= BSIZE
  {
    DivMod(i, IPB);
    if ninodeblocks <= Div(i, IPB) { assert false by { TableMonotone(ninodeblocks, Div(i, IPB)); } }
    MulMonotone(Mod(i, IPB), IPB, DSIZE);
  }

  lemma TableMonotone(a: nat, b: nat)
    requires a <= b
    ensures Mul(a, IPB) <= Mul(b, IPB)
  {
    if a < b { MulMonotone(a, b, IPB); }
  }

  /** Two inodes have separate bytes. */
  lemma InodesApart(i: nat, j: nat)
    requires i < NI && j < NI && i != j
    ensures IBlock(i) != IBlock(j) || IOffset(i) + DSIZE <= IOffset(j) || IOffset(j) + DSIZE <= IOffset(i)
  {
    if IBlock(i) == IBlock(j) {
      DivMod(i, IPB);
      DivMod(j, IPB);
      if Mod(i, IPB) < Mod(j, IPB) { MulMonotone(Mod(i, IPB), Mod(j, IPB), DSIZE); } else { MulMonotone(Mod(j, IPB), Mod(i, IPB), DSIZE); }
    }
  }

  function Zeroes(): (b: Block)
    ensures forall o :: 0 <= o < BSIZE ==> b[o] == 0
  {
    seq(BSIZE, _ => 0)
  }

  function ReadInode(img: seq<Block>, i: nat): (d: Dinode)
    requires |img| == FSSIZE && i < NI
    ensures |d.addrs| == NDIRECT + 1
  {
    InodePlace(i);
    Decode(img[IBlock(i)][IOffset(i)..IOffset(i) + DSIZE])
  }

  function WriteInode(img: seq<Block>, i: nat, d: Dinode): (r: seq<Block>)
    requires |img| == FSSIZE && i < NI && |d.addrs| == NDIRECT + 1
    ensures |r| == FSSIZE
  {
    InodePlace(i);
    img[IBlock(i) := Splice(img[IBlock(i)], IOffset(i), Encode(d))]
  }

  ghost function Inodes(img: seq<Block>): (s: seq<Dinode>)
    requires |img| == FSSIZE
    ensures |s| == NI && forall i :: 0 <= i < NI ==> s[i] == ReadInode(img, i)
  {
    seq(NI, i requires 0 <= i < NI => ReadInode(img, i))
  }

  ghost function Outside(img: seq<Block>, x: nat): Block
    requires x < |img|
  {
    if InTable(x) then Zeroes() else img[x]
  }

  /** The blocks outside the inode table. */
  ghost function Blocks(img: seq<Block>): (s: seq<Block>)
    requires |img| == FSSIZE
    ensures |s| == FSSIZE && forall x :: 0 <= x < FSSIZE ==> s[x] == Outside(img, x)
  {
    seq(FSSIZE, x requires 0 <= x < FSSIZE => Outside(img, x))
  }

  ghost function Meaning(img: seq<Block>, freeblock: nat, freeinode: nat): (fs: Fs)
    requires |img| == FSSIZE
    ensures Shape(fs)
  {
    Fs(Inodes(img), Blocks(img), freeblock, freeinode)
  }

  /** winode sets one inode and nothing else. */
  lemma WriteInodeMeans(img: seq<Block>, i: nat, d: Dinode)
    requires |img| == FSSIZE && i < NI && Fitting(d)
    ensures Inodes(WriteInode(img, i, d)) == Inodes(img)[i := d] && Blocks(WriteInode(img, i, d)) == Blocks(img)
  {
    var r := WriteInode(img, i, d);
    InodePlace(i);
    forall j | 0 <= j < NI ensures ReadInode(r, j) == if j == i then d else ReadInode(img, j) {
      InodePlace(j);
      if j == i {
        SpliceInside(img[IBlock(i)], IOffset(i), Encode(d));
        EncodeDecode(d);
      } else {
        InodesApart(i, j);
        if IBlock(i) == IBlock(j) { SpliceOutside(img[IBlock(i)], IOffset(i), Encode(d), IOffset(j), DSIZE); }
      }
    }
    assert Inodes(r) == Inodes(img)[i := d];
    assert Blocks(r) == Blocks(img);
  }

  /** wsect outside the inode table sets one block and nothing else. */
  lemma WriteBlockMeans(img: seq<Block>, x: nat, b: Block)
    requires |img| == FSSIZE && x < FSSIZE && !InTable(x)
    ensures Inodes(img[x := b]) == Inodes(img) && Blocks(img[x := b]) == Blocks(img)[x := b]
  {
    var r := img[x := b];
    forall i | 0 <= i < NI ensures ReadInode(r, i) == ReadInode(img, i) { InodePlace(i); }
    assert Inodes(r) == Inodes(img);
    assert Blocks(r) == Blocks(img)[x := b];
  }

  lemma MulWider(k: nat, d: nat, e: nat)
    requires d <= e
    ensures Mul(k, d) <= Mul(k, e)
  {
  }

  /** Inode numbers of the table fit 32 bits. */
  lemma FewInodes()
    ensures NI < U32
  {
    MulWider(IPB, 1, DSIZE);
    MulIsTimes(IPB, 1);
    MulWider(ninodeblocks, IPB, BSIZE);
    MulMonotone(ninodeblocks, FSSIZE, BSIZE);
  }

  /** The first number past the table has the bitmap block for its own. */
  lemma TableEnds()
    ensures IBlock(NI) == bmapstart && !InTable(IBlock(NI)) && G.ninodes < NI
  {
    DivModOf(ninodeblocks, IPB, 0);
    DivMod(G.ninodes, IPB);
  }

  /** An inode number beyond the table lands in the bitmap or the data, which ialloc does
      not check for: its write is to the inode table exactly for numbers below NI. */
  lemma TableExact(i: nat)
    ensures InTable(IBlock(i)) <==> i < NI
  {
    if i < NI {
      InodePlace(i);
    } else {
      DivMod(i, IPB);
      if Div(i, IPB) < ninodeblocks { MulMonotone(Div(i, IPB), ninodeblocks, IPB); }
    }
  }
}
