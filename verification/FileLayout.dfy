/** The on-disk format of kernel/fs.h: superblock geometry, the free bitmap, inodes in their
    blocks, and the block numbers kept in inodes and indirect blocks. */
module FileLayout {
  import opened Bytes

  const NDIRECT: nat := 12
  const NINDIRECT: nat := 256         // BSIZE / sizeof(uint)
  const MAXFILE: nat := 268           // NDIRECT + NINDIRECT
  const MAXBYTES: nat := 274432       // MAXFILE * BSIZE
  const BPB: nat := 8192              // BSIZE * 8
  const IPB: nat := 16                // BSIZE / sizeof(struct dinode)

  /** The part of the superblock the file layer uses; `data` is the first data block. */
  datatype Super = Super(size: nat, ninodes: nat, inodestart: nat, bmapstart: nat, data: nat) {
    predicate Wf() {
      && 0 < inodestart && inodestart + (ninodes + IPB - 1) / IPB <= bmapstart
      && bmapstart + (size + BPB - 1) / BPB <= data <= size < U32_LIMIT
    }

    /** IBLOCK(i, sb) */
    function InodeBlock(i: nat): nat { i / IPB + inodestart }

    /** BBLOCK(b, sb) */
    function BitmapBlock(b: nat): nat { b / BPB + bmapstart }
  }

  lemma InodeBlockPlace(sb: Super, i: nat)
    requires sb.Wf() && i < sb.ninodes
    ensures 0 < sb.InodeBlock(i) < sb.bmapstart <= sb.size
  {
  }

  lemma BitmapBlockPlace(sb: Super, b: nat)
    requires sb.Wf() && b < sb.size
    ensures sb.bmapstart <= sb.BitmapBlock(b) < sb.data
  {
  }

  // ---------------------------------------------------------------------------
  // Bits
  // ---------------------------------------------------------------------------

  /** (v >> j) & 1 */
  predicate BitOf(v: nat, j: nat) {
    if j == 0 then v % 2 == 1 else BitOf(v / 2, j - 1)
  }

  /** v with bit j set to x: v | (1 << j) or v & ~(1 << j). */
  function WithBit(v: nat, j: nat, x: bool): (r: nat)
    ensures forall k: nat :: BitOf(r, k) == if k == j then x else BitOf(v, k)
  {
    if j == 0 then v / 2 * 2 + (if x then 1 else 0)
    else
      var r := v % 2 + 2 * WithBit(v / 2, j - 1, x);
      assert r % 2 == v % 2 && r / 2 == WithBit(v / 2, j - 1, x);
      r
  }

  function Power2(n: nat): (r: nat)
    ensures r > 0
  {
    if n == 0 then 1 else 2 * Power2(n - 1)
  }

  lemma {:induction false} WithBitFits(v: nat, j: nat, x: bool, n: nat)
    requires j < n && v < Power2(n)
    ensures WithBit(v, j, x) < Power2(n)
  {
    if j > 0 { WithBitFits(v / 2, j - 1, x, n - 1); }
  }

  /** Bit k of a bitmap block. */
  predicate BitAt(b: Block, k: nat)
    requires k < BPB
  {
    BitOf(b[k / 8], k % 8)
  }

  /** data[k / 8] |= 1 << (k % 8), or &= of the complement. */
  function PutBit(b: Block, k: nat, x: bool): (r: Block)
    requires k < BPB
    ensures forall j | 0 <= j < BPB :: BitAt(r, j) == if j == k then x else BitAt(b, j)
  {
    WithBitFits(b[k / 8], k % 8, x, 8);
    assert Power2(8) == 256;
    b[k / 8 := WithBit(b[k / 8], k % 8, x)]
  }

  // ---------------------------------------------------------------------------
  // Inodes
  // ---------------------------------------------------------------------------

  /** struct dinode; `kind` is its type, and the shorts are taken as bit patterns. */
  datatype Inode = Inode(kind: nat, major: nat, minor: nat, nlink: nat, size: nat, addrs: seq<nat>) {
    predicate Wf() {
      && kind < 0x1_0000 && major < 0x1_0000 && minor < 0x1_0000 && nlink < 0x1_0000
      && size < U32_LIMIT
      && |addrs| == NDIRECT + 1 && (forall k | 0 <= k < |addrs| :: addrs[k] < U32_LIMIT)
    }
  }

  /** The sixteen words of a dinode. */
  function InodeWords(d: Inode): (w: seq<nat>)
    requires d.Wf()
    ensures |w| == 16 && forall k | 0 <= k < 16 :: w[k] < U32_LIMIT
  {
    [d.kind + 0x1_0000 * d.major, d.minor + 0x1_0000 * d.nlink, d.size] + d.addrs
  }

  function InodeFrom(w: seq<nat>): (d: Inode)
    requires |w| == 16 && forall k | 0 <= k < 16 :: w[k] < U32_LIMIT
    ensures d.Wf()
  {
    Inode(w[0] % 0x1_0000, w[0] / 0x1_0000, w[1] % 0x1_0000, w[1] / 0x1_0000, w[2], w[3..])
  }

  function WordsAt(b: Block, k: nat): (w: seq<nat>)
    requires k < IPB
    ensures |w| == 16 && forall j | 0 <= j < 16 :: w[j] == GetU32(b, 16 * k + j) < U32_LIMIT
  {
    seq<nat>(16, j requires 0 <= j < 16 => GetU32(b, 16 * k + j))
  }

  /** ((struct dinode*)data)[k] */
  function InodeAt(b: Block, k: nat): (d: Inode)
    requires k < IPB
    ensures d.Wf()
  {
    InodeFrom(WordsAt(b, k))
  }

  /** ((struct dinode*)data)[k] = d */
  function PutInode(b: Block, k: nat, d: Inode): (r: Block)
    requires k < IPB && d.Wf()
    ensures forall j | 0 <= j < IPB :: InodeAt(r, j) == if j == k then d else InodeAt(b, j)
  {
    var r := PutWords(b, 16 * k, InodeWords(d));
    PutInodeAt(b, k, d, r);
    r
  }

  lemma InodeRoundTrip(d: Inode)
    requires d.Wf()
    ensures InodeFrom(InodeWords(d)) == d
  {
    assert InodeWords(d)[3..] == d.addrs;
  }

  lemma PutInodeAt(b: Block, k: nat, d: Inode, r: Block)
    requires k < IPB && d.Wf() && r == PutWords(b, 16 * k, InodeWords(d))
    ensures forall j | 0 <= j < IPB :: InodeAt(r, j) == if j == k then d else InodeAt(b, j)
  {
    forall j | 0 <= j < IPB ensures InodeAt(r, j) == if j == k then d else InodeAt(b, j) {
      if j == k {
        assert WordsAt(r, k) == InodeWords(d);
        InodeRoundTrip(d);
      } else {
        assert WordsAt(r, j) == WordsAt(b, j);
      }
    }
  }
}
