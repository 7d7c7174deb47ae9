/** itrunc of kernel/fs.c, and the chunk loop of filewrite in kernel/file.c. */
module FileTrunc {
  import opened Bytes
  import opened FileLayout
  import opened FileBlocks
  import opened FileCode
  import opened FileIo

  // ---------------------------------------------------------------------------
  // Truncation
  // ---------------------------------------------------------------------------

  /** In the middle of itrunc: file i has lost blocks, everything else is in order. */
  ghost predicate Cutting(sb: Super, b0: seq<Block>, i0: seq<Inode>, b1: seq<Block>, i1: seq<Inode>, owner: Owners, hand: set<nat>, i: nat) {
    && FsCore(sb, b1, i1, owner, hand) && i < |i1|
    && WfInodes(i0)
    && OtherFiles(b0, i0, b1, i1, i)
    && BackedBut(b1, i1, i)
    && StoredBut(sb, b1, i1, i)
  }

  lemma CutStored(sb: Super, blocks: seq<Block>, inodes: seq<Inode>, i: nat, k: nat)
    requires sb.Wf() && |blocks| == sb.size && |inodes| == sb.ninodes && WfInodes(inodes) && i < |inodes| && k <= NDIRECT
    requires StoredBut(sb, blocks, inodes, i)
    ensures StoredBut(sb, blocks, SetAddr(inodes, i, k, 0), i)
  {
    forall j: nat | j < sb.ninodes && j != i ensures StoredAt(sb, blocks, SetAddr(inodes, i, k, 0), j) { assert StoredAt(sb, blocks, inodes, j); }
  }

  lemma CutOneDirect(sb: Super, b0: seq<Block>, i0: seq<Inode>, b1: seq<Block>, i1: seq<Inode>, owner: Owners, i: nat, k: nat)
    requires Cutting(sb, b0, i0, b1, i1, owner, {}, i) && k < NDIRECT && i1[i].addrs[k] != 0
    ensures var b := i1[i].addrs[k];
      && b in owner && b < sb.size && owner[b] == Direct(i, k)
      && Cutting(sb, b0, i0, b1, SetAddr(i1, i, k, 0), owner - {b}, {b}, i)
  {
    hide Owned, Marked, InHand, StoredBut, FileBlock;
    var b := i1[i].addrs[k];
    CutDirect(sb, b1, i1, owner, {}, i, k);
    DirectOwner(sb, b1, i1, owner, i, k);
    assert {} + {b} == {b};
    CutStored(sb, b1, i1, i, k);
  }

  lemma DirectOwner(sb: Super, blocks: seq<Block>, inodes: seq<Inode>, owner: Owners, i: nat, k: nat)
    requires FsCore(sb, blocks, inodes, owner, {}) && i < |inodes| && k < NDIRECT && inodes[i].addrs[k] != 0
    ensures inodes[i].addrs[k] in owner && owner[inodes[i].addrs[k]] == Direct(i, k)
  {
    assert Addr(blocks, inodes, Direct(i, k)) == inodes[i].addrs[k];
  }

  lemma FreeInHand(sb: Super, b0: seq<Block>, i0: seq<Inode>, b1: seq<Block>, i1: seq<Inode>, owner: Owners, hand: set<nat>, i: nat, b: nat)
    requires Cutting(sb, b0, i0, b1, i1, owner, hand, i) && b in hand
    ensures b < sb.size && Used(sb, b1, b) && sb.data <= b
    ensures Cutting(sb, b0, i0, Bitmap(sb, b1, b, false), i1, owner, hand - {b}, i)
  {
    hide Addr, Used, FileBlock, StoredAt;
    var b2 := Bitmap(sb, b1, b, false);
    Returned(sb, b1, i1, owner, hand, b);
    BitmapBlockPlace(sb, b);
    BitmapStored(sb, b1, i1, i, b);
    forall j: nat, n: nat | j < |i1| && j != i && n < MAXFILE && n * BSIZE < Size(i1, j) ensures Addr(b2, i1, SlotOf(j, n)) != 0 {
      assert IsSlot(|i1|, SlotOf(j, n));
    }
  }

  lemma BitmapStored(sb: Super, blocks: seq<Block>, inodes: seq<Inode>, i: nat, b: nat)
    requires sb.Wf() && |blocks| == sb.size && |inodes| == sb.ninodes && StoredBut(sb, blocks, inodes, i) && b < sb.size
    ensures StoredBut(sb, Bitmap(sb, blocks, b, false), inodes, i)
  {
    var blocks' := Bitmap(sb, blocks, b, false);
    BitmapBlockPlace(sb, b);
    forall j: nat | j < sb.ninodes && j != i ensures StoredAt(sb, blocks', inodes, j) {
      InodeBlockPlace(sb, j);
      assert StoredAt(sb, blocks, inodes, j);
    }
  }

  /** The blocks of file i. */
  ghost function PartOf(owner: Owners, i: nat): set<nat> {
    set b | b in owner && owner[b].i == i
  }

  /** The first loop of itrunc. */
  method FreeDirect(fs: FileSystem, i: nat, ghost b0: seq<Block>, ghost i0: seq<Inode>)
    requires Cutting(fs.sb, b0, i0, fs.blocks, fs.inodes, fs.owner, {}, i)
    modifies fs`blocks, fs`inodes, fs`owner, fs`logged
    ensures Cutting(fs.sb, b0, i0, fs.blocks, fs.inodes, fs.owner, {}, i)
    ensures forall k | 0 <= k < NDIRECT :: fs.inodes[i].addrs[k] == 0
    ensures fs.inodes == old(fs.inodes)[i := old(fs.inodes)[i].(addrs := fs.inodes[i].addrs)]
    ensures fs.inodes[i].addrs[NDIRECT] == old(fs.inodes)[i].addrs[NDIRECT]
    ensures fs.owner == Minus(old(fs.owner), i, NDIRECT)
  {
    hide Owned, Marked, InHand, StoredBut, FileBlock, OtherFiles, BackedBut, Used;
    var k := 0;
    assert fs.inodes == fs.inodes[i := fs.inodes[i].(addrs := fs.inodes[i].addrs)];
    assert fs.owner == Minus(fs.owner, i, 0);
    while k < NDIRECT
      invariant 0 <= k <= NDIRECT
      invariant Cutting(fs.sb, b0, i0, fs.blocks, fs.inodes, fs.owner, {}, i)
      invariant forall j | 0 <= j < k :: fs.inodes[i].addrs[j] == 0
      invariant fs.inodes == old(fs.inodes)[i := old(fs.inodes)[i].(addrs := fs.inodes[i].addrs)]
      invariant fs.inodes[i].addrs[NDIRECT] == old(fs.inodes)[i].addrs[NDIRECT]
      invariant fs.owner == Minus(old(fs.owner), i, k)
    {
      if fs.inodes[i].addrs[k] != 0 {
        var b := fs.inodes[i].addrs[k];
        CutOneDirect(fs.sb, b0, i0, fs.blocks, fs.inodes, fs.owner, i, k);
        ghost var cut := SetAddr(fs.inodes, i, k, 0);
        MinusOne(fs.sb, fs.blocks, fs.inodes, fs.owner, old(fs.owner), i, k, b);
        fs.owner := fs.owner - {b};
        FreeInHand(fs.sb, b0, i0, fs.blocks, cut, fs.owner, {b}, i, b);
        assert {b} - {b} == {};
        fs.Bfree(b);
        fs.inodes := SetAddr(fs.inodes, i, k, 0);
      } else {
        MinusNone(fs.sb, fs.blocks, fs.inodes, fs.owner, old(fs.owner), i, k);
      }
      k := k + 1;
    }
  }

  /** The owners without the direct blocks of file i below k. */
  ghost function Minus(owner: Owners, i: nat, k: nat): Owners {
    map b | b in owner && !(owner[b].i == i && owner[b].Direct? && owner[b].k < k) :: owner[b]
  }

  lemma MinusOne(sb: Super, blocks: seq<Block>, inodes: seq<Inode>, owner: Owners, owner0: Owners, i: nat, k: nat, b: nat)
    requires FsCore(sb, blocks, inodes, owner, {}) && i < |inodes| && k < NDIRECT && inodes[i].addrs[k] == b && b in owner && owner[b] == Direct(i, k)
    requires owner == Minus(owner0, i, k)
    ensures owner - {b} == Minus(owner0, i, k + 1)
  {
    forall c | c in owner0 && owner0[c] == Direct(i, k) ensures c == b { assert c in owner && Addr(blocks, inodes, owner[c]) == c; }
  }

  lemma MinusNone(sb: Super, blocks: seq<Block>, inodes: seq<Inode>, owner: Owners, owner0: Owners, i: nat, k: nat)
    requires FsCore(sb, blocks, inodes, owner, {}) && i < |inodes| && k < NDIRECT && inodes[i].addrs[k] == 0
    requires owner == Minus(owner0, i, k)
    ensures owner == Minus(owner0, i, k + 1)
  {
    forall c | c in owner ensures owner[c] != Direct(i, k) { assert Addr(blocks, inodes, owner[c]) == c; }
  }

  lemma CutIndirect(sb: Super, b0: seq<Block>, i0: seq<Inode>, b1: seq<Block>, i1: seq<Inode>, owner: Owners, i: nat)
    requires Cutting(sb, b0, i0, b1, i1, owner, {}, i) && i1[i].addrs[NDIRECT] != 0
    ensures var p, cut := i1[i].addrs[NDIRECT], SetAddr(i1, i, NDIRECT, 0);
      && p < sb.size && p !in Listed(b1[p], 0)
      && Cutting(sb, b0, i0, b1, cut, owner - IndirectPart(owner, i), Listed(b1[p], 0) + {p}, i)
      && (forall j: nat, k: nat | j < NINDIRECT && k < NINDIRECT && j != k && GetU32(b1[p], j) != 0 :: GetU32(b1[p], j) != GetU32(b1[p], k))
  {
    hide Owned, Marked, InHand, StoredBut, FileBlock, Addr, Listed;
    CutPointer(sb, b1, i1, owner, {}, i);
    IndirectBlocks(sb, b1, i1, owner, {}, i);
    assert {} + IndirectPart(owner, i) == IndirectPart(owner, i);
    CutStored(sb, b1, i1, i, NDIRECT);
  }

  /** The second part of itrunc: the entries of the indirect block, and the block itself. */
  method FreeIndirect(fs: FileSystem, i: nat, ghost b0: seq<Block>, ghost i0: seq<Inode>)
    requires Cutting(fs.sb, b0, i0, fs.blocks, fs.inodes, fs.owner, {}, i)
    modifies fs`blocks, fs`inodes, fs`owner, fs`logged
    ensures Cutting(fs.sb, b0, i0, fs.blocks, fs.inodes, fs.owner, {}, i)
    ensures fs.inodes == SetAddr(old(fs.inodes), i, NDIRECT, 0)
    ensures fs.owner == old(fs.owner) - IndirectPart(old(fs.owner), i)
  {
    hide Owned, Marked, InHand, StoredBut, FileBlock, OtherFiles, BackedBut, Used, Listed;
    var p := fs.inodes[i].addrs[NDIRECT];
    if p == 0 {
      NoIndirect(fs.sb, fs.blocks, fs.inodes, fs.owner, i);
      return;
    }
    CutIndirect(fs.sb, b0, i0, fs.blocks, fs.inodes, fs.owner, i);
    ghost var cut := SetAddr(fs.inodes, i, NDIRECT, 0);
    fs.owner := fs.owner - IndirectPart(fs.owner, i);
    var buf := fs.blocks[p];
    var j := 0;
    while j < NINDIRECT
      invariant 0 <= j <= NINDIRECT && fs.inodes == old(fs.inodes) && fs.owner == old(fs.owner) - IndirectPart(old(fs.owner), i)
      invariant Cutting(fs.sb, b0, i0, fs.blocks, cut, fs.owner, Listed(buf, j) + {p}, i)
      invariant p !in Listed(buf, j)
    {
      ListedStep(buf, j);
      var a := GetU32(buf, j);
      if a != 0 {
        FreeInHand(fs.sb, b0, i0, fs.blocks, cut, fs.owner, Listed(buf, j) + {p}, i, a);
        assert Listed(buf, j) + {p} - {a} == Listed(buf, j + 1) + {p};
        fs.Bfree(a);
      } else {
        assert Listed(buf, j) == Listed(buf, j + 1);
      }
      j := j + 1;
    }
    NothingListed(buf);
    FreeInHand(fs.sb, b0, i0, fs.blocks, cut, fs.owner, {p}, i, p);
    assert {p} - {p} == {};
    fs.Bfree(p);
    fs.inodes := SetAddr(fs.inodes, i, NDIRECT, 0);
  }

  lemma NothingListed(buf: Block)
    ensures forall p: nat :: Listed(buf, NINDIRECT) + {p} == {p}
  {
  }

  lemma NoIndirect(sb: Super, blocks: seq<Block>, inodes: seq<Inode>, owner: Owners, i: nat)
    requires FsCore(sb, blocks, inodes, owner, {}) && i < |inodes| && inodes[i].addrs[NDIRECT] == 0
    ensures owner - IndirectPart(owner, i) == owner && SetAddr(inodes, i, NDIRECT, 0) == inodes
  {
    forall b | b in owner ensures b !in IndirectPart(owner, i) { assert Addr(blocks, inodes, owner[b]) == b; }
    assert inodes[i].addrs[NDIRECT := 0] == inodes[i].addrs;
  }

  /** A file without blocks and of size 0 is in order. */
  lemma Emptied(sb: Super, b0: seq<Block>, i0: seq<Inode>, blocks: seq<Block>, inodes: seq<Inode>, owner: Owners, i: nat)
    requires Cutting(sb, b0, i0, blocks, inodes, owner, {}, i)
    ensures var inodes' := inodes[i := inodes[i].(size := 0)];
      && FsInv(sb, blocks, inodes', owner) && StoredBut(sb, blocks, inodes', i) && OtherFiles(b0, i0, blocks, inodes', i)
  {
    hide Used, Marked, FileBlock, InodeAt;
    var inodes' := inodes[i := inodes[i].(size := 0)];
    assert forall s | IsSlot(|inodes|, s) :: Addr(blocks, inodes', s) == Addr(blocks, inodes, s);
    EmptiedCore(sb, blocks, inodes, inodes', owner, i);
    forall j: nat | j < sb.ninodes && j != i ensures StoredAt(sb, blocks, inodes', j) { assert StoredAt(sb, blocks, inodes, j); }
  }

  lemma EmptiedCore(sb: Super, blocks: seq<Block>, inodes: seq<Inode>, inodes': seq<Inode>, owner: Owners, i: nat)
    requires FsCore(sb, blocks, inodes, owner, {}) && i < |inodes| && BackedBut(blocks, inodes, i)
    requires WfInodes(inodes') && inodes' == inodes[i := inodes[i].(size := 0)]
    requires forall s | IsSlot(|inodes|, s) :: Addr(blocks, inodes', s) == Addr(blocks, inodes, s)
    ensures FsInv(sb, blocks, inodes', owner) && SameFiles(blocks, inodes, blocks, inodes')
  {
    hide Addr, Used;
    assert forall j: nat, n: nat | j < |inodes| && n < MAXFILE :: IsSlot(|inodes|, SlotOf(j, n));
    assert forall j | 0 <= j < |inodes| :: Size(inodes', j) == if j == i then 0 else Size(inodes, j);
  }

  lemma StartCutting(fs: FileSystem, i: nat)
    requires fs.Valid() && i < |fs.inodes|
    ensures Cutting(fs.sb, fs.blocks, fs.inodes, fs.blocks, fs.inodes, fs.owner, {}, i)
  {
    hide Owned, Marked, InHand, Addr, FileBlock, StoredAt;
  }

  lemma PartGone(sb: Super, blocks: seq<Block>, inodes: seq<Inode>, owner0: Owners, i: nat)
    requires FsInv(sb, blocks, inodes, owner0)
    ensures var owner := Minus(owner0, i, NDIRECT);
      owner - IndirectPart(owner, i) == owner0 - PartOf(owner0, i)
  {
    hide Addr, Marked;
  }

  /** Bits are clear where they were, and where file i had its blocks. */
  lemma BitsOf(sb: Super, b0: seq<Block>, i0: seq<Inode>, owner0: Owners, b1: seq<Block>, i1: seq<Inode>, i: nat)
    requires FsInv(sb, b0, i0, owner0) && FsInv(sb, b1, i1, owner0 - PartOf(owner0, i))
    ensures forall b: nat | b < sb.size :: Used(sb, b1, b) <==> Used(sb, b0, b) && b !in PartOf(owner0, i)
  {
    hide Addr, Used, Backed;
  }

  /** itrunc: the file is empty, exactly its blocks are free again, all other files are as
      they were. No bfree it makes can find a clear bit. */
  method Itrunc(fs: FileSystem, i: nat)
    requires fs.Valid() && i < |fs.inodes|
    modifies fs
    ensures fs.Valid() && |fs.inodes| == |old(fs.inodes)|
    ensures fs.inodes == old(fs.inodes)[i := old(fs.inodes)[i].(size := 0, addrs := seq(NDIRECT + 1, _ => 0))]
    ensures fs.owner == old(fs.owner) - PartOf(old(fs.owner), i)
    ensures forall b: nat | b < fs.sb.size :: Used(fs.sb, fs.blocks, b) <==> Used(fs.sb, old(fs.blocks), b) && b !in PartOf(old(fs.owner), i)
    ensures OtherFiles(old(fs.blocks), old(fs.inodes), fs.blocks, fs.inodes, i)
  {
    hide Owned, Marked, InHand, StoredBut, FileBlock, OtherFiles, BackedBut, Used, Backed, SameFiles, IndirectPart, PartOf, Minus;
    ghost var b0, i0, o0 := fs.blocks, fs.inodes, fs.owner;
    StartCutting(fs, i);
    PartGone(fs.sb, fs.blocks, fs.inodes, fs.owner, i);
    FreeDirect(fs, i, b0, i0);
    FreeIndirect(fs, i, b0, i0);
    assert fs.inodes[i].addrs == seq(NDIRECT + 1, _ => 0);
    Emptied(fs.sb, b0, i0, fs.blocks, fs.inodes, fs.owner, i);
    fs.inodes := fs.inodes[i := fs.inodes[i].(size := 0)];
    ghost var b1 := fs.blocks;
    fs.Iupdate(i);
    BitsOf(fs.sb, b0, i0, o0, fs.blocks, fs.inodes, i);
    OtherFilesStored(b0, i0, b1, fs.blocks, fs.inodes, i);
  }

  lemma OtherFilesStored(b0: seq<Block>, i0: seq<Inode>, b1: seq<Block>, b2: seq<Block>, inodes: seq<Inode>, i: nat)
    requires WfInodes(i0) && WfInodes(inodes) && OtherFiles(b0, i0, b1, inodes, i) && SameFiles(b1, inodes, b2, inodes)
    ensures OtherFiles(b0, i0, b2, inodes, i)
  {
    hide FileBlock, Addr;
  }

  // ---------------------------------------------------------------------------
  // filewrite
  // ---------------------------------------------------------------------------

  lemma SpliceTwice(c: seq<byte>, off: nat, a: seq<byte>, b: seq<byte>)
    requires off <= |c|
    ensures Splice(Splice(c, off, a), off + |a|, b) == Splice(c, off, a + b)
  {
  }

  lemma OtherFilesTwice(b0: seq<Block>, i0: seq<Inode>, b1: seq<Block>, i1: seq<Inode>, b2: seq<Block>, i2: seq<Inode>, i: nat)
    requires WfInodes(i0) && WfInodes(i1) && WfInodes(i2) && OtherFiles(b0, i0, b1, i1, i) && OtherFiles(b1, i1, b2, i2, i)
    ensures OtherFiles(b0, i0, b2, i2, i)
  {
    hide FileBlock, Addr;
  }

  lemma SpliceNothing(c: seq<byte>, off: nat)
    requires off <= |c|
    ensures Splice(c, off, []) == c
  {
  }

  /** How much of the n bytes that are left goes into the next transaction. */
  function ChunkOf(n: nat): nat { if n > 3 * BSIZE then 3 * BSIZE else n }

  /** Why writei does not write a whole chunk. */
  lemma ShortBecause(sb: Super, b0: seq<Block>, i0: seq<Inode>, b1: seq<Block>, i1: seq<Inode>, i: nat, off: nat, src: seq<byte>, r: int)
    requires sb.Wf() && |b1| == sb.size && Plausible(i0) && Plausible(i1) && i < |i0| == |i1|
    requires WritePost(sb, b0, i0, b1, i1, i, off, src, r) && r != |src|
    ensures if r == -1 then off > Size(i0, i) || off + |src| > MAXBYTES else 0 <= r < |src| && Full(sb, b1)
  {
    hide Full, Content, OtherFiles;
  }

  /** The first n bytes of src are in file i at off, and nothing else has changed in any file. */
  ghost predicate Written(b0: seq<Block>, i0: seq<Inode>, b1: seq<Block>, i1: seq<Inode>, i: nat, off: nat, src: seq<byte>, n: nat)
    requires Plausible(i0) && Plausible(i1) && i < |i0| == |i1| && n <= |src|
  {
    if off > Size(i0, i) then n == 0 && b1 == b0 && i1 == i0
    else
      && Content(b1, i1, i) == Splice(Content(b0, i0, i), off, src[..n])
      && OtherFiles(b0, i0, b1, i1, i) && off + n <= Size(i1, i)
  }

  /** One transaction of filewrite, with the next chunk of src. */
  method WriteChunk(fs: FileSystem, i: nat, off: nat, src: seq<byte>, n: nat, ghost b0: seq<Block>, ghost i0: seq<Inode>)
    returns (r: int, ghost count: nat)
    requires fs.Valid() && i < |fs.inodes| == |i0| && n < |src| && off + n < U32_LIMIT
    requires Plausible(i0) && Plausible(fs.inodes) && Written(b0, i0, fs.blocks, fs.inodes, i, off, src, n)
    modifies fs
    ensures fs.Valid() && i < |fs.inodes| == |i0| && count <= RedoLog.MAXOPBLOCKS && Plausible(fs.inodes) && fs.sb.Wf() && |fs.blocks| == fs.sb.size
    ensures r <= ChunkOf(|src| - n) && Written(b0, i0, fs.blocks, fs.inodes, i, off, src, if r > 0 then n + r else n)
    ensures r != ChunkOf(|src| - n) ==> off > Size(i0, i) || Full(fs.sb, fs.blocks) || (r <= 0 && off + n + ChunkOf(|src| - n) > MAXBYTES)
  {
    hide Owned, Marked, InHand, Backed, FileBlock, Addr, StoredBut, OtherFiles, Full, Content, Splice;
    ghost var b1, i1 := fs.blocks, fs.inodes;
    var max := (RedoLog.MAXOPBLOCKS - 1 - 1 - 2) / 2 * BSIZE;
    var n1 := |src| - n;
    if n1 > max {
      n1 := max;
    }
    fs.logged := {};
    LoggedOnly(fs);
    r := Writei(fs, i, off + n, src[n..n + n1]);
    count := |fs.logged|;
    if r != n1 {
      ShortBecause(fs.sb, b1, i1, fs.blocks, fs.inodes, i, off + n, src[n..n + n1], r);
    }
    if off <= Size(i0, i) && r >= 0 {
      ChunkDone(b0, i0, b1, i1, fs.blocks, fs.inodes, i, off, src, n, n1, r);
    }
  }

  /** filewrite on an inode: src in chunks of at most three blocks, each its own
      transaction. The first newoff - off bytes of src are in the file at off; the result is
      |src| if that is all of them and -1 otherwise, for which there is a reason: the offset is past the
      end, the disk is full, or the next chunk would pass the largest file size. Every transaction logs
      at most MAXOPBLOCKS blocks (`most` is the largest number). */
  method FileWrite(fs: FileSystem, i: nat, off: nat, src: seq<byte>) returns (ret: int, newoff: nat, ghost most: nat)
    requires fs.Valid() && i < |fs.inodes| && off < U32_LIMIT && |src| < 0x8000_0000
    modifies fs
    ensures fs.Valid() && i < |fs.inodes| == |old(fs.inodes)|
    ensures off <= newoff <= off + |src| && ret == (if newoff == off + |src| then |src| else -1) && most <= RedoLog.MAXOPBLOCKS
    ensures off > Size(old(fs.inodes), i) ==> newoff == off && fs.blocks == old(fs.blocks) && fs.inodes == old(fs.inodes)
    ensures newoff < off + |src| ==>
      || off > Size(old(fs.inodes), i) || Full(fs.sb, fs.blocks)
      || newoff + ChunkOf(off + |src| - newoff) > MAXBYTES
    ensures off <= Size(old(fs.inodes), i) ==>
      && Content(fs.blocks, fs.inodes, i) == Splice(Content(old(fs.blocks), old(fs.inodes), i), off, src[..newoff - off])
      && OtherFiles(old(fs.blocks), old(fs.inodes), fs.blocks, fs.inodes, i)
  {
    hide Owned, Marked, InHand, Backed, FileBlock, Addr, StoredBut, OtherFiles, Full, Content, Splice;
    ghost var b0, i0 := fs.blocks, fs.inodes;
    var n := 0;
    newoff, most := off, 0;
    NothingWritten(b0, i0, i, off, src);
    while n < |src|
      invariant 0 <= n <= |src| && fs.Valid() && i < |fs.inodes| == |i0| && newoff == off + n && most <= RedoLog.MAXOPBLOCKS
      invariant Plausible(fs.inodes) && Written(b0, i0, fs.blocks, fs.inodes, i, off, src, n)
    {
      InFile(fs, b0, i0, i, off, src, n);
      ghost var count;
      var r;
      r, count := WriteChunk(fs, i, off, src, n, b0, i0);
      most := if count > most then count else most;
      if r > 0 {
        newoff := newoff + r;
      }
      if r != ChunkOf(|src| - n) {
        break;
      }
      n := n + r;
    }
    ret := if newoff == off + |src| then |src| else -1;
  }

  lemma NothingWritten(b0: seq<Block>, i0: seq<Inode>, i: nat, off: nat, src: seq<byte>)
    requires Plausible(i0) && i < |i0|
    ensures Written(b0, i0, b0, i0, i, off, src, 0)
  {
    hide Content;
    if off <= Size(i0, i) {
      SpliceNothing(Content(b0, i0, i), off);
      NothingChanged(b0, i0, i);
    }
    assert src[..0] == [];
  }

  /** The offset is a 32-bit number all the way: it does not pass the size. */
  lemma InFile(fs: FileSystem, b0: seq<Block>, i0: seq<Inode>, i: nat, off: nat, src: seq<byte>, n: nat)
    requires Plausible(i0) && Plausible(fs.inodes) && i < |i0| == |fs.inodes| && n <= |src| && off < U32_LIMIT
    requires Written(b0, i0, fs.blocks, fs.inodes, i, off, src, n)
    ensures off + n < U32_LIMIT
  {
    hide Content, OtherFiles, Splice;
  }

  lemma NothingChanged(blocks: seq<Block>, inodes: seq<Inode>, i: nat)
    requires WfInodes(inodes)
    ensures OtherFiles(blocks, inodes, blocks, inodes, i)
  {
  }

  lemma ChunkDone(b0: seq<Block>, i0: seq<Inode>, b1: seq<Block>, i1: seq<Inode>, b2: seq<Block>, i2: seq<Inode>,
                  i: nat, off: nat, src: seq<byte>, n: nat, n1: nat, r: nat)
    requires Plausible(i0) && Plausible(i1) && Plausible(i2) && i < |i0| == |i1| == |i2|
    requires r <= n1 && n + n1 <= |src| && off <= Size(i0, i) && off + n <= Size(i1, i)
    requires Content(b1, i1, i) == Splice(Content(b0, i0, i), off, src[..n]) && OtherFiles(b0, i0, b1, i1, i)
    requires Content(b2, i2, i) == Splice(Content(b1, i1, i), off + n, src[n..n + n1][..r]) && OtherFiles(b1, i1, b2, i2, i)
    ensures Content(b2, i2, i) == Splice(Content(b0, i0, i), off, src[..n + r]) && OtherFiles(b0, i0, b2, i2, i)
    ensures off + n + r <= Size(i2, i)
  {
    hide OtherFiles, FileBlock, Addr;
    SpliceTwice(Content(b0, i0, i), off, src[..n], src[n..n + n1][..r]);
    assert src[..n] + src[n..n + n1][..r] == src[..n + r];
    OtherFilesTwice(b0, i0, b1, i1, b2, i2, i);
  }

  lemma LoggedOnly(fs: FileSystem)
    requires FsInv(fs.sb, fs.blocks, fs.inodes, fs.owner) && StoredBut(fs.sb, fs.blocks, fs.inodes, fs.sb.ninodes)
    ensures fs.Valid()
  {
  }
}
