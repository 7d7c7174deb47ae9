/** readi, writei and itrunc of kernel/fs.c and the chunk loop of filewrite in kernel/file.c:
    a file is a byte string. */
module FileIo {
  import opened Bytes
  import opened Counting
  import opened FileLayout
  import opened FileBlocks
  import opened FileCode
  import RedoLog

  /** Byte k of the blocks of file i, whatever its size. */
  function FileByte(blocks: seq<Block>, inodes: seq<Inode>, i: nat, k: nat): byte
    requires WfInodes(inodes) && i < |inodes| && k < MAXBYTES
  {
    FileBlock(blocks, inodes, i, k / BSIZE)[k % BSIZE]
  }

  /** c with bytes written at off, which may extend it. */
  function Splice(c: seq<byte>, off: nat, bytes: seq<byte>): (r: seq<byte>)
    requires off <= |c|
    ensures |r| == if off + |bytes| > |c| then off + |bytes| else |c|
    ensures forall k | 0 <= k < |r| :: r[k] == if off <= k < off + |bytes| then bytes[k - off] else c[k]
  {
    c[..off] + bytes + if off + |bytes| < |c| then c[off + |bytes|..] else []
  }

  /** The blocks of file i hold what they held, with bytes at off. */
  ghost predicate Wrote(blocks: seq<Block>, inodes: seq<Inode>, blocks': seq<Block>, inodes': seq<Inode>, i: nat, off: nat, bytes: seq<byte>)
    requires WfInodes(inodes) && WfInodes(inodes') && i < |inodes| == |inodes'|
  {
    forall k: nat | k < MAXBYTES :: FileByte(blocks', inodes', i, k) == if off <= k < off + |bytes| then bytes[k - off] else FileByte(blocks, inodes, i, k)
  }

  /** All blocks of file i below byte `end` are there. */
  ghost predicate Reaches(blocks: seq<Block>, inodes: seq<Inode>, i: nat, end: nat)
    requires WfInodes(inodes) && i < |inodes|
  {
    forall n: nat | n < MAXFILE && n * BSIZE < end :: Addr(blocks, inodes, SlotOf(i, n)) != 0
  }

  // ---------------------------------------------------------------------------
  // Reading
  // ---------------------------------------------------------------------------

  lemma SizeReaches(sb: Super, blocks: seq<Block>, inodes: seq<Inode>, owner: Owners, i: nat)
    requires FsInv(sb, blocks, inodes, owner) && i < |inodes|
    ensures Reaches(blocks, inodes, i, Size(inodes, i)) && Size(inodes, i) <= MAXBYTES
  {
    hide Owned, Marked, InHand, Addr;
  }

  lemma AddrPlace(sb: Super, blocks: seq<Block>, inodes: seq<Inode>, owner: Owners, i: nat, n: nat)
    requires FsInv(sb, blocks, inodes, owner) && i < |inodes| && n < MAXFILE && Addr(blocks, inodes, SlotOf(i, n)) != 0
    ensures var a := Addr(blocks, inodes, SlotOf(i, n));
      && 0 < a < |blocks| && sb.data <= a && a in owner && owner[a] == SlotOf(i, n)
  {
    hide Marked, Backed, Addr;
    assert IsSlot(|inodes|, SlotOf(i, n));
  }

  lemma ContentSlice(blocks: seq<Block>, inodes: seq<Inode>, i: nat, off: nat, m: nat, dst: seq<byte>, start: nat)
    requires WfInodes(inodes) && i < |inodes| && Size(inodes, i) <= MAXBYTES
    requires start <= off && off + m <= Size(inodes, i) && off % BSIZE + m <= BSIZE && off / BSIZE < MAXFILE
    requires dst == Content(blocks, inodes, i)[start..off]
    ensures dst + FileBlock(blocks, inodes, i, off / BSIZE)[off % BSIZE..off % BSIZE + m] == Content(blocks, inodes, i)[start..off + m]
  {
    hide FileBlock;
    var c, blk := Content(blocks, inodes, i), FileBlock(blocks, inodes, i, off / BSIZE);
    var part := blk[off % BSIZE..off % BSIZE + m];
    forall k | 0 <= k < m ensures part[k] == c[off + k] {
      assert off + k == off / BSIZE * BSIZE + (off % BSIZE + k);
      assert (off + k) / BSIZE == off / BSIZE && (off + k) % BSIZE == off % BSIZE + k;
    }
  }

  /** bmap of a block that is there, and bread of it. */
  method ReadBlock(fs: FileSystem, i: nat, n: nat) returns (a: nat)
    requires fs.Valid() && i < |fs.inodes| && n < MAXFILE && n * BSIZE < Size(fs.inodes, i)
    modifies fs
    ensures fs.blocks == old(fs.blocks) && fs.inodes == old(fs.inodes) && fs.owner == old(fs.owner) && fs.logged == old(fs.logged)
    ensures 0 < a < |fs.blocks| && fs.blocks[a] == FileBlock(fs.blocks, fs.inodes, i, n)
  {
    hide Owned, Marked, InHand, Backed, Addr, FileBlock, StoredBut, Grew;
    SizeReaches(fs.sb, fs.blocks, fs.inodes, fs.owner, i);
    StoredFewer(fs, i);
    ghost var maps;
    a, maps := fs.Bmap(i, n);
    AddrPlace(fs.sb, fs.blocks, fs.inodes, fs.owner, i, n);
    BlockAtAddr(fs.blocks, fs.inodes, i, n);
  }

  /** readi: exactly the requested part of the file, as far as the file goes; it allocates
      nothing. `room` is how much of the destination can be written. */
  method Readi(fs: FileSystem, i: nat, off0: nat, n0: nat, room: nat) returns (r: int, dst: seq<byte>)
    requires fs.Valid() && i < |fs.inodes| && off0 < U32_LIMIT && n0 < U32_LIMIT
    modifies fs
    ensures fs.blocks == old(fs.blocks) && fs.inodes == old(fs.inodes) && fs.owner == old(fs.owner) && fs.logged == old(fs.logged)
    ensures var size := Size(fs.inodes, i);
      if off0 > size || off0 + n0 >= U32_LIMIT then r == 0 && dst == []
      else
        var n := if off0 + n0 > size then size - off0 else n0;
        if n <= room then size <= MAXBYTES && r == n && dst == Content(fs.blocks, fs.inodes, i)[off0..off0 + n] else r == -1
  {
    hide Owned, Marked, InHand, Backed, Addr, FileBlock, StoredBut, Content;
    var off, n := off0, n0;
    dst := [];
    if off > fs.inodes[i].size || (off + n) % U32_LIMIT < off {
      return 0, dst;
    }
    if off + n > fs.inodes[i].size {
      n := fs.inodes[i].size - off;
    }
    SizeReaches(fs.sb, fs.blocks, fs.inodes, fs.owner, i);
    var tot := 0;
    while tot < n
      invariant 0 <= tot <= n && tot <= room && off == off0 + tot
      invariant fs.blocks == old(fs.blocks) && fs.inodes == old(fs.inodes) && fs.owner == old(fs.owner) && fs.logged == old(fs.logged)
      invariant dst == Content(fs.blocks, fs.inodes, i)[off0..off]
    {
      assert off / BSIZE * BSIZE <= off < Size(fs.inodes, i);
      var a := ReadBlock(fs, i, off / BSIZE);
      if a == 0 {
        break;
      }
      var m := BSIZE - off % BSIZE;
      if n - tot < m {
        m := n - tot;
      }
      if tot + m > room {
        return -1, dst;
      }
      ContentSlice(fs.blocks, fs.inodes, i, off, m, dst, off0);
      dst := dst + fs.blocks[a][off % BSIZE..off % BSIZE + m];
      tot := tot + m;
      off := off + m;
    }
    return tot, dst;
  }

  lemma StoredFewer(fs: FileSystem, i: nat)
    requires fs.Valid() && i < |fs.inodes|
    ensures fs.Open(i)
  {
    hide FsCore, Backed, StoredAt;
  }

  lemma BlockAtAddr(blocks: seq<Block>, inodes: seq<Inode>, i: nat, n: nat)
    requires WfInodes(inodes) && i < |inodes| && n < MAXFILE && 0 < Addr(blocks, inodes, SlotOf(i, n)) < |blocks|
    ensures FileBlock(blocks, inodes, i, n) == blocks[Addr(blocks, inodes, SlotOf(i, n))]
  {
  }

  // ---------------------------------------------------------------------------
  // Writing
  // ---------------------------------------------------------------------------

  /** Part of a block replaced. */
  function BlockWith(b: Block, off: nat, bytes: seq<byte>): (r: Block)
    requires off + |bytes| <= BSIZE
    ensures forall k | 0 <= k < BSIZE :: r[k] == if off <= k < off + |bytes| then bytes[k - off] else b[k]
  {
    b[..off] + bytes + b[off + |bytes|..]
  }

  /** The next piece of the bytes goes into block off / BSIZE of the file. */
  lemma ChunkWrote(b0: seq<Block>, i0: seq<Inode>, b1: seq<Block>, b2: seq<Block>, inodes: seq<Inode>,
                   i: nat, off0: nat, done: seq<byte>, piece: seq<byte>)
    requires WfInodes(i0) && WfInodes(inodes) && i < |i0| == |inodes| && Wrote(b0, i0, b1, inodes, i, off0, done)
    requires var off := off0 + |done|;
      && off % BSIZE + |piece| <= BSIZE && off < MAXBYTES
      && (forall n: nat | n < MAXFILE :: FileBlock(b2, inodes, i, n) ==
            if n == off / BSIZE then BlockWith(FileBlock(b1, inodes, i, n), off % BSIZE, piece) else FileBlock(b1, inodes, i, n))
    ensures Wrote(b0, i0, b2, inodes, i, off0, done + piece)
  {
    hide FileBlock;
    var off := off0 + |done|;
    forall k: nat | k < MAXBYTES
      ensures FileByte(b2, inodes, i, k) ==
        if off0 <= k < off0 + |done + piece| then (done + piece)[k - off0] else FileByte(b0, i0, i, k)
    {
      assert FileByte(b1, inodes, i, k) == if off0 <= k < off0 + |done| then done[k - off0] else FileByte(b0, i0, i, k);
      assert k / BSIZE < MAXFILE && k == k / BSIZE * BSIZE + k % BSIZE && off == off / BSIZE * BSIZE + off % BSIZE;
    }
  }

  /** One turn of writei's loop after bmap. */
  method WritePiece(fs: FileSystem, i: nat, off: nat, piece: seq<byte>)
    requires fs.Open(i) && off % BSIZE + |piece| <= BSIZE && off < MAXBYTES
    requires Addr(fs.blocks, fs.inodes, SlotOf(i, off / BSIZE)) != 0
    modifies fs`blocks, fs`logged
    ensures fs.Open(i) && OtherFiles(old(fs.blocks), fs.inodes, fs.blocks, fs.inodes, i)
    ensures forall n: nat | n < MAXFILE :: FileBlock(fs.blocks, fs.inodes, i, n) ==
              if n == off / BSIZE then BlockWith(FileBlock(old(fs.blocks), fs.inodes, i, n), off % BSIZE, piece)
              else FileBlock(old(fs.blocks), fs.inodes, i, n)
    ensures KeepsNames(old(fs.blocks), fs.inodes, fs.blocks, fs.inodes)
    ensures fs.logged == old(fs.logged) + {Addr(fs.blocks, fs.inodes, SlotOf(i, off / BSIZE))}
  {
    hide Owned, Marked, InHand, Backed, Addr, FileBlock, StoredBut;
    AddrPlace(fs.sb, fs.blocks, fs.inodes, fs.owner, i, off / BSIZE);
    BlockAtAddr(fs.blocks, fs.inodes, i, off / BSIZE);
    var a := Addr(fs.blocks, fs.inodes, SlotOf(i, off / BSIZE));
    var x := BlockWith(fs.blocks[a], off % BSIZE, piece);
    Rewritten(fs.sb, fs.blocks, fs.inodes, fs.owner, {}, a, x);
    StillBacked(fs.blocks, fs.inodes, fs.blocks[a := x], fs.inodes);
    DataStored(fs.sb, fs.blocks, fs.inodes, i, a, x);
    assert IsSlot(|fs.inodes|, SlotOf(i, off / BSIZE));
    fs.LogWrite(a, x);
  }

  lemma DataStored(sb: Super, blocks: seq<Block>, inodes: seq<Inode>, i: nat, a: nat, x: Block)
    requires sb.Wf() && |blocks| == sb.size && |inodes| == sb.ninodes && sb.data <= a < sb.size && StoredBut(sb, blocks, inodes, i)
    ensures StoredBut(sb, blocks[a := x], inodes, i)
  {
    var blocks' := blocks[a := x];
    forall j: nat | j < sb.ninodes && j != i ensures StoredAt(sb, blocks', inodes, j) {
      InodeBlockPlace(sb, j);
      assert StoredAt(sb, blocks, inodes, j);
    }
  }

  /** The end of writei: the size covers what was written. */
  lemma SizeSet(sb: Super, blocks: seq<Block>, inodes: seq<Inode>, owner: Owners, i: nat, size: nat)
    requires FsInv(sb, blocks, inodes, owner) && i < |inodes| && size <= MAXBYTES && Reaches(blocks, inodes, i, size)
    ensures var inodes' := inodes[i := inodes[i].(size := size)];
      && FsInv(sb, blocks, inodes', owner) && SameFiles(blocks, inodes, blocks, inodes')
      && (StoredBut(sb, blocks, inodes, i) ==> StoredBut(sb, blocks, inodes', i))
  {
    var inodes' := inodes[i := inodes[i].(size := size)];
    assert forall s | IsSlot(|inodes|, s) :: Addr(blocks, inodes', s) == Addr(blocks, inodes, s);
    SizeSetCore(sb, blocks, inodes, inodes', owner, i, size);
    if StoredBut(sb, blocks, inodes, i) {
      forall j: nat | j < sb.ninodes && j != i ensures StoredAt(sb, blocks, inodes', j) { assert StoredAt(sb, blocks, inodes, j); }
    }
  }

  lemma SizeSetCore(sb: Super, blocks: seq<Block>, inodes: seq<Inode>, inodes': seq<Inode>, owner: Owners, i: nat, size: nat)
    requires FsInv(sb, blocks, inodes, owner) && i < |inodes| && size <= MAXBYTES && Reaches(blocks, inodes, i, size)
    requires WfInodes(inodes') && inodes' == inodes[i := inodes[i].(size := size)]
    requires forall s | IsSlot(|inodes|, s) :: Addr(blocks, inodes', s) == Addr(blocks, inodes, s)
    ensures FsInv(sb, blocks, inodes', owner) && SameFiles(blocks, inodes, blocks, inodes')
  {
    hide Addr, Used;
    assert forall j: nat, n: nat | j < |inodes| && n < MAXFILE :: IsSlot(|inodes|, SlotOf(j, n));
    assert forall j | 0 <= j < |inodes| :: Size(inodes', j) == if j == i then size else Size(inodes, j);
  }

  /** What the bytes in the blocks say about the file. */
  lemma WroteContent(b0: seq<Block>, i0: seq<Inode>, b1: seq<Block>, i1: seq<Inode>, i: nat, off: nat, bytes: seq<byte>)
    requires WfInodes(i0) && WfInodes(i1) && i < |i0| == |i1| && Wrote(b0, i0, b1, i1, i, off, bytes)
    requires off <= Size(i0, i) <= MAXBYTES
    requires Size(i1, i) == (if off + |bytes| > Size(i0, i) then off + |bytes| else Size(i0, i)) <= MAXBYTES
    ensures Content(b1, i1, i) == Splice(Content(b0, i0, i), off, bytes)
  {
    hide FileBlock;
    var c, c' := Content(b0, i0, i), Content(b1, i1, i);
    forall k | 0 <= k < |c'| ensures c'[k] == Splice(c, off, bytes)[k] {
      assert FileByte(b1, i1, i, k) == if off <= k < off + |bytes| then bytes[k - off] else FileByte(b0, i0, i, k);
    }
  }

  lemma OthersContent(b0: seq<Block>, i0: seq<Inode>, b1: seq<Block>, i1: seq<Inode>, i: nat, j: nat)
    requires WfInodes(i0) && WfInodes(i1) && OtherFiles(b0, i0, b1, i1, i) && j < |i0| && j != i && Size(i0, j) <= MAXBYTES
    ensures Size(i1, j) == Size(i0, j) && Content(b1, i1, j) == Content(b0, i0, j)
  {
    hide FileBlock;
    var c, c' := Content(b0, i0, j), Content(b1, i1, j);
    forall k | 0 <= k < |c| ensures c'[k] == c[k] {
      assert FileBlock(b1, i1, j, k / BSIZE) == FileBlock(b0, i0, j, k / BSIZE);
    }
  }

  /** Where file i stands after some turns of writei's loop: `bytes` are in its blocks at off,
      all of it is backed, and nothing else has changed but addresses of i. */
  ghost predicate Progress(b0: seq<Block>, i0: seq<Inode>, b1: seq<Block>, i1: seq<Inode>, i: nat, off: nat, bytes: seq<byte>) {
    && WfInodes(i0) && WfInodes(i1) && i < |i0| == |i1|
    && i1 == i0[i := i0[i].(addrs := i1[i].addrs)]
    && OtherFiles(b0, i0, b1, i1, i)
    && Wrote(b0, i0, b1, i1, i, off, bytes)
    && Reaches(b1, i1, i, off + |bytes|)
    && PointerKept(i0, i1, i)
  }

  ghost predicate PointerKept(i0: seq<Inode>, i1: seq<Inode>, i: nat)
    requires WfInodes(i0) && WfInodes(i1) && i < |i0| == |i1|
  {
    i0[i].addrs[NDIRECT] != 0 ==> i1[i].addrs[NDIRECT] == i0[i].addrs[NDIRECT]
  }

  lemma NoProgress(sb: Super, blocks: seq<Block>, inodes: seq<Inode>, owner: Owners, i: nat, off: nat)
    requires FsInv(sb, blocks, inodes, owner) && i < |inodes| && off <= Size(inodes, i)
    ensures Progress(blocks, inodes, blocks, inodes, i, off, [])
  {
    hide Addr, FileBlock, Owned, Marked, InHand;
    assert inodes == inodes[i := inodes[i].(addrs := inodes[i].addrs)];
    forall n: nat | n < MAXFILE && n * BSIZE < off ensures Addr(blocks, inodes, SlotOf(i, n)) != 0 { assert n * BSIZE < Size(inodes, i); }
  }

  /** bmap changes no byte. */
  lemma GrewProgress(sb: Super, b0: seq<Block>, i0: seq<Inode>, b1: seq<Block>, i1: seq<Inode>, b2: seq<Block>, i2: seq<Inode>,
                     i: nat, off: nat, bytes: seq<byte>)
    requires Progress(b0, i0, b1, i1, i, off, bytes) && Grew(sb, b1, i1, b2, i2, i)
    ensures Progress(b0, i0, b2, i2, i, off, bytes)
  {
    hide FileBlock;
    forall n: nat | n < MAXFILE && n * BSIZE < off + |bytes| ensures Addr(b2, i2, SlotOf(i, n)) != 0 { assert IsSlot(|i1|, SlotOf(i, n)); }
    forall k: nat | k < MAXBYTES ensures FileByte(b2, i2, i, k) == if off <= k < off + |bytes| then bytes[k - off] else FileByte(b0, i0, i, k) {
      assert FileBlock(b1, i1, i, k / BSIZE) == FileBlock(b2, i2, i, k / BSIZE);
      assert FileByte(b1, i1, i, k) == if off <= k < off + |bytes| then bytes[k - off] else FileByte(b0, i0, i, k);
    }
    if i1[i].addrs[NDIRECT] != 0 { assert Addr(b1, i1, Pointer(i)) != 0; assert Addr(b2, i2, Pointer(i)) == Addr(b1, i1, Pointer(i)); }
  }

  lemma PieceProgress(b0: seq<Block>, i0: seq<Inode>, b1: seq<Block>, b2: seq<Block>, inodes: seq<Inode>,
                      i: nat, off: nat, bytes: seq<byte>, piece: seq<byte>)
    requires Progress(b0, i0, b1, inodes, i, off, bytes)
    requires OtherFiles(b1, inodes, b2, inodes, i) && KeepsNames(b1, inodes, b2, inodes)
    requires var at := off + |bytes|;
      && at % BSIZE + |piece| <= BSIZE && at < MAXBYTES && Addr(b1, inodes, SlotOf(i, at / BSIZE)) != 0
      && (forall n: nat | n < MAXFILE :: FileBlock(b2, inodes, i, n) ==
            if n == at / BSIZE then BlockWith(FileBlock(b1, inodes, i, n), at % BSIZE, piece) else FileBlock(b1, inodes, i, n))
    ensures Progress(b0, i0, b2, inodes, i, off, bytes + piece)
  {
    hide FileBlock, Addr;
    var at := off + |bytes|;
    ChunkWrote(b0, i0, b1, b2, inodes, i, off, bytes, piece);
    forall n: nat | n < MAXFILE && n * BSIZE < off + |bytes + piece| ensures Addr(b2, inodes, SlotOf(i, n)) != 0 {
      assert IsSlot(|inodes|, SlotOf(i, n));
      if n * BSIZE >= at { assert n * BSIZE < at / BSIZE * BSIZE + BSIZE; assert n == at / BSIZE; }
    }
  }

  /** One turn of writei's loop: bmap, then the copy and log_write. */
  method WriteTurn(fs: FileSystem, i: nat, off: nat, piece: seq<byte>, ghost off0: nat, ghost done: seq<byte>, ghost b0: seq<Block>, ghost i0: seq<Inode>)
    returns (ok: bool, ghost a: nat, ghost maps: set<nat>)
    requires fs.Open(i) && Progress(b0, i0, fs.blocks, fs.inodes, i, off0, done)
    requires off == off0 + |done| < MAXBYTES && off % BSIZE + |piece| <= BSIZE
    modifies fs`blocks, fs`inodes, fs`owner, fs`logged
    ensures fs.Open(i) && Progress(b0, i0, fs.blocks, fs.inodes, i, off0, if ok then done + piece else done)
    ensures !ok ==> Full(fs.sb, fs.blocks)
    ensures |maps| <= Missing(old(fs.blocks), old(fs.inodes), i, off / BSIZE)
    ensures PointerKept(old(fs.inodes), fs.inodes, i)
    ensures ok && off / BSIZE >= NDIRECT ==> fs.inodes[i].addrs[NDIRECT] != 0
    ensures fs.logged <= old(fs.logged) + maps + {a} + (if off / BSIZE < NDIRECT then {} else {fs.inodes[i].addrs[NDIRECT]})
  {
    hide Owned, Marked, InHand, Backed, FileBlock, StoredBut, Progress, OtherFiles, SameFiles, Used;
    var addr;
    ghost var b1, i1 := fs.blocks, fs.inodes;
    addr, maps := fs.Bmap(i, off / BSIZE);
    a := addr;
    KeptPointer(fs.sb, b1, i1, fs.blocks, fs.inodes, i);
    GrewProgress(fs.sb, b0, i0, b1, i1, fs.blocks, fs.inodes, i, off0, done);
    ok := addr != 0;
    if ok {
      ghost var b2 := fs.blocks;
      WritePiece(fs, i, off, piece);
      PieceProgress(b0, i0, b2, fs.blocks, fs.inodes, i, off0, done, piece);
      assert Addr(fs.blocks, fs.inodes, SlotOf(i, off / BSIZE)) == addr by { assert IsSlot(|fs.inodes|, SlotOf(i, off / BSIZE)); }
    }
  }

  lemma KeptPointer(sb: Super, b1: seq<Block>, i1: seq<Inode>, b2: seq<Block>, i2: seq<Inode>, i: nat)
    requires Grew(sb, b1, i1, b2, i2, i)
    ensures PointerKept(i1, i2, i)
  {
    if i1[i].addrs[NDIRECT] != 0 { assert Addr(b1, i1, Pointer(i)) != 0; assert Addr(b2, i2, Pointer(i)) == Addr(b1, i1, Pointer(i)); }
  }

  // --- the number of blocks in one transaction --------------------------------

  /** 1 when the first block is only partly written, and so was there before. */
  function Partial(off: nat): nat { if off % BSIZE != 0 then 1 else 0 }

  /** The blocks that the turns so far have logged: `data` for the file's blocks, `maps` for
      the bitmap, `ptr` for the indirect block. */
  ghost predicate Account(before: set<nat>, logged: set<nat>, data: set<nat>, maps: set<nat>, ptr: set<nat>, turns: nat, partial: nat) {
    && logged <= before + data + maps + ptr
    && |data| <= turns && |ptr| <= 1
    && |maps| <= (if turns > partial then turns - partial else 0) + |ptr|
  }

  lemma AccountStart(logged: set<nat>, partial: nat)
    ensures Account(logged, logged, {}, {}, {}, 0, partial)
  {
  }

  lemma UnionCount<T>(a: set<T>, b: set<T>)
    ensures |a + b| <= |a| + |b|
  {
    assert a + b == a + (b - a);
    SubsetCount(b - a, b);
  }

  /** One more turn: `a` is the file's block, `more` the bitmap blocks, `p` the indirect block if it was used. */
  lemma AccountTurn(before: set<nat>, logged: set<nat>, data: set<nat>, maps: set<nat>, ptr: set<nat>, turns: nat, partial: nat,
                    logged': set<nat>, a: nat, more: set<nat>, p: set<nat>, missing: nat, extra: nat)
    requires Account(before, logged, data, maps, ptr, turns, partial)
    requires logged' <= logged + more + {a} + p && |p| <= 1 && (ptr != {} ==> p == {} || p == ptr)
    requires |more| <= missing + extra && missing <= 1 && extra <= 1
    requires turns < partial ==> missing == 0
    requires extra == 1 ==> ptr == {} && |p| == 1
    ensures Account(before, logged', data + {a}, maps + more, if p == {} then ptr else p, turns + 1, partial)
  {
    UnionCount(data, {a});
    UnionCount(maps, more);
  }

  /** In all at most MAXOPBLOCKS with the inode's block, for a write of at most 3 blocks' worth of bytes. */
  lemma AccountTotal(before: set<nat>, logged: set<nat>, data: set<nat>, maps: set<nat>, ptr: set<nat>, turns: nat, partial: nat, inode: nat)
    requires Account(before, logged, data, maps, ptr, turns, partial) && turns <= 3 + partial && partial <= 1
    ensures |logged + {inode} - before| <= RedoLog.MAXOPBLOCKS
  {
    var all := data + maps + ptr + {inode};
    SubsetCount(logged + {inode} - before, all);
    UnionCount(data, maps);
    UnionCount(data + maps, ptr);
    UnionCount(data + maps + ptr, {inode});
  }

  /** What one turn may have to allocate: nothing in a block that is partly there. */
  lemma MissingParts(sb: Super, blocks: seq<Block>, inodes: seq<Inode>, owner: Owners, i: nat, off: nat)
    requires FsInv(sb, blocks, inodes, owner) && i < |inodes| && off <= Size(inodes, i) && off < MAXBYTES && off % BSIZE != 0
    ensures Missing(blocks, inodes, i, off / BSIZE) == 0
  {
    hide Owned, Marked, InHand;
    assert off / BSIZE * BSIZE < off;
    SizeReaches(sb, blocks, inodes, owner, i);
  }

  /** The indirect block, once used, stays the same. */
  ghost predicate PointerOnly(inodes: seq<Inode>, i: nat, ptr: set<nat>) {
    && i < |inodes| && inodes[i].Wf()
    && (ptr == {} || (ptr == {inodes[i].addrs[NDIRECT]} && inodes[i].addrs[NDIRECT] != 0))
  }

  lemma MissingSplit(blocks: seq<Block>, inodes: seq<Inode>, i: nat, bn: nat, ptr: set<nat>, none: bool) returns (missing: nat, extra: nat)
    requires WfInodes(inodes) && bn < MAXFILE && PointerOnly(inodes, i, ptr)
    requires none ==> Missing(blocks, inodes, i, bn) == 0
    ensures Missing(blocks, inodes, i, bn) == missing + extra && missing <= 1 && extra <= 1
    ensures none ==> missing == 0
    ensures extra == 1 ==> ptr == {} && bn >= NDIRECT
  {
    missing := if Addr(blocks, inodes, SlotOf(i, bn)) == 0 then 1 else 0;
    extra := if bn >= NDIRECT && inodes[i].addrs[NDIRECT] == 0 then 1 else 0;
  }

  ghost predicate Full(sb: Super, blocks: seq<Block>)
    requires sb.Wf() && |blocks| == sb.size
  {
    forall c: nat | c < sb.size :: Used(sb, blocks, c)
  }

  /** What writei means: i1 and b1 are i0 and b0 with the first r bytes of src in file i at off. */
  ghost predicate WritePost(sb: Super, b0: seq<Block>, i0: seq<Inode>, b1: seq<Block>, i1: seq<Inode>, i: nat, off: nat, src: seq<byte>, r: int)
    requires sb.Wf() && |b1| == sb.size && Plausible(i0) && Plausible(i1) && i < |i0| == |i1|
  {
    var size := Size(i0, i);
    if off > size || off + |src| >= U32_LIMIT || off + |src| > MAXBYTES then r == -1
    else
      && 0 <= r <= |src|
      && Content(b1, i1, i) == Splice(Content(b0, i0, i), off, src[..r])
      && OtherFiles(b0, i0, b1, i1, i)
      && i1 == i0[i := i0[i].(size := if off + r > size then off + r else size, addrs := i1[i].addrs)]
      && (r < |src| ==> Full(sb, b1))
  }

  lemma FinishWrite(sb: Super, b0: seq<Block>, i0: seq<Inode>, b1: seq<Block>, i1: seq<Inode>, owner: Owners, i: nat, off: nat, bytes: seq<byte>)
    requires FsInv(sb, b1, i1, owner) && Plausible(i0) && Progress(b0, i0, b1, i1, i, off, bytes) && StoredBut(sb, b1, i1, i)
    requires off <= Size(i0, i) && off + |bytes| <= MAXBYTES
    ensures var size := if off + |bytes| > Size(i1, i) then off + |bytes| else Size(i1, i);
      var i2 := i1[i := i1[i].(size := size)];
      && FsInv(sb, b1, i2, owner) && StoredBut(sb, b1, i2, i)
      && Content(b1, i2, i) == Splice(Content(b0, i0, i), off, bytes)
      && OtherFiles(b0, i0, b1, i2, i)
      && i2 == i0[i := i0[i].(size := size, addrs := i1[i].addrs)]
  {
    hide Owned, Marked, InHand, Backed, FileBlock, Addr, Used, StoredBut, Content;
    var size := if off + |bytes| > Size(i1, i) then off + |bytes| else Size(i1, i);
    var i2 := i1[i := i1[i].(size := size)];
    SizeReaches(sb, b1, i1, owner, i);
    SizeSet(sb, b1, i1, owner, i, size);
    forall k: nat | k < MAXBYTES ensures FileByte(b1, i2, i, k) == FileByte(b1, i1, i, k) {
      assert FileBlock(b1, i1, i, k / BSIZE) == FileBlock(b1, i2, i, k / BSIZE);
    }
    WroteContent(b0, i0, b1, i2, i, off, bytes);
  }

  /** iupdate leaves the files and the bitmap alone. */
  lemma StoredWrite(sb: Super, b0: seq<Block>, i0: seq<Inode>, b1: seq<Block>, b2: seq<Block>, i2: seq<Inode>, i: nat)
    requires sb.Wf() && |b1| == |b2| == sb.size && Plausible(i0) && Plausible(i2) && i < |i0| == |i2| == sb.ninodes
    requires SameFiles(b1, i2, b2, i2) && OtherFiles(b0, i0, b1, i2, i)
    requires forall b: nat | b < sb.size && b != sb.InodeBlock(i) :: b2[b] == b1[b]
    ensures Content(b2, i2, i) == Content(b1, i2, i) && OtherFiles(b0, i0, b2, i2, i)
    ensures Full(sb, b1) ==> Full(sb, b2)
  {
    hide FileBlock, Addr;
    var c, c' := Content(b1, i2, i), Content(b2, i2, i);
    forall k | 0 <= k < |c| ensures c'[k] == c[k] { assert FileBlock(b2, i2, i, k / BSIZE) == FileBlock(b1, i2, i, k / BSIZE); }
    InodeBlockPlace(sb, i);
    if Full(sb, b1) {
      forall c: nat | c < sb.size ensures Used(sb, b2, c) { BitmapBlockPlace(sb, c); assert Used(sb, b1, c); }
    }
  }

  /** How far `turns` turns have come in a write of n bytes: whole blocks, until the last. */
  ghost predicate InStep(off0: nat, tot: nat, n: nat, turns: nat) {
    && tot <= n
    && (if turns == 0 then tot == 0
        else tot < n ==> (off0 + tot) % BSIZE == 0 && turns == (off0 + tot) / BSIZE + Partial(off0) - (off0 + BSIZE - 1) / BSIZE)
  }

  lemma TurnCount(off0: nat, tot: nat, m: nat, n: nat, turns: nat)
    requires tot < n && m == (if n - tot < BSIZE - (off0 + tot) % BSIZE then n - tot else BSIZE - (off0 + tot) % BSIZE)
    requires InStep(off0, tot, n, turns)
    ensures InStep(off0, tot + m, n, turns + 1)
    ensures n <= 3 * BSIZE ==> turns + 1 <= 3 + Partial(off0)
    ensures turns < Partial(off0) ==> tot == 0 && off0 % BSIZE != 0
  {
  }

  lemma InStepStart(off0: nat, n: nat)
    ensures InStep(off0, 0, n, 0) && Partial(off0) <= 1
  {
  }

  lemma SliceMore(src: seq<byte>, tot: nat, m: nat)
    requires tot + m <= |src|
    ensures src[..tot] + src[tot..tot + m] == src[..tot + m]
  {
  }

  /** The loop of writei. */
  method WriteLoop(fs: FileSystem, i: nat, off0: nat, src: seq<byte>) returns (tot: nat)
    requires fs.Open(i) && off0 <= Size(fs.inodes, i) && off0 + |src| <= MAXBYTES
    modifies fs`blocks, fs`inodes, fs`owner, fs`logged
    ensures fs.Open(i) && tot <= |src| && Progress(old(fs.blocks), old(fs.inodes), fs.blocks, fs.inodes, i, off0, src[..tot])
    ensures tot < |src| ==> Full(fs.sb, fs.blocks)
    ensures |src| <= 3 * BSIZE ==> |fs.logged + {fs.sb.InodeBlock(i)} - old(fs.logged)| <= RedoLog.MAXOPBLOCKS
  {
    hide Owned, Marked, InHand, Backed, FileBlock, Addr, StoredBut, Progress, OtherFiles, SameFiles, Full, Content, Missing, Account, InStep, Partial, Used;
    ghost var b0, i0, l0 := fs.blocks, fs.inodes, fs.logged;
    NoProgress(fs.sb, b0, i0, fs.owner, i, off0);
    AccountStart(l0, Partial(off0));
    InStepStart(off0, |src|);
    ghost var data: set<nat>, maps: set<nat>, ptr: set<nat>, turns: nat := {}, {}, {}, 0;
    tot := 0;
    assert src[..0] == [];
    while tot < |src|
      invariant 0 <= tot <= |src| && fs.Open(i)
      invariant Progress(b0, i0, fs.blocks, fs.inodes, i, off0, src[..tot])
      invariant PointerOnly(fs.inodes, i, ptr) && Account(l0, fs.logged, data, maps, ptr, turns, Partial(off0))
      invariant tot == 0 ==> fs.blocks == b0 && fs.inodes == i0
      invariant InStep(off0, tot, |src|, turns) && (|src| <= 3 * BSIZE ==> turns <= 3 + Partial(off0))
    {
      var off := off0 + tot;
      var m := BSIZE - off % BSIZE;
      if |src| - tot < m {
        m := |src| - tot;
      }
      TurnCount(off0, tot, m, |src|, turns);
      ghost var b1, i1, l1 := fs.blocks, fs.inodes, fs.logged;
      if turns < Partial(off0) { MissingParts(fs.sb, b0, i0, fs.owner, i, off); }
      var ok, a, more := WriteTurn(fs, i, off, src[tot..tot + m], off0, src[..tot], b0, i0);
      ghost var p := if off / BSIZE < NDIRECT then {} else {fs.inodes[i].addrs[NDIRECT]};
      ghost var missing, extra := MissingSplit(b1, i1, i, off / BSIZE, ptr, turns < Partial(off0));
      AccountTurn(l0, l1, data, maps, ptr, turns, Partial(off0), fs.logged, a, more, p, missing, extra);
      data, maps, ptr, turns := data + {a}, maps + more, if p == {} then ptr else p, turns + 1;
      if !ok {
        break;
      }
      SliceMore(src, tot, m);
      tot := tot + m;
    }
    if |src| <= 3 * BSIZE { AccountTotal(l0, fs.logged, data, maps, ptr, turns, Partial(off0), fs.sb.InodeBlock(i)); }
  }

  /** writei: the bytes of src that it reports as written are in the file at off, everything
      else in every file is as before; it stops early only when the disk is full; and a write
      of up to three blocks' worth of bytes logs at most MAXOPBLOCKS blocks. */
  method Writei(fs: FileSystem, i: nat, off0: nat, src: seq<byte>) returns (r: int)
    requires fs.Valid() && i < |fs.inodes| && off0 < U32_LIMIT && |src| < U32_LIMIT
    modifies fs
    ensures fs.Valid() && i < |fs.inodes| == |old(fs.inodes)|
    ensures WritePost(fs.sb, old(fs.blocks), old(fs.inodes), fs.blocks, fs.inodes, i, off0, src, r)
    ensures r == -1 ==> fs.blocks == old(fs.blocks) && fs.inodes == old(fs.inodes) && fs.logged == old(fs.logged)
    ensures |src| <= 3 * BSIZE ==> |fs.logged - old(fs.logged)| <= RedoLog.MAXOPBLOCKS
  {
    hide Owned, Marked, InHand, Backed, FileBlock, Addr, StoredBut, Progress, OtherFiles, SameFiles, Full, Content, Missing, Account;
    ghost var b0, i0 := fs.blocks, fs.inodes;
    if off0 > fs.inodes[i].size || (off0 + |src|) % U32_LIMIT < off0 {
      return -1;
    }
    if off0 + |src| > MAXBYTES {
      return -1;
    }
    StoredFewer(fs, i);
    var tot := WriteLoop(fs, i, off0, src);
    var off := off0 + tot;
    ghost var b1, i1 := fs.blocks, fs.inodes;
    FinishWrite(fs.sb, b0, i0, b1, i1, fs.owner, i, off0, src[..tot]);
    if off > fs.inodes[i].size {
      fs.inodes := fs.inodes[i := fs.inodes[i].(size := off)];
    }
    ghost var i2 := fs.inodes;
    assert i2 == i1[i := i1[i].(size := if off > Size(i1, i) then off else Size(i1, i))];
    fs.Iupdate(i);
    StoredWrite(fs.sb, b0, i0, b1, fs.blocks, i2, i);
    r := tot;
  }
}
