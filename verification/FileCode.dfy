/** kernel/fs.c's block allocator, block map, truncation, reading and writing, over the
    blocks as the log's clients see them. */
module FileCode {
  import opened Bytes
  import opened FileLayout
  import opened FileBlocks

  /** The inode blocks hold the inodes, except perhaps inode i. */
  ghost predicate StoredBut(sb: Super, blocks: seq<Block>, inodes: seq<Inode>, i: nat)
    requires sb.Wf() && |blocks| == sb.size && |inodes| == sb.ninodes
  {
    forall j: nat | j < sb.ninodes && j != i :: StoredAt(sb, blocks, inodes, j)
  }

  predicate StoredAt(sb: Super, blocks: seq<Block>, inodes: seq<Inode>, j: nat)
    requires sb.Wf() && |blocks| == sb.size && j < |inodes| == sb.ninodes
  {
    InodeBlockPlace(sb, j);
    InodeAt(blocks[sb.InodeBlock(j)], j % IPB) == inodes[j]
  }

  /** What allocating blocks for file i leaves alone: the bytes of all files, the names that
      are there, and everything in inodes but the addresses of i. */
  ghost predicate Grew(sb: Super, blocks: seq<Block>, inodes: seq<Inode>, blocks': seq<Block>, inodes': seq<Inode>, i: nat) {
    && i < |inodes| == |inodes'| && |blocks| == |blocks'|
    && WfInodes(inodes) && WfInodes(inodes')
    && inodes' == inodes[i := inodes[i].(addrs := inodes'[i].addrs)]
    && SameFiles(blocks, inodes, blocks', inodes') && KeepsNames(blocks, inodes, blocks', inodes')
    && (forall b | 0 <= b < sb.bmapstart && b < |blocks| :: blocks'[b] == blocks[b])
  }

  lemma GrewTwice(sb: Super, b0: seq<Block>, i0: seq<Inode>, b1: seq<Block>, i1: seq<Inode>, b2: seq<Block>, i2: seq<Inode>, i: nat)
    requires Grew(sb, b0, i0, b1, i1, i) && Grew(sb, b1, i1, b2, i2, i)
    ensures Grew(sb, b0, i0, b2, i2, i)
  {
    hide Addr, FileBlock;
  }

  lemma GrewStored(sb: Super, blocks: seq<Block>, inodes: seq<Inode>, blocks': seq<Block>, inodes': seq<Inode>, i: nat)
    requires sb.Wf() && |blocks| == sb.size && |inodes| == sb.ninodes && Grew(sb, blocks, inodes, blocks', inodes', i)
    requires StoredBut(sb, blocks, inodes, i)
    ensures StoredBut(sb, blocks', inodes', i)
  {
    hide SameFiles, KeepsNames;
    forall j: nat | j < sb.ninodes && j != i ensures StoredAt(sb, blocks', inodes', j) {
      InodeBlockPlace(sb, j);
      assert StoredAt(sb, blocks, inodes, j);
    }
  }

  /** The blocks after balloc has taken b. */
  function Fresh(sb: Super, blocks: seq<Block>, b: nat): (r: seq<Block>)
    requires sb.Wf() && |blocks| == sb.size && b < sb.size
    ensures |r| == |blocks| && r[b] == ZeroBlock()
  {
    Bitmap(sb, blocks, b, true)[b := ZeroBlock()]
  }

  lemma FirstMarked(sb: Super, blocks: seq<Block>, inodes: seq<Inode>, owner: Owners)
    requires FsInv(sb, blocks, inodes, owner)
    ensures sb.size > 0 ==> Used(sb, blocks, 0)
  {
    hide Used, Owned;
  }

  lemma FreshGrew(sb: Super, blocks: seq<Block>, inodes: seq<Inode>, owner: Owners, b: nat, i: nat)
    requires FsInv(sb, blocks, inodes, owner) && b < sb.size && 0 < b && !Used(sb, blocks, b) && i < |inodes|
    ensures FsCore(sb, Fresh(sb, blocks, b), inodes, owner, {b}) && b !in owner && sb.data <= b
    ensures Grew(sb, blocks, inodes, Fresh(sb, blocks, b), inodes, i)
    ensures forall s | IsSlot(|inodes|, s) :: Addr(Fresh(sb, blocks, b), inodes, s) == Addr(blocks, inodes, s)
  {
    hide Used, Owned, Marked, Addr, FileBlock;
    Taken(sb, blocks, inodes, owner, {}, b);
    BitmapBlockPlace(sb, b);
    assert {} + {b} == {b};
    assert inodes == inodes[i := inodes[i].(addrs := inodes[i].addrs)];
  }

  /** A new block in an inode: a direct block, or the indirect block. */
  lemma InodeGrew(sb: Super, blocks: seq<Block>, inodes: seq<Inode>, owner: Owners, b: nat, i: nat, k: nat)
    requires FsInv(sb, blocks, inodes, owner) && b < sb.size && 0 < b && !Used(sb, blocks, b)
    requires i < |inodes| && k <= NDIRECT && inodes[i].addrs[k] == 0
    ensures var s := if k < NDIRECT then Direct(i, k) else Pointer(i);
      && FsInv(sb, Fresh(sb, blocks, b), SetAddr(inodes, i, k, b), owner[b := s])
      && Grew(sb, blocks, inodes, Fresh(sb, blocks, b), SetAddr(inodes, i, k, b), i)
  {
    hide Used, Owned, Marked, Addr, FileBlock;
    var blocks', inodes' := Fresh(sb, blocks, b), SetAddr(inodes, i, k, b);
    FreshGrew(sb, blocks, inodes, owner, b, i);
    NameInInode(sb, blocks', inodes, owner, {b}, b, i, k);
    assert {b} - {b} == {};
    GrewTwice(sb, blocks, inodes, blocks', inodes, blocks', inodes', i);
    StillBacked(blocks, inodes, blocks', inodes');
  }

  /** A new block in the indirect block. */
  lemma BlockGrew(sb: Super, blocks: seq<Block>, inodes: seq<Inode>, owner: Owners, b: nat, i: nat, j: nat)
    requires FsInv(sb, blocks, inodes, owner) && b < sb.size && 0 < b && !Used(sb, blocks, b)
    requires i < |inodes| && j < NINDIRECT && inodes[i].addrs[NDIRECT] != 0 && Addr(blocks, inodes, Entry(i, j)) == 0
    ensures var p, blocks1 := inodes[i].addrs[NDIRECT], Fresh(sb, blocks, b);
      && sb.data <= p < sb.size && p != b && blocks1[p] == blocks[p]
      && FsInv(sb, blocks1[p := PutU32(blocks[p], j, b)], inodes, owner[b := Entry(i, j)])
      && Grew(sb, blocks, inodes, blocks1[p := PutU32(blocks[p], j, b)], inodes, i)
  {
    hide Used, Marked, FileBlock;
    var p, blocks1 := inodes[i].addrs[NDIRECT], Fresh(sb, blocks, b);
    FreshGrew(sb, blocks, inodes, owner, b, i);
    assert Addr(blocks, inodes, Pointer(i)) == p && p in owner && p != b;
    NameInBlock(sb, blocks1, inodes, owner, {b}, b, i, j);
    assert {b} - {b} == {};
    assert inodes == inodes[i := inodes[i].(addrs := inodes[i].addrs)];
    GrewTwice(sb, blocks, inodes, blocks1, inodes, blocks1[p := PutU32(blocks[p], j, b)], inodes, i);
    StillBacked(blocks, inodes, blocks1[p := PutU32(blocks[p], j, b)], inodes);
  }

  class FileSystem {
    const sb: Super
    var blocks: seq<Block>
    var inodes: seq<Inode>
    ghost var owner: Owners
    ghost var logged: set<nat>

    /** Between calls: exact ownership, and every inode on disk. */
    ghost predicate Valid()
      reads this
    {
      && FsInv(sb, blocks, inodes, owner)
      && StoredBut(sb, blocks, inodes, sb.ninodes)
    }

    /** The blocks are accounted for; inode i may not be on disk yet. */
    ghost predicate Open(i: nat)
      reads this
    {
      && i < |inodes|
      && FsInv(sb, blocks, inodes, owner)
      && StoredBut(sb, blocks, inodes, i)
    }

    /** Change a buffer, log_write it and release it. */
    method LogWrite(b: nat, x: Block)
      requires b < |blocks|
      modifies this`blocks, this`logged
      ensures blocks == old(blocks)[b := x] && logged == old(logged) + {b}
    {
      blocks := blocks[b := x];
      logged := logged + {b};
    }

    // -------------------------------------------------------------------------
    // Blocks
    // -------------------------------------------------------------------------

    /** balloc: the first free block, marked and zeroed; 0 exactly when none is free. */
    method Balloc() returns (r: nat)
      requires sb.Wf() && |blocks| == sb.size && (sb.size > 0 ==> Used(sb, blocks, 0))
      modifies this`blocks, this`logged
      ensures r == 0 ==> blocks == old(blocks) && logged == old(logged) && forall c: nat | c < sb.size :: Used(sb, old(blocks), c)
      ensures r != 0 ==>
        && r < sb.size && !Used(sb, old(blocks), r) && (forall c: nat | c < r :: Used(sb, old(blocks), c))
        && blocks == Bitmap(sb, old(blocks), r, true)[r := ZeroBlock()]
        && logged == old(logged) + {sb.BitmapBlock(r), r}
    {
      var b := 0;
      while b < sb.size
        invariant b % BPB == 0 && blocks == old(blocks) && logged == old(logged)
        invariant forall c: nat | c < b && c < sb.size :: Used(sb, blocks, c)
      {
        BitmapBlockPlace(sb, b);
        var bb := sb.BitmapBlock(b);
        var bi := 0;
        while bi < BPB && b + bi < sb.size
          invariant bi <= BPB && blocks == old(blocks) && logged == old(logged)
          invariant forall c: nat | c < b + bi && c < sb.size :: Used(sb, blocks, c)
        {
          assert (b + bi) / BPB == b / BPB && (b + bi) % BPB == bi;
          if !BitAt(blocks[bb], bi) {
            LogWrite(bb, PutBit(blocks[bb], bi, true));
            LogWrite(b + bi, ZeroBlock());
            return b + bi;
          }
          bi := bi + 1;
        }
        b := b + BPB;
      }
      return 0;
    }

    /** bfree; a block whose bit is clear would be a panic. */
    method Bfree(b: nat)
      requires sb.Wf() && |blocks| == sb.size && b < sb.size && Used(sb, blocks, b)
      modifies this`blocks, this`logged
      ensures blocks == Bitmap(sb, old(blocks), b, false) && logged == old(logged) + {sb.BitmapBlock(b)}
    {
      BitmapBlockPlace(sb, b);
      var bb := sb.BitmapBlock(b);
      LogWrite(bb, PutBit(blocks[bb], b % BPB, false));
    }

    // -------------------------------------------------------------------------
    // The block map
    // -------------------------------------------------------------------------

    method AllocInInode(i: nat, k: nat) returns (a: nat)
      requires Open(i) && k <= NDIRECT && inodes[i].addrs[k] == 0
      modifies this`blocks, this`inodes, this`owner, this`logged
      ensures Open(i) && Grew(sb, old(blocks), old(inodes), blocks, inodes, i)
      ensures inodes[i].addrs == old(inodes)[i].addrs[k := a]
      ensures a == 0 ==> blocks == old(blocks) && logged == old(logged) && forall c: nat | c < sb.size :: Used(sb, blocks, c)
      ensures a != 0 ==> logged == old(logged) + {sb.BitmapBlock(a), a}
    {
      hide Owned, Marked, InHand, Backed, Used, SameFiles, KeepsNames, StoredBut;
      FirstMarked(sb, blocks, inodes, owner);
      a := Balloc();
      if a != 0 {
        InodeGrew(sb, old(blocks), inodes, owner, a, i, k);
        inodes := SetAddr(inodes, i, k, a);
        owner := owner[a := if k < NDIRECT then Direct(i, k) else Pointer(i)];
        GrewStored(sb, old(blocks), old(inodes), blocks, inodes, i);
      } else {
        GrewNot(sb, blocks, inodes, i);
        assert inodes[i].addrs == inodes[i].addrs[k := 0];
      }
    }

    method AllocInBlock(i: nat, j: nat) returns (a: nat)
      requires Open(i) && j < NINDIRECT && inodes[i].addrs[NDIRECT] != 0 && Addr(blocks, inodes, Entry(i, j)) == 0
      modifies this`blocks, this`owner, this`logged
      ensures Open(i) && Grew(sb, old(blocks), inodes, blocks, inodes, i)
      ensures a == Addr(blocks, inodes, Entry(i, j))
      ensures a == 0 ==> blocks == old(blocks) && logged == old(logged) && forall c: nat | c < sb.size :: Used(sb, blocks, c)
      ensures a != 0 ==> logged == old(logged) + {sb.BitmapBlock(a), a, inodes[i].addrs[NDIRECT]}
    {
      hide Owned, Marked, InHand, Backed, Used, SameFiles, KeepsNames, StoredBut;
      FirstMarked(sb, blocks, inodes, owner);
      var p := inodes[i].addrs[NDIRECT];
      a := Balloc();
      if a != 0 {
        BlockGrew(sb, old(blocks), inodes, owner, a, i, j);
        LogWrite(p, PutU32(blocks[p], j, a));
        owner := owner[a := Entry(i, j)];
        GrewStored(sb, old(blocks), inodes, blocks, inodes, i);
      } else {
        GrewNot(sb, blocks, inodes, i);
      }
    }

    /** The indirect block of file i, allocated if it is not there. */
    method EnsureIndirect(i: nat) returns (p: nat, ghost maps: set<nat>)
      requires Open(i)
      modifies this`blocks, this`inodes, this`owner, this`logged
      ensures Open(i) && Grew(sb, old(blocks), old(inodes), blocks, inodes, i)
      ensures p == inodes[i].addrs[NDIRECT] && (p != 0 ==> p < |blocks|)
      ensures p == 0 ==> forall c: nat | c < sb.size :: Used(sb, blocks, c)
      ensures old(inodes)[i].addrs[NDIRECT] != 0 ==>
        blocks == old(blocks) && inodes == old(inodes) && owner == old(owner) && logged == old(logged) && maps == {}
      ensures |maps| <= (if old(inodes)[i].addrs[NDIRECT] == 0 then 1 else 0) && logged <= old(logged) + maps + {p}
    {
      hide Owned, Marked, InHand, Backed, Used, SameFiles, KeepsNames, StoredBut, Grew;
      maps := {};
      GrewNot(sb, blocks, inodes, i);
      p := inodes[i].addrs[NDIRECT];
      if p == 0 {
        p := AllocInInode(i, NDIRECT);
        maps := if p == 0 then {} else {sb.BitmapBlock(p)};
      }
      if p != 0 { PointerPlace(sb, blocks, inodes, owner, i); }
    }

    /** bmap: the address of block bn of file i, which it allocates if it is not there; 0
        exactly when that takes a block and none is free. */
    method Bmap(i: nat, bn: nat) returns (a: nat, ghost maps: set<nat>)
      requires Open(i) && bn < MAXFILE
      modifies this`blocks, this`inodes, this`owner, this`logged
      ensures Open(i) && Grew(sb, old(blocks), old(inodes), blocks, inodes, i)
      ensures a == Addr(blocks, inodes, SlotOf(i, bn))
      ensures bn < NDIRECT ==> a == inodes[i].addrs[bn]
      ensures bn >= NDIRECT ==> var p := inodes[i].addrs[NDIRECT];
        if p == 0 then a == 0 else p < |blocks| && a == GetU32(blocks[p], bn - NDIRECT)
      ensures a == 0 ==> forall c: nat | c < sb.size :: Used(sb, blocks, c)
      ensures Addr(old(blocks), old(inodes), SlotOf(i, bn)) != 0 ==>
        blocks == old(blocks) && inodes == old(inodes) && owner == old(owner) && logged == old(logged) && maps == {}
      ensures |maps| <= Missing(old(blocks), old(inodes), i, bn)
      ensures logged <= old(logged) + maps + {a} + (if bn < NDIRECT then {} else {inodes[i].addrs[NDIRECT]})
    {
      hide Owned, Marked, InHand, Backed, Used, SameFiles, KeepsNames, StoredBut, Grew;
      if bn < NDIRECT {
        GrewNot(sb, blocks, inodes, i);
        a, maps := inodes[i].addrs[bn], {};
        if a == 0 {
          a := AllocInInode(i, bn);
          maps := if a == 0 then {} else {sb.BitmapBlock(a)};
        }
        return;
      }
      var p;
      p, maps := EnsureIndirect(i);
      if p == 0 {
        return 0, maps;
      }
      ghost var blocks1, inodes1 := blocks, inodes;
      a := GetU32(blocks[p], bn - NDIRECT);
      if a == 0 {
        a := AllocInBlock(i, bn - NDIRECT);
        GrewTwice(sb, old(blocks), old(inodes), blocks1, inodes1, blocks, inodes, i);
        maps := maps + if a == 0 then {} else {sb.BitmapBlock(a)};
      }
    }

    // -------------------------------------------------------------------------
    // Inodes
    // -------------------------------------------------------------------------

    /** iupdate: inode i is on disk again, and nothing else has changed. */
    method Iupdate(i: nat)
      requires Open(i)
      modifies this`blocks, this`logged
      ensures Valid() && logged == old(logged) + {sb.InodeBlock(i)}
      ensures SameFiles(old(blocks), inodes, blocks, inodes)
      ensures forall b: nat | b < sb.size && b != sb.InodeBlock(i) :: b < |blocks| && blocks[b] == old(blocks)[b]
    {
      hide Owned, Marked, InHand, Backed, Used, SameFiles, InodeAt, PutInode;
      InodeBlockPlace(sb, i);
      var b := sb.InodeBlock(i);
      InodeStored(sb, blocks, inodes, owner, i);
      LogWrite(b, PutInode(blocks[b], i % IPB, inodes[i]));
    }
  }

  lemma InodeStored(sb: Super, blocks: seq<Block>, inodes: seq<Inode>, owner: Owners, i: nat)
    requires FsInv(sb, blocks, inodes, owner) && i < |inodes| && StoredBut(sb, blocks, inodes, i)
    ensures var b := sb.InodeBlock(i);
      && b < sb.bmapstart && b < |blocks|
      && var blocks' := blocks[b := PutInode(blocks[b], i % IPB, inodes[i])];
      FsInv(sb, blocks', inodes, owner) && StoredBut(sb, blocks', inodes, sb.ninodes) && SameFiles(blocks, inodes, blocks', inodes)
  {
    InodeBlockPlace(sb, i);
    var b := sb.InodeBlock(i);
    var blocks' := blocks[b := PutInode(blocks[b], i % IPB, inodes[i])];
    forall j: nat | j < sb.ninodes ensures StoredAt(sb, blocks', inodes, j) {
      InodeBlockPlace(sb, j);
      assert i == i / IPB * IPB + i % IPB && j == j / IPB * IPB + j % IPB;
      if j != i { assert StoredAt(sb, blocks, inodes, j); }
    }
    MetaKept(sb, blocks, inodes, owner, b, blocks'[b]);
  }

  /** A block before the bitmap holds neither bits nor names nor data. */
  lemma MetaKept(sb: Super, blocks: seq<Block>, inodes: seq<Inode>, owner: Owners, b: nat, x: Block)
    requires FsInv(sb, blocks, inodes, owner) && b < sb.bmapstart && b < sb.size
    ensures FsInv(sb, blocks[b := x], inodes, owner) && SameFiles(blocks, inodes, blocks[b := x], inodes)
  {
    hide Addr, FileBlock;
    var blocks' := blocks[b := x];
    MetaAddrs(sb, blocks, blocks', inodes, owner);
    forall c: nat | c < sb.size ensures Used(sb, blocks', c) == Used(sb, blocks, c) { BitmapBlockPlace(sb, c); }
    StillBacked(blocks, inodes, blocks', inodes);
  }

  lemma GrewNot(sb: Super, blocks: seq<Block>, inodes: seq<Inode>, i: nat)
    requires i < |inodes| && WfInodes(inodes)
    ensures Grew(sb, blocks, inodes, blocks, inodes, i)
  {
    hide Addr, FileBlock;
    assert inodes == inodes[i := inodes[i].(addrs := inodes[i].addrs)];
  }

  lemma PointerPlace(sb: Super, blocks: seq<Block>, inodes: seq<Inode>, owner: Owners, i: nat)
    requires FsInv(sb, blocks, inodes, owner) && i < |inodes| && inodes[i].addrs[NDIRECT] != 0
    ensures 0 < inodes[i].addrs[NDIRECT] < |blocks|
  {
    hide Marked, Backed;
    assert Addr(blocks, inodes, Pointer(i)) in owner;
  }

  /** How many blocks bmap may have to allocate. */
  ghost function Missing(blocks: seq<Block>, inodes: seq<Inode>, i: nat, bn: nat): nat
    requires WfInodes(inodes) && i < |inodes| && bn < MAXFILE
  {
    (if Addr(blocks, inodes, SlotOf(i, bn)) == 0 then 1 else 0) + (if bn >= NDIRECT && inodes[i].addrs[NDIRECT] == 0 then 1 else 0)
  }
}
