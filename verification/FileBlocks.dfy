/** Who owns which disk block: the free bitmap against the block numbers in inodes and
    indirect blocks, and what each kind of change does to the content of files. */
module FileBlocks {
  import opened Bytes
  import opened FileLayout

  /** A place that can name a block: a direct address of inode i, its indirect pointer, or
      a word of its indirect block. */
  datatype Slot = Direct(i: nat, k: nat) | Pointer(i: nat) | Entry(i: nat, j: nat)

  predicate IsSlot(n: nat, s: Slot) {
    s.i < n && match s
               case Direct(_, k) => k < NDIRECT
               case Pointer(_) => true
               case Entry(_, j) => j < NINDIRECT
  }

  predicate WfInodes(inodes: seq<Inode>) {
    forall i | 0 <= i < |inodes| :: inodes[i].Wf()
  }

  /** The block number in a slot, or 0. */
  function Addr(blocks: seq<Block>, inodes: seq<Inode>, s: Slot): nat
    requires WfInodes(inodes) && IsSlot(|inodes|, s)
  {
    match s
    case Direct(i, k) => inodes[i].addrs[k]
    case Pointer(i) => inodes[i].addrs[NDIRECT]
    case Entry(i, j) =>
      var p := inodes[i].addrs[NDIRECT];
      if 0 < p < |blocks| then GetU32(blocks[p], j) else 0
  }

  /** The slot of block n of file i. */
  function SlotOf(i: nat, n: nat): Slot {
    if n < NDIRECT then Direct(i, n) else Entry(i, n - NDIRECT)
  }

  /** Block n of file i; a block that is not there reads as zeros. */
  function FileBlock(blocks: seq<Block>, inodes: seq<Inode>, i: nat, n: nat): Block
    requires WfInodes(inodes) && i < |inodes| && n < MAXFILE
  {
    var a := Addr(blocks, inodes, SlotOf(i, n));
    if 0 < a < |blocks| then blocks[a] else ZeroBlock()
  }

  function Size(inodes: seq<Inode>, i: nat): nat
    requires i < |inodes|
  {
    inodes[i].size
  }

  /** The byte string that file i is. */
  function Content(blocks: seq<Block>, inodes: seq<Inode>, i: nat): (c: seq<byte>)
    requires WfInodes(inodes) && i < |inodes| && Size(inodes, i) <= MAXBYTES
    ensures |c| == Size(inodes, i)
    ensures forall k | 0 <= k < |c| :: c[k] == FileBlock(blocks, inodes, i, k / BSIZE)[k % BSIZE]
  {
    seq(Size(inodes, i), k requires 0 <= k < Size(inodes, i) => FileBlock(blocks, inodes, i, k / BSIZE)[k % BSIZE])
  }

  // ---------------------------------------------------------------------------
  // The invariant
  // ---------------------------------------------------------------------------

  type Owners = map<nat, Slot>

  /** The bitmap bit of block b. */
  predicate Used(sb: Super, blocks: seq<Block>, b: nat)
    requires sb.Wf() && |blocks| == sb.size && b < sb.size
  {
    BitmapBlockPlace(sb, b);
    BitAt(blocks[sb.BitmapBlock(b)], b % BPB)
  }

  /** `owner` is the inverse of Addr: no block is named twice. */
  ghost predicate Owned(sb: Super, blocks: seq<Block>, inodes: seq<Inode>, owner: Owners)
    requires WfInodes(inodes)
  {
    && (forall b | b in owner :: sb.data <= b < sb.size && 0 < b && IsSlot(|inodes|, owner[b]) && Addr(blocks, inodes, owner[b]) == b)
    && (forall s | IsSlot(|inodes|, s) && Addr(blocks, inodes, s) != 0 ::
          Addr(blocks, inodes, s) in owner && owner[Addr(blocks, inodes, s)] == s)
  }

  /** The bitmap marks the blocks before the data, the owned blocks, and those in hand. */
  ghost predicate Marked(sb: Super, blocks: seq<Block>, owner: Owners, hand: set<nat>)
    requires sb.Wf() && |blocks| == sb.size
  {
    forall b: nat | b < sb.size :: Used(sb, blocks, b) <==> b < sb.data || b in owner || b in hand
  }

  /** Every block below ceil(size / BSIZE) is there. */
  ghost predicate Backed(blocks: seq<Block>, inodes: seq<Inode>)
    requires WfInodes(inodes)
  {
    forall i: nat, n: nat | i < |inodes| && n < MAXFILE && n * BSIZE < Size(inodes, i) :: Addr(blocks, inodes, SlotOf(i, n)) != 0
  }

  ghost predicate Plausible(inodes: seq<Inode>) {
    && WfInodes(inodes)
    && (forall i | 0 <= i < |inodes| :: Size(inodes, i) <= MAXBYTES)
  }

  ghost predicate InHand(sb: Super, owner: Owners, hand: set<nat>) {
    forall b | b in hand :: sb.data <= b < sb.size && 0 < b && b !in owner
  }

  /** `hand` are blocks that balloc has marked and no slot names yet, or that a slot has
      just given up. */
  ghost predicate FsCore(sb: Super, blocks: seq<Block>, inodes: seq<Inode>, owner: Owners, hand: set<nat>) {
    && sb.Wf() && |blocks| == sb.size && |inodes| == sb.ninodes
    && Plausible(inodes)
    && Owned(sb, blocks, inodes, owner)
    && InHand(sb, owner, hand)
    && Marked(sb, blocks, owner, hand)
  }

  /** What holds between file system calls. */
  ghost predicate FsInv(sb: Super, blocks: seq<Block>, inodes: seq<Inode>, owner: Owners) {
    FsCore(sb, blocks, inodes, owner, {}) && Backed(blocks, inodes)
  }

  /** The same bytes in every block of every file. */
  ghost predicate SameFiles(blocks: seq<Block>, inodes: seq<Inode>, blocks': seq<Block>, inodes': seq<Inode>)
    requires WfInodes(inodes) && WfInodes(inodes')
  {
    && |inodes| == |inodes'|
    && forall i: nat, n: nat | i < |inodes| && n < MAXFILE :: FileBlock(blocks, inodes, i, n) == FileBlock(blocks', inodes', i, n)
  }

  /** The bitmap bit of a block is set exactly when it lies before the data or exactly one
      slot names it. */
  lemma OwnershipIsExact(sb: Super, blocks: seq<Block>, inodes: seq<Inode>, owner: Owners, b: nat)
    requires FsInv(sb, blocks, inodes, owner) && sb.data <= b < sb.size && 0 < b
    ensures Used(sb, blocks, b) <==> exists s :: IsSlot(|inodes|, s) && Addr(blocks, inodes, s) == b
    ensures forall s, t | IsSlot(|inodes|, s) && IsSlot(|inodes|, t) && Addr(blocks, inodes, s) == b == Addr(blocks, inodes, t) :: s == t
  {
    if b in owner { assert IsSlot(|inodes|, owner[b]) && Addr(blocks, inodes, owner[b]) == b; }
  }

  /** Where the block numbers come from: equal inodes and equal indirect blocks. */
  ghost predicate SameAddrs(blocks: seq<Block>, inodes: seq<Inode>, blocks': seq<Block>, inodes': seq<Inode>, except: Slot)
    requires WfInodes(inodes) && WfInodes(inodes') && |inodes| == |inodes'|
  {
    forall s | IsSlot(|inodes|, s) && s != except :: Addr(blocks, inodes, s) == Addr(blocks', inodes', s)
  }

  // ---------------------------------------------------------------------------
  // Marking a block
  // ---------------------------------------------------------------------------

  /** Blocks before the data change no address and no file. */
  lemma MetaAddrs(sb: Super, blocks: seq<Block>, blocks': seq<Block>, inodes: seq<Inode>, owner: Owners)
    requires sb.Wf() && |blocks| == |blocks'| == sb.size && WfInodes(inodes) && Owned(sb, blocks, inodes, owner)
    requires forall b | sb.data <= b < sb.size && b in owner :: blocks'[b] == blocks[b]
    ensures forall s | IsSlot(|inodes|, s) :: Addr(blocks', inodes, s) == Addr(blocks, inodes, s)
    ensures SameFiles(blocks, inodes, blocks', inodes)
  {
    forall s | IsSlot(|inodes|, s) ensures Addr(blocks', inodes, s) == Addr(blocks, inodes, s) {
      if s.Entry? && Addr(blocks, inodes, Pointer(s.i)) != 0 { assert Addr(blocks, inodes, Pointer(s.i)) in owner; }
    }
    forall i: nat, n: nat | i < |inodes| && n < MAXFILE ensures FileBlock(blocks, inodes, i, n) == FileBlock(blocks', inodes, i, n) {
      assert IsSlot(|inodes|, SlotOf(i, n));
    }
  }

  function Bitmap(sb: Super, blocks: seq<Block>, b: nat, x: bool): (r: seq<Block>)
    requires sb.Wf() && |blocks| == sb.size && b < sb.size
    ensures |r| == |blocks| && forall c | sb.data <= c < sb.size :: r[c] == blocks[c]
  {
    BitmapBlockPlace(sb, b);
    blocks[sb.BitmapBlock(b) := PutBit(blocks[sb.BitmapBlock(b)], b % BPB, x)]
  }

  lemma BitmapBits(sb: Super, blocks: seq<Block>, b: nat, x: bool, c: nat)
    requires sb.Wf() && |blocks| == sb.size && b < sb.size && c < sb.size
    ensures Used(sb, Bitmap(sb, blocks, b, x), c) == if c == b then x else Used(sb, blocks, c)
  {
    BitmapBlockPlace(sb, b);
    BitmapBlockPlace(sb, c);
    assert b == b / BPB * BPB + b % BPB && c == c / BPB * BPB + c % BPB;
  }

  /** Blocks at or after the data do not hold bits. */
  lemma DataBits(sb: Super, blocks: seq<Block>, d: nat, x: Block, c: nat)
    requires sb.Wf() && |blocks| == sb.size && sb.data <= d < sb.size && c < sb.size
    ensures Used(sb, blocks[d := x], c) == Used(sb, blocks, c)
  {
    BitmapBlockPlace(sb, c);
  }

  /** Slots that named a block still do. */
  ghost predicate KeepsNames(blocks: seq<Block>, inodes: seq<Inode>, blocks': seq<Block>, inodes': seq<Inode>)
    requires WfInodes(inodes) && WfInodes(inodes')
  {
    && |inodes| == |inodes'|
    && (forall s | IsSlot(|inodes|, s) && Addr(blocks, inodes, s) != 0 :: Addr(blocks', inodes', s) == Addr(blocks, inodes, s))
  }

  lemma StillBacked(blocks: seq<Block>, inodes: seq<Inode>, blocks': seq<Block>, inodes': seq<Inode>)
    requires WfInodes(inodes) && WfInodes(inodes') && KeepsNames(blocks, inodes, blocks', inodes')
    requires Backed(blocks, inodes) && forall i | 0 <= i < |inodes| :: Size(inodes', i) == Size(inodes, i)
    ensures Backed(blocks', inodes')
  {
    forall i: nat, n: nat | i < |inodes'| && n < MAXFILE && n * BSIZE < Size(inodes', i) ensures Addr(blocks', inodes', SlotOf(i, n)) != 0 {
      assert n * BSIZE < Size(inodes, i) && IsSlot(|inodes|, SlotOf(i, n));
    }
  }

  /** balloc: mark a free block and zero it. */
  lemma Taken(sb: Super, blocks: seq<Block>, inodes: seq<Inode>, owner: Owners, hand: set<nat>, b: nat)
    requires FsCore(sb, blocks, inodes, owner, hand) && b < sb.size && !Used(sb, blocks, b) && 0 < b
    ensures var blocks' := Bitmap(sb, blocks, b, true)[b := ZeroBlock()];
      && FsCore(sb, blocks', inodes, owner, hand + {b})
      && SameFiles(blocks, inodes, blocks', inodes) && KeepsNames(blocks, inodes, blocks', inodes)
      && (forall s | IsSlot(|inodes|, s) :: Addr(blocks', inodes, s) == Addr(blocks, inodes, s))
    ensures b !in owner && b !in hand && sb.data <= b
  {
    hide Addr, Used;
    var blocks' := Bitmap(sb, blocks, b, true)[b := ZeroBlock()];
    MetaAddrs(sb, blocks, blocks', inodes, owner);
    forall c: nat | c < sb.size ensures Used(sb, blocks', c) == (c == b || Used(sb, blocks, c)) {
      BitmapBits(sb, blocks, b, true, c);
      DataBits(sb, Bitmap(sb, blocks, b, true), b, ZeroBlock(), c);
    }
  }

  /** bfree: clear the mark of a block in hand. */
  lemma Returned(sb: Super, blocks: seq<Block>, inodes: seq<Inode>, owner: Owners, hand: set<nat>, b: nat)
    requires FsCore(sb, blocks, inodes, owner, hand) && b in hand && b < sb.size
    ensures var blocks' := Bitmap(sb, blocks, b, false);
      && FsCore(sb, blocks', inodes, owner, hand - {b})
      && SameFiles(blocks, inodes, blocks', inodes) && KeepsNames(blocks, inodes, blocks', inodes)
  {
    hide Addr, Used;
    var blocks' := Bitmap(sb, blocks, b, false);
    MetaAddrs(sb, blocks, blocks', inodes, owner);
    forall c: nat | c < sb.size ensures Used(sb, blocks', c) == (c != b && Used(sb, blocks, c)) {
      BitmapBits(sb, blocks, b, false, c);
    }
  }

  // ---------------------------------------------------------------------------
  // Naming a block
  // ---------------------------------------------------------------------------

  /** A slot that named nothing names a zeroed block that was in hand. */
  lemma Named(sb: Super, blocks: seq<Block>, inodes: seq<Inode>, owner: Owners, hand: set<nat>,
              blocks': seq<Block>, inodes': seq<Inode>, b: nat, s: Slot)
    requires FsCore(sb, blocks, inodes, owner, hand) && Plausible(inodes') && |inodes'| == |inodes| && |blocks'| == |blocks|
    requires IsSlot(|inodes|, s) && b in hand && Addr(blocks, inodes, s) == 0 && Addr(blocks', inodes', s) == b
    requires SameAddrs(blocks, inodes, blocks', inodes', s)
    requires forall c: nat | c < sb.size :: Used(sb, blocks', c) == Used(sb, blocks, c)
    ensures FsCore(sb, blocks', inodes', owner[b := s], hand - {b})
    ensures KeepsNames(blocks, inodes, blocks', inodes')
  {
    hide Addr, Used;
  }

  lemma NamedFiles(sb: Super, blocks: seq<Block>, inodes: seq<Inode>, owner: Owners, hand: set<nat>,
                   blocks': seq<Block>, inodes': seq<Inode>, b: nat, s: Slot)
    requires FsCore(sb, blocks, inodes, owner, hand) && WfInodes(inodes') && |inodes'| == |inodes| && |blocks'| == |blocks|
    requires IsSlot(|inodes|, s) && b in hand && Addr(blocks, inodes, s) == 0 && Addr(blocks', inodes', s) == b
    requires SameAddrs(blocks, inodes, blocks', inodes', s)
    requires b < |blocks'| && blocks'[b] == ZeroBlock()
    requires forall c | c in owner && c < |blocks| && !owner[c].Pointer? :: blocks'[c] == blocks[c]
    ensures SameFiles(blocks, inodes, blocks', inodes')
  {
    hide Addr;
    forall i: nat, n: nat | i < |inodes| && n < MAXFILE ensures FileBlock(blocks, inodes, i, n) == FileBlock(blocks', inodes', i, n) {
      var t := SlotOf(i, n);
      assert IsSlot(|inodes|, t);
      if Addr(blocks, inodes, t) != 0 { assert owner[Addr(blocks, inodes, t)] == t; }
    }
  }

  /** ip->addrs[k] = b */
  function SetAddr(inodes: seq<Inode>, i: nat, k: nat, b: nat): (r: seq<Inode>)
    requires WfInodes(inodes) && i < |inodes| && k <= NDIRECT && b < U32_LIMIT
    ensures WfInodes(r) && |r| == |inodes|
  {
    inodes[i := inodes[i].(addrs := inodes[i].addrs[k := b])]
  }

  lemma ZeroWords(j: nat)
    requires j < WORDS
    ensures GetU32(ZeroBlock(), j) == 0
  {
  }

  /** A direct address, or the indirect pointer. */
  lemma NameInInode(sb: Super, blocks: seq<Block>, inodes: seq<Inode>, owner: Owners, hand: set<nat>, b: nat, i: nat, k: nat)
    requires FsCore(sb, blocks, inodes, owner, hand) && i < |inodes| && k <= NDIRECT
    requires b in hand && b < sb.size && blocks[b] == ZeroBlock() && inodes[i].addrs[k] == 0
    ensures var s := if k < NDIRECT then Direct(i, k) else Pointer(i);
      FsCore(sb, blocks, SetAddr(inodes, i, k, b), owner[b := s], hand - {b})
    ensures KeepsNames(blocks, inodes, blocks, SetAddr(inodes, i, k, b)) && SameFiles(blocks, inodes, blocks, SetAddr(inodes, i, k, b))
  {
    var s := if k < NDIRECT then Direct(i, k) else Pointer(i);
    var inodes' := SetAddr(inodes, i, k, b);
    forall t | IsSlot(|inodes|, t) && t != s ensures Addr(blocks, inodes, t) == Addr(blocks, inodes', t) {
      if t.Entry? { ZeroWords(t.j); }
    }
    assert forall j | 0 <= j < |inodes| :: Size(inodes', j) == Size(inodes, j);
    Named(sb, blocks, inodes, owner, hand, blocks, inodes', b, s);
    NamedFiles(sb, blocks, inodes, owner, hand, blocks, inodes', b, s);
  }

  /** A word of the indirect block. */
  lemma NameInBlock(sb: Super, blocks: seq<Block>, inodes: seq<Inode>, owner: Owners, hand: set<nat>, b: nat, i: nat, j: nat)
    requires FsCore(sb, blocks, inodes, owner, hand) && i < |inodes| && j < NINDIRECT && inodes[i].addrs[NDIRECT] != 0
    requires b in hand && b < sb.size && blocks[b] == ZeroBlock() && Addr(blocks, inodes, Entry(i, j)) == 0
    ensures var p := inodes[i].addrs[NDIRECT];
      && p < sb.size && sb.data <= p
      && FsCore(sb, blocks[p := PutU32(blocks[p], j, b)], inodes, owner[b := Entry(i, j)], hand - {b})
      && KeepsNames(blocks, inodes, blocks[p := PutU32(blocks[p], j, b)], inodes)
      && SameFiles(blocks, inodes, blocks[p := PutU32(blocks[p], j, b)], inodes)
  {
    var s, p := Entry(i, j), inodes[i].addrs[NDIRECT];
    assert Addr(blocks, inodes, Pointer(i)) == p;
    var blocks' := blocks[p := PutU32(blocks[p], j, b)];
    forall t | IsSlot(|inodes|, t) && t != s ensures Addr(blocks, inodes, t) == Addr(blocks', inodes, t) {
      if t.Entry? && Addr(blocks, inodes, Pointer(t.i)) != 0 { assert owner[Addr(blocks, inodes, Pointer(t.i))] == Pointer(t.i); }
    }
    forall c: nat | c < sb.size ensures Used(sb, blocks', c) == Used(sb, blocks, c) {
      DataBits(sb, blocks, p, PutU32(blocks[p], j, b), c);
    }
    Named(sb, blocks, inodes, owner, hand, blocks', inodes, b, s);
    NamedFiles(sb, blocks, inodes, owner, hand, blocks', inodes, b, s);
  }

  // ---------------------------------------------------------------------------
  // Writing a block of a file
  // ---------------------------------------------------------------------------

  lemma Rewritten(sb: Super, blocks: seq<Block>, inodes: seq<Inode>, owner: Owners, hand: set<nat>, b: nat, x: Block)
    requires FsCore(sb, blocks, inodes, owner, hand) && b in owner && !owner[b].Pointer?
    ensures b < sb.size && FsCore(sb, blocks[b := x], inodes, owner, hand) && KeepsNames(blocks, inodes, blocks[b := x], inodes)
    ensures forall i: nat, n: nat | i < |inodes| && n < MAXFILE ::
      FileBlock(blocks[b := x], inodes, i, n) == if SlotOf(i, n) == owner[b] then x else FileBlock(blocks, inodes, i, n)
  {
    var blocks' := blocks[b := x];
    forall t | IsSlot(|inodes|, t) ensures Addr(blocks, inodes, t) == Addr(blocks', inodes, t) {
      if t.Entry? && Addr(blocks, inodes, Pointer(t.i)) != 0 { assert owner[Addr(blocks, inodes, Pointer(t.i))] == Pointer(t.i); }
    }
    forall c: nat | c < sb.size ensures Used(sb, blocks', c) == Used(sb, blocks, c) {
      DataBits(sb, blocks, b, x, c);
    }
    RewrittenFiles(sb, blocks, inodes, owner, hand, b, x);
  }

  lemma RewrittenFiles(sb: Super, blocks: seq<Block>, inodes: seq<Inode>, owner: Owners, hand: set<nat>, b: nat, x: Block)
    requires FsCore(sb, blocks, inodes, owner, hand) && b in owner && b < sb.size
    requires forall t | IsSlot(|inodes|, t) :: Addr(blocks, inodes, t) == Addr(blocks[b := x], inodes, t)
    ensures forall i: nat, n: nat | i < |inodes| && n < MAXFILE ::
      FileBlock(blocks[b := x], inodes, i, n) == if SlotOf(i, n) == owner[b] then x else FileBlock(blocks, inodes, i, n)
  {
    hide Addr, Marked;
    forall i: nat, n: nat | i < |inodes| && n < MAXFILE
      ensures FileBlock(blocks[b := x], inodes, i, n) == if SlotOf(i, n) == owner[b] then x else FileBlock(blocks, inodes, i, n)
    {
      var t := SlotOf(i, n);
      assert IsSlot(|inodes|, t);
      if Addr(blocks, inodes, t) != 0 { assert owner[Addr(blocks, inodes, t)] == t; }
    }
  }

  // ---------------------------------------------------------------------------
  // Giving blocks up
  // ---------------------------------------------------------------------------

  /** The blocks of all files but i are as they were. */
  ghost predicate OtherFiles(blocks: seq<Block>, inodes: seq<Inode>, blocks': seq<Block>, inodes': seq<Inode>, i: nat)
    requires WfInodes(inodes) && WfInodes(inodes')
  {
    && |inodes| == |inodes'|
    && (forall j | 0 <= j < |inodes| && j != i :: inodes'[j] == inodes[j])
    && forall j: nat, n: nat | j < |inodes| && j != i && n < MAXFILE :: FileBlock(blocks', inodes', j, n) == FileBlock(blocks, inodes, j, n)
  }

  /** Every block of every file but i that its size needs is there. */
  ghost predicate BackedBut(blocks: seq<Block>, inodes: seq<Inode>, i: nat)
    requires WfInodes(inodes)
  {
    forall j: nat, n: nat | j < |inodes| && j != i && n < MAXFILE && n * BSIZE < Size(inodes, j) :: Addr(blocks, inodes, SlotOf(j, n)) != 0
  }

  /** Slots of other inodes name what they named. */
  ghost predicate OtherSlots(blocks: seq<Block>, inodes: seq<Inode>, blocks': seq<Block>, inodes': seq<Inode>, i: nat)
    requires WfInodes(inodes) && WfInodes(inodes') && |inodes| == |inodes'|
  {
    && (forall j | 0 <= j < |inodes| && j != i :: inodes'[j] == inodes[j])
    && forall s | IsSlot(|inodes|, s) && s.i != i :: Addr(blocks', inodes', s) == Addr(blocks, inodes, s)
  }

  lemma OthersKept(blocks: seq<Block>, inodes: seq<Inode>, blocks': seq<Block>, inodes': seq<Inode>, i: nat)
    requires WfInodes(inodes) && WfInodes(inodes') && |inodes| == |inodes'| && OtherSlots(blocks, inodes, blocks', inodes', i)
    requires |blocks| == |blocks'|
    requires forall s: Slot | IsSlot(|inodes|, s) && s.i != i && !s.Pointer? && 0 < Addr(blocks, inodes, s) < |blocks| ::
      blocks'[Addr(blocks, inodes, s)] == blocks[Addr(blocks, inodes, s)]
    ensures OtherFiles(blocks, inodes, blocks', inodes', i)
    ensures BackedBut(blocks, inodes, i) ==> BackedBut(blocks', inodes', i)
  {
    hide Addr;
    forall j: nat, n: nat | j < |inodes| && j != i && n < MAXFILE ensures FileBlock(blocks', inodes', j, n) == FileBlock(blocks, inodes, j, n) {
      assert IsSlot(|inodes|, SlotOf(j, n));
    }
    if BackedBut(blocks, inodes, i) {
      forall j: nat, n: nat | j < |inodes| && j != i && n < MAXFILE && n * BSIZE < Size(inodes', j) ensures Addr(blocks', inodes', SlotOf(j, n)) != 0 {
        assert IsSlot(|inodes|, SlotOf(j, n)) && n * BSIZE < Size(inodes, j);
      }
    }
  }

  /** A direct block leaves the file. */
  lemma CutDirect(sb: Super, blocks: seq<Block>, inodes: seq<Inode>, owner: Owners, hand: set<nat>, i: nat, k: nat)
    requires FsCore(sb, blocks, inodes, owner, hand) && i < |inodes| && k < NDIRECT && inodes[i].addrs[k] != 0
    ensures var b, inodes' := inodes[i].addrs[k], SetAddr(inodes, i, k, 0);
      && b in owner && b < sb.size && FsCore(sb, blocks, inodes', owner - {b}, hand + {b})
      && OtherFiles(blocks, inodes, blocks, inodes', i)
      && (BackedBut(blocks, inodes, i) ==> BackedBut(blocks, inodes', i))
  {
    var b, inodes' := inodes[i].addrs[k], SetAddr(inodes, i, k, 0);
    assert Addr(blocks, inodes, Direct(i, k)) == b && b in owner && owner[b] == Direct(i, k);
    forall t | IsSlot(|inodes|, t) && t != Direct(i, k) ensures Addr(blocks, inodes, t) == Addr(blocks, inodes', t) { }
    assert forall j | 0 <= j < |inodes| :: Size(inodes', j) == Size(inodes, j);
    CutCore(sb, blocks, inodes, inodes', owner, hand, {b});
    OthersKept(blocks, inodes, blocks, inodes', i);
  }

  /** The blocks of the indirect part of file i. */
  ghost function IndirectPart(owner: Owners, i: nat): set<nat> {
    set b | b in owner && owner[b].i == i && !owner[b].Direct?
  }

  /** The indirect block and all its entries leave the file. */
  lemma CutPointer(sb: Super, blocks: seq<Block>, inodes: seq<Inode>, owner: Owners, hand: set<nat>, i: nat)
    requires FsCore(sb, blocks, inodes, owner, hand) && i < |inodes| && inodes[i].addrs[NDIRECT] != 0
    ensures var gone, inodes' := IndirectPart(owner, i), SetAddr(inodes, i, NDIRECT, 0);
      && FsCore(sb, blocks, inodes', owner - gone, hand + gone)
      && OtherFiles(blocks, inodes, blocks, inodes', i)
      && (BackedBut(blocks, inodes, i) ==> BackedBut(blocks, inodes', i))
  {
    var gone, inodes' := IndirectPart(owner, i), SetAddr(inodes, i, NDIRECT, 0);
    forall t | IsSlot(|inodes|, t) ensures Addr(blocks, inodes', t) == if t.i == i && !t.Direct? then 0 else Addr(blocks, inodes, t) { }
    assert forall j | 0 <= j < |inodes| :: Size(inodes', j) == Size(inodes, j);
    CutCore(sb, blocks, inodes, inodes', owner, hand, gone);
    OthersKept(blocks, inodes, blocks, inodes', i);
  }

  /** Slots let go of the blocks in `gone`, which are now in hand. */
  lemma CutCore(sb: Super, blocks: seq<Block>, inodes: seq<Inode>, inodes': seq<Inode>, owner: Owners, hand: set<nat>, gone: set<nat>)
    requires FsCore(sb, blocks, inodes, owner, hand) && Plausible(inodes') && |inodes'| == |inodes| && gone <= owner.Keys
    requires forall t | IsSlot(|inodes|, t) :: Addr(blocks, inodes', t) ==
               if Addr(blocks, inodes, t) in gone then 0 else Addr(blocks, inodes, t)
    ensures FsCore(sb, blocks, inodes', owner - gone, hand + gone)
  {
    hide Addr, Used;
  }

  /** What an indirect block lists from word j on. */
  ghost function Listed(p: Block, j: nat): set<nat> {
    set k: nat | k < NINDIRECT && InTail(j, k) && GetU32(p, k) != 0 :: GetU32(p, k)
  }

  predicate InTail(j: nat, k: nat) { j <= k }

  lemma IndirectBlocks(sb: Super, blocks: seq<Block>, inodes: seq<Inode>, owner: Owners, hand: set<nat>, i: nat)
    requires FsCore(sb, blocks, inodes, owner, hand) && i < |inodes| && inodes[i].addrs[NDIRECT] != 0
    ensures var p := inodes[i].addrs[NDIRECT];
      && p < sb.size && IndirectPart(owner, i) == Listed(blocks[p], 0) + {p} && p !in Listed(blocks[p], 0)
      && (forall j: nat, k: nat | j < NINDIRECT && k < NINDIRECT && j != k && GetU32(blocks[p], j) != 0 :: GetU32(blocks[p], j) != GetU32(blocks[p], k))
  {
    var p := inodes[i].addrs[NDIRECT];
    assert Addr(blocks, inodes, Pointer(i)) == p && owner[p] == Pointer(i);
    forall b | b in IndirectPart(owner, i) ensures b in Listed(blocks[p], 0) + {p} {
      assert Addr(blocks, inodes, owner[b]) == b;
      if owner[b].Entry? { assert InTail(0, owner[b].j) && GetU32(blocks[p], owner[b].j) == b; }
    }
    forall k: nat | k < NINDIRECT && GetU32(blocks[p], k) != 0
      ensures GetU32(blocks[p], k) in owner && owner[GetU32(blocks[p], k)] == Entry(i, k)
    {
      assert IsSlot(|inodes|, Entry(i, k)) && Addr(blocks, inodes, Entry(i, k)) == GetU32(blocks[p], k);
    }
  }

  lemma ListedStep(p: Block, j: nat)
    requires j < NINDIRECT
    requires forall k: nat | k < NINDIRECT && k != j && GetU32(p, j) != 0 :: GetU32(p, j) != GetU32(p, k)
    ensures Listed(p, j) == Listed(p, j + 1) + (if GetU32(p, j) != 0 then {GetU32(p, j)} else {})
    ensures GetU32(p, j) != 0 ==> GetU32(p, j) !in Listed(p, j + 1)
  {
    forall x | x in Listed(p, j) ensures x in Listed(p, j + 1) || (GetU32(p, j) != 0 && x == GetU32(p, j)) {
      var k: nat :| k < NINDIRECT && InTail(j, k) && GetU32(p, k) != 0 && x == GetU32(p, k);
      assert k == j || InTail(j + 1, k);
    }
    forall x | x in Listed(p, j + 1) ensures x in Listed(p, j) && (GetU32(p, j) != 0 ==> x != GetU32(p, j)) {
      var k: nat :| k < NINDIRECT && InTail(j + 1, k) && GetU32(p, k) != 0 && x == GetU32(p, k);
      assert InTail(j, k);
    }
    if GetU32(p, j) != 0 { assert InTail(j, j); }
  }
}
