/** malloc, free and morecore of user/umalloc.c on headers in memory, against the list of blocks.
    Addresses are counted in units of sizeof(Header), 16 bytes. */
module Umalloc {
  import opened HeapBlocks

  const UNIT: nat := 16
  const MAXREQUEST: nat := 0x7FFF_FFE0

  /** nunits of a request. */
  function Units(nbytes: nat): nat { (nbytes + UNIT - 1) / UNIT + 1 }

  /** morecore asks for no less than 4096 units. */
  function Asked(nu: nat): nat { if nu < 4096 then 4096 else nu }

  /** The int that sbrk receives. */
  function SbrkArgument(nu: nat): int {
    var x := Asked(nu) * UNIT % 0x1_0000_0000;
    if x < 0x8000_0000 then x else x - 0x1_0000_0000
  }

  /** sbrk is asked for what malloc needs exactly for requests up to MAXREQUEST bytes. */
  lemma RequestFits(nbytes: nat)
    requires nbytes < 0x1_0000_0000
    ensures SbrkArgument(Units(nbytes)) == Asked(Units(nbytes)) * UNIT <==> nbytes <= MAXREQUEST
    ensures nbytes <= (Units(nbytes) - 1) * UNIT < nbytes + UNIT
  {
  }

  // ---------------------------------------------------------------------------
  // Lists in memory
  // ---------------------------------------------------------------------------

  /** The address after block k, around the ring. */
  function NextAt(free: seq<Block>, k: nat): nat
    requires k < |free|
  {
    if k + 1 < |free| then free[k + 1].at else free[0].at
  }

  /** The headers in memory form the ring. */
  ghost predicate Ring(free: seq<Block>, ptr: map<nat, nat>, size: map<nat, nat>) {
    forall k: nat | k < |free| :: Linked(free, k, ptr, size)
  }

  predicate Linked(free: seq<Block>, k: nat, ptr: map<nat, nat>, size: map<nat, nat>)
    requires k < |free|
  {
    free[k].at in ptr && free[k].at in size && size[free[k].at] == free[k].len && ptr[free[k].at] == NextAt(free, k)
  }

  ghost predicate Headers(live: Live, size: map<nat, nat>) {
    forall a | a in live :: a in size && size[a] == live[a]
  }

  ghost predicate HasAt(free: seq<Block>, a: nat) { exists j :: 0 <= j < |free| && free[j].at == a }

  ghost predicate Below(core: set<nat>, top: nat) { forall u | u in core :: u < top }

  // --- free in memory ----------------------------------------------------------

  /** The two assignments that join bp with the block after it, or link it. */
  function PtrUp(free: seq<Block>, k: nat, b: Block, ptr: map<nat, nat>): map<nat, nat>
    requires k < |free| && (JoinsUp(free, k, b) ==> NextAt(free, k) in ptr)
  {
    ptr[b.at := if JoinsUp(free, k, b) then ptr[NextAt(free, k)] else NextAt(free, k)]
  }

  function SizeUp(free: seq<Block>, k: nat, b: Block, size: map<nat, nat>): map<nat, nat>
    requires k < |free|
  {
    if JoinsUp(free, k, b) then size[b.at := b.len + free[k + 1].len] else size
  }

  function PtrDown(free: seq<Block>, k: nat, b: Block, ptr: map<nat, nat>): map<nat, nat>
    requires k < |free| && b.at in ptr
  {
    ptr[free[k].at := if JoinsDown(free, k, b) then ptr[b.at] else b.at]
  }

  function SizeDown(free: seq<Block>, k: nat, b: Block, size: map<nat, nat>): map<nat, nat>
    requires k < |free| && b.at in size
  {
    if JoinsDown(free, k, b) then size[free[k].at := free[k].len + size[b.at]] else size
  }

  lemma InsertedRing(free: seq<Block>, k: nat, b: Block, ptr: map<nat, nat>, size: map<nat, nat>)
    requires Ordered(free) && Fits(free, k, b) && Ring(free, ptr, size) && b.at in size && size[b.at] == b.len
    ensures NextAt(free, k) in ptr
    ensures var ptr1, size1 := PtrUp(free, k, b, ptr), SizeUp(free, k, b, size);
      Ring(Inserted(free, k, b), PtrDown(free, k, b, ptr1), SizeDown(free, k, b, size1))
  {
    assert Linked(free, k, ptr, size);
    if k + 1 < |free| { assert Linked(free, k + 1, ptr, size); } else { assert Linked(free, 0, ptr, size); }
    var ptr1, size1 := PtrUp(free, k, b, ptr), SizeUp(free, k, b, size);
    var ptr2, size2 := PtrDown(free, k, b, ptr1), SizeDown(free, k, b, size1);
    var f := Inserted(free, k, b);
    InsertedOrdered(free, k, b);
    forall j: nat | j < |f| ensures Linked(f, j, ptr2, size2) {
      InsertedLinked(free, k, b, ptr, size, j);
    }
  }

  lemma ReplacedNext(free: seq<Block>, m: nat, r: nat, x: Block, j: nat)
    requires 0 < m <= r <= |free| && j < |Replaced(free, m, r, x)|
    ensures var f := Replaced(free, m, r, x);
      && (j < m ==> f[j] == free[j] && NextAt(f, j) == if j + 1 == m then x.at else free[j + 1].at)
      && (j == m ==> f[j] == x && NextAt(f, j) == NextAt(free, r - 1))
      && (j > m ==> j + r - m - 1 < |free| && f[j] == free[j + r - m - 1] && NextAt(f, j) == NextAt(free, j + r - m - 1))
  {
  }

  /** base has no units, so nothing joins it from above. */
  lemma FirstStays(free: seq<Block>, k: nat, b: Block)
    requires Ordered(free) && Fits(free, k, b)
    ensures 0 < From(free, k, b) <= k + 1 <= Upto(free, k, b) <= |free|
  {
  }

  /** The new list block by block. */
  lemma InsertedNext(free: seq<Block>, k: nat, b: Block, j: nat)
    requires Ordered(free) && Fits(free, k, b) && j < |Inserted(free, k, b)|
    ensures 0 < From(free, k, b) <= k + 1 <= Upto(free, k, b) <= |free|
    ensures var f, m, r := Inserted(free, k, b), From(free, k, b), Upto(free, k, b);
      && (j < m ==> f[j] == free[j] && NextAt(f, j) == if j + 1 == m then Joined(free, k, b).at else free[j + 1].at)
      && (j == m ==> f[j] == Joined(free, k, b) && NextAt(f, j) == NextAt(free, r - 1))
      && (j > m ==> j + r - m - 1 < |free| && f[j] == free[j + r - m - 1] && NextAt(f, j) == NextAt(free, j + r - m - 1))
  {
    hide Joined, Ordered, Replaced;
    FirstStays(free, k, b);
    ReplacedNext(free, From(free, k, b), Upto(free, k, b), Joined(free, k, b), j);
  }

  /** Headers other than those of bp and p are not written. */
  lemma OtherHeaders(free: seq<Block>, k: nat, b: Block, ptr: map<nat, nat>, size: map<nat, nat>, i: nat)
    requires Ordered(free) && Fits(free, k, b) && b.at in size && NextAt(free, k) in ptr && i < |free| && i != k
    requires free[i].at in ptr && free[i].at in size
    ensures var ptr1, size1 := PtrUp(free, k, b, ptr), SizeUp(free, k, b, size);
      && free[i].at in PtrDown(free, k, b, ptr1) && PtrDown(free, k, b, ptr1)[free[i].at] == ptr[free[i].at]
      && free[i].at in SizeDown(free, k, b, size1) && SizeDown(free, k, b, size1)[free[i].at] == size[free[i].at]
  {
    assert free[i].at != free[k].at && free[i].at != b.at;
  }

  lemma InsertedLinked(free: seq<Block>, k: nat, b: Block, ptr: map<nat, nat>, size: map<nat, nat>, j: nat)
    requires Ordered(free) && Fits(free, k, b) && Ring(free, ptr, size) && b.at in size && size[b.at] == b.len
    requires NextAt(free, k) in ptr && j < |Inserted(free, k, b)|
    ensures var ptr1, size1 := PtrUp(free, k, b, ptr), SizeUp(free, k, b, size);
      Linked(Inserted(free, k, b), j, PtrDown(free, k, b, ptr1), SizeDown(free, k, b, size1))
  {
    hide Inserted, Ordered;
    var m, r := From(free, k, b), Upto(free, k, b);
    InsertedNext(free, k, b, j);
    assert Linked(free, k, ptr, size);
    if j < m {
      assert Linked(free, j, ptr, size);
      if j != k { OtherHeaders(free, k, b, ptr, size, j); }
    } else if j == m {
      assert Linked(free, r - 1, ptr, size);
      GapAddress(free, k, b);
    } else {
      assert Linked(free, j + r - m - 1, ptr, size);
      OtherHeaders(free, k, b, ptr, size, j + r - m - 1);
    }
  }

  lemma GapAddress(free: seq<Block>, k: nat, b: Block)
    requires Fits(free, k, b)
    ensures free[k].at != b.at && (k + 1 < |free| ==> NextAt(free, k) != b.at)
  {
  }

  // --- malloc in memory --------------------------------------------------------

  /** malloc unlinks a block that fits exactly. */
  lemma UnlinkedRing(free: seq<Block>, k: nat, ptr: map<nat, nat>, size: map<nat, nat>)
    requires Ordered(free) && 0 < k < |free| && Ring(free, ptr, size)
    ensures Ring(free[..k] + free[k + 1..], ptr[free[k - 1].at := NextAt(free, k)], size)
  {
    var f, ptr' := free[..k] + free[k + 1..], ptr[free[k - 1].at := NextAt(free, k)];
    forall j: nat | j < |f| ensures Linked(f, j, ptr', size) {
      var i := if j < k then j else j + 1;
      assert f[j] == free[i] && Linked(free, i, ptr, size);
      assert j != k - 1 ==> NextAt(f, j) == NextAt(free, i) && free[i].at != free[k - 1].at;
      assert j == k - 1 ==> NextAt(f, j) == NextAt(free, k);
    }
  }

  /** malloc shortens a larger block and writes a header at its end. */
  lemma CarvedRing(free: seq<Block>, k: nat, n: nat, ptr: map<nat, nat>, size: map<nat, nat>)
    requires Ordered(free) && 0 < k < |free| && 0 < n < free[k].len && Ring(free, ptr, size)
    ensures Ring(Shrunk(free, k, n), ptr, size[free[k].at := free[k].len - n][Carved(free, k, n) := n])
  {
    var f, size' := Shrunk(free, k, n), size[free[k].at := free[k].len - n][Carved(free, k, n) := n];
    forall j: nat | j < |f| ensures Linked(f, j, ptr, size') {
      assert Linked(free, j, ptr, size);
      if j != k { CarvedElsewhere(free, k, n, j); }
    }
  }

  lemma CarvedElsewhere(free: seq<Block>, k: nat, n: nat, j: nat)
    requires Ordered(free) && k < |free| && 0 < n < free[k].len && j < |free| && j != k
    ensures free[j].at != free[k].at && free[j].at != Carved(free, k, n)
  {
  }

  /** Either way the headers form the ring of what is left. */
  lemma ShrunkRing(free: seq<Block>, k: nat, n: nat, ptr: map<nat, nat>, size: map<nat, nat>)
    requires Ordered(free) && 0 < k < |free| && 0 < n <= free[k].len && Ring(free, ptr, size)
    ensures free[k].len == n ==> Ring(Shrunk(free, k, n), ptr[free[k - 1].at := NextAt(free, k)], size)
    ensures free[k].len > n ==>
      Ring(Shrunk(free, k, n), ptr, size[free[k].at := free[k].len - n][Carved(free, k, n) := n])
  {
    hide Ordered, Ring;
    if free[k].len == n { UnlinkedRing(free, k, ptr, size); } else { CarvedRing(free, k, n, ptr, size); }
  }

  // ---------------------------------------------------------------------------
  // Going around the ring
  // ---------------------------------------------------------------------------

  /** The index s places after f on a ring of n. */
  function Around(f: nat, s: nat, n: nat): (i: nat)
    requires f < n && s <= n
    ensures i < n
  {
    if f + s < n then f + s else f + s - n
  }

  /** The blocks after f up to s places on are all too small. */
  ghost predicate TooSmall(free: seq<Block>, f: nat, s: nat, n: nat) {
    && f < |free| && s <= |free|
    && forall i: nat | 0 < i <= s :: free[Around(f, i, |free|)].len < n
  }

  lemma AllTooSmall(free: seq<Block>, f: nat, n: nat, k: nat)
    requires TooSmall(free, f, |free|, n) && k < |free|
    ensures free[k].len < n
  {
    var i := if k > f then k - f else k + |free| - f;
    assert Around(f, i, |free|) == k;
  }

  lemma {:induction false} Position(free: seq<Block>, x: nat, k: nat) returns (r: nat)
    requires Ordered(free) && k < |free| && free[0].at < x && (k + 1 < |free| ==> x < free[k + 1].at)
    requires forall j | 0 <= j < |free| :: free[j].at != x
    ensures After(free, r, x)
    decreases k
  {
    if free[k].at < x {
      r := k;
    } else {
      r := Position(free, x, k - 1);
    }
  }

  // ---------------------------------------------------------------------------
  // What belongs to the user
  // ---------------------------------------------------------------------------

  /** u is a unit of a live block other than its header. */
  ghost predicate InPayload(live: Live, u: nat) { exists a :: a in live && a < u < a + live[a] }

  /** The words at payload units are the same in both memories. */
  ghost predicate Kept(live: Live, m: map<nat, nat>, m': map<nat, nat>) {
    forall u: nat | InPayload(live, u) :: (u in m <==> u in m') && (u in m ==> m[u] == m'[u])
  }

  lemma KeptSet(live: Live, m: map<nat, nat>, m': map<nat, nat>, x: nat, v: nat)
    requires Kept(live, m, m') && !InPayload(live, x)
    ensures Kept(live, m, m'[x := v])
  {
  }

  lemma KeptTrans(live: Live, m: map<nat, nat>, m': map<nat, nat>, m'': map<nat, nat>)
    requires Kept(live, m, m') && Kept(live, m', m'')
    ensures Kept(live, m, m'')
  {
  }

  /** The headers that malloc and free write to are in no payload. */
  lemma HeadersOutside(free: seq<Block>, live: Live)
    requires Ordered(free) && LiveOk(free, live)
    ensures forall k | 0 <= k < |free| :: !InPayload(live, free[k].at)
    ensures forall a | a in live :: !InPayload(live, a)
    ensures forall k, u | 0 <= k < |free| && Covers(free[k], u) :: !InPayload(live, u)
  {
    forall k, a, u | 0 <= k < |free| && a in live && a < u < a + live[a] ensures u != free[k].at && !Covers(free[k], u) {
      assert Disjoint(Block(a, live[a]), free[k]);
    }
    forall a, b | a in live && b in live ensures !(a < b < a + live[a]) { assert a != b ==> Disjoint(Block(a, live[a]), Block(b, live[b])); }
  }

  lemma FewerPayloads(live: Live, b: nat, m: map<nat, nat>, m': map<nat, nat>)
    requires b in live && Kept(live, m, m')
    ensures Kept(live - {b}, m, m')
  {
    forall x: nat | InPayload(live - {b}, x) ensures InPayload(live, x) {
      var a :| a in live - {b} && a < x < a + (live - {b})[a];
      assert a in live && a < x < a + live[a];
    }
  }

  lemma KeptSame(live: Live, m: map<nat, nat>)
    ensures Kept(live, m, m)
  {
  }

  /** What lies above the heap is in no payload. */
  lemma AboveKept(free: seq<Block>, live: Live, core: set<nat>, top: nat, m: map<nat, nat>, x: nat, v: nat)
    requires HeapOk(free, live, core) && Below(core, top) && free[0].at < top <= x
    ensures Kept(live, m, m[x := v])
  {
    Ends(free, live, core, top);
  }

  lemma BaseKept(free: seq<Block>, live: Live, core: set<nat>, m: map<nat, nat>, base: nat, v: nat)
    requires HeapOk(free, live, core) && free[0].at == base
    ensures Kept(live, m, m[base := v])
  {
    HeadersOutside(free, live);
  }

  /** free writes at bp and p only. */
  lemma FreeKeeps(free: seq<Block>, live: Live, k: nat, b: Block, ptr: map<nat, nat>, size: map<nat, nat>)
    requires Ordered(free) && LiveOk(free, live) && k < |free| && b.at in live && b.at in size
    requires JoinsUp(free, k, b) ==> NextAt(free, k) in ptr
    ensures Kept(live - {b.at}, ptr, PtrDown(free, k, b, PtrUp(free, k, b, ptr)))
    ensures Kept(live - {b.at}, size, SizeDown(free, k, b, SizeUp(free, k, b, size)))
  {
    HeadersOutside(free, live);
    var up := PtrUp(free, k, b, ptr);
    KeptSet(live, ptr, ptr, b.at, up[b.at]);
    KeptSet(live, ptr, up, free[k].at, PtrDown(free, k, b, up)[free[k].at]);
    FewerPayloads(live, b.at, ptr, PtrDown(free, k, b, up));
    var su := SizeUp(free, k, b, size);
    KeptSet(live, size, size, b.at, su[b.at]);
    KeptSet(live, size, su, free[k].at, if JoinsDown(free, k, b) then SizeDown(free, k, b, su)[free[k].at] else 0);
    FewerPayloads(live, b.at, size, SizeDown(free, k, b, su));
  }

  /** malloc writes at prevp, at p, and at the header that it carves out of the block at p. */
  lemma TakeKeeps(free: seq<Block>, live: Live, k: nat, n: nat, ptr: map<nat, nat>, size: map<nat, nat>, v: nat)
    requires Ordered(free) && LiveOk(free, live) && 0 < k < |free| && 0 < n <= free[k].len
    ensures Kept(live, ptr, ptr) && Kept(live, size, size) && Kept(live, ptr, ptr[free[k - 1].at := v])
    ensures Kept(live, size, size[free[k].at := free[k].len - n][Carved(free, k, n) := n])
  {
    HeadersOutside(free, live);
    assert Covers(free[k], Carved(free, k, n));
  }

  datatype Core = NoCore | At(addr: nat)

  class Heap {
    const base: nat           // the address of `base`
    var ptr: map<nat, nat>    // s.ptr of the header at each address
    var size: map<nat, nat>   // s.size
    var freep: nat
    ghost var free: seq<Block>
    ghost var live: Live
    ghost var core: set<nat>
    ghost var top: nat

    ghost predicate Valid()
      reads this
    {
      && 0 < base < top && HeapOk(free, live, core) && free[0] == Block(base, 0)
      && Headers(live, size) && Below(core, top)
      && (freep == 0 ==> free == [Block(base, 0)])
      && (freep != 0 ==> Ring(free, ptr, size) && HasAt(free, freep))
    }

    constructor (at: nat)
      requires 0 < at
      ensures Valid() && live == map[] && core == {} && base == at
    {
      base := at;
      ptr, size, freep := map[], map[], 0;
      free, live, core, top := [Block(at, 0)], map[], {}, at + 1;
    }

    /** The search loop of free: the block after which bp belongs. */
    method FindPlace(bp: nat) returns (p: nat, ghost k: nat)
      requires Valid() && freep != 0 && base < bp && forall j | 0 <= j < |free| :: free[j].at != bp
      ensures After(free, k, bp) && p == free[k].at
    {
      ghost var j: nat :| 0 <= j < |free| && free[j].at == freep;
      k := Position(free, bp, |free| - 1);
      p := freep;
      AtPlace(free, ptr, size, j, k, bp);
      while !(bp > p && bp < ptr[p])
        invariant j < |free| && p == free[j].at && p in ptr && ptr[p] == NextAt(free, j)
        invariant j == k <==> (bp > p && bp < ptr[p]) || (p >= ptr[p] && (bp > p || bp < ptr[p]))
        decreases if j <= k then k - j else k + |free| - j
      {
        if p >= ptr[p] && (bp > p || bp < ptr[p]) {
          break;
        }
        p := ptr[p];
        j := if j + 1 < |free| then j + 1 else 0;
        AtPlace(free, ptr, size, j, k, bp);
      }
    }

    /** free: the block joins the free list, with the free blocks it touches. */
    method Free(ap: nat) returns (ghost k: nat)
      requires Valid() && freep != 0 && 0 < ap && ap - 1 in live
      modifies this`ptr, this`size, this`freep, this`free, this`live
      ensures Valid() && freep != 0 && live == old(live) - {ap - 1}
      ensures After(old(free), k, ap - 1) && free == Inserted(old(free), k, Block(ap - 1, old(live)[ap - 1]))
      ensures Kept(live, old(ptr), ptr) && Kept(live, old(size), size)
    {
      hide HeapOk, Ring, Inserted, HasAt, Headers, Kept, Below, PtrUp, SizeUp, PtrDown, SizeDown, JoinsUp, JoinsDown;
      var bp := ap - 1;
      FreeNeeds(free, live, core, size, bp);
      var p;
      p, k := FindPlace(bp);
      ghost var b := Block(bp, live[bp]);
      FreeGives(free, live, core, ptr, size, k, bp);
      JoinUp(free, k, b, ptr, size);
      if bp + size[bp] == ptr[p] {
        size, ptr := size[bp := size[bp] + size[ptr[p]]], ptr[bp := ptr[ptr[p]]];
      } else {
        ptr := ptr[bp := ptr[p]];
      }
      JoinDown(free, k, b, ptr, size);
      if p + size[p] == bp {
        size, ptr := size[p := size[p] + size[bp]], ptr[p := ptr[bp]];
      } else {
        ptr := ptr[p := bp];
      }
      freep := p;
      free, live := Inserted(free, k, b), live - {bp};
    }

    /** morecore: a block of at least nu units from sbrk, put on the free list with free. */
    method Morecore(nu: nat, more: Core) returns (r: nat)
      requires Valid() && freep != 0 && 0 < nu && (more.At? ==> top <= more.addr)
      modifies this
      ensures Valid() && freep != 0 && live == old(live)
      ensures more.NoCore? ==> r == 0 && unchanged(this)
      ensures more.At? ==>
        && r == freep && core == old(core) + Range(more.addr, Asked(nu)) && top == more.addr + Asked(nu)
        && exists k :: 0 <= k < |free| && nu <= free[k].len
      ensures Kept(live, old(ptr), ptr) && Kept(live, old(size), size)
    {
      hide Ordered, LiveOk, Partition, Ring, Inserted, Fits, HasAt, Headers, Below, Range, Kept;
      KeptSame(live, ptr);
      KeptSame(live, size);
      if more.NoCore? {
        return 0;
      }
      var n := if nu < 4096 then 4096 else nu;
      var hp := more.addr;
      NewCore(free, live, core, top, hp, n);
      NewHeader(free, live, ptr, size, core, top, hp, n);
      AboveKept(free, live, core, top, size, hp, n);
      size := size[hp := n];
      live, core, top := live[hp := n], core + Range(hp, n), hp + n;
      ghost var free0 := free;
      ghost var k := Free(hp + 1);
      assert live == old(live);
      BigEnough(free0, k, Block(hp, n));
      KeptTrans(live, old(size), old(size)[hp := n], size);
      r := freep;
    }

    /** malloc takes nunits from block k, which is p, after prevp. */
    method Take(p: nat, prevp: nat, nunits: nat, ghost k: nat) returns (r: nat)
      requires Valid() && freep != 0 && 0 < k < |free| && free[k].at == p && free[k - 1].at == prevp && 0 < nunits <= free[k].len
      modifies this`ptr, this`size, this`freep, this`free, this`live
      ensures Valid() && freep != 0 && 1 < r && r - 1 !in old(live) && live == old(live)[r - 1 := nunits]
      ensures free == Shrunk(old(free), k, nunits) && r - 1 == Carved(old(free), k, nunits)
      ensures Kept(old(live), old(ptr), ptr) && Kept(old(live), old(size), size)
    {
      hide Ordered, LiveOk, Partition, Ring, HasAt, Headers, Kept;
      ShrunkOrdered(free, k, nunits);
      ShrunkLive(free, live, k, nunits);
      ShrunkPartition(free, live, core, k, nunits);
      ShrunkRing(free, k, nunits, ptr, size);
      RingHeader(free, k, ptr, size);
      RingHeader(free, k - 1, ptr, size);
      CarvedHeader(free, live, k, nunits, size);
      PrevStays(free, k, nunits);
      TakeKeeps(free, live, k, nunits, ptr, size, ptr[p]);
      var q := p;
      if size[p] == nunits {
        ptr := ptr[prevp := ptr[p]];
      } else {
        size := size[p := size[p] - nunits];
        q := p + size[p];
        size := size[q := nunits];
      }
      freep := prevp;
      free, live := Shrunk(free, k, nunits), live[Carved(free, k, nunits) := nunits];
      r := q + 1;
    }

    /** malloc: a block of enough units that no live block overlaps; 0 only when no free block
        is big enough and sbrk fails. It calls sbrk at most once. */
    method Malloc(nbytes: nat, more: Core) returns (r: nat, ghost grown: bool)
      requires Valid() && nbytes <= MAXREQUEST && (more.At? ==> top <= more.addr)
      modifies this
      ensures Valid() && freep != 0
      ensures r != 0 ==> 1 < r && r - 1 !in old(live) && live == old(live)[r - 1 := Units(nbytes)]
      ensures r != 0 ==> nbytes <= (live[r - 1] - 1) * UNIT < nbytes + UNIT
      ensures r == 0 ==> live == old(live) && !grown && more.NoCore? && forall k | 0 <= k < |old(free)| :: old(free)[k].len < Units(nbytes)
      ensures if grown then more.At? && core == old(core) + Range(more.addr, Asked(Units(nbytes))) else core == old(core)
      ensures Kept(old(live), old(ptr), ptr) && Kept(old(live), old(size), size)
    {
      hide Ordered, LiveOk, Partition, Ring, HasAt, Headers, Below, Range, Around, NextAt, TooSmall, Kept, Units, Asked;
      KeptSame(live, ptr);
      KeptSame(live, size);
      RequestFits(nbytes);
      var nunits := Units(nbytes);
      if freep == 0 {
        Begin();
      }
      r, grown := 0, false;
      var prevp := freep;
      ghost var f: nat := WhereIs(free, freep);
      ghost var steps: nat := 0;
      SearchStart(free, f, nunits);
      var p := NextOf(prevp, f);
      while true
        invariant Valid() && freep != 0 && live == old(live) && f < |free| && free[f].at == freep && steps < |free|
        invariant prevp == free[Around(f, steps, |free|)].at && p == free[Around(f, steps + 1, |free|)].at
        invariant TooSmall(free, f, steps, nunits)
        invariant grown ==> exists k :: 0 <= k < |free| && nunits <= free[k].len
        invariant !grown ==> free == old(free) && core == old(core) && top == old(top)
        invariant grown ==> more.At? && core == old(core) + Range(more.addr, Asked(nunits))
        invariant Kept(old(live), old(ptr), ptr) && Kept(old(live), old(size), size)
        decreases !grown, |free| - steps
      {
        ghost var k := Around(f, steps + 1, |free|);
        RingHeader(free, k, ptr, size);
        if size[p] >= nunits {
          NotBase(free, f, steps, nunits);
          ghost var ptr1, size1 := ptr, size;
          r := Take(p, prevp, nunits, k);
          KeptTrans(old(live), old(ptr), ptr1, ptr);
          KeptTrans(old(live), old(size), size1, size);
          return;
        }
        MoreTooSmall(free, f, steps, nunits);
        if p == freep {
          OnceAround(free, f, steps, nunits);
          ghost var ptr1, size1 := ptr, size;
          p := Morecore(nunits, more);
          KeptTrans(old(live), old(ptr), ptr1, ptr);
          KeptTrans(old(live), old(size), size1, size);
          if p == 0 {
            return;
          }
          grown := true;
          f := WhereIs(free, freep);
          steps := 0;
          SearchStart(free, f, nunits);
          prevp := p;
          p := NextOf(prevp, f);
        } else {
          NotAround(free, f, steps);
          prevp := p;
          steps := steps + 1;
          p := NextOf(prevp, k);
        }
      }
    }

    /** The first call: the ring of base alone. */
    method Begin()
      requires Valid() && freep == 0
      modifies this`ptr, this`size, this`freep
      ensures Valid() && freep != 0 && Kept(live, old(ptr), ptr) && Kept(live, old(size), size)
    {
      hide HeapOk, Below, Kept;
      BaseKept(free, live, core, ptr, base, base);
      BaseKept(free, live, core, size, base, 0);
      ptr, size := ptr[base := base], size[base := 0];
      FirstRing(base, live, core, ptr, old(size));
      freep := base;
    }

    /** p->s.ptr */
    method NextOf(p: nat, ghost k: nat) returns (q: nat)
      requires Valid() && freep != 0 && k < |free| && free[k].at == p
      ensures q == NextAt(free, k)
    {
      assert Linked(free, k, ptr, size);
      q := ptr[p];
    }
  }

  predicate AtLeast(lo: nat, u: nat) { lo <= u }

  /** The units [a, a + n). */
  ghost function Range(a: nat, n: nat): set<nat> { set u: nat | u < a + n && AtLeast(a, u) }

  lemma AtPlace(free: seq<Block>, ptr: map<nat, nat>, size: map<nat, nat>, j: nat, k: nat, x: nat)
    requires Ordered(free) && Ring(free, ptr, size) && After(free, k, x) && j < |free| && (forall i | 0 <= i < |free| :: free[i].at != x)
    ensures var p := free[j].at;
      && p in ptr && ptr[p] == NextAt(free, j)
      && (j == k <==> (x > p && x < ptr[p]) || (p >= ptr[p] && (x > p || x < ptr[p])))
  {
    assert Linked(free, j, ptr, size);
  }

  lemma LiveAddress(free: seq<Block>, live: Live, a: nat)
    requires Ordered(free) && LiveOk(free, live) && a in live
    ensures free[0].at < a && forall j | 0 <= j < |free| :: free[j].at != a
  {
    forall j | 0 <= j < |free| ensures free[j].at != a { assert Disjoint(Block(a, live[a]), free[j]); }
  }

  lemma LiveHeader(live: Live, size: map<nat, nat>, a: nat)
    requires Headers(live, size) && a in live
    ensures a in size && size[a] == live[a]
  {
  }

  lemma RingAt(free: seq<Block>, k: nat, b: Block, ptr: map<nat, nat>, size: map<nat, nat>)
    requires Ordered(free) && Fits(free, k, b) && Ring(free, ptr, size)
    ensures var p := free[k].at;
      && p in ptr && p in size && ptr[p] == NextAt(free, k) && size[p] == free[k].len && p != b.at
      && ptr[p] in ptr && ptr[p] in size && free[0].at <= p
      && (JoinsUp(free, k, b) <==> End(b) == ptr[p]) && (k + 1 < |free| ==> size[ptr[p]] == free[k + 1].len)
  {
    assert Linked(free, k, ptr, size);
    assert Linked(free, if k + 1 < |free| then k + 1 else 0, ptr, size);
  }

  /** What free relies on. */
  lemma FreeNeeds(free: seq<Block>, live: Live, core: set<nat>, size: map<nat, nat>, bp: nat)
    requires HeapOk(free, live, core) && Headers(live, size) && bp in live
    ensures free[0].at < bp && (forall j | 0 <= j < |free| :: free[j].at != bp) && bp in size && size[bp] == live[bp]
  {
    LiveAddress(free, live, bp);
    LiveHeader(live, size, bp);
  }

  /** The first two assignments of free compute PtrUp and SizeUp. */
  lemma JoinUp(free: seq<Block>, k: nat, b: Block, ptr: map<nat, nat>, size: map<nat, nat>)
    requires Ordered(free) && Fits(free, k, b) && Ring(free, ptr, size) && b.at in size && size[b.at] == b.len
    ensures var p := free[k].at;
      && p in ptr && p in size && size[p] == free[k].len && p != b.at && ptr[p] in ptr && ptr[p] in size && (JoinsUp(free, k, b) ==> NextAt(free, k) in ptr)
      && (if b.at + size[b.at] == ptr[p]
          then PtrUp(free, k, b, ptr) == ptr[b.at := ptr[ptr[p]]] && SizeUp(free, k, b, size) == size[b.at := size[b.at] + size[ptr[p]]]
          else PtrUp(free, k, b, ptr) == ptr[b.at := ptr[p]] && SizeUp(free, k, b, size) == size)
  {
    RingAt(free, k, b, ptr, size);
  }

  /** The other two compute PtrDown and SizeDown of that. */
  lemma JoinDown(free: seq<Block>, k: nat, b: Block, ptr: map<nat, nat>, size: map<nat, nat>)
    requires k < |free| && free[k].at in ptr && free[k].at in size && size[free[k].at] == free[k].len && b.at in ptr && b.at in size
    ensures var p := free[k].at;
      if p + size[p] == b.at
      then PtrDown(free, k, b, ptr) == ptr[p := ptr[b.at]] && SizeDown(free, k, b, size) == size[p := size[p] + size[b.at]]
      else PtrDown(free, k, b, ptr) == ptr[p := b.at] && SizeDown(free, k, b, size) == size
  {
  }

  /** What free establishes. */
  lemma FreeGives(free: seq<Block>, live: Live, core: set<nat>, ptr: map<nat, nat>, size: map<nat, nat>, k: nat, bp: nat)
    requires HeapOk(free, live, core) && Headers(live, size) && Ring(free, ptr, size) && bp in live && bp in size && size[bp] == live[bp] && After(free, k, bp)
    ensures var b := Block(bp, live[bp]);
      && Ordered(free) && Fits(free, k, b) && NextAt(free, k) in ptr
      && var ptr', size' := PtrDown(free, k, b, PtrUp(free, k, b, ptr)), SizeDown(free, k, b, SizeUp(free, k, b, size));
      && HeapOk(Inserted(free, k, b), live - {bp}, core) && Inserted(free, k, b)[0] == free[0]
      && Ring(Inserted(free, k, b), ptr', size') && Headers(live - {bp}, size') && HasAt(Inserted(free, k, b), free[k].at)
      && Kept(live - {bp}, ptr, ptr') && Kept(live - {bp}, size, size')
  {
    hide Ordered, LiveOk, Partition, Ring, Inserted, Fits, HasAt, Headers, Kept;
    var b := Block(bp, live[bp]);
    LiveFits(free, live, bp, k);
    InsertedRing(free, k, b, ptr, size);
    InsertedOrdered(free, k, b);
    InsertedLive(free, live, k, bp);
    InsertedPartition(free, live, core, k, bp);
    FreeKeeps(free, live, k, b, ptr, size);
    HeadersKept(free, live, k, b, size);
    StillThere(free, k, b);
  }

  lemma HeadersKept(free: seq<Block>, live: Live, k: nat, b: Block, size: map<nat, nat>)
    requires Ordered(free) && LiveOk(free, live) && Headers(live, size) && b.at in live && b.at in size && Fits(free, k, b)
    ensures Headers(live - {b.at}, SizeDown(free, k, b, SizeUp(free, k, b, size)))
  {
    forall a | a in live && a != b.at ensures a != free[k].at { assert Disjoint(Block(a, live[a]), free[k]); }
  }

  lemma StillThere(free: seq<Block>, k: nat, b: Block)
    requires Ordered(free) && Fits(free, k, b)
    ensures HasAt(Inserted(free, k, b), free[k].at)
  {
    var j := InsertedTo(free, k, b, k);
    assert Inserted(free, k, b)[j].at == free[k].at;
  }

  /** Everything obtained so far ends below top. */
  lemma Ends(free: seq<Block>, live: Live, core: set<nat>, top: nat)
    requires HeapOk(free, live, core) && Below(core, top) && free[0].at < top
    ensures forall k | 0 <= k < |free| :: End(free[k]) <= top
    ensures forall a | a in live :: a + live[a] <= top
  {
    forall k | 0 <= k < |free| ensures End(free[k]) <= top {
      if k > 0 { assert Covers(free[k], End(free[k]) - 1); assert InFree(free, End(free[k]) - 1); }
    }
    forall a | a in live ensures a + live[a] <= top {
      assert Covers(Block(a, live[a]), a + live[a] - 1);
      assert InLive(live, a + live[a] - 1);
    }
  }

  /** A new block above everything is as good as live. */
  lemma NewCore(free: seq<Block>, live: Live, core: set<nat>, top: nat, hp: nat, n: nat)
    requires HeapOk(free, live, core) && Below(core, top) && free[0].at < top <= hp && 0 < n
    ensures hp !in live && HeapOk(free, live[hp := n], core + Range(hp, n)) && Below(core + Range(hp, n), hp + n)
  {
    Ends(free, live, core, top);
    var l, c := live[hp := n], core + Range(hp, n);
    assert hp !in live;
    forall a, k | a in l && 0 <= k < |free| ensures free[0].at < a && Disjoint(Block(a, l[a]), free[k]) {
      if a != hp { assert Disjoint(Block(a, live[a]), free[k]); }
    }
    forall u: nat ensures u in c <==> InFree(free, u) || InLive(l, u) { LiveAdded(live, hp, n, u); }
  }

  lemma NewHeader(free: seq<Block>, live: Live, ptr: map<nat, nat>, size: map<nat, nat>, core: set<nat>, top: nat, hp: nat, n: nat)
    requires HeapOk(free, live, core) && Below(core, top) && free[0].at < top <= hp && Headers(live, size) && Ring(free, ptr, size)
    ensures Headers(live[hp := n], size[hp := n]) && Ring(free, ptr, size[hp := n])
  {
    Ends(free, live, core, top);
    var size' := size[hp := n];
    forall k: nat | k < |free| ensures Linked(free, k, ptr, size') { assert Linked(free, k, ptr, size) && End(free[k]) <= top; }
  }

  lemma BigEnough(free: seq<Block>, k: nat, b: Block)
    requires k < |free|
    ensures exists j :: 0 <= j < |Inserted(free, k, b)| && b.len <= Inserted(free, k, b)[j].len
  {
    var j := JoinedIn(free, k, b);
    assert b.len <= Inserted(free, k, b)[j].len;
  }

  lemma RingHeader(free: seq<Block>, k: nat, ptr: map<nat, nat>, size: map<nat, nat>)
    requires Ring(free, ptr, size) && k < |free|
    ensures free[k].at in ptr && free[k].at in size && size[free[k].at] == free[k].len && ptr[free[k].at] == NextAt(free, k)
  {
    assert Linked(free, k, ptr, size);
  }

  lemma CarvedHeader(free: seq<Block>, live: Live, k: nat, n: nat, size: map<nat, nat>)
    requires Ordered(free) && LiveOk(free, live) && Headers(live, size) && 0 < k < |free| && 0 < n <= free[k].len
    requires free[k].at in size && size[free[k].at] == free[k].len
    ensures free[k].len == n ==> Headers(live[Carved(free, k, n) := n], size)
    ensures free[k].len > n ==> Headers(live[Carved(free, k, n) := n], size[free[k].at := free[k].len - n][Carved(free, k, n) := n])
    ensures 0 < Carved(free, k, n)
  {
    forall a | a in live ensures a != free[k].at && a != Carved(free, k, n) { assert Disjoint(Block(a, live[a]), free[k]); }
  }

  lemma PrevStays(free: seq<Block>, k: nat, n: nat)
    requires Ordered(free) && 0 < k < |free| && 0 < n <= free[k].len
    ensures HasAt(Shrunk(free, k, n), free[k - 1].at) && free[0].at <= free[k - 1].at
  {
    assert Shrunk(free, k, n)[k - 1] == free[k - 1];
  }

  lemma FirstRing(base: nat, live: Live, core: set<nat>, ptr: map<nat, nat>, size: map<nat, nat>)
    requires HeapOk([Block(base, 0)], live, core) && Headers(live, size) && base in ptr && ptr[base] == base
    ensures Ring([Block(base, 0)], ptr, size[base := 0]) && HasAt([Block(base, 0)], base) && Headers(live, size[base := 0])
  {
    var free, size' := [Block(base, 0)], size[base := 0];
    assert free[0].at == base;
    assert Linked(free, 0, ptr, size');
  }

  lemma WhereIs(free: seq<Block>, a: nat) returns (j: nat)
    requires HasAt(free, a)
    ensures j < |free| && free[j].at == a
  {
    j :| 0 <= j < |free| && free[j].at == a;
  }

  lemma SearchStart(free: seq<Block>, f: nat, n: nat)
    requires f < |free|
    ensures TooSmall(free, f, 0, n) && Around(f, 0, |free|) == f && NextAt(free, f) == free[Around(f, 1, |free|)].at
  {
  }

  lemma MoreTooSmall(free: seq<Block>, f: nat, steps: nat, n: nat)
    requires steps < |free| && TooSmall(free, f, steps, n) && free[Around(f, steps + 1, |free|)].len < n
    ensures TooSmall(free, f, steps + 1, n)
  {
  }

  /** A block that is big enough is not base, so prevp is the block before it in the list. */
  lemma NotBase(free: seq<Block>, f: nat, steps: nat, n: nat)
    requires Ordered(free) && f < |free| && steps < |free| && 0 < n <= free[Around(f, steps + 1, |free|)].len
    ensures 0 < Around(f, steps + 1, |free|) && Around(f, steps, |free|) == Around(f, steps + 1, |free|) - 1
  {
  }

  /** Back at freep: every block has been looked at. */
  lemma OnceAround(free: seq<Block>, f: nat, steps: nat, n: nat)
    requires Ordered(free) && steps < |free| && TooSmall(free, f, steps + 1, n) && free[Around(f, steps + 1, |free|)].at == free[f].at
    ensures forall k | 0 <= k < |free| :: free[k].len < n
  {
    assert Around(f, steps + 1, |free|) == f && steps + 1 == |free|;
    forall k: nat | k < |free| ensures free[k].len < n { AllTooSmall(free, f, n, k); }
  }

  lemma NotAround(free: seq<Block>, f: nat, steps: nat)
    requires f < |free| && steps < |free| && free[Around(f, steps + 1, |free|)].at != free[f].at
    ensures steps + 1 < |free| && NextAt(free, Around(f, steps + 1, |free|)) == free[Around(f, steps + 2, |free|)].at
  {
  }
}
