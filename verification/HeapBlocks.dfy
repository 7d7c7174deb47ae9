/** The free list of user/umalloc.c as an address-ordered sequence of blocks, counted in units of
    sizeof(Header). The first element stands for `base`, which has no units and lies below the heap. */
module HeapBlocks {

  datatype Block = Block(at: nat, len: nat)

  /** Where a block ends. */
  function End(b: Block): nat { b.at + b.len }

  predicate Covers(b: Block, u: nat) { b.at <= u < End(b) }

  /** In address order, disjoint and fully coalesced: there is a gap after every block. */
  ghost predicate Ordered(free: seq<Block>) {
    && 0 < |free| && free[0].len == 0
    && (forall k | 0 < k < |free| :: 0 < free[k].len)
    && forall j, k | 0 <= j < k < |free| :: End(free[j]) < free[k].at
  }

  /** Blocks that malloc has handed out: address of the header, and length with it. */
  type Live = map<nat, nat>

  predicate Disjoint(a: Block, b: Block) { End(a) <= b.at || End(b) <= a.at }

  ghost predicate LiveOk(free: seq<Block>, live: Live) {
    && (forall a | a in live :: 0 < live[a])
    && (forall a, k | a in live && 0 <= k < |free| :: free[0].at < a && Disjoint(Block(a, live[a]), free[k]))
    && (forall a, b | a in live && b in live && a != b :: Disjoint(Block(a, live[a]), Block(b, live[b])))
  }

  ghost predicate InFree(free: seq<Block>, u: nat) {
    exists k :: 0 <= k < |free| && Covers(free[k], u)
  }

  ghost predicate InLive(live: Live, u: nat) {
    exists a :: a in live && Covers(Block(a, live[a]), u)
  }

  /** Every unit obtained from sbrk is in a free or in a live block, and no other unit is. */
  ghost predicate Partition(free: seq<Block>, live: Live, core: set<nat>) {
    forall u: nat :: u in core <==> InFree(free, u) || InLive(live, u)
  }

  ghost predicate HeapOk(free: seq<Block>, live: Live, core: set<nat>) {
    Ordered(free) && LiveOk(free, live) && Partition(free, live, core)
  }

  // ---------------------------------------------------------------------------
  // malloc
  // ---------------------------------------------------------------------------

  /** The free list after malloc has taken n units from the end of block k. */
  function Shrunk(free: seq<Block>, k: nat, n: nat): seq<Block>
    requires k < |free| && n <= free[k].len
  {
    if free[k].len == n then free[..k] + free[k + 1..] else free[k := Block(free[k].at, free[k].len - n)]
  }

  /** The header of the block that malloc returns. */
  function Carved(free: seq<Block>, k: nat, n: nat): nat
    requires k < |free| && n <= free[k].len
  {
    free[k].at + (free[k].len - n)
  }

  lemma ShrunkOrdered(free: seq<Block>, k: nat, n: nat)
    requires Ordered(free) && 0 < k < |free| && 0 < n <= free[k].len
    ensures Ordered(Shrunk(free, k, n)) && Shrunk(free, k, n)[0] == free[0]
  {
    var f := Shrunk(free, k, n);
    if free[k].len == n {
      forall i, j | 0 <= i < j < |f| ensures End(f[i]) < f[j].at {
        var i', j' := if i < k then i else i + 1, if j < k then j else j + 1;
        assert f[i] == free[i'] && f[j] == free[j'];
      }
    }
  }

  /** Every block of the new list lies in one of the old. */
  lemma ShrunkFrom(free: seq<Block>, k: nat, n: nat, j: nat) returns (i: nat)
    requires Ordered(free) && 0 < k < |free| && 0 < n <= free[k].len && j < |Shrunk(free, k, n)|
    ensures i < |free| && free[i].at == Shrunk(free, k, n)[j].at && End(Shrunk(free, k, n)[j]) <= End(free[i])
    ensures i == k ==> End(Shrunk(free, k, n)[j]) == Carved(free, k, n)
  {
    i := if free[k].len == n && j >= k then j + 1 else j;
  }

  lemma ShrunkLive(free: seq<Block>, live: Live, k: nat, n: nat)
    requires Ordered(free) && LiveOk(free, live) && 0 < k < |free| && 0 < n <= free[k].len
    ensures Carved(free, k, n) !in live && LiveOk(Shrunk(free, k, n), live[Carved(free, k, n) := n])
  {
    var f, c := Shrunk(free, k, n), Carved(free, k, n);
    ShrunkOrdered(free, k, n);
    forall a | a in live ensures Disjoint(Block(a, live[a]), Block(c, n)) { assert Disjoint(Block(a, live[a]), free[k]); }
    var l := live[c := n];
    forall a, j | a in l && 0 <= j < |f| ensures f[0].at < a && Disjoint(Block(a, l[a]), f[j]) {
      var i := ShrunkFrom(free, k, n, j);
      if a != c { assert Disjoint(Block(a, live[a]), free[i]); }
    }
  }

  lemma ShrunkTo(free: seq<Block>, k: nat, n: nat, i: nat) returns (j: nat)
    requires k < |free| && 0 < n <= free[k].len && i < |free| && i != k
    ensures j < |Shrunk(free, k, n)| && Shrunk(free, k, n)[j] == free[i]
  {
    j := if free[k].len == n && i > k then i - 1 else i;
  }

  lemma ShrunkCovers(free: seq<Block>, k: nat, n: nat, u: nat)
    requires Ordered(free) && 0 < k < |free| && 0 < n <= free[k].len
    ensures InFree(free, u) <==> InFree(Shrunk(free, k, n), u) || Covers(Block(Carved(free, k, n), n), u)
  {
    hide Ordered, Shrunk;
    var f, c := Shrunk(free, k, n), Carved(free, k, n);
    if InFree(f, u) {
      var j: nat :| 0 <= j < |f| && Covers(f[j], u);
      var i := ShrunkFrom(free, k, n, j);
      assert Covers(free[i], u);
    }
    if Covers(Block(c, n), u) { assert Covers(free[k], u); }
    if InFree(free, u) {
      var i: nat :| 0 <= i < |free| && Covers(free[i], u);
      if i != k {
        var j := ShrunkTo(free, k, n, i);
        assert Covers(f[j], u);
      } else if u < c {
        ShrunkKeeps(free, k, n);
        assert Covers(f[k], u);
      }
    }
  }

  lemma ShrunkKeeps(free: seq<Block>, k: nat, n: nat)
    requires k < |free| && 0 < n < free[k].len
    ensures k < |Shrunk(free, k, n)| && Shrunk(free, k, n)[k] == Block(free[k].at, free[k].len - n)
  {
  }

  lemma ShrunkPartition(free: seq<Block>, live: Live, core: set<nat>, k: nat, n: nat)
    requires HeapOk(free, live, core) && 0 < k < |free| && 0 < n <= free[k].len
    ensures Partition(Shrunk(free, k, n), live[Carved(free, k, n) := n], core)
  {
    hide Ordered, LiveOk, Shrunk, InFree;
    var f, c := Shrunk(free, k, n), Carved(free, k, n);
    var l := live[c := n];
    ShrunkLive(free, live, k, n);
    forall u: nat ensures u in core <==> InFree(f, u) || InLive(l, u) {
      ShrunkCovers(free, k, n, u);
      LiveAdded(live, c, n, u);
    }
  }

  lemma LiveAdded(live: Live, c: nat, n: nat, u: nat)
    requires c !in live
    ensures InLive(live[c := n], u) <==> InLive(live, u) || Covers(Block(c, n), u)
  {
    var l := live[c := n];
    if InLive(live, u) {
      var a :| a in live && Covers(Block(a, live[a]), u);
      assert a in l && Covers(Block(a, l[a]), u);
    }
    if Covers(Block(c, n), u) { assert c in l && Covers(Block(c, l[c]), u); }
    if InLive(l, u) {
      var a :| a in l && Covers(Block(a, l[a]), u);
      assert a == c || (a in live && Covers(Block(a, live[a]), u));
    }
  }

  // ---------------------------------------------------------------------------
  // free
  // ---------------------------------------------------------------------------

  /** The place of address x in the list: after block k. */
  predicate After(free: seq<Block>, k: nat, x: nat) {
    k < |free| && free[k].at < x && (k + 1 == |free| || x < free[k + 1].at)
  }

  /** b touches the block after it, or the one before it. */
  predicate JoinsUp(free: seq<Block>, k: nat, b: Block) { k + 1 < |free| && End(b) == free[k + 1].at }

  predicate JoinsDown(free: seq<Block>, k: nat, b: Block)
    requires k < |free|
  {
    End(free[k]) == b.at
  }

  /** b together with the free blocks it touches. */
  function Joined(free: seq<Block>, k: nat, b: Block): Block
    requires k < |free|
  {
    var up := if JoinsUp(free, k, b) then b.len + free[k + 1].len else b.len;
    if JoinsDown(free, k, b) then Block(free[k].at, free[k].len + up) else Block(b.at, up)
  }

  /** The blocks from m to r give way to one. */
  function Replaced(free: seq<Block>, m: nat, r: nat, x: Block): seq<Block>
    requires m <= r <= |free|
  {
    free[..m] + [x] + free[r..]
  }

  lemma ReplacedAt(free: seq<Block>, m: nat, r: nat, x: Block, i: nat)
    requires m <= r <= |free| && i < |free|
    ensures |Replaced(free, m, r, x)| == |free| - (r - m) + 1 && Replaced(free, m, r, x)[m] == x
    ensures i < m ==> Replaced(free, m, r, x)[i] == free[i]
    ensures i >= r ==> Replaced(free, m, r, x)[i - r + m + 1] == free[i]
  {
  }

  function From(free: seq<Block>, k: nat, b: Block): nat
    requires k < |free|
  {
    if JoinsDown(free, k, b) then k else k + 1
  }

  function Upto(free: seq<Block>, k: nat, b: Block): nat { if JoinsUp(free, k, b) then k + 2 else k + 1 }

  /** The free list after free(b), where b belongs after block k. */
  function Inserted(free: seq<Block>, k: nat, b: Block): seq<Block>
    requires k < |free|
  {
    Replaced(free, From(free, k, b), Upto(free, k, b), Joined(free, k, b))
  }

  /** b lies in the gap after block k. */
  ghost predicate Fits(free: seq<Block>, k: nat, b: Block) {
    && After(free, k, b.at) && 0 < b.len
    && End(free[k]) <= b.at && (k + 1 < |free| ==> End(b) <= free[k + 1].at)
  }

  /** Every block of a lies before every block of b, with a gap. */
  ghost predicate Precedes(a: seq<Block>, b: seq<Block>) {
    forall i, j | 0 <= i < |a| && 0 <= j < |b| :: End(a[i]) < b[j].at
  }

  ghost predicate Spaced(a: seq<Block>) {
    forall i, j | 0 <= i < j < |a| :: End(a[i]) < a[j].at
  }

  lemma SpacedConcat(a: seq<Block>, b: seq<Block>)
    requires Spaced(a) && Spaced(b) && Precedes(a, b)
    ensures Spaced(a + b)
  {
  }

  lemma InsertedOrdered(free: seq<Block>, k: nat, b: Block)
    requires Ordered(free) && Fits(free, k, b)
    ensures Ordered(Inserted(free, k, b)) && Inserted(free, k, b)[0] == free[0]
  {
    var m, r := From(free, k, b), Upto(free, k, b);
    var x, y, z := free[..m], [Joined(free, k, b)], free[r..];
    JoinedGaps(free, k, b);
    SpacedConcat(x, y);
    assert Precedes(x + y, z);
    SpacedConcat(x + y, z);
    PositiveInserted(free, k, b);
  }

  lemma JoinedGaps(free: seq<Block>, k: nat, b: Block)
    requires Ordered(free) && Fits(free, k, b)
    ensures var m, r := From(free, k, b), Upto(free, k, b);
      && Precedes(free[..m], [Joined(free, k, b)]) && Precedes([Joined(free, k, b)], free[r..]) && Precedes(free[..m], free[r..])
      && Spaced(free[..m]) && Spaced(free[r..]) && Spaced([Joined(free, k, b)])
  {
  }

  lemma PositiveInserted(free: seq<Block>, k: nat, b: Block)
    requires Ordered(free) && Fits(free, k, b)
    ensures var f := Inserted(free, k, b);
      0 < |f| && f[0] == free[0] && forall j | 0 < j < |f| :: 0 < f[j].len
  {
    var f := Inserted(free, k, b);
    forall j: nat | 0 < j < |f| ensures 0 < f[j].len {
      var i := InsertedPlace(free, k, b, j);
      if f[j] != Joined(free, k, b) { assert i > 0; }
    }
  }

  lemma InsertedPlace(free: seq<Block>, k: nat, b: Block, j: nat) returns (i: nat)
    requires k < |free| && j < |Inserted(free, k, b)|
    ensures Inserted(free, k, b)[j] == Joined(free, k, b) || (i < |free| && (j > 0 ==> i > 0) && Inserted(free, k, b)[j] == free[i])
  {
    hide Joined;
    var m, r := From(free, k, b), Upto(free, k, b);
    i := if j <= m then j else j + r - m - 1;
    if i < |free| { ReplacedAt(free, m, r, Joined(free, k, b), i); }
  }

  /** The joined block is exactly b and its neighbours. */
  lemma JoinedCovers(free: seq<Block>, k: nat, b: Block, u: nat)
    requires Ordered(free) && Fits(free, k, b)
    ensures Covers(Joined(free, k, b), u) <==>
      Covers(b, u) || (JoinsDown(free, k, b) && Covers(free[k], u)) || (JoinsUp(free, k, b) && Covers(free[k + 1], u))
  {
  }

  /** A live block lies in the gap where it belongs. */
  lemma LiveFits(free: seq<Block>, live: Live, a: nat, k: nat)
    requires Ordered(free) && LiveOk(free, live) && a in live && After(free, k, a)
    ensures Fits(free, k, Block(a, live[a]))
  {
    assert Disjoint(Block(a, live[a]), free[k]);
    if k + 1 < |free| { assert Disjoint(Block(a, live[a]), free[k + 1]); }
  }

  lemma InsertedLive(free: seq<Block>, live: Live, k: nat, a: nat)
    requires Ordered(free) && LiveOk(free, live) && a in live && After(free, k, a)
    ensures LiveOk(Inserted(free, k, Block(a, live[a])), live - {a})
  {
    var b := Block(a, live[a]);
    LiveFits(free, live, a, k);
    InsertedOrdered(free, k, b);
    var f, l := Inserted(free, k, b), live - {a};
    forall c | c in l ensures Disjoint(Block(c, l[c]), Joined(free, k, b)) {
      assert Disjoint(Block(c, live[c]), b) && Disjoint(Block(c, live[c]), free[k]);
      if k + 1 < |free| { assert Disjoint(Block(c, live[c]), free[k + 1]); }
    }
    forall c, j | c in l && 0 <= j < |f| ensures f[0].at < c && Disjoint(Block(c, l[c]), f[j]) {
      var i := InsertedPlace(free, k, b, j);
    }
  }

  lemma InsertedTo(free: seq<Block>, k: nat, b: Block, i: nat) returns (j: nat)
    requires k < |free| && i < |free|
    ensures j < |Inserted(free, k, b)|
    ensures if From(free, k, b) <= i < Upto(free, k, b) then Inserted(free, k, b)[j] == Joined(free, k, b) else Inserted(free, k, b)[j] == free[i]
  {
    hide Joined;
    var m, r := From(free, k, b), Upto(free, k, b);
    j := if i < m then i else if i < r then m else i - r + m + 1;
    ReplacedAt(free, m, r, Joined(free, k, b), i);
  }

  lemma JoinedIn(free: seq<Block>, k: nat, b: Block) returns (j: nat)
    requires k < |free|
    ensures j < |Inserted(free, k, b)| && Inserted(free, k, b)[j] == Joined(free, k, b)
  {
    j := From(free, k, b);
  }

  lemma InsertedCovers(free: seq<Block>, k: nat, b: Block, u: nat)
    requires Ordered(free) && Fits(free, k, b)
    ensures InFree(Inserted(free, k, b), u) <==> InFree(free, u) || Covers(b, u)
  {
    hide Ordered, Inserted, Joined;
    var f := Inserted(free, k, b);
    JoinedCovers(free, k, b, u);
    if InFree(f, u) {
      var j: nat :| 0 <= j < |f| && Covers(f[j], u);
      var i := InsertedPlace(free, k, b, j);
      if f[j] != Joined(free, k, b) { assert Covers(free[i], u); } else { JoinedFrom(free, k, b, u); }
    }
    if InFree(free, u) {
      var i: nat :| 0 <= i < |free| && Covers(free[i], u);
      var j := InsertedTo(free, k, b, i);
      assert Covers(f[j], u);
    }
    if Covers(b, u) {
      var j := JoinedIn(free, k, b);
      assert Covers(f[j], u);
    }
  }

  lemma JoinedFrom(free: seq<Block>, k: nat, b: Block, u: nat)
    requires Ordered(free) && Fits(free, k, b) && Covers(Joined(free, k, b), u)
    ensures InFree(free, u) || Covers(b, u)
  {
    JoinedCovers(free, k, b, u);
  }

  lemma InsertedPartition(free: seq<Block>, live: Live, core: set<nat>, k: nat, a: nat)
    requires HeapOk(free, live, core) && a in live && After(free, k, a)
    ensures Partition(Inserted(free, k, Block(a, live[a])), live - {a}, core)
  {
    var b := Block(a, live[a]);
    LiveFits(free, live, a, k);
    var f, l := Inserted(free, k, b), live - {a};
    forall u: nat ensures u in core <==> InFree(f, u) || InLive(l, u) {
      InsertedCovers(free, k, b, u);
      if InLive(live, u) {
        var c :| c in live && Covers(Block(c, live[c]), u);
        assert c == a || (c in l && Covers(Block(c, l[c]), u));
      }
      if InLive(l, u) {
        var c :| c in l && Covers(Block(c, l[c]), u);
        assert c in live && Covers(Block(c, live[c]), u);
      }
      if Covers(b, u) { assert InLive(live, u); }
    }
  }
}
