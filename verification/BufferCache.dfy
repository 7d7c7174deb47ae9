/** The buffer cache of kernel/bio.c: a pool of NBUF buffers threaded on a doubly
    linked ring that keeps them in order of use. */
module BufferCache {
  import opened Bytes
  import opened Counting

  const NBUF: nat := 30  // MAXOPBLOCKS * 3

  type Pid = nat

  datatype Option<+T> = None | Some(value: T)

  /** struct buf. `lock` is the process holding the buffer's sleep-lock, if any. */
  datatype Buf = Buf(dev: nat, blockno: nat, valid: bool, refcnt: nat, lock: Option<Pid>, data: Block)

  const BootBuf := Buf(0, 0, false, 0, None, ZeroBlock())

  /** The abstract cache: `order` lists the buffers from head.next (most recently
      used) to head.prev (least recently used). */
  datatype Cache = Cache(bufs: seq<Buf>, order: seq<nat>)

  ghost predicate WfOrder(order: seq<nat>) {
    && |order| == NBUF
    && (forall k | 0 <= k < |order| :: order[k] < NBUF)
    && (forall i: nat | i < NBUF :: i in order)
    && Distinct(order)
  }

  ghost predicate WfCache(c: Cache) {
    |c.bufs| == NBUF && WfOrder(c.order)
  }

  predicate Matches(b: Buf, dev: nat, blockno: nat) {
    b.dev == dev && b.blockno == blockno
  }

  /** First position at or after k, from the most recently used end, whose buffer
      holds the block; NBUF when there is none. */
  function FindFrom(c: Cache, dev: nat, blockno: nat, k: nat): (r: nat)
    requires WfCache(c) && k <= NBUF
    ensures k <= r <= NBUF
    ensures r < NBUF ==> Matches(c.bufs[c.order[r]], dev, blockno)
    ensures forall j | k <= j < r :: !Matches(c.bufs[c.order[j]], dev, blockno)
    decreases NBUF - k
  {
    if k == NBUF || Matches(c.bufs[c.order[k]], dev, blockno) then k
    else FindFrom(c, dev, blockno, k + 1)
  }

  /** Number of ring positions up to and including the refcnt-0 buffer that is
      closest to the least recently used end, among the first k; 0 when none. */
  function UnusedBefore(c: Cache, k: nat): (r: nat)
    requires WfCache(c) && k <= NBUF
    ensures r <= k
    ensures r > 0 ==> c.bufs[c.order[r - 1]].refcnt == 0
    ensures forall j | r <= j < k :: c.bufs[c.order[j]].refcnt > 0
  {
    if k == 0 || c.bufs[c.order[k - 1]].refcnt == 0 then k
    else UnusedBefore(c, k - 1)
  }

  /** What bget does to the cache when it returns buffer i: either i already held the
      block and gains a reference, or nobody used i and it was used longest ago. */
  ghost predicate Fetched(c: Cache, dev: nat, blockno: nat, i: nat, c': Cache)
    requires WfCache(c)
  {
    && i < NBUF
    && WfCache(c')
    && c'.order == c.order
    && c'.bufs == c.bufs[i := c'.bufs[i]]
    && if Matches(c.bufs[i], dev, blockno)
       then c'.bufs[i] == c.bufs[i].(refcnt := c.bufs[i].refcnt + 1)
       else && c.bufs[i].refcnt == 0
            && c'.bufs[i] == c.bufs[i].(dev := dev, blockno := blockno, valid := false, refcnt := 1)
            && (forall j | 0 <= j < NBUF :: !Matches(c.bufs[j], dev, blockno))
            && (forall k | IndexIn(c.order, i) < k < NBUF :: c.bufs[c.order[k]].refcnt > 0)
  }

  datatype GetResult = NoBuffers | Got(i: nat, cache: Cache)

  /** bget up to the release of bcache.lock: share the buffer that already holds
      the block, otherwise recycle the unused one that was used longest ago. */
  function Get(c: Cache, dev: nat, blockno: nat): (r: GetResult)
    requires WfCache(c)
    ensures r.Got? ==> Fetched(c, dev, blockno, r.i, r.cache)
    ensures r.NoBuffers? <==>
      && (forall j | 0 <= j < NBUF :: !Matches(c.bufs[j], dev, blockno))
      && (forall j | 0 <= j < NBUF :: c.bufs[j].refcnt > 0)
  {
    var k := FindFrom(c, dev, blockno, 0);
    assert k == NBUF ==> forall j: nat | j < NBUF :: !Matches(c.bufs[j], dev, blockno) by {
      if k == NBUF { AllPositions(c, (b: Buf) => !Matches(b, dev, blockno)); }
    }
    if k < NBUF then
      var i := c.order[k];
      Got(i, c.(bufs := c.bufs[i := c.bufs[i].(refcnt := c.bufs[i].refcnt + 1)]))
    else
      var u := UnusedBefore(c, NBUF);
      assert u == 0 ==> forall j: nat | j < NBUF :: c.bufs[j].refcnt > 0 by {
        if u == 0 { AllPositions(c, (b: Buf) => b.refcnt > 0); }
      }
      if u == 0 then NoBuffers
      else
        var i := c.order[u - 1];
        assert IndexIn(c.order, i) == u - 1;
        Got(i, c.(bufs := c.bufs[i := c.bufs[i].(dev := dev, blockno := blockno, valid := false, refcnt := 1)]))
  }

  /** What holds at every ring position holds of every buffer. */
  lemma AllPositions(c: Cache, p: Buf -> bool)
    requires WfCache(c)
    requires forall k | 0 <= k < NBUF :: p(c.bufs[c.order[k]])
    ensures forall j: nat | j < NBUF :: p(c.bufs[j])
  {
    forall j: nat | j < NBUF ensures p(c.bufs[j]) {
      assert j in c.order;
      var k :| 0 <= k < |c.order| && c.order[k] == j;
    }
  }

  /** a was used more recently than b. */
  ghost predicate Before(order: seq<nat>, a: nat, b: nat) {
    exists j, k :: 0 <= j < k < |order| && order[j] == a && order[k] == b
  }

  /** The ring order after buffer i moves to the most recently used end: the others stay in order. */
  function MoveToFront(order: seq<nat>, i: nat): (r: seq<nat>)
    requires WfOrder(order) && i < NBUF
    ensures WfOrder(r) && r[0] == i
    ensures forall a: nat, b: nat | a < NBUF && b < NBUF && a != i && b != i :: Before(r, a, b) <==> Before(order, a, b)
  {
    var k := IndexIn(order, i);
    var r := [i] + order[..k] + order[k + 1..];
    assert forall a: nat, b: nat | a < NBUF && b < NBUF && a != i && b != i :: Before(r, a, b) <==> Before(order, a, b) by {
      forall a: nat, b: nat | a < NBUF && b < NBUF && a != i && b != i ensures Before(r, a, b) <==> Before(order, a, b) {
        MovedBefore(order, k, a, b);
      }
    }
    assert forall j: nat | j < NBUF :: j in r by {
      forall j: nat | j < NBUF ensures j in r {
        assert j in order[..k] + [order[k]] + order[k + 1..] by { assert order == order[..k] + [order[k]] + order[k + 1..]; }
      }
    }
    r
  }

  lemma MovedBefore(order: seq<nat>, p: nat, a: nat, b: nat)
    requires p < |order| && a != order[p] && b != order[p]
    ensures Before([order[p]] + order[..p] + order[p + 1..], a, b) <==> Before(order, a, b)
  {
    var r := [order[p]] + order[..p] + order[p + 1..];
    assert |r| == |order|;
    forall j | 0 <= j < |order| && j != p ensures r[if j < p then j + 1 else j] == order[j] { }
    if Before(order, a, b) {
      var j, k :| 0 <= j < k < |order| && order[j] == a && order[k] == b;
      assert r[if j < p then j + 1 else j] == a && r[if k < p then k + 1 else k] == b;
    }
    if Before(r, a, b) {
      var j, k :| 0 <= j < k < |r| && r[j] == a && r[k] == b;
      assert order[if j <= p then j - 1 else j] == a && order[if k <= p then k - 1 else k] == b;
    }
  }

  function IndexIn(order: seq<nat>, i: nat): (k: nat)
    requires i in order
    ensures k < |order| && order[k] == i
  {
    if order[0] == i then 0 else 1 + IndexIn(order[1..], i)
  }

  /** brelse after its releasesleep: drop one reference; the last one makes the
      buffer the most recently used. */
  function Unref(c: Cache, i: nat): (r: Cache)
    requires WfCache(c) && i < NBUF && c.bufs[i].refcnt > 0
    ensures WfCache(r)
    ensures r.bufs == c.bufs[i := c.bufs[i].(refcnt := c.bufs[i].refcnt - 1)]
    ensures c.bufs[i].refcnt > 1 ==> r.order == c.order
    ensures c.bufs[i].refcnt == 1 ==> r.order == MoveToFront(c.order, i)
  {
    var n := c.bufs[i].refcnt - 1;
    Cache(c.bufs[i := c.bufs[i].(refcnt := n)], if n == 0 then MoveToFront(c.order, i) else c.order)
  }

  // ---------------------------------------------------------------------------
  // The ring itself
  // ---------------------------------------------------------------------------

  const HEAD: nat := NBUF  // index standing for bcache.head

  /** The k-th stop of a walk along `next` that starts at the head. */
  ghost function Stop(order: seq<nat>, k: int): nat
    requires -1 <= k <= |order|
  {
    if k == -1 || k == |order| then HEAD else order[k]
  }

  /** The prev/next links form one ring that visits the head and then exactly the
      buffers of `order`, in that order. */
  ghost predicate Ring(next: seq<nat>, prev: seq<nat>, order: seq<nat>) {
    && |next| == |prev| == NBUF + 1
    && (forall k | 0 <= k < |order| :: order[k] < NBUF)
    && Distinct(order)
    && (forall k | -1 <= k < |order| :: next[Stop(order, k)] == Stop(order, k + 1))
    && (forall k | -1 <= k < |order| :: prev[Stop(order, k + 1)] == Stop(order, k))
  }

  /** Links of the ring after the buffer at position p is unlinked. */
  lemma UnlinkRing(next: seq<nat>, prev: seq<nat>, order: seq<nat>, p: nat, next': seq<nat>, prev': seq<nat>)
    requires Ring(next, prev, order) && p < |order|
    requires var i := order[p]; next[i] < |prev| && prev[i] < |next|
    requires var i := order[p]; prev' == prev[next[i] := prev[i]] && next' == next[prev[i] := next[i]]
    ensures Ring(next', prev', order[..p] + order[p + 1..])
  {
    var i := order[p];
    var o := order[..p] + order[p + 1..];
    assert next[Stop(order, p)] == Stop(order, p + 1);
    assert prev[Stop(order, p - 1 + 1)] == Stop(order, p - 1);
    forall k | -1 <= k < |o|
      ensures next'[Stop(o, k)] == Stop(o, k + 1) && prev'[Stop(o, k + 1)] == Stop(o, k)
    {
      var m := if k < p then k else k + 1;
      assert next[Stop(order, m)] == Stop(order, m + 1);
      assert prev[Stop(order, m + 1)] == Stop(order, m);
      if k + 1 == p {
        assert Stop(o, k) == Stop(order, p - 1) && Stop(o, k + 1) == Stop(order, p + 1);
      }
    }
  }

  /** Links of the ring after buffer i is linked in at the most recently used end. */
  lemma LinkRing(next: seq<nat>, prev: seq<nat>, order: seq<nat>, i: nat, next': seq<nat>, prev': seq<nat>)
    requires Ring(next, prev, order) && i < NBUF && i !in order
    requires next[HEAD] < |prev|
    requires prev' == prev[i := HEAD][next[HEAD] := i]
    requires next' == next[i := next[HEAD]][HEAD := i]
    ensures Ring(next', prev', [i] + order)
  {
    var o := [i] + order;
    assert next[Stop(order, -1)] == Stop(order, 0);
    forall k | -1 <= k < |o|
      ensures next'[Stop(o, k)] == Stop(o, k + 1) && prev'[Stop(o, k + 1)] == Stop(o, k)
    {
      if k >= 1 {
        assert next[Stop(order, k - 1)] == Stop(order, k);
        assert prev[Stop(order, k - 1 + 1)] == Stop(order, k - 1);
      }
    }
  }

  /** A well-formed ring is determined by its order: leaving out any buffer or
      visiting one twice is impossible, whichever end the walk starts from. */
  lemma RingVisitsEachOnce(next: seq<nat>, prev: seq<nat>, order: seq<nat>, i: nat)
    requires Ring(next, prev, order) && WfOrder(order) && i < NBUF
    ensures next[i] < |prev| && prev[i] < |next|
    ensures prev[next[i]] == i && next[prev[i]] == i
    ensures next[i] != i && prev[i] != i
  {
    var p: int := IndexIn(order, i);
    assert Stop(order, p) == i;
    assert next[Stop(order, p)] == Stop(order, p + 1);
    assert prev[Stop(order, p + 1)] == Stop(order, p);
    assert next[Stop(order, p - 1)] == Stop(order, p);
    assert prev[Stop(order, p - 1 + 1)] == Stop(order, p - 1);
  }

  /** One step along the ring, either way. */
  lemma Follow(next: seq<nat>, prev: seq<nat>, order: seq<nat>, k: int)
    requires Ring(next, prev, order) && -1 <= k < |order|
    ensures |next| == |prev| == NBUF + 1 && Stop(order, k) <= NBUF && Stop(order, k + 1) <= NBUF
    ensures next[Stop(order, k)] == Stop(order, k + 1) && prev[Stop(order, k + 1)] == Stop(order, k)
    ensures Stop(order, k) == HEAD <==> k == -1
    ensures Stop(order, k + 1) == HEAD <==> k + 1 == |order|
  {
    assert next[Stop(order, k)] == Stop(order, k + 1);
    assert prev[Stop(order, k + 1)] == Stop(order, k);
  }

  /** bget's first loop found the block. */
  lemma GetHit(c: Cache, dev: nat, blockno: nat, k: nat)
    requires WfCache(c) && k < NBUF && FindFrom(c, dev, blockno, 0) == FindFrom(c, dev, blockno, k)
    requires Matches(c.bufs[c.order[k]], dev, blockno)
    ensures var i := c.order[k];
      Get(c, dev, blockno) == Got(i, Cache(c.bufs[i := c.bufs[i].(refcnt := c.bufs[i].refcnt + 1)], c.order))
  {
  }

  /** bget's second loop found an unused buffer. */
  lemma GetUnused(c: Cache, dev: nat, blockno: nat, u: nat)
    requires WfCache(c) && 0 < u <= NBUF && FindFrom(c, dev, blockno, 0) == NBUF && UnusedBefore(c, NBUF) == UnusedBefore(c, u)
    requires c.bufs[c.order[u - 1]].refcnt == 0
    ensures var i := c.order[u - 1];
      Get(c, dev, blockno) == Got(i, Cache(c.bufs[i := c.bufs[i].(dev := dev, blockno := blockno, valid := false, refcnt := 1)], c.order))
  {
  }

  /** The loops of bget go on past a buffer that is not the one they look for. */
  lemma FindStep(c: Cache, dev: nat, blockno: nat, k: nat)
    requires WfCache(c) && k < NBUF && !Matches(c.bufs[c.order[k]], dev, blockno)
    ensures FindFrom(c, dev, blockno, k) == FindFrom(c, dev, blockno, k + 1)
  {
  }

  lemma FindNothing(c: Cache, dev: nat, blockno: nat)
    requires WfCache(c)
    ensures FindFrom(c, dev, blockno, NBUF) == NBUF
  {
  }

  lemma UnusedStep(c: Cache, u: nat)
    requires WfCache(c) && 0 < u <= NBUF && c.bufs[c.order[u - 1]].refcnt != 0
    ensures UnusedBefore(c, u) == UnusedBefore(c, u - 1)
  {
  }

  lemma GetNothing(c: Cache, dev: nat, blockno: nat)
    requires WfCache(c) && FindFrom(c, dev, blockno, 0) == NBUF && UnusedBefore(c, NBUF) == UnusedBefore(c, 0)
    ensures Get(c, dev, blockno).NoBuffers?
  {
  }

  /** struct bcache: the buffers and their links, updated in place. */
  class Bcache {
    const bufs: array<Buf>
    const next: array<nat>
    const prev: array<nat>
    ghost var order: seq<nat>

    ghost predicate Linked()
      reads this, next, prev
    {
      && bufs.Length == NBUF
      && next != prev
      && Ring(next[..], prev[..], order)
    }

    ghost predicate Valid()
      reads this, next, prev
    {
      Linked() && WfOrder(order)
    }

    ghost function View(): Cache
      reads this, bufs
    {
      Cache(bufs[..], order)
    }

    /** binit: buffers are linked in one after the other, so the last is first. */
    constructor ()
      ensures Valid()
      ensures View() == Cache(seq(NBUF, _ => BootBuf), seq(NBUF, (k: nat) requires k < NBUF => NBUF - 1 - k))
      ensures fresh(bufs) && fresh(next) && fresh(prev)
    {
      bufs := new Buf[NBUF](_ => BootBuf);
      next := new nat[NBUF + 1](_ => HEAD);
      prev := new nat[NBUF + 1](_ => HEAD);
      order := [];
      new;
      var b := 0;
      while b < NBUF
        invariant 0 <= b <= NBUF
        invariant Linked()
        invariant |order| == b && forall k | 0 <= k < b :: order[k] == b - 1 - k
        invariant bufs[..] == seq(NBUF, _ => BootBuf)
      {
        LinkFirst(b);
        b := b + 1;
      }
      forall i: nat | i < NBUF ensures i in order { assert order[NBUF - 1 - i] == i; }
    }

    method LinkFirst(b: nat)
      requires Linked() && b < NBUF && b !in order
      modifies this, next, prev
      ensures Linked() && order == [b] + old(order)
    {
      ghost var next0, prev0 := next[..], prev[..];
      assert next0[Stop(order, -1)] == Stop(order, 0);
      next[b] := next[HEAD];
      prev[b] := HEAD;
      prev[next[HEAD]] := b;
      next[HEAD] := b;
      LinkRing(next0, prev0, order, b, next[..], prev[..]);
      order := [b] + order;
    }

    /** bget: look for the block from the most recently used end, then for an
        unused buffer from the other end; the result is what Get says. */
    method Bget(dev: nat, blockno: nat) returns (r: Option<nat>)
      requires Valid()
      modifies bufs
      ensures Valid()
      ensures r.None? <==> Get(old(View()), dev, blockno).NoBuffers?
      ensures r.None? ==> View() == old(View())
      ensures r.Some? ==> Get(old(View()), dev, blockno) == Got(r.value, View())
    {
      hide Ring, Get, FindFrom;
      ghost var c := View();
      Follow(next[..], prev[..], order, -1);
      var b := next[HEAD];
      ghost var k := 0;
      while b != HEAD
        invariant View() == c && 0 <= k <= NBUF && b == Stop(order, k)
        invariant FindFrom(c, dev, blockno, 0) == FindFrom(c, dev, blockno, k)
        decreases NBUF - k
      {
        Follow(next[..], prev[..], order, k);
        if Matches(bufs[b], dev, blockno) {
          bufs[b] := bufs[b].(refcnt := bufs[b].refcnt + 1);
          GetHit(c, dev, blockno, k);
          return Some(b);
        }
        FindStep(c, dev, blockno, k);
        b := next[b];
        k := k + 1;
      }
      FindNothing(c, dev, blockno);
      r := Recycle(dev, blockno);
    }

    /** The second loop of bget. */
    method Recycle(dev: nat, blockno: nat) returns (r: Option<nat>)
      requires Valid() && FindFrom(View(), dev, blockno, 0) == NBUF
      modifies bufs
      ensures Valid()
      ensures r.None? <==> Get(old(View()), dev, blockno).NoBuffers?
      ensures r.None? ==> View() == old(View())
      ensures r.Some? ==> Get(old(View()), dev, blockno) == Got(r.value, View())
    {
      hide Ring, Get, FindFrom, UnusedBefore;
      ghost var c := View();
      Follow(next[..], prev[..], order, NBUF - 1);
      var b := prev[HEAD];
      ghost var u := NBUF;
      while b != HEAD
        invariant View() == c && 0 <= u <= NBUF && b == Stop(order, u - 1)
        invariant UnusedBefore(c, NBUF) == UnusedBefore(c, u)
        decreases u
      {
        Follow(next[..], prev[..], order, u - 2);
        if bufs[b].refcnt == 0 {
          bufs[b] := bufs[b].(dev := dev, blockno := blockno, valid := false, refcnt := 1);
          GetUnused(c, dev, blockno, u);
          return Some(b);
        }
        UnusedStep(c, u);
        assert prev[Stop(order, u - 1)] == Stop(order, u - 2);
        b := prev[b];
        u := u - 1;
      }
      GetNothing(c, dev, blockno);
      r := None;
    }

    method Unlink(b: nat)
      requires Valid() && b < NBUF
      modifies this`order, next, prev
      ensures Linked() && b !in order
      ensures [b] + order == MoveToFront(old(order), b)
    {
      ghost var p := IndexIn(order, b);
      ghost var next0, prev0 := next[..], prev[..];
      RingVisitsEachOnce(next0, prev0, order, b);
      prev[next[b]] := prev[b];
      next[prev[b]] := next[b];
      hide Ring;
      UnlinkRing(next0, prev0, order, p, next[..], prev[..]);
      order := order[..p] + order[p + 1..];
    }

    /** The critical section of brelse. */
    method Brelse(b: nat)
      requires Valid() && b < NBUF && bufs[b].refcnt > 0
      modifies this, bufs, next, prev
      ensures Valid()
      ensures View() == Unref(old(View()), b)
    {
      hide Ring, MoveToFront;
      bufs[b] := bufs[b].(refcnt := bufs[b].refcnt - 1);
      if bufs[b].refcnt == 0 {
        Unlink(b);
        LinkFirst(b);
      }
    }

    method Bpin(b: nat)
      requires Valid() && b < NBUF
      modifies bufs
      ensures Valid()
      ensures View().bufs == old(View()).bufs[b := old(bufs[b]).(refcnt := old(bufs[b]).refcnt + 1)]
    {
      bufs[b] := bufs[b].(refcnt := bufs[b].refcnt + 1);
    }

    method Bunpin(b: nat)
      requires Valid() && b < NBUF && bufs[b].refcnt > 0
      modifies bufs
      ensures Valid()
      ensures View().bufs == old(View()).bufs[b := old(bufs[b]).(refcnt := old(bufs[b]).refcnt - 1)]
    {
      bufs[b] := bufs[b].(refcnt := bufs[b].refcnt - 1);
    }
  }
}
