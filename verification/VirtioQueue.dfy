/** What the virtqueue of kernel/virtio_disk.c holds: descriptors, the two rings, and the
    requests that own them. Indices of the rings are 16-bit counters that wrap around. */
module VirtioQueue {
  import opened Counting

  const NUM: nat := 8
  const IDX: nat := 0x1_0000

  /** Where a descriptor points: the command header, the data of a buffer, the status byte. */
  datatype Target = Null | Op(i: nat) | DataOf(b: nat) | StatusOf(i: nat)

  /** `next` is the index of the next descriptor if VRING_DESC_F_NEXT is set; `devWrites` is
      VRING_DESC_F_WRITE. */
  datatype Desc = Desc(addr: Target, hasNext: bool, devWrites: bool, next: nat)

  const NoDesc := Desc(Null, false, false, 0)

  /** Published in the avail ring; taken by the device; in the used ring; seen by the interrupt handler. */
  datatype Phase = Published | Taken | Completed | Done

  /** A request, filed under its first descriptor. */
  datatype Req = Req(b: nat, i1: nat, i2: nat, write: bool, blockno: nat, phase: Phase)

  type Reqs = map<nat, Req>

  function DescsOf(h: nat, r: Req): set<nat> { {h, r.i1, r.i2} }

  ghost predicate ReqOk(h: nat, r: Req) {
    h < NUM && r.i1 < NUM && r.i2 < NUM && h != r.i1 && h != r.i2 && r.i1 != r.i2
  }

  /** Three descriptors each, shared with no other request; one request per buffer. */
  ghost predicate ReqsOk(reqs: Reqs) {
    && (forall h | h in reqs :: ReqOk(h, reqs[h]))
    && (forall g, h | g in reqs && h in reqs && g != h :: DescsOf(g, reqs[g]) !! DescsOf(h, reqs[h]) && reqs[g].b != reqs[h].b)
  }

  ghost predicate InUse(reqs: Reqs, i: nat) {
    exists h :: h in reqs && i in DescsOf(h, reqs[h])
  }

  /** A descriptor is free exactly when no request owns it. */
  ghost predicate FreeExact(free: seq<bool>, reqs: Reqs) {
    |free| == NUM && forall i: nat | i < NUM :: free[i] <==> !InUse(reqs, i)
  }

  /** The descriptors of a request say what the device needs. */
  ghost predicate Formatted(desc: seq<Desc>, h: nat, r: Req)
    requires |desc| == NUM && ReqOk(h, r)
  {
    && desc[h] == Desc(Op(h), true, false, r.i1)
    && desc[r.i1] == Desc(DataOf(r.b), true, !r.write, r.i2)
    && desc[r.i2] == Desc(StatusOf(h), false, true, 0)
  }

  const BSIZE: nat := 1024
  const SECTOR: nat := 512

  /** b->blockno * (BSIZE / 512), in 32 bits. */
  function SectorOf(blockno: nat): nat { blockno * (BSIZE / SECTOR) % 0x1_0000_0000 }

  /** The product fits, and the block starts at its own byte of the disk, if and only if the block
      number is below 2^31. */
  lemma BlockStarts(blockno: nat)
    ensures SectorOf(blockno) * SECTOR == blockno * BSIZE <==> blockno < 0x8000_0000
  {
  }

  /** The device reads or writes sectors [a, a + BSIZE / 512) and [b, b + BSIZE / 512), which have
      none in common. */
  predicate SectorsApart(a: nat, b: nat) { a + BSIZE / SECTOR <= b || b + BSIZE / SECTOR <= a }

  /** struct virtio_blk_req: the type of the request and its sector. */
  datatype Command = Command(write: bool, sector: nat)

  /** The header that the first descriptor of a request points to says what to do and where. */
  ghost predicate CommandsOk(ops: seq<Command>, reqs: Reqs) {
    |ops| == NUM && forall h | h in reqs :: h < NUM && ops[h] == Command(reqs[h].write, SectorOf(reqs[h].blockno))
  }

  // ---------------------------------------------------------------------------
  // Counting descriptors
  // ---------------------------------------------------------------------------

  ghost function FreeSet(free: seq<bool>): set<nat> { set i: nat | i < |free| && free[i] }

  ghost function UsedSet(reqs: Reqs): set<nat> { set h, i | h in reqs && i in DescsOf(h, reqs[h]) :: i }

  predicate Under(i: nat, n: nat) { i < n }

  ghost function Below(n: nat): set<nat> { set i: nat | i < n && Under(i, n) }

  lemma {:induction false} BelowCount(n: nat)
    ensures |Below(n)| == n
  {
    if n > 0 {
      BelowCount(n - 1);
      assert Below(n) == Below(n - 1) + {n - 1};
    }
  }

  lemma UsedIff(reqs: Reqs, i: nat)
    ensures i in UsedSet(reqs) <==> InUse(reqs, i)
  {
    hide DescsOf;
  }

  lemma UsedSplits(reqs: Reqs, h: nat)
    requires ReqsOk(reqs) && h in reqs
    ensures UsedSet(reqs) == UsedSet(reqs - {h}) + DescsOf(h, reqs[h])
    ensures UsedSet(reqs - {h}) !! DescsOf(h, reqs[h])
  {
    hide DescsOf, ReqOk;
    var rest := reqs - {h};
    forall i: nat | i in UsedSet(reqs) ensures i in UsedSet(rest) || i in DescsOf(h, reqs[h]) {
      var g :| g in reqs && i in DescsOf(g, reqs[g]);
      assert g == h || (g in rest && i in DescsOf(g, rest[g]));
    }
    forall i: nat | i in UsedSet(rest) ensures i in UsedSet(reqs) && i !in DescsOf(h, reqs[h]) {
      var g :| g in rest && i in DescsOf(g, rest[g]);
      assert g in reqs && i in DescsOf(g, reqs[g]);
    }
  }

  lemma {:induction false} UsedCount(reqs: Reqs)
    requires ReqsOk(reqs)
    ensures |UsedSet(reqs)| == 3 * |reqs|
    decreases |reqs|
  {
    hide UsedSet;
    if reqs == map[] {
      NoneUsed(reqs);
    } else {
      var h :| h in reqs;
      assert reqs.Keys == (reqs - {h}).Keys + {h};
      UsedCount(reqs - {h});
      UsedSplits(reqs, h);
      assert ReqOk(h, reqs[h]) && |DescsOf(h, reqs[h])| == 3;
    }
  }

  lemma NoneUsed(reqs: Reqs)
    requires reqs == map[]
    ensures UsedSet(reqs) == {}
  {
  }

  lemma UsedBelow(reqs: Reqs, i: nat)
    requires ReqsOk(reqs) && InUse(reqs, i)
    ensures i < NUM
  {
    var h :| h in reqs && i in DescsOf(h, reqs[h]);
    assert ReqOk(h, reqs[h]);
  }

  /** Free descriptors and three for each request make up all of them. */
  lemma DescriptorsAddUp(free: seq<bool>, reqs: Reqs)
    requires ReqsOk(reqs) && FreeExact(free, reqs)
    ensures |FreeSet(free)| + 3 * |reqs| == NUM
  {
    hide UsedSet, InUse, ReqsOk;
    UsedCount(reqs);
    BelowCount(NUM);
    forall i: nat ensures (i in Below(NUM) <==> i in FreeSet(free) || i in UsedSet(reqs)) && !(i in FreeSet(free) && i in UsedSet(reqs)) {
      UsedIff(reqs, i);
      if InUse(reqs, i) { UsedBelow(reqs, i); }
    }
    assert Below(NUM) == FreeSet(free) + UsedSet(reqs);
    assert FreeSet(free) !! UsedSet(reqs);
  }

  // ---------------------------------------------------------------------------
  // Rings
  // ---------------------------------------------------------------------------

  /** The slot of the t-th entry ever written. */
  function Place(t: nat): (k: nat)
    ensures k < NUM
  {
    t % NUM
  }

  /** A wrapped 16-bit index names the same slot. */
  lemma WrappedPlace(t: nat)
    ensures t % IDX % NUM == Place(t)
  {
  }

  /** Entries from `from` on are in the ring and not overwritten. */
  ghost predicate RingHolds(ring: seq<nat>, all: seq<nat>, from: nat) {
    && |ring| == NUM && from <= |all| && |all| - from <= NUM
    && forall t: nat | from <= t < |all| :: ring[Place(t)] == all[t]
  }

  lemma RingAppend(ring: seq<nat>, all: seq<nat>, from: nat, h: nat)
    requires RingHolds(ring, all, from) && |all| - from < NUM
    ensures RingHolds(ring[Place(|all|) := h], all + [h], from)
  {
  }

  /** The unread entries are distinct, and are exactly the requests in the given phase. */
  ghost predicate Pending(all: seq<nat>, from: nat, reqs: Reqs, phase: Phase) {
    && from <= |all|
    && (forall s: nat, t: nat | from <= s < t < |all| :: all[s] != all[t])
    && (forall t: nat | from <= t < |all| :: all[t] in reqs && reqs[all[t]].phase == phase)
    && (forall h | h in reqs && reqs[h].phase == phase :: exists t: nat :: from <= t < |all| && all[t] == h)
  }

  /** There are no more unread entries than requests. */
  lemma PendingCount(all: seq<nat>, from: nat, reqs: Reqs, phase: Phase)
    requires Pending(all, from, reqs, phase)
    ensures |all| - from <= |reqs|
  {
    var unread := all[from..];
    assert Distinct(unread);
    ElementsCount(unread);
    assert Elements(unread) <= reqs.Keys;
    SubsetCount(Elements(unread), reqs.Keys);
  }
}
