/** The driver of kernel/virtio_disk.c, under vdisk_lock, with the device that takes and completes
    requests in any order. */
module Virtio {
  import opened VirtioQueue

  // ---------------------------------------------------------------------------
  // Requests that change phase
  // ---------------------------------------------------------------------------

  ghost predicate InPhase(reqs: Reqs, h: nat, phase: Phase) { h in reqs && reqs[h].phase == phase }

  lemma PendingSame(all: seq<nat>, from: nat, reqs: Reqs, reqs': Reqs, phase: Phase)
    requires Pending(all, from, reqs, phase) && forall h: nat :: InPhase(reqs, h, phase) <==> InPhase(reqs', h, phase)
    ensures Pending(all, from, reqs', phase)
  {
    forall t: nat | from <= t < |all| ensures all[t] in reqs' && reqs'[all[t]].phase == phase { assert InPhase(reqs, all[t], phase); }
    forall h | h in reqs' && reqs'[h].phase == phase ensures exists t: nat :: from <= t < |all| && all[t] == h { assert InPhase(reqs', h, phase); }
  }

  lemma PendingPush(all: seq<nat>, from: nat, reqs: Reqs, reqs': Reqs, phase: Phase, h: nat)
    requires Pending(all, from, reqs, phase) && !InPhase(reqs, h, phase)
    requires forall g: nat :: InPhase(reqs', g, phase) <==> InPhase(reqs, g, phase) || g == h
    ensures Pending(all + [h], from, reqs', phase)
  {
    var more := all + [h];
    forall t: nat | from <= t < |more| ensures more[t] in reqs' && reqs'[more[t]].phase == phase {
      if t < |all| { assert InPhase(reqs, all[t], phase); }
      assert InPhase(reqs', more[t], phase);
    }
    forall s: nat, t: nat | from <= s < t < |more| ensures more[s] != more[t] {
      if t == |all| { assert InPhase(reqs, all[s], phase); }
    }
    forall g | g in reqs' && reqs'[g].phase == phase ensures exists t: nat :: from <= t < |more| && more[t] == g {
      assert InPhase(reqs', g, phase);
      if g == h {
        assert more[|all|] == g;
      } else {
        assert InPhase(reqs, g, phase);
        var t: nat :| from <= t < |all| && all[t] == g;
        assert more[t] == g;
      }
    }
  }

  lemma PendingPop(all: seq<nat>, from: nat, reqs: Reqs, reqs': Reqs, phase: Phase)
    requires Pending(all, from, reqs, phase) && from < |all|
    requires forall g: nat :: InPhase(reqs', g, phase) <==> InPhase(reqs, g, phase) && g != all[from]
    ensures Pending(all, from + 1, reqs', phase)
  {
    forall t: nat | from + 1 <= t < |all| ensures all[t] in reqs' && reqs'[all[t]].phase == phase {
      assert all[from] != all[t] && InPhase(reqs, all[t], phase);
      assert InPhase(reqs', all[t], phase);
    }
    forall g | g in reqs' && reqs'[g].phase == phase ensures exists t: nat :: from + 1 <= t < |all| && all[t] == g {
      assert InPhase(reqs', g, phase);
      var t: nat :| from <= t < |all| && all[t] == g;
      assert from + 1 <= t;
    }
  }

  /** Only the phase of h changes: ownership does not. */
  lemma PhaseKeeps(free: seq<bool>, reqs: Reqs, h: nat, phase: Phase)
    requires ReqsOk(reqs) && FreeExact(free, reqs) && h in reqs
    ensures var reqs' := reqs[h := reqs[h].(phase := phase)];
      ReqsOk(reqs') && FreeExact(free, reqs') && |reqs'| == |reqs|
  {
    var reqs' := reqs[h := reqs[h].(phase := phase)];
    assert reqs'.Keys == reqs.Keys;
    forall g | g in reqs' ensures DescsOf(g, reqs'[g]) == DescsOf(g, reqs[g]) && ReqOk(g, reqs'[g]) { assert ReqOk(g, reqs[g]); }
    forall i: nat | i < NUM ensures InUse(reqs', i) <==> InUse(reqs, i) { PhaseUse(reqs, reqs', i); PhaseUse(reqs', reqs, i); }
  }

  lemma PhaseUse(reqs: Reqs, reqs': Reqs, i: nat)
    requires reqs.Keys == reqs'.Keys && forall g | g in reqs :: DescsOf(g, reqs'[g]) == DescsOf(g, reqs[g])
    ensures InUse(reqs, i) ==> InUse(reqs', i)
  {
    hide DescsOf;
    if InUse(reqs, i) {
      var g :| g in reqs && i in DescsOf(g, reqs[g]);
      assert g in reqs' && i in DescsOf(g, reqs'[g]);
    }
  }

  // ---------------------------------------------------------------------------
  // Requests that come and go
  // ---------------------------------------------------------------------------

  lemma RequestAdded(free: seq<bool>, free': seq<bool>, reqs: Reqs, h: nat, r: Req)
    requires ReqsOk(reqs) && FreeExact(free, reqs) && ReqOk(h, r)
    requires free[h] && free[r.i1] && free[r.i2] && free' == free[h := false][r.i1 := false][r.i2 := false]
    requires forall g | g in reqs :: reqs[g].b != r.b
    ensures h !in reqs && ReqsOk(reqs[h := r]) && FreeExact(free', reqs[h := r])
  {
    var reqs' := reqs[h := r];
    forall g, i | g in reqs && i in DescsOf(g, reqs[g]) ensures i != h && i != r.i1 && i != r.i2 {
      assert InUse(reqs, i) && ReqOk(g, reqs[g]);
    }
    forall i: nat | i < NUM ensures free'[i] <==> !InUse(reqs', i) {
      if InUse(reqs, i) { var g :| g in reqs && i in DescsOf(g, reqs[g]); assert g in reqs' && i in DescsOf(g, reqs'[g]); }
      if i in DescsOf(h, r) { assert h in reqs' && i in DescsOf(h, reqs'[h]); }
      if InUse(reqs', i) { var g :| g in reqs' && i in DescsOf(g, reqs'[g]); assert g == h || (g in reqs && i in DescsOf(g, reqs[g])); }
    }
  }

  lemma RequestRemoved(free: seq<bool>, free': seq<bool>, reqs: Reqs, h: nat)
    requires ReqsOk(reqs) && FreeExact(free, reqs) && h in reqs && ReqOk(h, reqs[h])
    requires free' == free[h := true][reqs[h].i1 := true][reqs[h].i2 := true]
    ensures ReqsOk(reqs - {h}) && FreeExact(free', reqs - {h})
  {
    hide InUse, DescsOf;
    forall i: nat | i < NUM ensures free'[i] <==> !InUse(reqs - {h}, i) {
      UseWithout(reqs, h, i);
      FreedAt(free, reqs[h], h, i);
    }
  }

  lemma UseWithout(reqs: Reqs, h: nat, i: nat)
    requires ReqsOk(reqs) && h in reqs
    ensures InUse(reqs - {h}, i) <==> InUse(reqs, i) && i !in DescsOf(h, reqs[h])
  {
    hide DescsOf;
    var reqs' := reqs - {h};
    if InUse(reqs, i) && i !in DescsOf(h, reqs[h]) {
      var g :| g in reqs && i in DescsOf(g, reqs[g]);
      assert g in reqs' && i in DescsOf(g, reqs'[g]);
    }
    if InUse(reqs', i) {
      var g :| g in reqs' && i in DescsOf(g, reqs'[g]);
      assert g in reqs && i in DescsOf(g, reqs[g]);
    }
  }

  lemma FreedAt(free: seq<bool>, r: Req, h: nat, i: nat)
    requires |free| == NUM && ReqOk(h, r) && i < NUM
    ensures free[h := true][r.i1 := true][r.i2 := true][i] <==> free[i] || i in DescsOf(h, r)
  {
  }

  lemma NotFreeWhileOwned(free: seq<bool>, reqs: Reqs, h: nat)
    requires ReqsOk(reqs) && FreeExact(free, reqs) && h in reqs
    ensures ReqOk(h, reqs[h]) && !free[h] && !free[reqs[h].i1] && !free[reqs[h].i2]
  {
    assert ReqOk(h, reqs[h]);
    forall i | i in DescsOf(h, reqs[h]) ensures InUse(reqs, i) { }
  }

  lemma TookFree(free: seq<bool>, i: nat)
    requires i < |free| && free[i]
    ensures FreeSet(free[i := false]) == FreeSet(free) - {i} && |FreeSet(free[i := false])| == |FreeSet(free)| - 1
  {
    assert FreeSet(free) == FreeSet(free[i := false]) + {i};
  }

  // ---------------------------------------------------------------------------
  // The driver
  // ---------------------------------------------------------------------------

  /** disk.info: the buffer of a request and the status byte the device writes. */
  datatype Info = Info(b: nat, status: nat)

  ghost predicate AllFormatted(desc: seq<Desc>, info: seq<Info>, reqs: Reqs) {
    && |desc| == NUM && |info| == NUM
    && forall h | h in reqs :: ReqOk(h, reqs[h]) && Formatted(desc, h, reqs[h]) && info[h].b == reqs[h].b
                               && (reqs[h].phase == Completed ==> info[h].status == 0)
  }

  /** b->disk of the buffers with a request. */
  ghost predicate BusyOk(busy: set<nat>, reqs: Reqs) {
    forall h | h in reqs :: reqs[h].b in busy <==> reqs[h].phase != Done
  }

  class Disk {
    var free: seq<bool>
    var desc: seq<Desc>
    var info: seq<Info>
    var ops: seq<Command>     // disk.ops, the command headers
    var avail: seq<nat>       // avail->ring
    var availIdx: nat         // avail->idx, a uint16
    var used: seq<nat>        // used->ring[].id
    var usedIdx: nat          // used->idx
    var seenIdx: nat          // disk.used_idx
    var busy: set<nat>        // the buffers with b->disk == 1
    ghost var reqs: Reqs
    ghost var published: seq<nat>
    ghost var taken: nat      // how many of them the device has taken
    ghost var completed: seq<nat>
    ghost var seen: nat       // how many of them the interrupt handler has seen
    ghost var waiters: set<nat>

    ghost predicate Rings()
      reads this
    {
      && RingHolds(avail, published, taken) && RingHolds(used, completed, seen)
      && Pending(published, taken, reqs, Published) && Pending(completed, seen, reqs, Completed)
      && availIdx == |published| % IDX && usedIdx == |completed| % IDX && seenIdx == seen % IDX
    }

    ghost predicate Valid()
      reads this
    {
      && ReqsOk(reqs) && FreeExact(free, reqs) && AllFormatted(desc, info, reqs) && BusyOk(busy, reqs)
      && CommandsOk(ops, reqs) && Rings()
      && (waiters != {} ==> |FreeSet(free)| < 3)
    }

    constructor ()
      ensures Valid() && reqs == map[] && busy == {} && waiters == {}
    {
      free, desc, info := seq(NUM, _ => true), seq(NUM, _ => NoDesc), seq(NUM, _ => Info(0, 0));
      ops, avail, used := seq(NUM, _ => Command(false, 0)), seq(NUM, _ => 0), seq(NUM, _ => 0);
      availIdx, usedIdx, seenIdx, busy := 0, 0, 0, {};
      reqs, published, taken, completed, seen, waiters := map[], [], 0, [], 0, {};
    }

    /** alloc_desc: the first free descriptor, or -1. */
    method AllocDesc() returns (i: int)
      requires |free| == NUM
      modifies this`free
      ensures |free| == NUM
      ensures i == -1 ==> FreeSet(old(free)) == {} && free == old(free)
      ensures i != -1 ==> 0 <= i < NUM && old(free)[i] && free == old(free)[i := false] && forall j | 0 <= j < i :: !old(free)[j]
    {
      i := 0;
      while i < NUM
        invariant 0 <= i <= NUM && free == old(free)
        invariant forall j | 0 <= j < i :: !free[j]
      {
        if free[i] {
          free := free[i := false];
          return;
        }
        i := i + 1;
      }
      return -1;
    }

    /** free_desc; a descriptor that is free already would be a panic. It wakes all waiters. */
    method FreeDesc(i: nat)
      requires |free| == NUM && |desc| == NUM && i < NUM && !free[i]
      modifies this`free, this`desc, this`waiters
      ensures free == old(free)[i := true] && desc == old(desc)[i := NoDesc] && waiters == {}
    {
      desc := desc[i := NoDesc];
      free := free[i := true];
      waiters := {};
    }

    /** alloc3_desc: three descriptors exactly when three are free; otherwise none. */
    method Alloc3Desc() returns (ok: bool, i0: nat, i1: nat, i2: nat)
      requires |free| == NUM && |desc| == NUM
      modifies this`free, this`desc, this`waiters
      ensures |desc| == NUM && forall i | 0 <= i < NUM && !old(free)[i] :: desc[i] == old(desc)[i]
      ensures ok == (|FreeSet(old(free))| >= 3)
      ensures ok ==>
        && i0 < NUM && i1 < NUM && i2 < NUM && i0 != i1 && i0 != i2 && i1 != i2
        && old(free)[i0] && old(free)[i1] && old(free)[i2] && free == old(free)[i0 := false][i1 := false][i2 := false]
        && waiters == old(waiters)
      ensures !ok ==> free == old(free) && waiters <= old(waiters)
    {
      i0, i1, i2 := 0, 0, 0;
      var i := AllocDesc();
      if i < 0 {
        return false, 0, 0, 0;
      }
      i0 := i;
      TookFree(old(free), i0);
      i := AllocDesc();
      if i < 0 {
        FreeDesc(i0);
        return false, 0, 0, 0;
      }
      i1 := i;
      TookFree(old(free)[i0 := false], i1);
      i := AllocDesc();
      if i < 0 {
        FreeDesc(i0);
        FreeDesc(i1);
        return false, 0, 0, 0;
      }
      i2 := i;
      TookFree(old(free)[i0 := false][i1 := false], i2);
      ok := true;
    }

    /** The part of virtio_disk_rw that formats the descriptors and publishes the chain: i0, i1 and i2
        are the chain of the request, and no other descriptor, header or ring entry changes. */
    method Publish(i0: nat, r: Req)
      requires ReqOk(i0, r) && |desc| == |info| == |ops| == |avail| == NUM
      modifies this`desc, this`info, this`ops, this`busy, this`avail, this`availIdx
      ensures |desc| == NUM && Formatted(desc, i0, r) && forall i | 0 <= i < NUM && i !in DescsOf(i0, r) :: desc[i] == old(desc)[i]
      ensures ops == old(ops)[i0 := Command(r.write, SectorOf(r.blockno))] && info == old(info)[i0 := Info(r.b, 0xff)] && busy == old(busy) + {r.b}
      ensures avail == old(avail)[old(availIdx) % NUM := i0] && availIdx == (old(availIdx) + 1) % IDX
    {
      ops := ops[i0 := Command(r.write, SectorOf(r.blockno))];
      desc := desc[i0 := Desc(Op(i0), true, false, r.i1)];
      desc := desc[r.i1 := Desc(DataOf(r.b), true, !r.write, r.i2)];
      info := info[i0 := info[i0].(status := 0xff)];
      desc := desc[r.i2 := Desc(StatusOf(i0), false, true, 0)];
      busy := busy + {r.b};
      info := info[i0 := info[i0].(b := r.b)];
      avail := avail[availIdx % NUM := i0];
      availIdx := (availIdx + 1) % IDX;
    }

    /** The descriptors h, i1 and i2, just allocated, become a request. */
    method Submit(h: nat, r: Req, ghost free0: seq<bool>, ghost desc0: seq<Desc>)
      requires ReqsOk(reqs) && FreeExact(free0, reqs) && AllFormatted(desc0, info, reqs) && BusyOk(busy, reqs) && CommandsOk(ops, reqs) && Rings()
      requires ReqOk(h, r) && r.phase == Published && (forall g | g in reqs :: reqs[g].b != r.b) && |free0| == |desc| == NUM
      requires free0[h] && free0[r.i1] && free0[r.i2] && free == free0[h := false][r.i1 := false][r.i2 := false]
      requires forall i | 0 <= i < NUM && !free0[i] :: desc[i] == desc0[i]
      modifies this`desc, this`info, this`ops, this`busy, this`avail, this`availIdx, this`reqs, this`published
      ensures ReqsOk(reqs) && FreeExact(free, reqs) && AllFormatted(desc, info, reqs) && BusyOk(busy, reqs) && CommandsOk(ops, reqs) && Rings()
      ensures h !in old(reqs) && reqs == old(reqs)[h := r]
      ensures published == old(published) + [h] && busy == old(busy) + {r.b}
    {
      hide ReqsOk, FreeExact, AllFormatted, BusyOk, RingHolds, Pending, FreeSet, Formatted, CommandsOk;
      Lengths(free0, desc0, info, reqs, avail, published, taken);
      ghost var desc1, info1 := desc, info;
      RequestAdded(free0, free, reqs, h, r);
      NewCommand(ops, reqs, h, r);
      NewBusy(busy, reqs, h, r);
      NewPending(published, taken, completed, seen, reqs, h, r);
      NewEntry(free, avail, published, taken, reqs[h := r], h, Published);
      NextIdx(|published|);
      Publish(h, r);
      NewFormatted(free0, desc0, desc1, desc, info1, reqs, h, r);
      reqs := reqs[h := r];
      published := published + [h];
    }

    /** virtio_disk_rw up to the wait for the device. Process p goes to sleep for descriptors
        exactly when fewer than three are free. */
    method Start(p: nat, b: nat, blockno: nat, write: bool) returns (ok: bool, h: nat)
      requires Valid() && forall g | g in reqs :: reqs[g].b != b
      modifies this
      ensures Valid() && ok == (|FreeSet(old(free))| >= 3)
      ensures !ok ==> p in waiters && reqs == old(reqs) && busy == old(busy) && published == old(published) && completed == old(completed)
      ensures ok ==>
        && h !in old(reqs) && h in reqs && reqs[h].b == b && reqs[h].write == write && reqs[h].blockno == blockno && reqs[h].phase == Published
        && reqs == old(reqs)[h := reqs[h]] && published == old(published) + [h] && completed == old(completed) && busy == old(busy) + {b}
    {
      hide ReqsOk, FreeExact, AllFormatted, BusyOk, RingHolds, Pending, FreeSet, CommandsOk;
      Lengths(free, desc, info, reqs, avail, published, taken);
      var i1, i2;
      ok, h, i1, i2 := Alloc3Desc();
      if !ok {
        StillFormatted(old(free), old(desc), desc, info, reqs);
        waiters := waiters + {p};
        return;
      }
      Submit(h, Req(b, i1, i2, write, blockno, Published), old(free), old(desc));
    }

    // -------------------------------------------------------------------------
    // The device
    // -------------------------------------------------------------------------

    /** The device takes the next entry of the avail ring. What it finds is the head of a request
        that it has not taken before, with its three descriptors as the driver wrote them. */
    method DeviceTakes(next: nat) returns (h: nat)
      requires Valid() && taken < |published| && next == taken % IDX
      modifies this`reqs, this`taken
      ensures Valid() && h == published[old(taken)] && taken == old(taken) + 1
      ensures h in old(reqs) && old(reqs)[h].phase == Published && reqs == old(reqs)[h := old(reqs)[h].(phase := Taken)]
      ensures ReqOk(h, reqs[h]) && h < |ops| && ops[h].write == reqs[h].write
      ensures |desc| == NUM && desc[h] == Desc(Op(h), true, false, reqs[h].i1)
      ensures desc[reqs[h].i1] == Desc(DataOf(reqs[h].b), true, !reqs[h].write, reqs[h].i2) && desc[reqs[h].i2] == Desc(StatusOf(h), false, true, 0)
      ensures reqs[h].blockno < 0x8000_0000 ==>
        && ops[h].sector * SECTOR == reqs[h].blockno * BSIZE
        && forall g | g in reqs && reqs[g].blockno < 0x8000_0000 && reqs[g].blockno != reqs[h].blockno ::
             g < |ops| && SectorsApart(ops[g].sector, ops[h].sector)
    {
      hide CommandsOk, ReqsOk, FreeExact, BusyOk, FreeSet, DescsOf, InPhase, Pending, RingHolds, AllFormatted;
      NextIdx(taken);
      HeadAt(avail, published, taken, reqs, Published);
      h := avail[next % NUM];
      FormattedAt(desc, info, reqs, h);
      PhaseKeeps(free, reqs, h, Taken);
      PhasePending(published, taken, completed, seen, reqs, h, Taken);
      PhaseFormatted(desc, info, busy, reqs, h, Taken);
      SameCommands(ops, reqs, h, Taken);
      reqs := reqs[h := reqs[h].(phase := Taken)];
      taken := taken + 1;
      if reqs[h].blockno < 0x8000_0000 { OwnSectors(ops, reqs, h); }
    }

    /** The device finishes any request it has taken: status 0, and an entry in the used ring. */
    method DeviceCompletes(h: nat)
      requires Valid() && h in reqs && reqs[h].phase == Taken
      modifies this`info, this`used, this`usedIdx, this`reqs, this`completed
      ensures Valid() && reqs == old(reqs)[h := old(reqs)[h].(phase := Completed)] && completed == old(completed) + [h]
    {
      hide CommandsOk, ReqsOk, FreeExact, BusyOk, FreeSet, RingHolds, Pending, AllFormatted, InPhase;
      CompletedTables(free, desc, info, ops, busy, reqs, h);
      CompletedRings(free, published, taken, used, completed, seen, reqs, h);
      info := info[h := info[h].(status := 0)];
      used := used[usedIdx % NUM := h];
      usedIdx := (usedIdx + 1) % IDX;
      reqs := reqs[h := reqs[h].(phase := Completed)];
      completed := completed + [h];
    }

    // -------------------------------------------------------------------------
    // Completion
    // -------------------------------------------------------------------------

    /** One turn of the loop of virtio_disk_intr: the buffer of the completed request is not busy
        any more, and only that one. The status it checks is 0. */
    method IntrOne() returns (b: nat)
      requires Valid() && seenIdx != usedIdx
      modifies this`busy, this`seenIdx, this`reqs, this`seen
      ensures Valid() && old(seen) < |completed| && seen == old(seen) + 1
      ensures var h := completed[old(seen)];
        && h in old(reqs) && old(reqs)[h].phase == Completed && b == old(reqs)[h].b && b in old(busy)
        && reqs == old(reqs)[h := old(reqs)[h].(phase := Done)] && busy == old(busy) - {b}
    {
      hide CommandsOk, ReqsOk, FreeExact, FreeSet, DescsOf, InPhase, Pending, RingHolds, AllFormatted, BusyOk, Formatted, ReqOk;
      Unread(free, reqs, completed, seen);
      NextIdx(seen);
      HeadAt(used, completed, seen, reqs, Completed);
      var id := used[seenIdx % NUM];
      FormattedAt(desc, info, reqs, id);
      assert info[id].status == 0;
      b := info[id].b;
      PhaseKeeps(free, reqs, id, Done);
      PhasePending(published, taken, completed, seen, reqs, id, Done);
      DoneFormatted(desc, info, busy, reqs, id);
      SameCommands(ops, reqs, id, Done);
      busy := busy - {b};
      seenIdx := (seenIdx + 1) % IDX;
      reqs := reqs[id := reqs[id].(phase := Done)];
      seen := seen + 1;
    }

    /** virtio_disk_intr: the buffers of all completed requests, each once and in the order of
        completion. */
    method Intr() returns (cleared: seq<nat>)
      requires Valid()
      modifies this`busy, this`seenIdx, this`reqs, this`seen
      ensures Valid() && seen == |completed| && reqs.Keys == old(reqs).Keys
      ensures forall h | h in reqs :: reqs[h] == if old(reqs)[h].phase == Completed then old(reqs)[h].(phase := Done) else old(reqs)[h]
      ensures |cleared| == |completed| - old(seen)
      ensures forall k: nat | k < |cleared| :: completed[old(seen) + k] in old(reqs) && cleared[k] == old(reqs)[completed[old(seen) + k]].b
      ensures forall x :: x in busy <==> x in old(busy) && x !in cleared
    {
      hide CommandsOk, ReqsOk, FreeExact, FreeSet, DescsOf, AllFormatted, BusyOk, Rings;
      cleared := [];
      ghost var from := seen;
      IntrBound();
      while seenIdx != usedIdx
        invariant Valid() && from <= seen <= |completed| && reqs.Keys == old(reqs).Keys
        invariant forall h | h in reqs :: reqs[h] == if old(reqs)[h].phase == Completed && reqs[h].phase == Done then old(reqs)[h].(phase := Done) else old(reqs)[h]
        invariant |cleared| == seen - from
        invariant forall k: nat | k < |cleared| :: completed[from + k] in old(reqs) && cleared[k] == old(reqs)[completed[from + k]].b
        invariant forall x :: x in busy <==> x in old(busy) && x !in cleared
        decreases |completed| - seen
      {
        var b := IntrOne();
        cleared := cleared + [b];
      }
      IntrBound();
      NoneLeft(completed, seen, reqs);
    }

    lemma IntrBound()
      requires Rings() && ReqsOk(reqs) && FreeExact(free, reqs)
      ensures seen <= |completed| && (seenIdx == usedIdx ==> seen == |completed|)
      ensures Pending(completed, seen, reqs, Completed)
    {
      hide ReqsOk, FreeExact, RingHolds, Pending;
      FewRequests(free, reqs);
      PendingCount(completed, seen, reqs, Completed);
      SeenBound(completed, seen, reqs, Completed);
      IdxTells(seen, |completed|);
    }

    /** free_chain on the chain of a request: exactly its three descriptors. */
    method FreeChain(h: nat, ghost r: Req)
      requires |free| == NUM && |desc| == NUM && ReqOk(h, r) && Formatted(desc, h, r) && !free[h] && !free[r.i1] && !free[r.i2]
      modifies this`free, this`desc, this`waiters
      ensures free == old(free)[h := true][r.i1 := true][r.i2 := true] && desc == old(desc)[h := NoDesc][r.i1 := NoDesc][r.i2 := NoDesc]
      ensures waiters == {}
    {
      var i := h;
      ghost var k := 0;
      while true
        invariant 0 <= k <= 2 && i == (if k == 0 then h else if k == 1 then r.i1 else r.i2)
        invariant k == 0 ==> free == old(free) && desc == old(desc)
        invariant k == 1 ==> free == old(free)[h := true] && desc == old(desc)[h := NoDesc]
        invariant k == 2 ==> free == old(free)[h := true][r.i1 := true] && desc == old(desc)[h := NoDesc][r.i1 := NoDesc]
        decreases 2 - k
      {
        var flag, nxt := desc[i].hasNext, desc[i].next;
        FreeDesc(i);
        if flag {
          i := nxt;
          k := k + 1;
        } else {
          break;
        }
      }
    }

    /** The end of virtio_disk_rw, when b->disk is 0: the descriptors are free again. */
    method Finish(h: nat)
      requires Valid() && h in reqs && reqs[h].b !in busy
      modifies this
      ensures Valid() && reqs == old(reqs) - {h} && waiters == {} && busy == old(busy)
      ensures |FreeSet(free)| == |FreeSet(old(free))| + 3 && published == old(published) && completed == old(completed)
    {
      hide CommandsOk, ReqsOk, FreeExact, FreeSet, DescsOf, InPhase, RingHolds, Pending, AllFormatted, BusyOk, Formatted;
      SameCommands(ops, reqs, h, Done);
      Lengths(free, desc, info, reqs, used, completed, seen);
      NotFreeWhileOwned(free, reqs, h);
      IsDone(desc, info, busy, reqs, h);
      ghost var r := reqs[h];
      info := info[h := info[h].(b := 0)];
      FreeChain(h, r);
      RequestRemoved(old(free), free, reqs, h);
      RemovedFormatted(old(free), old(desc), desc, old(info), info, busy, reqs, h);
      RemovedPending(published, taken, completed, seen, reqs, h);
      ThreeMore(old(free), free, reqs, h);
      reqs := reqs - {h};
    }
  }

  lemma SeenBound(all: seq<nat>, from: nat, reqs: Reqs, phase: Phase)
    requires Pending(all, from, reqs, phase)
    ensures from <= |all|
  {
  }

  /** So few entries are unread that equal 16-bit indices mean none. */
  lemma IdxTells(from: nat, n: nat)
    requires from <= n <= from + 2
    ensures from % IDX == n % IDX ==> from == n
  {
  }

  lemma NextIdx(t: nat)
    ensures (t % IDX + 1) % IDX == (t + 1) % IDX && t % IDX % NUM == Place(t)
  {
    WrappedPlace(t);
  }

  /** The ring has room for one more entry: nothing unread is overwritten. */
  lemma NewEntry(free: seq<bool>, ring: seq<nat>, all: seq<nat>, from: nat, reqs: Reqs, h: nat, phase: Phase)
    requires ReqsOk(reqs) && FreeExact(free, reqs) && RingHolds(ring, all, from) && Pending(all + [h], from, reqs, phase)
    ensures RingHolds(ring[Place(|all|) := h], all + [h], from)
  {
    hide ReqsOk, FreeExact;
    FewRequests(free, reqs);
    PendingCount(all + [h], from, reqs, phase);
    RingAppend(ring, all, from, h);
  }

  lemma Lengths(free: seq<bool>, desc: seq<Desc>, info: seq<Info>, reqs: Reqs, ring: seq<nat>, all: seq<nat>, from: nat)
    requires FreeExact(free, reqs) && AllFormatted(desc, info, reqs) && RingHolds(ring, all, from)
    ensures |free| == |desc| == |info| == |ring| == NUM
  {
  }

  /** At most two requests are in flight. */
  lemma FewRequests(free: seq<bool>, reqs: Reqs)
    requires ReqsOk(reqs) && FreeExact(free, reqs)
    ensures |reqs| <= 2
  {
    DescriptorsAddUp(free, reqs);
  }

  lemma StillFormatted(free: seq<bool>, desc: seq<Desc>, desc': seq<Desc>, info: seq<Info>, reqs: Reqs)
    requires ReqsOk(reqs) && FreeExact(free, reqs) && AllFormatted(desc, info, reqs) && |desc'| == NUM
    requires forall i | 0 <= i < NUM && !free[i] :: desc'[i] == desc[i]
    ensures AllFormatted(desc', info, reqs)
  {
    forall h | h in reqs ensures Formatted(desc', h, reqs[h]) { NotFreeWhileOwned(free, reqs, h); }
  }

  lemma NewFormatted(free: seq<bool>, desc0: seq<Desc>, desc: seq<Desc>, desc': seq<Desc>, info: seq<Info>, reqs: Reqs, h: nat, r: Req)
    requires ReqsOk(reqs) && FreeExact(free, reqs) && AllFormatted(desc0, info, reqs) && ReqOk(h, r) && r.phase == Published
    requires |desc| == |desc'| == NUM && free[h] && free[r.i1] && free[r.i2] && h !in reqs
    requires forall i | 0 <= i < NUM && !free[i] :: desc[i] == desc0[i]
    requires Formatted(desc', h, r) && forall i | 0 <= i < NUM && i !in DescsOf(h, r) :: desc'[i] == desc[i]
    ensures AllFormatted(desc', info[h := Info(r.b, 0xff)], reqs[h := r])
  {
    hide ReqsOk, FreeExact;
    FreeLength(free, reqs);
    forall g | g in reqs ensures ReqOk(g, reqs[g]) && Formatted(desc', g, reqs[g]) {
      NotFreeWhileOwned(free, reqs, g);
      assert Formatted(desc0, g, reqs[g]);
    }
  }

  lemma NewCommand(ops: seq<Command>, reqs: Reqs, h: nat, r: Req)
    requires CommandsOk(ops, reqs) && h < NUM
    ensures |ops| == NUM && CommandsOk(ops[h := Command(r.write, SectorOf(r.blockno))], reqs[h := r])
  {
  }

  /** A command goes to the bytes of its block, and to none of another block. */
  lemma OwnSectors(ops: seq<Command>, reqs: Reqs, h: nat)
    requires CommandsOk(ops, reqs) && h in reqs && reqs[h].blockno < 0x8000_0000
    ensures h < |ops| && ops[h].sector * SECTOR == reqs[h].blockno * BSIZE
    ensures forall g | g in reqs && reqs[g].blockno < 0x8000_0000 && reqs[g].blockno != reqs[h].blockno ::
      g < |ops| && SectorsApart(ops[g].sector, ops[h].sector)
  {
    BlockStarts(reqs[h].blockno);
    forall g | g in reqs && reqs[g].blockno < 0x8000_0000 && reqs[g].blockno != reqs[h].blockno
      ensures g < |ops| && SectorsApart(ops[g].sector, ops[h].sector)
    {
      BlockStarts(reqs[g].blockno);
    }
  }

  lemma SameCommands(ops: seq<Command>, reqs: Reqs, h: nat, phase: Phase)
    requires CommandsOk(ops, reqs) && h in reqs
    ensures CommandsOk(ops, reqs[h := reqs[h].(phase := phase)]) && CommandsOk(ops, reqs - {h})
    ensures h < |ops| && ops[h] == Command(reqs[h].write, SectorOf(reqs[h].blockno))
  {
  }

  lemma FreeLength(free: seq<bool>, reqs: Reqs)
    requires FreeExact(free, reqs)
    ensures |free| == NUM
  {
  }

  lemma NewBusy(busy: set<nat>, reqs: Reqs, h: nat, r: Req)
    requires BusyOk(busy, reqs) && h !in reqs && r.phase == Published && forall g | g in reqs :: reqs[g].b != r.b
    ensures BusyOk(busy + {r.b}, reqs[h := r])
  {
  }

  lemma NewPending(published: seq<nat>, taken: nat, completed: seq<nat>, seen: nat, reqs: Reqs, h: nat, r: Req)
    requires Pending(published, taken, reqs, Published) && Pending(completed, seen, reqs, Completed) && h !in reqs && r.phase == Published
    ensures Pending(published + [h], taken, reqs[h := r], Published) && Pending(completed, seen, reqs[h := r], Completed)
  {
    PendingPush(published, taken, reqs, reqs[h := r], Published, h);
    PendingSame(completed, seen, reqs, reqs[h := r], Completed);
  }

  lemma ThreeMore(free: seq<bool>, free': seq<bool>, reqs: Reqs, h: nat)
    requires ReqsOk(reqs) && FreeExact(free, reqs) && h in reqs && ReqsOk(reqs - {h}) && FreeExact(free', reqs - {h})
    ensures |FreeSet(free')| == |FreeSet(free)| + 3
  {
    hide ReqsOk, FreeExact, FreeSet;
    DescriptorsAddUp(free, reqs);
    DescriptorsAddUp(free', reqs - {h});
    assert reqs.Keys == (reqs - {h}).Keys + {h};
  }

  /** The next unread entry of a ring. */
  lemma HeadAt(ring: seq<nat>, all: seq<nat>, from: nat, reqs: Reqs, phase: Phase)
    requires RingHolds(ring, all, from) && Pending(all, from, reqs, phase) && from < |all|
    ensures |ring| == NUM && ring[Place(from)] == all[from] && all[from] in reqs && reqs[all[from]].phase == phase
    ensures RingHolds(ring, all, from + 1)
  {
  }

  lemma FormattedAt(desc: seq<Desc>, info: seq<Info>, reqs: Reqs, h: nat)
    requires AllFormatted(desc, info, reqs) && h in reqs
    ensures |desc| == |info| == NUM && h < NUM && ReqOk(h, reqs[h]) && Formatted(desc, h, reqs[h]) && info[h].b == reqs[h].b
    ensures reqs[h].phase == Completed ==> info[h].status == 0
  {
  }

  lemma PhasePending(published: seq<nat>, taken: nat, completed: seq<nat>, seen: nat, reqs: Reqs, h: nat, phase: Phase)
    requires Pending(published, taken, reqs, Published) && Pending(completed, seen, reqs, Completed) && h in reqs
    requires match reqs[h].phase
      case Published => phase == Taken && taken < |published| && h == published[taken]
      case Taken => phase == Completed
      case Completed => phase == Done && seen < |completed| && h == completed[seen]
      case Done => false
    ensures var reqs' := reqs[h := reqs[h].(phase := phase)];
      match reqs[h].phase
      case Published => Pending(published, taken + 1, reqs', Published) && Pending(completed, seen, reqs', Completed)
      case Taken => Pending(published, taken, reqs', Published) && Pending(completed + [h], seen, reqs', Completed)
      case Completed => Pending(published, taken, reqs', Published) && Pending(completed, seen + 1, reqs', Completed)
      case Done => true
  {
    hide Pending;
    var reqs' := reqs[h := reqs[h].(phase := phase)];
    if phase == Taken {
      PendingPop(published, taken, reqs, reqs', Published);
      PendingSame(completed, seen, reqs, reqs', Completed);
    } else if phase == Completed {
      PendingSame(published, taken, reqs, reqs', Published);
      PendingPush(completed, seen, reqs, reqs', Completed, h);
    } else {
      PendingSame(published, taken, reqs, reqs', Published);
      PendingPop(completed, seen, reqs, reqs', Completed);
    }
  }

  lemma PhaseFormatted(desc: seq<Desc>, info: seq<Info>, busy: set<nat>, reqs: Reqs, h: nat, phase: Phase)
    requires AllFormatted(desc, info, reqs) && BusyOk(busy, reqs) && h in reqs && reqs[h].phase == Published && phase == Taken
    ensures var reqs' := reqs[h := reqs[h].(phase := phase)];
      AllFormatted(desc, info, reqs') && BusyOk(busy, reqs')
  {
  }

  /** What the device writes keeps descriptors, headers and owners in order. */
  lemma CompletedTables(free: seq<bool>, desc: seq<Desc>, info: seq<Info>, ops: seq<Command>, busy: set<nat>, reqs: Reqs, h: nat)
    requires ReqsOk(reqs) && FreeExact(free, reqs) && AllFormatted(desc, info, reqs) && BusyOk(busy, reqs) && CommandsOk(ops, reqs)
    requires h in reqs && reqs[h].phase == Taken
    ensures h < |info|
    ensures var reqs' := reqs[h := reqs[h].(phase := Completed)];
      && ReqsOk(reqs') && FreeExact(free, reqs') && AllFormatted(desc, info[h := info[h].(status := 0)], reqs')
      && BusyOk(busy, reqs') && CommandsOk(ops, reqs')
  {
    hide ReqsOk, FreeExact, BusyOk, CommandsOk, Formatted;
    FormattedAt(desc, info, reqs, h);
    PhaseKeeps(free, reqs, h, Completed);
    SameCommands(ops, reqs, h, Completed);
    CompletedFormatted(desc, info, busy, reqs, h);
  }

  /** The used ring has room for its entry. */
  lemma CompletedRings(free: seq<bool>, published: seq<nat>, taken: nat, used: seq<nat>, completed: seq<nat>, seen: nat, reqs: Reqs, h: nat)
    requires ReqsOk(reqs) && FreeExact(free, reqs) && RingHolds(used, completed, seen)
    requires Pending(published, taken, reqs, Published) && Pending(completed, seen, reqs, Completed) && h in reqs && reqs[h].phase == Taken
    ensures |used| == NUM && |completed| % IDX % NUM < NUM && (|completed| % IDX + 1) % IDX == (|completed| + 1) % IDX
    ensures var reqs' := reqs[h := reqs[h].(phase := Completed)];
      && RingHolds(used[|completed| % IDX % NUM := h], completed + [h], seen)
      && Pending(published, taken, reqs', Published) && Pending(completed + [h], seen, reqs', Completed)
  {
    hide ReqsOk, FreeExact, Pending, Place;
    PhaseKeeps(free, reqs, h, Completed);
    PhasePending(published, taken, completed, seen, reqs, h, Completed);
    NewEntry(free, used, completed, seen, reqs[h := reqs[h].(phase := Completed)], h, Completed);
    NextIdx(|completed|);
  }

  lemma CompletedFormatted(desc: seq<Desc>, info: seq<Info>, busy: set<nat>, reqs: Reqs, h: nat)
    requires AllFormatted(desc, info, reqs) && BusyOk(busy, reqs) && h in reqs && reqs[h].phase == Taken && h < NUM
    ensures var reqs' := reqs[h := reqs[h].(phase := Completed)];
      AllFormatted(desc, info[h := info[h].(status := 0)], reqs') && BusyOk(busy, reqs')
  {
  }

  lemma DoneFormatted(desc: seq<Desc>, info: seq<Info>, busy: set<nat>, reqs: Reqs, h: nat)
    requires AllFormatted(desc, info, reqs) && BusyOk(busy, reqs) && ReqsOk(reqs) && h in reqs && reqs[h].phase == Completed
    ensures var reqs' := reqs[h := reqs[h].(phase := Done)];
      AllFormatted(desc, info, reqs') && BusyOk(busy - {reqs[h].b}, reqs') && reqs[h].b in busy
  {
    hide DescsOf;
    forall g | g in reqs && g != h ensures reqs[g].b != reqs[h].b { }
  }

  /** The counters of the used ring differ exactly when there is an entry to see. */
  lemma Unread(free: seq<bool>, reqs: Reqs, completed: seq<nat>, seen: nat)
    requires ReqsOk(reqs) && FreeExact(free, reqs) && Pending(completed, seen, reqs, Completed) && seen % IDX != |completed| % IDX
    ensures seen < |completed|
  {
  }

  lemma NoneLeft(completed: seq<nat>, seen: nat, reqs: Reqs)
    requires Pending(completed, seen, reqs, Completed) && seen == |completed|
    ensures forall h | h in reqs :: reqs[h].phase != Completed
  {
  }

  lemma IsDone(desc: seq<Desc>, info: seq<Info>, busy: set<nat>, reqs: Reqs, h: nat)
    requires BusyOk(busy, reqs) && h in reqs && reqs[h].b !in busy && AllFormatted(desc, info, reqs)
    ensures reqs[h].phase == Done && ReqOk(h, reqs[h]) && Formatted(desc, h, reqs[h])
  {
  }

  lemma RemovedFormatted(free: seq<bool>, desc0: seq<Desc>, desc: seq<Desc>, info0: seq<Info>, info: seq<Info>, busy: set<nat>, reqs: Reqs, h: nat)
    requires ReqsOk(reqs) && FreeExact(free, reqs) && AllFormatted(desc0, info0, reqs) && BusyOk(busy, reqs) && h in reqs && ReqOk(h, reqs[h])
    requires desc == desc0[h := NoDesc][reqs[h].i1 := NoDesc][reqs[h].i2 := NoDesc] && info == info0[h := info0[h].(b := 0)]
    ensures AllFormatted(desc, info, reqs - {h}) && BusyOk(busy, reqs - {h})
  {
    hide FreeExact;
    forall g | g in reqs - {h} ensures ReqOk(g, reqs[g]) && Formatted(desc, g, reqs[g]) && info[g].b == reqs[g].b {
      assert DescsOf(g, reqs[g]) !! DescsOf(h, reqs[h]);
      assert g in DescsOf(g, reqs[g]) && reqs[g].i1 in DescsOf(g, reqs[g]) && reqs[g].i2 in DescsOf(g, reqs[g]);
      assert h in DescsOf(h, reqs[h]) && reqs[h].i1 in DescsOf(h, reqs[h]) && reqs[h].i2 in DescsOf(h, reqs[h]);
      assert Formatted(desc0, g, reqs[g]);
    }
  }

  lemma RemovedPending(published: seq<nat>, taken: nat, completed: seq<nat>, seen: nat, reqs: Reqs, h: nat)
    requires Pending(published, taken, reqs, Published) && Pending(completed, seen, reqs, Completed) && h in reqs && reqs[h].phase == Done
    ensures Pending(published, taken, reqs - {h}, Published) && Pending(completed, seen, reqs - {h}, Completed)
  {
    PendingSame(published, taken, reqs, reqs - {h}, Published);
    PendingSame(completed, seen, reqs, reqs - {h}, Completed);
  }
}
