/** The two panics of a full log are reached: three operations log ten blocks each. */
module RedoLogFull {
  import opened Bytes
  import opened BufferCache
  import opened Counting
  import opened RedoLog
  import opened RedoLogProof
  import opened RedoLogTheorems
  import opened RedoLogCode
  import opened Runs

  // ---------------------------------------------------------------------------
  // bread and brelse as steps
  // ---------------------------------------------------------------------------

  /** trace goes on as tr. */
  ghost predicate Extends(trace: Trace, tr: Trace) { tr == trace.(steps := tr.steps) }

  lemma Open(trace: Trace, s: State, a: Spec, p: Pid, b: nat) returns (tr: Trace, i: nat, t: State)
    requires Reached(trace, s, a) && WfShape(s) && b < s.lay.size && Get(s.cache, DEV, b).Got?
    requires forall j | 0 <= j < NBUF && Matches(s.cache.bufs[j], DEV, b) :: s.users[j] == {}
    ensures Extends(trace, tr) && Reached(tr, t, a) && i < NBUF && Opened(s, p, b, i, t)
  {
    hide Reached, WfShape, Get, Settled;
    ReachedBufs(trace, s, a);
    var c := Get(s.cache, DEV, b).cache;
    i := Get(s.cache, DEV, b).i;
    GotFetched(s, b);
    FetchedOpened(s, p, b, i, c, s);
    BgetStep(trace, s, a, p, b, i, c);
    tr := trace.Then(Bget(p, b));
    t := s.(cache := c, users := s.users[i := s.users[i] + {p}]);
    tr, t := OpenLocked(tr, t, a, p, i);
    FetchedOpened(s, p, b, i, c, t);
  }

  lemma GotFetched(s: State, b: nat)
    requires WfShape(s) && Counted(s.cache.bufs, s.users, Pins(s.lh, s.phase), |s.disk|) && Get(s.cache, DEV, b).Got?
    requires forall j | 0 <= j < NBUF && Matches(s.cache.bufs[j], DEV, b) :: s.users[j] == {}
    ensures var g := Get(s.cache, DEV, b); Fetched(s.cache, DEV, b, g.i, g.cache) && s.users[g.i] == {}
    ensures |s.disk| == s.lay.size
  {
    var i := Get(s.cache, DEV, b).i;
    assert BufCounted(s.cache.bufs[i], s.users[i], Pins(s.lh, s.phase), |s.disk|);
  }

  /** acquiresleep, and the transfer if it is needed. */
  lemma OpenLocked(trace: Trace, s: State, a: Spec, p: Pid, i: nat) returns (tr: Trace, t: State)
    requires Reached(trace, s, a) && i < NBUF == |s.users| && p in s.users[i]
    requires i < |s.cache.bufs| && s.cache.bufs[i].lock.None? && s.cache.bufs[i].blockno < |s.disk|
    ensures Extends(trace, tr) && Reached(tr, t, a)
    ensures t == s.(cache := SetBuf(s.cache, i, Settled(s.cache.bufs[i], p, s.disk[s.cache.bufs[i].blockno])))
  {
    hide Reached;
    ReachedBufs(trace, s, a);
    t := s.(cache := SetBuf(s.cache, i, s.cache.bufs[i].(lock := Some(p))));
    CacheStep(trace, s, a, Lock(p, i), t);
    tr := trace.Then(Lock(p, i));
    if !t.cache.bufs[i].valid {
      ReachedBufs(tr, t, a);
      var u := t.(cache := SetBuf(t.cache, i, t.cache.bufs[i].(valid := true, data := t.disk[t.cache.bufs[i].blockno])));
      CacheStep(tr, t, a, Fill(p, i), u);
      tr, t := tr.Then(Fill(p, i)), u;
    }
  }

  lemma Close(trace: Trace, s: State, a: Spec, p: Pid, i: nat) returns (tr: Trace, t: State)
    requires Reached(trace, s, a) && i < NBUF == |s.users| && i < |s.cache.bufs| && s.cache.bufs[i].lock == Some(p)
    ensures Extends(trace, tr) && Reached(tr, t, a) && Closed(s, p, i, t)
  {
    hide Reached;
    ReachedBufs(trace, s, a);
    assert BufCounted(s.cache.bufs[i], s.users[i], Pins(s.lh, s.phase), |s.disk|);
    t := s.(cache := SetBuf(s.cache, i, s.cache.bufs[i].(lock := None)));
    CacheStep(trace, s, a, Unlock(p, i), t);
    tr := trace.Then(Unlock(p, i));
    ReachedBufs(tr, t, a);
    var u := t.(cache := Unref(t.cache, i), users := t.users[i := t.users[i] - {p}]);
    CacheStep(tr, t, a, Drop(p, i), u);
    tr, t := tr.Then(Drop(p, i)), u;
  }

  lemma QuietUses(s: State, p: Pid)
    requires Quiet(s) && |s.users| == |s.cache.bufs|
    ensures Uses(s, p, {}, {})
  {
    forall i | 0 <= i < |s.users| ensures UsesBuf(s, p, {}, {}, i) { }
  }

  lemma UsesQuiet(s: State, p: Pid)
    requires Uses(s, p, {}, {})
    ensures Quiet(s)
  {
    forall i | 0 <= i < |s.users| ensures s.users[i] == {} { assert UsesBuf(s, p, {}, {}, i); }
  }

  // ---------------------------------------------------------------------------
  // Recovery from any disk
  // ---------------------------------------------------------------------------

  /** Nothing but buffers, the log in memory and the disk has changed since the boot. */
  ghost predicate Booting(s: State, lay: Layout) {
    s.lay == lay && s.outstanding == 0 && s.ops == map[] && s.sleepers == {} && Quiet(s) && |s.users| == NBUF == |s.cache.bufs|
  }

  lemma OpenHead(trace: Trace, s: State, a: Spec) returns (tr: Trace, i: nat, t: State)
    requires Reached(trace, s, a) && Booting(s, s.lay) && Pins(s.lh, s.phase) == []
    ensures Extends(trace, tr) && Reached(tr, t, a) && i < NBUF && Opened(s, 0, s.lay.start, i, t) && s.users[i] == {}
  {
    hide Reached, Get, WfShape;
    ReachedBufs(trace, s, a);
    LogStart(s);
    QuietUses(s, 0);
    ReachedAlone(trace, s, a, 0);
    ReachedFirst(trace, s, a, 0, s.lay.start, {});
    tr, i, t := Open(trace, s, a, 0, s.lay.start);
  }

  lemma LogStart(s: State)
    requires WfShape(s)
    ensures !s.lay.Home(s.lay.start) && s.lay.start < s.lay.size
  {
  }

  lemma ClosedQuiet(s: State, p: Pid, i: nat, t: State)
    requires Closed(s, p, i, t) && s.users[i] == {p} && forall j | 0 <= j < |s.users| && j != i :: s.users[j] == {}
    ensures Quiet(t)
  {
  }

  lemma ReadsHead(lay: Layout, disk: seq<Block>, d: seq<Block>) returns (tr: Trace, t: State)
    requires WfDisk(lay, disk) && Survives(lay, disk, d)
    ensures Extends(Trace(lay, disk, d, []), tr) && Reached(tr, t, Spec(d, d, {}))
    ensures Booting(t, lay) && t.phase == Install(0, 0, true)
  {
    hide Reached;
    var trace, s, a := Trace(lay, disk, d, []), Rebooted(lay, disk), Spec(d, d, {});
    assert Reached(trace, s, a) by { StartReached(lay, disk, d); }
    var i;
    tr, i, t := OpenHead(trace, s, a);
    ReadHeadStep(tr, t, a, 0, i);
    var u := t.(lh := HeaderOf(t.cache.bufs[i].data), phase := Install(0, 0, true));
    tr := tr.Then(ReadHead(0, i));
    tr, t := Close(tr, u, a, 0, i);
    ClosedQuiet(u, 0, i, t);
  }

  lemma StartReached(lay: Layout, disk: seq<Block>, d: seq<Block>)
    requires WfDisk(lay, disk) && Survives(lay, disk, d)
    ensures Reached(Trace(lay, disk, d, []), Rebooted(lay, disk), Spec(d, d, {}))
  {
    assert ReachedFrom(Trace(lay, disk, d, []), Rebooted(lay, disk), Spec(d, d, {}), Rebooted(lay, disk), Spec(d, d, {}));
  }

  /** One turn of install_trans at recovery. */
  lemma Installs(trace: Trace, s: State, a: Spec, n: nat) returns (tr: Trace, t: State)
    requires Reached(trace, s, a) && Booting(s, s.lay) && s.phase == Install(0, n, true) && n < |s.lh|
    ensures Extends(trace, tr) && Reached(tr, t, a)
    ensures Booting(t, s.lay) && t.phase == Install(0, n + 1, true) && t.lh == s.lh
  {
    hide Reached, Get, WfShape, AfterInstall;
    ReachedBufs(trace, s, a);
    QuietUses(s, 0);
    EntryBlocks(s, n);
    ReachedAlone(trace, s, a, 0);
    ReachedFirst(trace, s, a, 0, s.lay.start + 1 + n, {});
    var i, j;
    tr, i, t := Open(trace, s, a, 0, s.lay.start + 1 + n);
    OpenedUses(s, 0, s.lay.start + 1 + n, i, t, {}, {});
    assert {} + {i} == {i};
    ReachedSecond(tr, t, a, 0, s.lh[n], i, {});
    NobodyUses(t, 0, {i}, {}, s.lh[n]);
    var u;
    tr, j, u := Open(tr, t, a, 0, s.lh[n]);
    OpenedUses(t, 0, s.lh[n], j, u, {i}, {});
    tr, t := InstallsHeld(tr, u, a, n, i, j);
  }

  lemma EntryBlocks(s: State, n: nat)
    requires WfShape(s) && n < |s.lh|
    ensures s.lay.start + 1 + n < s.lay.size && !s.lay.Home(s.lay.start + 1 + n) && s.lay.Home(s.lh[n]) && s.lh[n] < s.lay.size
    ensures s.lay.start + 1 + n != s.lh[n]
  {
  }

  lemma InstallsHeld(trace: Trace, s: State, a: Spec, n: nat, i: nat, j: nat) returns (tr: Trace, t: State)
    requires Reached(trace, s, a) && s.phase == Install(0, n, true) && n < |s.lh| && i != j && Uses(s, 0, {i} + {j}, {})
    requires Holds(s, 0, i, s.lay.start + 1 + n) && Holds(s, 0, j, s.lh[n]) && |s.users| == |s.cache.bufs| == NBUF
    ensures Extends(trace, tr) && Reached(tr, t, a) && Quiet(t) && |t.users| == |t.cache.bufs| == NBUF
    ensures t == s.(cache := t.cache, users := t.users, disk := t.disk, phase := Install(0, n + 1, true))
  {
    hide Reached;
    InstallStep(trace, s, a, 0, i, j);
    var u := AfterInstall(s, 0, i, j);
    tr := trace.Then(InstallBlock(0, i, j));
    UsesKept(s, 0, {i} + {j}, {}, u);
    var v;
    tr, v := Close(tr, u, a, 0, i);
    ClosedUses(u, 0, i, v, {i} + {j}, {});
    tr, t := Close(tr, v, a, 0, j);
    ClosedUses(v, 0, j, t, {i} + {j} - {i}, {});
    assert {i} + {j} - {i} - {j} == {};
    UsesQuiet(t, 0);
  }

  lemma {:induction false} InstallsAll(trace: Trace, s: State, a: Spec, n: nat) returns (tr: Trace, t: State)
    requires Reached(trace, s, a) && Booting(s, s.lay) && s.phase == Install(0, n, true) && n <= |s.lh|
    ensures Extends(trace, tr) && Reached(tr, t, a)
    ensures Booting(t, s.lay) && t.phase == Install(0, |t.lh|, true)
    decreases |s.lh| - n
  {
    tr, t := trace, s;
    if n < |s.lh| {
      tr, t := Installs(trace, s, a, n);
      tr, t := InstallsAll(tr, t, a, n + 1);
    }
  }

  /** initlog from any disk. */
  lemma BootsUp(lay: Layout, disk: seq<Block>, d: seq<Block>) returns (tr: Trace, t: State)
    requires WfDisk(lay, disk) && Survives(lay, disk, d)
    ensures Extends(Trace(lay, disk, d, []), tr) && Reached(tr, t, Spec(d, d, {}))
    ensures Booting(t, lay) && t.phase == Idle && t.lh == []
  {
    hide Reached;
    var a := Spec(d, d, {});
    tr, t := ReadsHead(lay, disk, d);
    tr, t := InstallsAll(tr, t, a, 0);
    EraseStep(tr, t, a, 0);
    tr, t := tr.Then(EraseHead(0)), t.(lh := [], phase := Clear(0, true));
    var i;
    tr, i, t := OpenHead(tr, t, a);
    HeadStep(tr, t, a, 0, i);
    var u := HeadWritten(t, i);
    tr := tr.Then(WriteEmptyHead(0, i));
    tr, t := Close(tr, u, a, 0, i);
    ClosedQuiet(u, 0, i, t);
  }

  // ---------------------------------------------------------------------------
  // Three operations fill the log
  // ---------------------------------------------------------------------------

  /** How many of n entries process p has logged, when each takes ten. */
  function Share(n: nat, p: nat): nat {
    if n <= p * MAXOPBLOCKS then 0 else if n <= (p + 1) * MAXOPBLOCKS then n - p * MAXOPBLOCKS else MAXOPBLOCKS
  }

  function Shares(n: nat): map<Pid, nat> { map[0 := Share(n, 0), 1 := Share(n, 1), 2 := Share(n, 2)] }

  /** Operations 0, 1 and 2 are under way and have logged these blocks. */
  ghost predicate Filling(s: State, lay: Layout, blocks: seq<nat>) {
    && s.lay == lay && s.phase == Idle && s.outstanding == 3 && s.ops == Shares(|blocks|) && s.lh == blocks
    && Quiet(s) && |s.users| == NBUF == |s.cache.bufs|
  }

  lemma Begins(trace: Trace, s: State, a: Spec) returns (tr: Trace, t: State, c: Spec)
    requires Reached(trace, s, a) && Booting(s, s.lay) && s.phase == Idle && s.lh == []
    ensures Extends(trace, tr) && Reached(tr, t, c) && Filling(t, s.lay, [])
  {
    hide Reached;
    tr, t, c := trace, s, a;
    BeginStep(tr, t, c, 0);
    tr, t, c := tr.Then(BeginOp(0)), t.(outstanding := 1, ops := map[0 := 0]), c.(active := c.active + {0});
    BeginStep(tr, t, c, 1);
    tr, t, c := tr.Then(BeginOp(1)), t.(outstanding := 2, ops := t.ops[1 := 0]), c.(active := c.active + {1});
    BeginStep(tr, t, c, 2);
    tr, t, c := tr.Then(BeginOp(2)), t.(outstanding := 3, ops := t.ops[2 := 0]), c.(active := c.active + {2});
  }

  /** bread, log_write and brelse of a block that is not in the log yet. */
  lemma LogsOne(trace: Trace, s: State, a: Spec, p: Pid, b: nat, data: Block) returns (tr: Trace, t: State, c: Spec)
    requires Reached(trace, s, a) && Quiet(s) && |s.users| == NBUF == |s.cache.bufs| && s.phase == Idle
    requires p in s.ops && s.ops[p] < MAXOPBLOCKS && s.lay.Home(b) && b !in s.lh
    ensures Extends(trace, tr) && Reached(tr, t, c) && Quiet(t) && |t.users| == NBUF == |t.cache.bufs|
    ensures t == s.(cache := t.cache, users := t.users, lh := s.lh + [b], ops := s.ops[p := s.ops[p] + 1])
  {
    hide Reached, Get, WfShape;
    ReachedBufs(trace, s, a);
    RoomFor(trace, s, a, p, b);
    var i, v;
    tr, i, v := Open(trace, s, a, p, b);
    LogWriteStep(tr, v, a, p, i, data);
    var u := AfterLogWrite(v, p, i, data);
    tr, c := tr.Then(LogWrite(p, i, data)), a.(current := a.current[b := data]);
    tr, t := Close(tr, u, c, p, i);
    ClosedQuiet(u, p, i, t);
  }

  lemma RoomFor(trace: Trace, s: State, a: Spec, p: Pid, b: nat)
    requires Reached(trace, s, a) && WfShape(s) && Quiet(s) && s.phase == Idle && p in s.ops && s.ops[p] < MAXOPBLOCKS
    ensures !LogWritePanics(s) && Get(s.cache, DEV, b).Got?
  {
    hide Reached;
    ReachedIsRun(trace, s, a);
    AppendNeverPanics(trace.lay, trace.disk, trace.d, trace.steps, s, p);
    ReachedSim(trace, s, a);
    SpareIff(s);
  }

  lemma {:induction false} Fills(trace: Trace, s: State, a: Spec, blocks: seq<nat>) returns (tr: Trace, t: State, c: Spec)
    requires Reached(trace, s, a) && Filling(s, s.lay, []) && |blocks| <= LOGSIZE
    requires Distinct(blocks) && forall k | 0 <= k < |blocks| :: s.lay.Home(blocks[k])
    ensures Extends(trace, tr) && Reached(tr, t, c) && Filling(t, s.lay, blocks)
    decreases |blocks|
  {
    hide Reached;
    tr, t, c := trace, s, a;
    if blocks != [] {
      var n := |blocks| - 1;
      tr, t, c := Fills(trace, s, a, Front(blocks));
      var m := t;
      tr, t, c := LogsOne(tr, m, c, n / MAXOPBLOCKS, Last(blocks), ZeroBlock());
      assert blocks == Front(blocks) + [Last(blocks)];
      assert Shares(n + 1) == Shares(n)[n / MAXOPBLOCKS := Shares(n)[n / MAXOPBLOCKS] + 1];
    }
  }

  lemma FillsUp(lay: Layout, disk: seq<Block>, d: seq<Block>, blocks: seq<nat>) returns (tr: Trace, t: State, c: Spec)
    requires WfDisk(lay, disk) && Survives(lay, disk, d)
    requires |blocks| == LOGSIZE && Distinct(blocks) && forall k | 0 <= k < LOGSIZE :: lay.Home(blocks[k])
    ensures Extends(Trace(lay, disk, d, []), tr) && Reached(tr, t, c) && Filling(t, lay, blocks)
  {
    hide Reached;
    tr, t := BootsUp(lay, disk, d);
    tr, t, c := Begins(tr, t, Spec(d, d, {}));
    tr, t, c := Fills(tr, t, c, blocks);
  }

  // ---------------------------------------------------------------------------
  // What then goes wrong
  // ---------------------------------------------------------------------------

  /** From any disk with enough home blocks there is a run that fills the log. */
  lemma LogFills(lay: Layout, disk: seq<Block>, d: seq<Block>, blocks: seq<nat>) returns (steps: seq<Step>, t: State)
    requires WfDisk(lay, disk) && Survives(lay, disk, d)
    requires |blocks| == LOGSIZE && Distinct(blocks) && forall k | 0 <= k < LOGSIZE :: lay.Home(blocks[k])
    ensures Reaches(lay, disk, d, steps, t) && t.lh == blocks && t.ops.Keys == {0, 1, 2}
  {
    hide Reached;
    var tr, c;
    tr, t, c := FillsUp(lay, disk, d, blocks);
    ReachedIsRun(tr, t, c);
    steps := tr.steps;
  }

  /** There an operation can hold a block that is in the log already and still panic in log_write. */
  lemma AbsorbedWriteCanPanic(lay: Layout, disk: seq<Block>, d: seq<Block>, blocks: seq<nat>) returns (steps: seq<Step>, t: State, i: nat)
    requires WfDisk(lay, disk) && Survives(lay, disk, d)
    requires |blocks| == LOGSIZE && Distinct(blocks) && forall k | 0 <= k < LOGSIZE :: lay.Home(blocks[k])
    ensures Reaches(lay, disk, d, steps, t) && 0 in t.ops && Holds(t, 0, i, blocks[0]) && blocks[0] in t.lh && LogWritePanics(t)
  {
    hide Reached, Get, WfShape;
    var tr, s, c := FillsUp(lay, disk, d, blocks);
    ReachedBufs(tr, s, c);
    assert Get(s.cache, DEV, blocks[0]).Got? by { PinnedIsCached(tr, s, c, blocks[0]); }
    tr, i, t := Open(tr, s, c, 0, blocks[0]);
    ReachedIsRun(tr, t, c);
    steps := tr.steps;
  }

  lemma PinnedIsCached(trace: Trace, s: State, a: Spec, b: nat)
    requires Reached(trace, s, a) && s.phase == Idle && b in s.lh
    ensures WfShape(s) && Get(s.cache, DEV, b).Got?
  {
    ReachedSim(trace, s, a);
    assert HasValid(s.cache.bufs, b);
  }

  /** And the commit finds no buffer for the first block of the log. */
  lemma CommitCanPanic(lay: Layout, disk: seq<Block>, d: seq<Block>, blocks: seq<nat>) returns (steps: seq<Step>, t: State)
    requires WfDisk(lay, disk) && Survives(lay, disk, d)
    requires |blocks| == LOGSIZE && Distinct(blocks) && forall k | 0 <= k < LOGSIZE :: lay.Home(blocks[k])
    ensures Reaches(lay, disk, d, steps, t) && t.phase == WriteLog(2, 0) && Quiet(t) && WfCache(t.cache)
    ensures Get(t.cache, DEV, lay.start + 1).NoBuffers?
  {
    hide Reached, Get;
    var tr, s, c := FillsUp(lay, disk, d, blocks);
    EndStep(tr, s, c, 0);
    tr, s, c := tr.Then(EndOp(0)), Ended(s, 0), c.(active := c.active - {0});
    EndStep(tr, s, c, 1);
    tr, s, c := tr.Then(EndOp(1)), Ended(s, 1), c.(active := c.active - {1});
    EndStep(tr, s, c, 2);
    tr, t, c := tr.Then(EndOp(2)), Ended(s, 2), c.(active := c.active - {2});
    ReachedSim(tr, t, c);
    LogBufferAvailableIff(t, lay.start + 1);
    ReachedIsRun(tr, t, c);
    steps := tr.steps;
  }
}
