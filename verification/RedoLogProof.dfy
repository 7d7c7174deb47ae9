/** Every step of the redo log is a step of the transaction specification. */
module RedoLogProof {
  import opened Bytes
  import opened BufferCache
  import opened Counting
  import opened RedoLog

  // ---------------------------------------------------------------------------
  // The invariant
  // ---------------------------------------------------------------------------

  /** The log entries whose buffers are still pinned. */
  ghost function Pins(lh: seq<nat>, phase: Phase): seq<nat> {
    if phase.Install? && phase.tail <= |lh| then (if phase.recovering then [] else lh[phase.tail..]) else lh
  }

  ghost predicate Mine(b: Buf) { b.dev == DEV }

  /** No block is cached twice. */
  ghost predicate Unique(bufs: seq<Buf>) {
    forall i, j | 0 <= i < j < |bufs| && Mine(bufs[i]) && Mine(bufs[j]) :: bufs[i].blockno != bufs[j].blockno
  }

  /** The reference count is exact: one for every user, one more while the log pins the buffer. */
  ghost predicate BufCounted(b: Buf, users: set<Pid>, pins: seq<nat>, size: nat) {
    && b.refcnt == |users| + (if Mine(b) && b.blockno in pins then 1 else 0)
    && (b.lock.Some? ==> b.lock.value in users)
    && (Mine(b) ==> b.blockno < size)
    && (!Mine(b) ==> users == {} && !b.valid)
  }

  ghost predicate Counted(bufs: seq<Buf>, users: seq<set<Pid>>, pins: seq<nat>, size: nat) {
    && |bufs| == |users|
    && forall i | 0 <= i < |bufs| :: BufCounted(bufs[i], users[i], pins, size)
  }

  /** A buffer that differs from its block on disk is pinned. */
  ghost predicate BufCoherent(b: Buf, pins: seq<nat>, disk: seq<Block>) {
    b.valid && b.blockno !in pins ==> b.blockno < |disk| && b.data == disk[b.blockno]
  }

  ghost predicate Coherent(bufs: seq<Buf>, pins: seq<nat>, disk: seq<Block>) {
    forall i | 0 <= i < |bufs| :: BufCoherent(bufs[i], pins, disk)
  }

  ghost predicate HasValid(bufs: seq<Buf>, b: nat) {
    exists i :: 0 <= i < |bufs| && Matches(bufs[i], DEV, b) && bufs[i].valid
  }

  /** Every pinned block is in the cache. */
  ghost predicate PinsCached(bufs: seq<Buf>, pins: seq<nat>) {
    forall k | 0 <= k < |pins| :: HasValid(bufs, pins[k])
  }

  ghost predicate CacheOk(c: Cache, users: seq<set<Pid>>, pins: seq<nat>, disk: seq<Block>) {
    && WfCache(c)
    && Unique(c.bufs)
    && Counted(c.bufs, users, pins, |disk|)
    && Coherent(c.bufs, pins, disk)
    && PinsCached(c.bufs, pins)
  }

  /** The first n blocks of the on-disk log are at their home locations. */
  ghost predicate Installed(lay: Layout, disk: seq<Block>, h: seq<nat>, n: nat)
    requires WfDisk(lay, disk) && n <= |h| && WfEntries(lay, h)
  {
    forall k | 0 <= k < n :: disk[h[k]] == disk[lay.start + 1 + k]
  }

  ghost function OnDisk(lay: Layout, disk: seq<Block>): seq<nat>
    requires WfDisk(lay, disk)
  {
    HeaderOf(disk[lay.start])
  }

  ghost predicate PhaseOk(lay: Layout, disk: seq<Block>, lh: seq<nat>, phase: Phase)
    requires WfDisk(lay, disk) && WfEntries(lay, lh)
  {
    match phase
    case Boot => lh == []
    case Idle => OnDisk(lay, disk) == []
    case WriteLog(_, t) => OnDisk(lay, disk) == [] && t <= |lh|
    case Install(_, t, _) => OnDisk(lay, disk) == lh && t <= |lh| && Installed(lay, disk, lh, t)
    case Clear(_, _) => lh == [] && Installed(lay, disk, OnDisk(lay, disk), |OnDisk(lay, disk)|)
    case Finishing(_) => lh == [] && OnDisk(lay, disk) == []
  }

  /** Log space reserved by the operations under way and not yet used. */
  ghost function Reserved(m: map<Pid, nat>): int
    decreases |m|
  {
    if |m| == 0 then 0
    else var p :| p in m; MAXOPBLOCKS - m[p] + Reserved(m - {p})
  }

  ghost predicate Admission(lh: seq<nat>, outstanding: nat, ops: map<Pid, nat>, sleepers: set<Pid>, phase: Phase) {
    && outstanding == |ops|
    && (forall p | p in ops :: ops[p] <= MAXOPBLOCKS)
    && (ops != map[] ==> phase.Idle?)
    && (phase.Idle? && ops == map[] ==> lh == [])
    && (phase.Idle? ==> |lh| + Reserved(ops) <= LOGSIZE)
    && (sleepers != {} ==> outstanding > 0 || Committing(phase))
  }

  ghost predicate Inv(s: State) {
    && WfShape(s)
    && CacheOk(s.cache, s.users, Pins(s.lh, s.phase), s.disk)
    && PhaseOk(s.lay, s.disk, s.lh, s.phase)
    && Admission(s.lh, s.outstanding, s.ops, s.sleepers, s.phase)
  }

  // ---------------------------------------------------------------------------
  // The relation to the specification
  // ---------------------------------------------------------------------------

  /** `d` is what recovery would make of the home blocks: a listed block comes from
      the log, any other from its own place. */
  ghost predicate Survives(lay: Layout, disk: seq<Block>, d: seq<Block>)
    requires WfDisk(lay, disk)
  {
    var h := OnDisk(lay, disk);
    && |d| == lay.size
    && (forall k | 0 <= k < |h| :: d[h[k]] == disk[lay.start + 1 + k])
    && (forall b: nat | lay.Home(b) && b !in h :: d[b] == disk[b])
  }

  /** `c` is what the holder of a buffer reads in it. */
  ghost predicate Shows(lay: Layout, bufs: seq<Buf>, c: seq<Block>)
    requires |c| == lay.size
  {
    forall i | 0 <= i < |bufs| && bufs[i].valid && lay.Home(bufs[i].blockno) :: bufs[i].data == c[bufs[i].blockno]
  }

  /** Blocks that are not pinned are on disk as the file system sees them. */
  ghost predicate UnpinnedOnDisk(lay: Layout, pins: seq<nat>, disk: seq<Block>, c: seq<Block>)
    requires |c| == |disk| == lay.size
  {
    forall b: nat | lay.Home(b) && b !in pins :: c[b] == disk[b]
  }

  /** The first blocks of the transaction are in the on-disk log. */
  ghost predicate Copied(lay: Layout, disk: seq<Block>, lh: seq<nat>, n: nat, c: seq<Block>)
    requires lay.Wf() && WfEntries(lay, lh) && |c| == |disk| == lay.size
  {
    forall k | 0 <= k < n && k < |lh| :: disk[lay.start + 1 + k] == c[lh[k]]
  }

  ghost predicate SameHome(lay: Layout, c: seq<Block>, d: seq<Block>) {
    && |c| == |d| == lay.size
    && forall b: nat | lay.Home(b) :: c[b] == d[b]
  }

  ghost predicate Abstracts(s: State, a: Spec)
    requires WfShape(s)
  {
    && Survives(s.lay, s.disk, a.durable)
    && |a.current| == s.lay.size
    && (!Recovering(s.phase) ==>
          && Shows(s.lay, s.cache.bufs, a.current)
          && UnpinnedOnDisk(s.lay, Pins(s.lh, s.phase), s.disk, a.current))
    && (s.phase.WriteLog? ==> Copied(s.lay, s.disk, s.lh, s.phase.tail, a.current))
    && (!s.phase.Idle? && !s.phase.WriteLog? ==> SameHome(s.lay, a.current, a.durable))
    && a.active == s.ops.Keys
  }

  ghost predicate Sim(s: State, a: Spec) {
    Inv(s) && Abstracts(s, a)
  }

  // ---------------------------------------------------------------------------
  // Steps of readers
  // ---------------------------------------------------------------------------

  /** A pinned buffer keeps its content when another buffer changes. */
  lemma PinsStayCached(bufs: seq<Buf>, pins: seq<nat>, i: nat, b: Buf)
    requires PinsCached(bufs, pins) && i < |bufs|
    requires Mine(bufs[i]) && bufs[i].valid && bufs[i].blockno in pins
             ==> b.valid && Matches(b, DEV, bufs[i].blockno)
    ensures PinsCached(bufs[i := b], pins)
  {
    forall k | 0 <= k < |pins| ensures HasValid(bufs[i := b], pins[k]) {
      assert HasValid(bufs, pins[k]);
      var j :| 0 <= j < |bufs| && Matches(bufs[j], DEV, pins[k]) && bufs[j].valid;
      assert Matches(bufs[i := b][j], DEV, pins[k]) && bufs[i := b][j].valid;
    }
  }

  /** bget never takes away a buffer that is pinned or in use. */
  lemma BgetKeepsCache(c: Cache, users: seq<set<Pid>>, pins: seq<nat>, disk: seq<Block>,
                       p: Pid, b: nat, i: nat, c': Cache)
    requires CacheOk(c, users, pins, disk) && b < |disk|
    requires Fetched(c, DEV, b, i, c') && p !in users[i]
    ensures CacheOk(c', users[i := users[i] + {p}], pins, disk)
    ensures c'.bufs[i].valid ==> c.bufs[i].valid && c'.bufs[i].data == c.bufs[i].data && c'.bufs[i].blockno == c.bufs[i].blockno
  {
    assert BufCounted(c.bufs[i], users[i], pins, |disk|);
    assert b in pins ==> HasValid(c.bufs, b);
    assert BufCounted(c'.bufs[i], users[i] + {p}, pins, |disk|);
    assert BufCoherent(c.bufs[i], pins, disk);
    PinsStayCached(c.bufs, pins, i, c'.bufs[i]);
  }

  lemma StepBget(s: State, a: Spec, p: Pid, b: nat)
    requires Sim(s, a) && Enabled(s, Bget(p, b))
    ensures Sim(Do(s, Bget(p, b)), a)
  {
    var r := Get(s.cache, DEV, b);
    BgetKeepsCache(s.cache, s.users, Pins(s.lh, s.phase), s.disk, p, b, r.i, r.cache);
  }

  /** A change of the lock field, or the read of an unpinned block, keeps the cache in order. */
  lemma HolderKeepsCache(c: Cache, users: seq<set<Pid>>, pins: seq<nat>, disk: seq<Block>, i: nat, b: Buf)
    requires CacheOk(c, users, pins, disk) && i < NBUF
    requires b.dev == c.bufs[i].dev && b.blockno == c.bufs[i].blockno && b.refcnt == c.bufs[i].refcnt
    requires b.lock.Some? ==> b.lock.value in users[i]
    requires c.bufs[i].valid ==> b.valid
    requires BufCoherent(b, pins, disk) && (!Mine(b) ==> !b.valid)
    ensures CacheOk(SetBuf(c, i, b), users, pins, disk)
  {
    assert BufCounted(c.bufs[i], users[i], pins, |disk|);
    PinsStayCached(c.bufs, pins, i, b);
  }

  lemma StepLock(s: State, a: Spec, p: Pid, i: nat)
    requires Sim(s, a) && Enabled(s, Lock(p, i))
    ensures Sim(Do(s, Lock(p, i)), a)
  {
    assert BufCoherent(s.cache.bufs[i], Pins(s.lh, s.phase), s.disk);
    HolderKeepsCache(s.cache, s.users, Pins(s.lh, s.phase), s.disk, i, s.cache.bufs[i].(lock := Some(p)));
  }

  lemma StepFill(s: State, a: Spec, p: Pid, i: nat)
    requires Sim(s, a) && Enabled(s, Fill(p, i))
    ensures Sim(Do(s, Fill(p, i)), a)
  {
    var pins := Pins(s.lh, s.phase);
    var b := s.cache.bufs[i].(valid := true, data := s.disk[s.cache.bufs[i].blockno]);
    assert BufCounted(s.cache.bufs[i], s.users[i], pins, |s.disk|);
    NotPinned(s.cache, s.users, pins, s.disk, i);
    HolderKeepsCache(s.cache, s.users, pins, s.disk, i, b);
  }

  /** A buffer that has not been read is not pinned. */
  lemma NotPinned(c: Cache, users: seq<set<Pid>>, pins: seq<nat>, disk: seq<Block>, i: nat)
    requires CacheOk(c, users, pins, disk) && i < NBUF && Mine(c.bufs[i]) && !c.bufs[i].valid
    ensures c.bufs[i].blockno !in pins
  {
    assert c.bufs[i].blockno in pins ==> HasValid(c.bufs, c.bufs[i].blockno);
  }

  lemma StepUnlock(s: State, a: Spec, p: Pid, i: nat)
    requires Sim(s, a) && Enabled(s, Unlock(p, i))
    ensures Sim(Do(s, Unlock(p, i)), a)
  {
    assert BufCoherent(s.cache.bufs[i], Pins(s.lh, s.phase), s.disk);
    assert BufCounted(s.cache.bufs[i], s.users[i], Pins(s.lh, s.phase), |s.disk|);
    HolderKeepsCache(s.cache, s.users, Pins(s.lh, s.phase), s.disk, i, s.cache.bufs[i].(lock := None));
  }

  lemma DropKeepsCache(c: Cache, users: seq<set<Pid>>, pins: seq<nat>, disk: seq<Block>, p: Pid, i: nat)
    requires CacheOk(c, users, pins, disk) && i < NBUF && p in users[i] && c.bufs[i].lock != Some(p) && c.bufs[i].refcnt > 0
    ensures CacheOk(Unref(c, i), users[i := users[i] - {p}], pins, disk)
  {
    var b := c.bufs[i].(refcnt := c.bufs[i].refcnt - 1);
    assert BufCoherent(c.bufs[i], pins, disk);
    assert BufCounted(c.bufs[i], users[i], pins, |disk|);
    assert BufCounted(b, users[i] - {p}, pins, |disk|);
    PinsStayCached(c.bufs, pins, i, b);
  }

  lemma StepDrop(s: State, a: Spec, p: Pid, i: nat)
    requires Sim(s, a) && Enabled(s, Drop(p, i))
    ensures Sim(Do(s, Drop(p, i)), a)
  {
    hide CacheOk, PhaseOk, Admission;
    DropKeepsCache(s.cache, s.users, Pins(s.lh, s.phase), s.disk, p, i);
  }

  // ---------------------------------------------------------------------------
  // Steps of file system operations
  // ---------------------------------------------------------------------------

  lemma ReservedRemove(m: map<Pid, nat>, p: Pid)
    requires p in m
    ensures Reserved(m) == MAXOPBLOCKS - m[p] + Reserved(m - {p})
    decreases |m|
  {
    var q :| q in m && Reserved(m) == MAXOPBLOCKS - m[q] + Reserved(m - {q});
    if q != p {
      ReservedRemove(m - {q}, p);
      ReservedRemove(m - {p}, q);
      assert m - {q} - {p} == m - {p} - {q};
    }
  }

  lemma ReservedAdd(m: map<Pid, nat>, p: Pid, n: nat)
    ensures p !in m ==> Reserved(m[p := n]) == MAXOPBLOCKS - n + Reserved(m)
    ensures p in m ==> Reserved(m[p := n]) == Reserved(m) + m[p] - n
  {
    ReservedRemove(m[p := n], p);
    assert m[p := n] - {p} == m - {p};
    if p in m { ReservedRemove(m, p); } else { assert m - {p} == m; }
  }

  lemma ReservedBound(m: map<Pid, nat>)
    requires forall p | p in m :: m[p] <= MAXOPBLOCKS
    ensures 0 <= Reserved(m) <= |m| * MAXOPBLOCKS
    decreases |m|
  {
    if |m| != 0 {
      var p :| p in m && Reserved(m) == MAXOPBLOCKS - m[p] + Reserved(m - {p});
      assert |m - {p}| == |m| - 1 by { assert (m - {p}).Keys == m.Keys - {p}; }
      ReservedBound(m - {p});
    }
  }

  lemma StepBeginOp(s: State, a: Spec, p: Pid)
    requires Sim(s, a) && Enabled(s, BeginOp(p))
    ensures Allowed(a, Begin(p)) && Sim(Do(s, BeginOp(p)), Effect(a, Begin(p)))
  {
    ReservedAdd(s.ops, p, 0);
    ReservedBound(s.ops);
    assert s.ops[p := 0].Keys == s.ops.Keys + {p};
  }

  lemma StepSleepInBeginOp(s: State, a: Spec, p: Pid)
    requires Sim(s, a) && Enabled(s, SleepInBeginOp(p))
    ensures Sim(Do(s, SleepInBeginOp(p)), a)
  {
    assert s.ops == map[] ==> |s.ops| == 0;
  }

  lemma StepEndOp(s: State, a: Spec, p: Pid)
    requires Sim(s, a) && Enabled(s, EndOp(p))
    ensures Allowed(a, End(p)) && Sim(Do(s, EndOp(p)), Effect(a, End(p)))
  {
    ReservedRemove(s.ops, p);
    var ops' := s.ops - {p};
    assert ops'.Keys == s.ops.Keys - {p};
    assert |ops'| == |s.ops| - 1;
    assert |ops'| == 0 ==> ops' == map[];
  }

  /** What a holder's update of its buffer, together with log_write, does to the cache. */
  lemma LogWriteKeepsCache(c: Cache, users: seq<set<Pid>>, pins: seq<nat>, disk: seq<Block>, i: nat, b: Buf)
    requires CacheOk(c, users, pins, disk) && i < NBUF && Mine(c.bufs[i]) && c.bufs[i].valid
    requires b == c.bufs[i].(data := b.data, refcnt := b.refcnt)
    requires b.refcnt == if b.blockno in pins then c.bufs[i].refcnt else c.bufs[i].refcnt + 1
    ensures CacheOk(SetBuf(c, i, b), users, if b.blockno in pins then pins else pins + [b.blockno], disk)
  {
    var pins' := if b.blockno in pins then pins else pins + [b.blockno];
    var bufs' := c.bufs[i := b];
    forall j | 0 <= j < NBUF ensures BufCounted(bufs'[j], users[j], pins', |disk|) && BufCoherent(bufs'[j], pins', disk) {
      assert BufCounted(c.bufs[j], users[j], pins, |disk|) && BufCoherent(c.bufs[j], pins, disk);
    }
    PinsStayCached(c.bufs, pins, i, b);
    assert HasValid(bufs', b.blockno) by { assert Matches(bufs'[i], DEV, b.blockno); }
  }

  /** The updated block is shown by its own buffer and by no other. */
  lemma UpdateShows(lay: Layout, c: Cache, users: seq<set<Pid>>, pins: seq<nat>, disk: seq<Block>, cur: seq<Block>, i: nat, b: Buf)
    requires CacheOk(c, users, pins, disk) && i < NBUF && Mine(c.bufs[i]) && |disk| == |cur| == lay.size
    requires b.blockno == c.bufs[i].blockno < lay.size
    requires Shows(lay, c.bufs, cur)
    ensures Shows(lay, c.bufs[i := b], cur[b.blockno := b.data])
  {
    forall j | 0 <= j < NBUF && j != i && c.bufs[j].valid ensures c.bufs[j].blockno != b.blockno {
      assert BufCounted(c.bufs[j], users[j], pins, |disk|);
    }
  }

  lemma LogWriteAdmitted(s: State, p: Pid)
    requires Admission(s.lh, s.outstanding, s.ops, s.sleepers, s.phase) && p in s.ops && s.ops[p] < MAXOPBLOCKS
    ensures var ops' := s.ops[p := s.ops[p] + 1];
      && ops'.Keys == s.ops.Keys
      && forall b :: Admission(s.lh + [b], s.outstanding, ops', s.sleepers, s.phase)
  {
    ReservedAdd(s.ops, p, s.ops[p] + 1);
    assert s.ops[p := s.ops[p] + 1].Keys == s.ops.Keys;
  }

  lemma LogWriteInv(s: State, p: Pid, i: nat, data: Block)
    requires Inv(s) && MayLogWrite(s, p, i)
    ensures Inv(AfterLogWrite(s, p, i, data))
  {
    var b := s.cache.bufs[i].blockno;
    var n := if b in s.lh then s.cache.bufs[i].refcnt else s.cache.bufs[i].refcnt + 1;
    LogWriteKeepsCache(s.cache, s.users, s.lh, s.disk, i, s.cache.bufs[i].(data := data, refcnt := n));
    if b !in s.lh {
      assert WfEntries(s.lay, s.lh + [b]);
      LogWriteAdmitted(s, p);
    }
  }

  lemma StepLogWrite(s: State, a: Spec, p: Pid, i: nat, data: Block)
    requires Sim(s, a) && MayLogWrite(s, p, i)
    ensures var l := Update(p, s.cache.bufs[i].blockno, data);
      Allowed(a, l) && Sim(AfterLogWrite(s, p, i, data), Effect(a, l))
  {
    LogWriteInv(s, p, i, data);
    var b := s.cache.bufs[i].blockno;
    var n := if b in s.lh then s.cache.bufs[i].refcnt else s.cache.bufs[i].refcnt + 1;
    UpdateShows(s.lay, s.cache, s.users, s.lh, s.disk, a.current, i, s.cache.bufs[i].(data := data, refcnt := n));
    var lh' := if b in s.lh then s.lh else s.lh + [b];
    assert UnpinnedOnDisk(s.lay, lh', s.disk, a.current[b := data]);
    assert s.ops[p := s.ops[p] + 1].Keys == s.ops.Keys;
  }

  // ---------------------------------------------------------------------------
  // Steps of commit and recovery
  // ---------------------------------------------------------------------------

  /** A holder that writes its buffer through to disk keeps the cache in order; the
      buffer may lose its pin in the same step. */
  lemma WriteThroughKeepsCache(c: Cache, users: seq<set<Pid>>, pins: seq<nat>, disk: seq<Block>, i: nat, b: Buf, pins': seq<nat>)
    requires CacheOk(c, users, pins, disk) && i < NBUF && Mine(c.bufs[i]) && c.bufs[i].valid
    requires b == c.bufs[i].(data := b.data, refcnt := b.refcnt)
    requires b.blockno !in pins'
    requires || (pins == pins' && b.refcnt == c.bufs[i].refcnt)
             || (pins == [b.blockno] + pins' && b.refcnt == c.bufs[i].refcnt - 1)
    ensures b.blockno < |disk|
    ensures CacheOk(SetBuf(c, i, b), users, pins', disk[b.blockno := b.data])
  {
    assert BufCounted(c.bufs[i], users[i], pins, |disk|);
    var disk' := disk[b.blockno := b.data];
    var bufs' := c.bufs[i := b];
    forall j | 0 <= j < NBUF ensures BufCounted(bufs'[j], users[j], pins', |disk'|) && BufCoherent(bufs'[j], pins', disk') {
      assert BufCounted(c.bufs[j], users[j], pins, |disk|) && BufCoherent(c.bufs[j], pins, disk);
    }
    assert PinsCached(c.bufs, pins') by {
      forall k | 0 <= k < |pins'| ensures HasValid(c.bufs, pins'[k]) {
        assert pins'[k] == if pins == pins' then pins[k] else pins[k + 1];
      }
    }
    PinsStayCached(c.bufs, pins', i, b);
  }

  /** A valid buffer of a block outside the home area is the block on disk. */
  lemma LogBufferIsDisk(s: State, i: nat)
    requires Inv(s) && i < NBUF && s.cache.bufs[i].valid && !s.lay.Home(s.cache.bufs[i].blockno)
    ensures s.cache.bufs[i].blockno < |s.disk| && s.cache.bufs[i].data == s.disk[s.cache.bufs[i].blockno]
    ensures s.cache.bufs[i].blockno !in Pins(s.lh, s.phase)
  {
    assert BufCoherent(s.cache.bufs[i], Pins(s.lh, s.phase), s.disk);
    assert forall k | 0 <= k < |s.lh| :: s.lay.Home(s.lh[k]);
  }

  /** Writing a block of the log area other than the header changes nothing that survives. */
  lemma LogAreaWrite(lay: Layout, disk: seq<Block>, t: nat, x: Block, d: seq<Block>)
    requires WfDisk(lay, disk) && lay.start < t < lay.start + lay.nlog
    requires OnDisk(lay, disk) == [] && Survives(lay, disk, d)
    ensures WfDisk(lay, disk[t := x])
    ensures OnDisk(lay, disk[t := x]) == OnDisk(lay, disk)
    ensures Survives(lay, disk[t := x], d)
  {
  }

  lemma StepCopyToLog(s: State, a: Spec, p: Pid, to: nat, from: nat)
    requires Sim(s, a) && MayCopyToLog(s, p, to, from)
    ensures Sim(AfterCopyToLog(s, p, to, from), a)
  {
    var data := s.cache.bufs[from].data;
    LogBufferIsDisk(s, to);
    WriteThroughKeepsCache(s.cache, s.users, s.lh, s.disk, to, s.cache.bufs[to].(data := data), s.lh);
    LogAreaWrite(s.lay, s.disk, s.lay.start + 1 + s.phase.tail, data, a.durable);
    CopyExtends(s.lay, s.disk, s.lh, s.phase.tail, a.current, data);
  }

  lemma CopyExtends(lay: Layout, disk: seq<Block>, lh: seq<nat>, t: nat, c: seq<Block>, data: Block)
    requires lay.Wf() && WfEntries(lay, lh) && |c| == |disk| == lay.size && t < |lh|
    requires Copied(lay, disk, lh, t, c) && data == c[lh[t]]
    ensures Copied(lay, disk[lay.start + 1 + t := data], lh, t + 1, c)
  {
  }

  /** Once all blocks are in the log, writing the header makes them survive. */
  lemma HeaderCommits(lay: Layout, disk: seq<Block>, lh: seq<nat>, c: seq<Block>, x: Block)
    requires WfDisk(lay, disk) && WfEntries(lay, lh) && |c| == lay.size
    requires Copied(lay, disk, lh, |lh|, c) && UnpinnedOnDisk(lay, lh, disk, c)
    requires HeaderLen(x) == |lh| && HeaderOf(x) == lh
    ensures WfDisk(lay, disk[lay.start := x])
    ensures OnDisk(lay, disk[lay.start := x]) == lh
    ensures Survives(lay, disk[lay.start := x], c)
  {
  }

  lemma StepWriteHead(s: State, a: Spec, p: Pid, i: nat)
    requires Sim(s, a) && Enabled(s, WriteHead(p, i))
    ensures Allowed(a, Commit) && Sim(Do(s, WriteHead(p, i)), Effect(a, Commit))
  {
    hide CacheOk, PutHeader, Survives;
    var data := PutHeader(s.cache.bufs[i].data, s.lh);
    LogBufferIsDisk(s, i);
    WriteThroughKeepsCache(s.cache, s.users, s.lh, s.disk, i, s.cache.bufs[i].(data := data), s.lh);
    HeaderCommits(s.lay, s.disk, s.lh, a.current, data);
    assert s.lh[0..] == s.lh;
  }

  /** Copying a log block home, even only in part, changes nothing that survives. */
  lemma HomeWrite(lay: Layout, disk: seq<Block>, lh: seq<nat>, t: nat, x: Block, d: seq<Block>)
    requires WfDisk(lay, disk) && WfEntries(lay, lh) && t < |lh|
    requires OnDisk(lay, disk) == lh && Survives(lay, disk, d)
    ensures WfDisk(lay, disk[lh[t] := x])
    ensures OnDisk(lay, disk[lh[t] := x]) == lh
    ensures Survives(lay, disk[lh[t] := x], d)
    ensures Installed(lay, disk, lh, t) && x == disk[lay.start + 1 + t] ==> Installed(lay, disk[lh[t] := x], lh, t + 1)
  {
  }

  /** Installing entry t unpins its block and no other. */
  lemma InstallUnpins(lh: seq<nat>, p: Pid, t: nat)
    requires t < |lh| && Distinct(lh)
    ensures Pins(lh, Install(p, t, false)) == [lh[t]] + Pins(lh, Install(p, t + 1, false))
    ensures lh[t] !in Pins(lh, Install(p, t + 1, false)) && Pins(lh, Install(p, t, true)) == []
  {
    assert lh[t..] == [lh[t]] + lh[t + 1..];
  }

  lemma InstallKeepsCache(s: State, p: Pid, lbuf: nat, dbuf: nat)
    requires Inv(s) && MayInstall(s, p, lbuf, dbuf)
    ensures var s' := AfterInstall(s, p, lbuf, dbuf); CacheOk(s'.cache, s'.users, Pins(s'.lh, s'.phase), s'.disk)
  {
    hide CacheOk;
    var t, rec := s.phase.tail, s.phase.recovering;
    var pins, pins' := Pins(s.lh, s.phase), Pins(s.lh, Install(p, t + 1, rec));
    InstallUnpins(s.lh, p, t);
    var n := if rec then s.cache.bufs[dbuf].refcnt else s.cache.bufs[dbuf].refcnt - 1;
    var b := s.cache.bufs[dbuf].(data := s.cache.bufs[lbuf].data, refcnt := n);
    WriteThroughKeepsCache(s.cache, s.users, pins, s.disk, dbuf, b, pins');
  }

  lemma InstallKeepsDisk(s: State, a: Spec, p: Pid, lbuf: nat, dbuf: nat)
    requires Sim(s, a) && MayInstall(s, p, lbuf, dbuf)
    ensures s.lh[s.phase.tail] < |s.disk|
    ensures var disk := s.disk[s.lh[s.phase.tail] := s.cache.bufs[lbuf].data];
      && WfDisk(s.lay, disk) && OnDisk(s.lay, disk) == s.lh
      && Survives(s.lay, disk, a.durable)
      && Installed(s.lay, disk, s.lh, s.phase.tail + 1)
    ensures s.cache.bufs[lbuf].data == a.durable[s.lh[s.phase.tail]]
  {
    var t, data := s.phase.tail, s.cache.bufs[lbuf].data;
    LogBufferIsDisk(s, lbuf);
    HomeWrite(s.lay, s.disk, s.lh, t, data, a.durable);
  }

  lemma InstallShows(s: State, a: Spec, p: Pid, lbuf: nat, dbuf: nat)
    requires Sim(s, a) && MayInstall(s, p, lbuf, dbuf) && !s.phase.recovering
    requires s.cache.bufs[lbuf].data == a.durable[s.lh[s.phase.tail]]
    ensures var s' := AfterInstall(s, p, lbuf, dbuf);
      Shows(s.lay, s'.cache.bufs, a.current) && UnpinnedOnDisk(s.lay, Pins(s'.lh, s'.phase), s'.disk, a.current)
  {
    var t := s.phase.tail;
    var b, data := s.lh[t], s.cache.bufs[lbuf].data;
    var pins, pins' := Pins(s.lh, s.phase), Pins(s.lh, Install(p, t + 1, false));
    var b' := s.cache.bufs[dbuf].(data := data, refcnt := s.cache.bufs[dbuf].refcnt - 1);
    UpdateShows(s.lay, s.cache, s.users, pins, s.disk, a.current, dbuf, b');
    assert a.current[b := data] == a.current;
    assert pins == [b] + pins';
  }

  lemma StepInstallBlock(s: State, a: Spec, p: Pid, lbuf: nat, dbuf: nat)
    requires Sim(s, a) && MayInstall(s, p, lbuf, dbuf)
    ensures Sim(AfterInstall(s, p, lbuf, dbuf), a)
  {
    InstallKeepsCache(s, p, lbuf, dbuf);
    InstallKeepsDisk(s, a, p, lbuf, dbuf);
    if !s.phase.recovering { InstallShows(s, a, p, lbuf, dbuf); }
  }

  lemma StepEraseHead(s: State, a: Spec, p: Pid)
    requires Sim(s, a) && Enabled(s, EraseHead(p))
    ensures Sim(Do(s, EraseHead(p)), a)
  {
    assert Pins(s.lh, s.phase) == [] == Pins([], Clear(p, s.phase.recovering));
  }

  lemma StepWriteEmptyHead(s: State, a: Spec, p: Pid, i: nat)
    requires Sim(s, a) && Enabled(s, WriteEmptyHead(p, i))
    ensures Sim(Do(s, WriteEmptyHead(p, i)), a)
  {
    var data := PutHeader(s.cache.bufs[i].data, []);
    LogBufferIsDisk(s, i);
    WriteThroughKeepsCache(s.cache, s.users, [], s.disk, i, s.cache.bufs[i].(data := data), []);
    var disk' := s.disk[s.lay.start := data];
    assert OnDisk(s.lay, disk') == [];
    assert Survives(s.lay, disk', a.durable);
  }

  lemma StepFinishCommit(s: State, a: Spec, p: Pid)
    requires Sim(s, a) && Enabled(s, FinishCommit(p))
    ensures Sim(Do(s, FinishCommit(p)), a)
  {
  }

  lemma StepReadHead(s: State, a: Spec, p: Pid, i: nat)
    requires Sim(s, a) && Enabled(s, ReadHead(p, i))
    ensures Sim(Do(s, ReadHead(p, i)), a)
  {
    LogBufferIsDisk(s, i);
    assert Pins(s.lh, Boot) == [] == Pins(OnDisk(s.lay, s.disk), Install(p, 0, true));
  }

  // ---------------------------------------------------------------------------
  // Crashes
  // ---------------------------------------------------------------------------

  /** A freshly booted machine abstracts to the blocks that recovery would produce. */
  lemma BootSim(lay: Layout, disk: seq<Block>, d: seq<Block>)
    requires WfDisk(lay, disk) && Survives(lay, disk, d)
    ensures Sim(Rebooted(lay, disk), Spec(d, d, {}))
  {
    var s := Rebooted(lay, disk);
    forall i: nat | i < NBUF ensures i in BootOrder { assert BootOrder[NBUF - 1 - i] == i; }
  }

  /** The block in flight is not one that recovery would read and keep. */
  lemma TornSurvives(s: State, a: Spec, x: Block)
    requires Sim(s, a) && InFlight(s).Some?
    ensures InFlight(s).value < |s.disk|
    ensures var disk := s.disk[InFlight(s).value := x]; WfDisk(s.lay, disk) && Survives(s.lay, disk, a.durable)
  {
    hide CacheOk, Admission;
    var disk := s.disk[InFlight(s).value := x];
    assert OnDisk(s.lay, disk) == OnDisk(s.lay, s.disk);
  }

  lemma StepCrash(s: State, a: Spec, torn: Option<Block>)
    requires Sim(s, a) && Enabled(s, Crash(torn))
    ensures Sim(Do(s, Crash(torn)), Effect(a, Reset))
  {
    hide CacheOk, PhaseOk, Admission;
    if torn.Some? {
      TornSurvives(s, a, torn.value);
      BootSim(s.lay, s.disk[InFlight(s).value := torn.value], a.durable);
    } else {
      BootSim(s.lay, s.disk, a.durable);
    }
  }
}
