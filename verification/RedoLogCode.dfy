/** kernel/log.c as code. Each method is proved to be a run of the steps of RedoLog, so
    a crash at any point of it is covered by the theorems about runs. */
module RedoLogCode {
  import opened Bytes
  import opened BufferCache
  import opened Counting
  import opened RedoLog
  import opened RedoLogProof
  import opened RedoLogTheorems
  import opened Runs

  // ---------------------------------------------------------------------------
  // Buffers are enough, or not
  // ---------------------------------------------------------------------------

  /** No process uses any buffer. */
  ghost predicate Quiet(s: State) {
    forall i | 0 <= i < |s.users| :: s.users[i] == {}
  }

  /** Some buffer is unused. */
  ghost predicate Spare(s: State) { exists i :: 0 <= i < |s.cache.bufs| && s.cache.bufs[i].refcnt == 0 }

  /** If fewer than NBUF blocks are pinned, and nobody uses a buffer, one is unused. */
  lemma SpareBuffer(s: State)
    requires Inv(s) && Quiet(s) && |Pins(s.lh, s.phase)| < NBUF
    ensures Spare(s)
  {
    var pins, bufs := Pins(s.lh, s.phase), s.cache.bufs;
    if forall i | 0 <= i < NBUF :: bufs[i].refcnt != 0 {
      var nos := seq(NBUF, (i: nat) requires i < NBUF => bufs[i].blockno);
      forall i | 0 <= i < NBUF ensures nos[i] in pins && Mine(bufs[i]) {
        assert BufCounted(bufs[i], s.users[i], pins, |s.disk|);
      }
      Pigeonhole(nos, pins);
    }
  }

  /** If NBUF blocks are pinned, they fill the cache. */
  lemma PinsFillCache(s: State, i: nat)
    requires Inv(s) && |Pins(s.lh, s.phase)| == NBUF && i < NBUF
    ensures s.cache.bufs[i].refcnt > 0 && s.cache.bufs[i].blockno in Pins(s.lh, s.phase)
  {
    var pins, bufs := Pins(s.lh, s.phase), s.cache.bufs;
    assert Distinct(pins);
    var places := seq(NBUF, (k: nat) requires k < NBUF => PlaceOf(bufs, pins, k));
    var all := seq(NBUF, (j: nat) requires j < NBUF => j);
    forall k | 0 <= k < NBUF ensures places[k] in all { assert all[places[k]] == places[k]; }
    Pigeonhole(places, all);
    assert all[i] in places;
    assert BufCounted(bufs[i], s.users[i], pins, |s.disk|);
  }

  /** With nobody using the cache, bget finds a buffer for a log block exactly when
      fewer than NBUF blocks are pinned. NBUF equals LOGSIZE, so the commit of a full
      log panics. */
  lemma LogBufferAvailableIff(s: State, b: nat)
    requires Inv(s) && Quiet(s) && !s.lay.Home(b)
    ensures Get(s.cache, DEV, b).Got? <==> |Pins(s.lh, s.phase)| < NBUF
  {
    if |Pins(s.lh, s.phase)| < NBUF {
      SpareBuffer(s);
    } else {
      forall i: nat | i < NBUF ensures s.cache.bufs[i].refcnt > 0 && !Matches(s.cache.bufs[i], DEV, b) {
        PinsFillCache(s, i);
      }
    }
  }

  /** The same about unused buffers. */
  lemma SpareIff(s: State)
    requires Inv(s) && Quiet(s)
    ensures Spare(s) <==> |Pins(s.lh, s.phase)| < NBUF
  {
    if |Pins(s.lh, s.phase)| < NBUF {
      SpareBuffer(s);
    } else {
      forall i: nat | i < NBUF ensures s.cache.bufs[i].refcnt > 0 { PinsFillCache(s, i); }
    }
  }

  ghost function PlaceOf(bufs: seq<Buf>, pins: seq<nat>, k: nat): (i: nat)
    requires PinsCached(bufs, pins) && k < |pins|
    ensures i < |bufs| && Matches(bufs[i], DEV, pins[k]) && bufs[i].valid
  {
    assert HasValid(bufs, pins[k]);
    var i: nat :| i < |bufs| && Matches(bufs[i], DEV, pins[k]) && bufs[i].valid; i
  }

  // ---------------------------------------------------------------------------
  // Histories
  // ---------------------------------------------------------------------------

  /** Where a run began, and its steps: a boot from `disk`, on which `d` survives. */
  datatype Trace = Trace(lay: Layout, disk: seq<Block>, d: seq<Block>, steps: seq<Step>) {
    ghost function Then(st: Step): Trace { this.(steps := steps + [st]) }

    ghost function Before(): Trace
      requires steps != []
    {
      this.(steps := Front(steps))
    }
  }

  /** The machine and the specification got to v and a together, by the steps of `trace`. */
  ghost predicate Reached(trace: Trace, v: State, a: Spec)
    decreases |trace.steps|, 1
  {
    exists m, c :: ReachedFrom(trace, m, c, v, a)
  }

  ghost predicate ReachedFrom(trace: Trace, m: State, c: Spec, v: State, a: Spec)
    decreases |trace.steps|, 0
  {
    if trace.steps == [] then m == v && c == a && Boots(trace, v, a)
    else Reached(trace.Before(), m, c) && Moves(m, c, Last(trace.steps), v, a)
  }

  ghost predicate Boots(trace: Trace, v: State, a: Spec) {
    && WfDisk(trace.lay, trace.disk) && Survives(trace.lay, trace.disk, trace.d)
    && v == Rebooted(trace.lay, trace.disk) && a == Spec(trace.d, trace.d, {})
  }

  /** What the methods do is a run from a boot, to which the theorems about runs apply. */
  lemma {:induction false} ReachedIsRun(trace: Trace, v: State, a: Spec)
    requires Reached(trace, v, a)
    ensures Reaches(trace.lay, trace.disk, trace.d, trace.steps, v) && Tells(trace.lay, trace.disk, trace.d, trace.steps, v, a)
    decreases |trace.steps|
  {
    hide Next, WfDisk, Survives;
    var m, c :| ReachedFrom(trace, m, c, v, a);
    if trace.steps != [] {
      ReachedIsRun(trace.Before(), m, c);
      assert Joint((m, c), Last(trace.steps), (v, a));
    }
  }

  lemma {:induction false} ReachedSim(trace: Trace, v: State, a: Spec)
    requires Reached(trace, v, a)
    ensures Sim(v, a)
    decreases |trace.steps|
  {
    hide Sim;
    var m, c :| ReachedFrom(trace, m, c, v, a);
    if trace.steps != [] {
      ReachedSim(trace.Before(), m, c);
      MovesSim(m, c, Last(trace.steps), v, a);
    } else {
      BootSim(trace.lay, trace.disk, trace.d);
    }
  }

  /** What a process needs to know about the buffers. */
  lemma ReachedBufs(trace: Trace, v: State, a: Spec)
    requires Reached(trace, v, a)
    ensures WfShape(v) && Counted(v.cache.bufs, v.users, Pins(v.lh, v.phase), |v.disk|)
  {
    ReachedSim(trace, v, a);
  }

  lemma ReachedStep(trace: Trace, m: State, c: Spec, st: Step)
    requires Reached(trace, m, c) && WfShape(m) && Enabled(m, st)
    ensures Allowed(c, Meaning(m, st)) && Reached(trace.Then(st), Do(m, st), Effect(c, Meaning(m, st)))
  {
    ReachedSim(trace, m, c);
    StepSimulates(m, c, st);
    assert trace.Then(st).Before() == trace && Last(trace.Then(st).steps) == st;
    assert ReachedFrom(trace.Then(st), m, c, Do(m, st), Effect(c, Meaning(m, st)));
  }

  lemma CacheStep(trace: Trace, s: State, a: Spec, st: Step, t: State)
    requires Reached(trace, s, a) && WfShape(s)
    requires st.Lock? || st.Fill? || st.Unlock? || st.Drop?
    requires Enabled(s, st) && t == Do(s, st)
    ensures Reached(trace.Then(st), t, a)
  {
    ReachedStep(trace, s, a, st);
  }

  // ---------------------------------------------------------------------------
  // The code
  // ---------------------------------------------------------------------------

  /** p has read block b into buffer i, which either held it already or was unused. */
  ghost predicate Opened(s: State, p: Pid, b: nat, i: nat, t: State) {
    && i < |s.users| == |s.cache.bufs| && p !in s.users[i]
    && (Matches(s.cache.bufs[i], DEV, b) || s.users[i] == {})
    && Holds(t, p, i, b)
    && t == s.(cache := t.cache, users := s.users[i := s.users[i] + {p}])
    && |t.cache.bufs| == |s.cache.bufs|
    && (forall j | 0 <= j < |s.cache.bufs| && j != i :: t.cache.bufs[j] == s.cache.bufs[j])
  }

  /** p has released buffer i. */
  ghost predicate Closed(s: State, p: Pid, i: nat, t: State) {
    && i < |s.users| == |s.cache.bufs|
    && t == s.(cache := t.cache, users := s.users[i := s.users[i] - {p}])
    && s.cache.bufs[i].refcnt > 0
    && t.cache.bufs == s.cache.bufs[i := s.cache.bufs[i].(lock := None, refcnt := s.cache.bufs[i].refcnt - 1)]
  }

  lemma BgetStep(trace: Trace, s: State, a: Spec, p: Pid, b: nat, i: nat, c: Cache)
    requires Reached(trace, s, a) && WfShape(s)
    requires b < s.lay.size && Get(s.cache, DEV, b) == Got(i, c)
    requires Matches(s.cache.bufs[i], DEV, b) ==> p !in s.users[i]
    ensures Reached(trace.Then(Bget(p, b)), s.(cache := c, users := s.users[i := s.users[i] + {p}]), a)
  {
    ReachedBufs(trace, s, a);
    assert BufCounted(s.cache.bufs[i], s.users[i], Pins(s.lh, s.phase), |s.disk|);
    ReachedStep(trace, s, a, Bget(p, b));
  }

  lemma CopyStep(trace: Trace, s: State, a: Spec, p: Pid, to: nat, from: nat)
    requires Reached(trace, s, a) && s.phase.WriteLog? && s.phase.p == p && s.phase.tail < |s.lh|
    requires Holds(s, p, to, s.lay.start + 1 + s.phase.tail) && Holds(s, p, from, s.lh[s.phase.tail])
    ensures MayCopyToLog(s, p, to, from)
    ensures Reached(trace.Then(CopyToLog(p, to, from)), AfterCopyToLog(s, p, to, from), a)
  {
    ReachedBufs(trace, s, a);
    assert BufCounted(s.cache.bufs[to], s.users[to], Pins(s.lh, s.phase), |s.disk|);
    ReachedStep(trace, s, a, CopyToLog(p, to, from));
  }

  lemma InstallStep(trace: Trace, s: State, a: Spec, p: Pid, lbuf: nat, dbuf: nat)
    requires Reached(trace, s, a) && s.phase.Install? && s.phase.p == p && s.phase.tail < |s.lh|
    requires Holds(s, p, lbuf, s.lay.start + 1 + s.phase.tail) && Holds(s, p, dbuf, s.lh[s.phase.tail])
    ensures MayInstall(s, p, lbuf, dbuf)
    ensures Reached(trace.Then(InstallBlock(p, lbuf, dbuf)), AfterInstall(s, p, lbuf, dbuf), a)
  {
    ReachedBufs(trace, s, a);
    assert BufCounted(s.cache.bufs[dbuf], s.users[dbuf], Pins(s.lh, s.phase), |s.disk|);
    ReachedStep(trace, s, a, InstallBlock(p, lbuf, dbuf));
  }

  /** The state after write_head has written the header from buffer i. */
  ghost function HeadWritten(s: State, i: nat): State
    requires i < |s.cache.bufs| && s.lay.start < |s.disk| && (s.phase.WriteLog? || s.phase.Clear?)
    requires |s.lh| <= LOGSIZE && forall k | 0 <= k < |s.lh| :: s.lh[k] < U32_LIMIT
  {
    var data := PutHeader(s.cache.bufs[i].data, s.lh);
    s.(cache := SetBuf(s.cache, i, s.cache.bufs[i].(data := data)),
       disk := s.disk[s.lay.start := data],
       phase := if s.phase.WriteLog? then Install(s.phase.p, 0, false)
                else if s.phase.recovering then Idle else Finishing(s.phase.p))
  }

  /** Writing the header commits the transaction if there is one, and otherwise is no event. */
  lemma HeadStep(trace: Trace, s: State, a: Spec, p: Pid, i: nat)
    requires Reached(trace, s, a) && Holds(s, p, i, s.lay.start)
    requires s.phase == WriteLog(p, |s.lh|) || (s.phase.Clear? && s.phase.p == p)
    ensures s.lay.start < |s.disk| && |s.lh| <= LOGSIZE && forall k | 0 <= k < |s.lh| :: s.lh[k] < U32_LIMIT
    ensures var st := if s.phase.WriteLog? then WriteHead(p, i) else WriteEmptyHead(p, i);
      Reached(trace.Then(st), HeadWritten(s, i), if s.phase.WriteLog? then a.(durable := a.current) else a)
  {
    ReachedBufs(trace, s, a);
    ReachedStep(trace, s, a, if s.phase.WriteLog? then WriteHead(p, i) else WriteEmptyHead(p, i));
  }

  lemma EraseStep(trace: Trace, s: State, a: Spec, p: Pid)
    requires Reached(trace, s, a) && s.phase.Install? && s.phase.p == p && s.phase.tail == |s.lh|
    ensures Reached(trace.Then(EraseHead(p)), s.(lh := [], phase := Clear(p, s.phase.recovering)), a)
  {
    ReachedBufs(trace, s, a);
    ReachedStep(trace, s, a, EraseHead(p));
  }

  lemma LogWriteStep(trace: Trace, s: State, a: Spec, p: Pid, i: nat, data: Block)
    requires Reached(trace, s, a) && MayLogWrite(s, p, i)
    ensures s.cache.bufs[i].blockno < |a.current|
    ensures Reached(trace.Then(LogWrite(p, i, data)), AfterLogWrite(s, p, i, data),
                    a.(current := a.current[s.cache.bufs[i].blockno := data]))
  {
    ReachedBufs(trace, s, a);
    ReachedStep(trace, s, a, LogWrite(p, i, data));
  }

  lemma BeginStep(trace: Trace, s: State, a: Spec, p: Pid)
    requires Reached(trace, s, a) && !Recovering(s.phase) && p !in s.ops && p !in s.sleepers
    ensures MustWait(s) ==> Reached(trace.Then(SleepInBeginOp(p)), s.(sleepers := s.sleepers + {p}), a)
    ensures !MustWait(s) ==> Reached(trace.Then(BeginOp(p)),
              s.(outstanding := s.outstanding + 1, ops := s.ops[p := 0]), a.(active := a.active + {p}))
  {
    ReachedBufs(trace, s, a);
    ReachedStep(trace, s, a, if MustWait(s) then SleepInBeginOp(p) else BeginOp(p));
  }

  /** The state after the critical section of end_op. */
  ghost function Ended(s: State, p: Pid): State
    requires s.outstanding > 0
  {
    var s' := s.(outstanding := s.outstanding - 1, ops := s.ops - {p});
    if s'.outstanding != 0 then s'.(sleepers := {})
    else s'.(phase := if s.lh == [] then Finishing(p) else WriteLog(p, 0))
  }

  lemma EndStep(trace: Trace, s: State, a: Spec, p: Pid)
    requires Reached(trace, s, a) && p in s.ops
    ensures s.outstanding > 0 && s.phase == Idle
    ensures Reached(trace.Then(EndOp(p)), Ended(s, p), a.(active := a.active - {p}))
  {
    ReachedSim(trace, s, a);
    ReachedStep(trace, s, a, EndOp(p));
  }

  lemma FinishStep(trace: Trace, s: State, a: Spec, p: Pid)
    requires Reached(trace, s, a) && s.phase == Finishing(p)
    ensures Reached(trace.Then(FinishCommit(p)), s.(phase := Idle, sleepers := {}), a)
  {
    ReachedBufs(trace, s, a);
    ReachedStep(trace, s, a, FinishCommit(p));
  }

  lemma ReadHeadStep(trace: Trace, s: State, a: Spec, p: Pid, i: nat)
    requires Reached(trace, s, a) && s.phase == Boot && Holds(s, p, i, s.lay.start)
    ensures HeaderLen(s.cache.bufs[i].data) <= LOGSIZE
    ensures Reached(trace.Then(ReadHead(p, i)), s.(lh := HeaderOf(s.cache.bufs[i].data), phase := Install(p, 0, true)), a)
  {
    ReachedSim(trace, s, a);
    LogBufferIsDisk(s, i);
    ReachedStep(trace, s, a, ReadHead(p, i));
  }

  lemma ReachedBoot(trace: Trace, s: State, a: Spec)
    requires Reached(trace, s, a) && s.phase == Boot
    ensures s.lh == []
  {
    ReachedSim(trace, s, a);
  }

  /** With the log empty and no commit running, the disk is what the file system sees. */
  lemma ReachedSettled(trace: Trace, s: State, a: Spec)
    requires Reached(trace, s, a) && s.lh == [] && (s.phase.Idle? || s.phase.Finishing?)
    ensures WfDisk(s.lay, s.disk) && OnDisk(s.lay, s.disk) == []
    ensures SameHome(s.lay, s.disk, a.current) && SameHome(s.lay, s.disk, a.durable)
  {
    ReachedSim(trace, s, a);
  }

  /** Locking a buffer that bget has just fetched, and reading it if need be, opens it. */
  lemma FetchedOpened(s: State, p: Pid, b: nat, i: nat, c: Cache, t: State)
    requires WfShape(s) && Counted(s.cache.bufs, s.users, Pins(s.lh, s.phase), |s.disk|)
    requires Fetched(s.cache, DEV, b, i, c) && b < |s.disk| && p !in s.users[i]
    ensures c.bufs[i].blockno == b && (s.users[i] == {} ==> c.bufs[i].lock.None?)
    ensures c.bufs[i].lock.None? && t == s.(cache := SetBuf(c, i, Settled(c.bufs[i], p, s.disk[b])), users := s.users[i := s.users[i] + {p}])
      ==> Opened(s, p, b, i, t)
  {
    assert BufCounted(s.cache.bufs[i], s.users[i], Pins(s.lh, s.phase), |s.disk|);
  }

  /** Commit works on this buffer: it holds a block of the log, or a logged block. */
  ghost predicate Needed(s: State, b: nat) { !s.lay.Home(b) || b in s.lh }

  /** p uses the buffers of `held`, alone. Other processes use exactly those of `rest`, none of which
      a commit needs. */
  ghost predicate Uses(s: State, p: Pid, held: set<nat>, rest: set<nat>) {
    && |s.users| == |s.cache.bufs| && held !! rest
    && forall i | 0 <= i < |s.users| :: UsesBuf(s, p, held, rest, i)
  }

  ghost predicate UsesBuf(s: State, p: Pid, held: set<nat>, rest: set<nat>, i: nat)
    requires i < |s.users| == |s.cache.bufs|
  {
    if i in held then s.users[i] == {p}
    else if i in rest then s.users[i] != {} && p !in s.users[i] && Mine(s.cache.bufs[i]) && !Needed(s, s.cache.bufs[i].blockno)
    else s.users[i] == {}
  }

  /** Nobody but p uses a block that commit needs. */
  lemma NobodyUses(s: State, p: Pid, held: set<nat>, rest: set<nat>, b: nat)
    requires Uses(s, p, held, rest) && Needed(s, b)
    ensures forall i | 0 <= i < |s.users| && i !in held && Matches(s.cache.bufs[i], DEV, b) :: s.users[i] == {}
  {
    forall i | 0 <= i < |s.users| && i !in held && Matches(s.cache.bufs[i], DEV, b) ensures s.users[i] == {} {
      assert UsesBuf(s, p, held, rest, i);
    }
  }

  lemma OpenedUses(s: State, p: Pid, b: nat, i: nat, t: State, held: set<nat>, rest: set<nat>)
    requires Uses(s, p, held, rest) && Opened(s, p, b, i, t) && Needed(s, b)
    ensures i !in held && Uses(t, p, held + {i}, rest)
  {
    assert UsesBuf(s, p, held, rest, i);
    forall j | 0 <= j < |t.users| ensures UsesBuf(t, p, held + {i}, rest, j) { assert UsesBuf(s, p, held, rest, j); }
  }

  lemma ClosedUses(s: State, p: Pid, i: nat, t: State, held: set<nat>, rest: set<nat>)
    requires Uses(s, p, held, rest) && Closed(s, p, i, t) && i in held
    ensures Uses(t, p, held - {i}, rest)
  {
    assert UsesBuf(s, p, held, rest, i);
    forall j | 0 <= j < |t.users| ensures UsesBuf(t, p, held - {i}, rest, j) { assert UsesBuf(s, p, held, rest, j); }
  }

  /** Writing to buffers and dropping log entries takes nothing away from other processes. */
  lemma UsesKept(s: State, p: Pid, held: set<nat>, rest: set<nat>, t: State)
    requires Uses(s, p, held, rest) && t.users == s.users && |t.cache.bufs| == |s.cache.bufs| && t.lay == s.lay
    requires t.lh == s.lh || t.lh == [] || rest == {}
    requires forall i | 0 <= i < |s.cache.bufs| :: t.cache.bufs[i].dev == s.cache.bufs[i].dev && t.cache.bufs[i].blockno == s.cache.bufs[i].blockno
    ensures Uses(t, p, held, rest)
  {
    forall j | 0 <= j < |t.users| ensures UsesBuf(t, p, held, rest, j) { assert UsesBuf(s, p, held, rest, j); }
  }

  /** A log block gets a buffer exactly when one is unused. */
  lemma ReachedFirst(trace: Trace, v: State, a: Spec, p: Pid, b: nat, rest: set<nat>)
    requires Reached(trace, v, a) && Uses(v, p, {}, rest) && !v.lay.Home(b)
    ensures WfShape(v) && (Get(v.cache, DEV, b).Got? <==> Spare(v))
  {
    ReachedSim(trace, v, a);
    NobodyUses(v, p, {}, rest, b);
    forall i | 0 <= i < NBUF && Matches(v.cache.bufs[i], DEV, b) ensures v.cache.bufs[i].refcnt == 0 {
      assert BufCounted(v.cache.bufs[i], v.users[i], Pins(v.lh, v.phase), |v.disk|);
    }
  }

  /** The second block needs no new buffer if it is pinned, and finds one if none is. */
  lemma ReachedSecond(trace: Trace, v: State, a: Spec, p: Pid, b: nat, i: nat, rest: set<nat>)
    requires Reached(trace, v, a) && Uses(v, p, {i}, rest) && i < NBUF
    requires (Pins(v.lh, v.phase) == [] && rest == {}) || b in Pins(v.lh, v.phase)
    ensures WfShape(v)
    ensures Get(v.cache, DEV, b).Got?
  {
    ReachedSim(trace, v, a);
    if b in Pins(v.lh, v.phase) {
      assert HasValid(v.cache.bufs, b);
    } else {
      var j := if i == 0 then 1 else 0;
      assert UsesBuf(v, p, {i}, rest, j);
      assert BufCounted(v.cache.bufs[j], v.users[j], [], |v.disk|);
    }
  }

  /** Giving back the buffer of a log block leaves it unused. */
  lemma ReachedSpare(trace: Trace, v: State, a: Spec, i: nat)
    requires Reached(trace, v, a) && i < |v.users| && v.users[i] == {} && i < |v.cache.bufs| && !v.lay.Home(v.cache.bufs[i].blockno)
    ensures Spare(v)
  {
    ReachedSim(trace, v, a);
    assert BufCounted(v.cache.bufs[i], v.users[i], Pins(v.lh, v.phase), |v.disk|);
  }

  /** With no buffer in use and none pinned, any will do. */
  lemma ReachedAlone(trace: Trace, v: State, a: Spec, p: Pid)
    requires Reached(trace, v, a) && Uses(v, p, {}, {}) && Pins(v.lh, v.phase) == []
    ensures Spare(v)
  {
    ReachedSim(trace, v, a);
    assert UsesBuf(v, p, {}, {}, 0);
    assert BufCounted(v.cache.bufs[0], v.users[0], [], |v.disk|);
  }

  function Settled(b: Buf, p: Pid, x: Block): Buf {
    b.(lock := Some(p), valid := true, data := if b.valid then b.data else x)
  }

  /** How a bread ends, or where it waits. */
  datatype Read = NoBuffer | Waits(i: nat) | Have(i: nat)

  class Log {
    const lay: Layout
    var cache: Cache  // the state of kernel/bio.c
    var disk: seq<Block>
    var lh: seq<nat>  // log.lh.block[0..log.lh.n]
    var outstanding: nat
    var committing: bool
    ghost var users: seq<set<Pid>>
    ghost var ops: map<Pid, nat>
    ghost var sleepers: set<Pid>
    ghost var phase: Phase
    ghost var trace: Trace
    ghost var spec: Spec

    /** The machine as it boots, before initlog has recovered the log. */
    constructor (lay: Layout, disk: seq<Block>, ghost d: seq<Block>)
      requires WfDisk(lay, disk) && Survives(lay, disk, d)
      ensures Valid()
      ensures View() == Rebooted(lay, disk) && spec == Spec(d, d, {}) && trace == Trace(lay, disk, d, [])
    {
      this.lay, this.disk, lh, outstanding, committing := lay, disk, [], 0, false;
      cache := Cache(seq(NBUF, _ => BootBuf), BootOrder);
      users, ops, sleepers, phase := seq(NBUF, _ => {}), map[], {}, Boot;
      trace, spec := Trace(lay, disk, d, []), Spec(d, d, {});
      new;
      assert ReachedFrom(trace, View(), spec, View(), spec);
      assert View() == Rebooted(lay, disk);
    }

    ghost function View(): State
      reads this`disk, this`cache, this`users, this`lh, this`outstanding, this`ops, this`sleepers, this`phase
    {
      State(lay, disk, cache, users, lh, outstanding, ops, sleepers, phase)
    }

    ghost predicate Valid()
      reads this
    {
      && |cache.bufs| == |users| == NBUF
      && committing == Committing(phase)
      && Reached(trace, View(), spec)
    }

    /** acquiresleep on a buffer nobody holds. */
    method LockBuf(p: Pid, i: nat)
      requires Valid() && i < NBUF && p in users[i] && cache.bufs[i].lock.None?
      modifies this`trace, this`cache
      ensures Valid()
      ensures View() == old(View()).(cache := SetBuf(old(cache), i, old(cache.bufs[i]).(lock := Some(p))))
    {
      ghost var s := View();
      ReachedBufs(trace, s, spec);
      cache := SetBuf(cache, i, cache.bufs[i].(lock := Some(p)));
      CacheStep(trace, s, spec, Lock(p, i), View());
      trace := trace.Then(Lock(p, i));
    }

    /** virtio_disk_rw(b, 0), if the buffer has not been read. */
    method FillBuf(p: Pid, i: nat)
      requires Valid() && i < NBUF && cache.bufs[i].lock == Some(p) && !cache.bufs[i].valid
      requires cache.bufs[i].blockno < |disk|
      modifies this`trace, this`cache
      ensures Valid()
      ensures View() == old(View()).(cache := SetBuf(old(cache), i,
                old(cache.bufs[i]).(valid := true, data := disk[old(cache.bufs[i]).blockno])))
    {
      ghost var s := View();
      ReachedBufs(trace, s, spec);
      cache := SetBuf(cache, i, cache.bufs[i].(valid := true, data := disk[cache.bufs[i].blockno]));
      CacheStep(trace, s, spec, Fill(p, i), View());
      trace := trace.Then(Fill(p, i));
    }

    /** bget up to the release of bcache.lock. */
    method GetBuf(p: Pid, b: nat) returns (r: Option<nat>)
      requires Valid() && WfCache(cache) && b < lay.size
      requires forall i | 0 <= i < NBUF && Matches(cache.bufs[i], DEV, b) :: p !in users[i]
      modifies this`users, this`trace, this`cache
      ensures Valid()
      ensures r.None? <==> Get(old(cache), DEV, b).NoBuffers?
      ensures r.None? ==> View() == old(View())
      ensures r.Some? ==>
        && r.value < NBUF
        && Fetched(old(cache), DEV, b, r.value, cache)
        && View() == old(View()).(cache := cache, users := old(users)[r.value := old(users)[r.value] + {p}])
    {
      ghost var s := View();
      ReachedBufs(trace, s, spec);
      var g := Get(cache, DEV, b);
      if g.NoBuffers? { return None; }
      BgetStep(trace, s, spec, p, b, g.i, g.cache);
      cache := g.cache;
      users := users[g.i := users[g.i] + {p}];
      trace := trace.Then(Bget(p, b));
      r := Some(g.i);
    }

    /** The rest of bread: acquiresleep, and the transfer if the buffer is not valid. */
    method Settle(p: Pid, i: nat)
      requires Valid() && i < NBUF && p in users[i] && cache.bufs[i].lock.None?
      requires cache.bufs[i].blockno < |disk|
      modifies this`trace, this`cache
      ensures Valid()
      ensures View() == old(View()).(cache := SetBuf(old(cache), i,
                Settled(old(cache.bufs[i]), p, disk[old(cache.bufs[i]).blockno])))
    {
      LockBuf(p, i);
      if !cache.bufs[i].valid {
        FillBuf(p, i);
      }
    }

    /** bread. If another process has the buffer locked, p has its reference and waits for the lock. */
    method Bread(p: Pid, b: nat) returns (r: Read)
      requires Valid() && WfCache(cache) && b < lay.size
      requires forall i | 0 <= i < NBUF && Matches(cache.bufs[i], DEV, b) :: p !in users[i]
      modifies this`users, this`trace, this`cache
      ensures Valid()
      ensures r.NoBuffer? <==> Get(old(cache), DEV, b).NoBuffers?
      ensures r.NoBuffer? ==> View() == old(View())
      ensures r.Waits? ==>
        && r.i < NBUF && Matches(old(cache.bufs[r.i]), DEV, b) && old(cache.bufs[r.i]).lock.Some? && old(users[r.i]) != {}
        && cache == SetBuf(old(cache), r.i, old(cache.bufs[r.i]).(refcnt := old(cache.bufs[r.i]).refcnt + 1))
        && View() == old(View()).(cache := cache, users := old(users)[r.i := old(users)[r.i] + {p}])
      ensures r.Have? ==> Opened(old(View()), p, b, r.i, View())
    {
      ghost var s := View();
      ReachedBufs(trace, s, spec);
      var g := GetBuf(p, b);
      if g.None? { return NoBuffer; }
      var i := g.value;
      ghost var c := cache;
      FetchedOpened(s, p, b, i, c, s);
      if cache.bufs[i].lock.Some? {
        return Waits(i);
      }
      Settle(p, i);
      FetchedOpened(s, p, b, i, c, View());
      r := Have(i);
    }

    method UnlockBuf(p: Pid, i: nat)
      requires Valid() && i < NBUF && cache.bufs[i].lock == Some(p)
      modifies this`trace, this`cache
      ensures Valid()
      ensures View() == old(View()).(cache := SetBuf(old(cache), i, old(cache.bufs[i]).(lock := None)))
    {
      ghost var s := View();
      ReachedBufs(trace, s, spec);
      cache := SetBuf(cache, i, cache.bufs[i].(lock := None));
      CacheStep(trace, s, spec, Unlock(p, i), View());
      trace := trace.Then(Unlock(p, i));
    }

    method DropBuf(p: Pid, i: nat)
      requires Valid() && i < NBUF && p in users[i] && cache.bufs[i].lock.None? && cache.bufs[i].refcnt > 0
      modifies this`users, this`trace, this`cache
      ensures Valid()
      ensures cache.bufs == old(cache).bufs[i := old(cache.bufs[i]).(refcnt := old(cache.bufs[i]).refcnt - 1)]
      ensures View() == old(View()).(cache := cache, users := old(users)[i := old(users)[i] - {p}])
    {
      ghost var s := View();
      ReachedBufs(trace, s, spec);
      cache := Unref(cache, i);
      users := users[i := users[i] - {p}];
      CacheStep(trace, s, spec, Drop(p, i), View());
      trace := trace.Then(Drop(p, i));
    }

    method Brelse(p: Pid, i: nat)
      requires Valid() && i < NBUF && cache.bufs[i].lock == Some(p)
      modifies this`users, this`trace, this`cache
      ensures Valid()
      ensures Closed(old(View()), p, i, View())
    {
      ghost var s := View();
      ReachedBufs(trace, s, spec);
      assert BufCounted(s.cache.bufs[i], s.users[i], Pins(lh, phase), |disk|);
      UnlockBuf(p, i);
      DropBuf(p, i);
    }

    /** The two breads of a turn of write_log or install_trans. */
    method OpenPair(p: Pid, lno: nat, dno: nat, ghost rest: set<nat>) returns (ok: bool, i: nat, j: nat)
      requires Valid() && Uses(View(), p, {}, rest)
      requires lno < lay.size && dno < lay.size && !lay.Home(lno) && lay.Home(dno) && dno in lh
      requires (Pins(lh, phase) == [] && rest == {}) || dno in Pins(lh, phase)
      modifies this`users, this`trace, this`cache
      ensures Valid() && ok == Spare(old(View()))
      ensures ok ==> i != j && Uses(View(), p, {i, j}, rest) && Holds(View(), p, i, lno) && Holds(View(), p, j, dno)
    {
      hide Spare;
      ghost var s := View();
      ReachedFirst(trace, s, spec, p, lno, rest);
      i, j := 0, 0;
      ok, i := OpenNeeded(p, lno, {}, rest);
      if !ok { return; }
      assert {} + {i} == {i};
      s := View();
      ReachedSecond(trace, s, spec, p, dno, i, rest);
      ok, j := OpenNeeded(p, dno, {i}, rest);
      assert {i} + {j} == {i, j};
    }

    /** bread of a block that commit needs: nobody else uses it. */
    method OpenNeeded(p: Pid, b: nat, ghost held: set<nat>, ghost rest: set<nat>) returns (ok: bool, i: nat)
      requires Valid() && WfCache(cache) && b < lay.size && Uses(View(), p, held, rest) && Needed(View(), b)
      requires forall k | k in held && k < NBUF :: cache.bufs[k].blockno != b
      modifies this`users, this`trace, this`cache
      ensures Valid() && ok == Get(old(cache), DEV, b).Got?
      ensures ok ==> i !in held && i < NBUF && Uses(View(), p, held + {i}, rest) && Holds(View(), p, i, b)
      ensures ok ==> forall k | 0 <= k < NBUF && k != i :: cache.bufs[k] == old(cache.bufs[k])
    {
      ghost var s := View();
      NobodyUses(s, p, held, rest, b);
      var r := Bread(p, b);
      ok, i := r.Have?, if r.Have? then r.i else 0;
      if ok { OpenedUses(s, p, b, i, View(), held, rest); }
    }

    /** The two brelses of a turn of write_log or install_trans. */
    method ClosePair(p: Pid, i: nat, j: nat, ghost rest: set<nat>)
      requires Valid() && i < NBUF && j < NBUF && i != j && Uses(View(), p, {i, j}, rest)
      requires cache.bufs[i].lock == Some(p) == cache.bufs[j].lock && (!lay.Home(cache.bufs[i].blockno) || !lay.Home(cache.bufs[j].blockno))
      modifies this`users, this`trace, this`cache
      ensures Valid() && Uses(View(), p, {}, rest) && Spare(View())
    {
      hide Spare;
      ghost var s := View();
      Brelse(p, i);
      ClosedUses(s, p, i, View(), {i, j}, rest);
      s := View();
      Brelse(p, j);
      ClosedUses(s, p, j, View(), {i, j} - {i}, rest);
      assert {i, j} - {i} - {j} == {};
      assert UsesBuf(View(), p, {}, rest, i) && UsesBuf(View(), p, {}, rest, j);
      ReachedSpare(trace, View(), spec, if lay.Home(cache.bufs[i].blockno) then j else i);
    }

    /** The body of the loop of write_log. */
    method CopyOne(p: Pid, tail: nat, ghost rest: set<nat>) returns (ok: bool)
      requires Valid() && phase == WriteLog(p, tail) && tail < |lh| && Uses(View(), p, {}, rest)
      modifies this`disk, this`users, this`phase, this`trace, this`cache
      ensures Valid() && ok == Spare(old(View()))
      ensures ok ==> phase == WriteLog(p, tail + 1) && Uses(View(), p, {}, rest) && Spare(View())
    {
      hide Spare;
      ReachedBufs(trace, View(), spec);
      var to, from;
      ok, to, from := OpenPair(p, lay.start + 1 + tail, lh[tail], rest);
      if ok {
        ghost var s := View();
        Transfer(p, tail, to, from);
        UsesKept(s, p, {to, from}, rest, View());
        ClosePair(p, to, from, rest);
      }
    }

    /** memmove and bwrite of write_log. */
    method Transfer(p: Pid, tail: nat, to: nat, from: nat)
      requires Valid() && phase == WriteLog(p, tail) && tail < |lh|
      requires Holds(View(), p, to, lay.start + 1 + tail) && Holds(View(), p, from, lh[tail])
      modifies this`disk, this`phase, this`trace, this`cache
      ensures Valid() && old(cache.bufs[to]).blockno < |old(disk)|
      ensures disk == old(disk)[old(cache.bufs[to]).blockno := old(cache.bufs[from]).data]
      ensures phase == WriteLog(p, tail + 1)
      ensures cache.bufs == old(cache).bufs[to := old(cache.bufs[to]).(data := old(cache.bufs[from]).data)]
    {
      hide Reached;
      ghost var s := View();
      CopyStep(trace, s, spec, p, to, from);
      cache := SetBuf(cache, to, cache.bufs[to].(data := cache.bufs[from].data));
      disk := disk[cache.bufs[to].blockno := cache.bufs[to].data];
      phase := WriteLog(p, tail + 1);
      assert View() == AfterCopyToLog(s, p, to, from);
      trace := trace.Then(CopyToLog(p, to, from));
    }

    method WriteLogBlocks(p: Pid, ghost rest: set<nat>) returns (ok: bool)
      requires Valid() && phase == WriteLog(p, 0) && lh != [] && Uses(View(), p, {}, rest)
      modifies this`disk, this`users, this`phase, this`trace, this`cache
      ensures Valid() && ok == Spare(old(View()))
      ensures ok ==> phase == WriteLog(p, |lh|) && Uses(View(), p, {}, rest) && Spare(View())
    {
      hide Spare, Uses;
      var tail := 0;
      while tail < |lh|
        invariant 0 <= tail <= |lh| && Valid() && phase == WriteLog(p, tail) && Uses(View(), p, {}, rest)
        invariant if tail == 0 then View() == old(View()) else Spare(View()) && Spare(old(View()))
      {
        ok := CopyOne(p, tail, rest);
        if !ok { return; }
        tail := tail + 1;
      }
      ok := true;
    }

    /** The loop of write_head that fills in the header block. */
    method Encode(b: Block, h: seq<nat>) returns (r: Block)
      requires |h| <= LOGSIZE && forall k | 0 <= k < |h| :: h[k] < U32_LIMIT
      ensures r == PutHeader(b, h)
    {
      r := PutU32(b, 0, |h|);
      ghost var b0 := r;
      for i := 0 to |h|
        invariant r == PutWords(b0, 1, h[..i])
      {
        r := PutU32(r, 1 + i, h[i]);
        assert h[..i + 1][..i] == h[..i];
      }
      assert h[..|h|] == h;
    }

    /** The loop of read_head that copies the entries out of the header block. */
    method Decode(b: Block) returns (h: seq<nat>)
      requires HeaderLen(b) < WORDS
      ensures h == HeaderOf(b)
    {
      h := [];
      var n := GetU32(b, 0);
      for i := 0 to n
        invariant |h| == i && forall k | 0 <= k < i :: h[k] == GetU32(b, 1 + k)
      {
        h := h + [GetU32(b, 1 + i)];
      }
    }

    /** write_head, as the commit point and as the end of commit and recovery. */
    method WriteHeader(p: Pid, ghost rest: set<nat>) returns (ok: bool)
      requires Valid() && Uses(View(), p, {}, rest)
      requires phase == WriteLog(p, |lh|) || (phase.Clear? && phase.p == p)
      modifies this`disk, this`users, this`phase, this`trace, this`spec, this`cache
      ensures Valid() && ok == Spare(old(View()))
      ensures spec == if ok && old(phase).WriteLog? then old(spec).(durable := old(spec).current) else old(spec)
      ensures ok ==> Uses(View(), p, {}, rest) && Spare(View())
      ensures ok ==> phase == if old(phase).WriteLog? then Install(p, 0, false)
                              else if old(phase).recovering then Idle else Finishing(p)
    {
      hide Spare;
      var i;
      ok, i := OpenHeader(p, rest);
      if ok {
        var data := Encode(cache.bufs[i].data, lh);
        ghost var s := View();
        StoreHeader(p, i, data);
        UsesKept(s, p, {i}, rest, View());
        CloseOne(p, i, rest);
      }
    }

    method OpenHeader(p: Pid, ghost rest: set<nat>) returns (ok: bool, i: nat)
      requires Valid() && Uses(View(), p, {}, rest)
      modifies this`users, this`trace, this`cache
      ensures Valid() && ok == Spare(old(View()))
      ensures ok ==> i < NBUF && Uses(View(), p, {i}, rest) && !lay.Home(lay.start) && Holds(View(), p, i, lay.start)
      ensures ok ==> |lh| <= LOGSIZE && forall k | 0 <= k < |lh| :: lh[k] < U32_LIMIT
    {
      hide Spare;
      ReachedBufs(trace, View(), spec);
      ReachedFirst(trace, View(), spec, p, lay.start, rest);
      ok, i := OpenNeeded(p, lay.start, {}, rest);
      assert {} + {i} == {i};
    }

    method CloseOne(p: Pid, i: nat, ghost rest: set<nat>)
      requires Valid() && i < NBUF && Uses(View(), p, {i}, rest) && cache.bufs[i].lock == Some(p) && !lay.Home(cache.bufs[i].blockno)
      modifies this`users, this`trace, this`cache
      ensures Valid() && Uses(View(), p, {}, rest) && Spare(View())
    {
      hide Spare;
      ghost var s := View();
      Brelse(p, i);
      ClosedUses(s, p, i, View(), {i}, rest);
      assert {i} - {i} == {};
      assert UsesBuf(View(), p, {}, rest, i);
      ReachedSpare(trace, View(), spec, i);
    }

    method StoreHeader(p: Pid, i: nat, data: Block)
      requires Valid() && i < NBUF && Holds(View(), p, i, lay.start)
      requires |lh| <= LOGSIZE && (forall k | 0 <= k < |lh| :: lh[k] < U32_LIMIT) && data == PutHeader(cache.bufs[i].data, lh)
      requires phase == WriteLog(p, |lh|) || (phase.Clear? && phase.p == p)
      modifies this`disk, this`phase, this`trace, this`spec, this`cache
      ensures Valid()
      ensures cache == SetBuf(old(cache), i, old(cache.bufs[i]).(data := data))
      ensures lay.start < |old(disk)| && disk == old(disk)[lay.start := data]
      ensures phase == if old(phase).WriteLog? then Install(p, 0, false)
                       else if old(phase).recovering then Idle else Finishing(p)
      ensures spec == if old(phase).WriteLog? then old(spec).(durable := old(spec).current) else old(spec)
    {
      hide Reached, PutHeader;
      ghost var s := View();
      HeadStep(trace, s, spec, p, i);
      cache := SetBuf(cache, i, cache.bufs[i].(data := data));
      disk := disk[lay.start := data];
      trace := trace.Then(if phase.WriteLog? then WriteHead(p, i) else WriteEmptyHead(p, i));
      spec := if phase.WriteLog? then spec.(durable := spec.current) else spec;
      phase := if phase.WriteLog? then Install(p, 0, false) else if phase.recovering then Idle else Finishing(p);
    }

    /** The body of the loop of install_trans. */
    method InstallOne(p: Pid, tail: nat, recovering: bool, ghost rest: set<nat>)
      requires Valid() && phase == Install(p, tail, recovering) && tail < |lh| && Uses(View(), p, {}, rest) && Spare(View())
      requires recovering ==> rest == {}
      modifies this`disk, this`users, this`phase, this`trace, this`cache
      ensures Valid() && phase == Install(p, tail + 1, recovering) && Uses(View(), p, {}, rest) && Spare(View())
    {
      hide Spare;
      ReachedBufs(trace, View(), spec);
      assert !recovering ==> Pins(lh, phase)[0] == lh[tail];
      var ok, lbuf, dbuf := OpenPair(p, lay.start + 1 + tail, lh[tail], rest);
      ghost var s := View();
      CopyHome(p, tail, recovering, lbuf, dbuf);
      UsesKept(s, p, {lbuf, dbuf}, rest, View());
      ClosePair(p, lbuf, dbuf, rest);
    }

    /** memmove, bwrite and bunpin of install_trans. */
    method CopyHome(p: Pid, tail: nat, recovering: bool, lbuf: nat, dbuf: nat)
      requires Valid() && phase == Install(p, tail, recovering) && tail < |lh|
      requires Holds(View(), p, lbuf, lay.start + 1 + tail) && Holds(View(), p, dbuf, lh[tail])
      modifies this`disk, this`phase, this`trace, this`cache
      ensures Valid() && old(cache.bufs[dbuf]).blockno < |old(disk)|
      ensures disk == old(disk)[old(cache.bufs[dbuf]).blockno := old(cache.bufs[lbuf]).data]
      ensures phase == Install(p, tail + 1, recovering)
      ensures cache.bufs == old(cache).bufs[dbuf := cache.bufs[dbuf]]
      ensures cache.bufs[dbuf] == old(cache.bufs[dbuf]).(data := cache.bufs[dbuf].data, refcnt := cache.bufs[dbuf].refcnt)
    {
      hide Reached;
      ghost var s := View();
      InstallStep(trace, s, spec, p, lbuf, dbuf);
      var n := if recovering then cache.bufs[dbuf].refcnt else cache.bufs[dbuf].refcnt - 1;
      cache := SetBuf(cache, dbuf, cache.bufs[dbuf].(data := cache.bufs[lbuf].data, refcnt := n));
      disk := disk[cache.bufs[dbuf].blockno := cache.bufs[dbuf].data];
      phase := Install(p, tail + 1, recovering);
      assert View() == AfterInstall(s, p, lbuf, dbuf);
      trace := trace.Then(InstallBlock(p, lbuf, dbuf));
    }

    /** install_trans followed by log.lh.n = 0. */
    method InstallTrans(p: Pid, recovering: bool, ghost rest: set<nat>)
      requires Valid() && phase == Install(p, 0, recovering) && Uses(View(), p, {}, rest) && Spare(View())
      requires recovering ==> rest == {}
      modifies this`disk, this`lh, this`users, this`phase, this`trace, this`cache
      ensures Valid() && phase == Clear(p, recovering) && Uses(View(), p, {}, rest) && Spare(View()) && lh == []
    {
      var tail := 0;
      while tail < |lh|
        invariant 0 <= tail <= |lh| && (recovering ==> rest == {})
        invariant Valid() && phase == Install(p, tail, recovering) && Uses(View(), p, {}, rest) && Spare(View())
      {
        hide Spare, Uses;
        InstallOne(p, tail, recovering, rest);
        tail := tail + 1;
      }
      ghost var s := View();
      Erase(p, recovering);
      UsesKept(s, p, {}, rest, View());
    }

    method Erase(p: Pid, recovering: bool)
      requires Valid() && phase == Install(p, |lh|, recovering)
      modifies this`lh, this`phase, this`trace
      ensures Valid() && phase == Clear(p, recovering) && lh == []
    {
      ghost var s := View();
      EraseStep(trace, s, spec, p);
      lh := [];
      phase := Clear(p, recovering);
      assert View() == s.(lh := [], phase := Clear(p, recovering));
      trace := trace.Then(EraseHead(p));
    }

    /** commit: all four stages. It panics, for want of a buffer, exactly when none is unused. */
    method CommitTransaction(p: Pid, ghost rest: set<nat>) returns (ok: bool)
      requires Valid() && phase == WriteLog(p, 0) && lh != [] && Uses(View(), p, {}, rest)
      modifies this`disk, this`lh, this`users, this`phase, this`trace, this`spec, this`cache
      ensures Valid() && ok == Spare(old(View()))
      ensures !ok ==> spec == old(spec)
      ensures ok ==> spec == old(spec).(durable := old(spec).current) && Uses(View(), p, {}, rest)
      ensures ok ==> phase == Finishing(p) && lh == []
    {
      hide Spare, Uses;
      ok := WriteLogBlocks(p, rest);
      if ok {
        ok := WriteHeader(p, rest);
        InstallTrans(p, false, rest);
        ok := WriteHeader(p, rest);
      }
    }

    /** begin_op, one turn of its loop: sleep, or join the transaction. */
    method BeginOperation(p: Pid) returns (slept: bool)
      requires Valid() && !Recovering(phase) && p !in ops && p !in sleepers
      modifies this`outstanding, this`ops, this`sleepers, this`trace, this`spec
      ensures Valid() && slept == (old(committing) || |old(lh)| + (old(outstanding) + 1) * MAXOPBLOCKS > LOGSIZE)
      ensures slept ==> View() == old(View()).(sleepers := old(sleepers) + {p}) && spec == old(spec)
      ensures !slept ==>
        && View() == old(View()).(outstanding := old(outstanding) + 1, ops := old(ops)[p := 0])
        && spec == old(spec).(active := old(spec).active + {p})
    {
      hide Reached;
      BeginStep(trace, View(), spec, p);
      slept := committing || |lh| + (outstanding + 1) * MAXOPBLOCKS > LOGSIZE;
      if slept {
        sleepers := sleepers + {p};
        trace := trace.Then(SleepInBeginOp(p));
      } else {
        outstanding := outstanding + 1;
        ops := ops[p := 0];
        trace := trace.Then(BeginOp(p));
        spec := spec.(active := spec.active + {p});
      }
    }

    /** log_write on a buffer the caller has changed to `data`. */
    method WriteToLog(p: Pid, i: nat, data: Block) returns (panics: bool)
      requires Valid() && p in ops && i < NBUF && Holds(View(), p, i, cache.bufs[i].blockno)
      requires lay.Home(cache.bufs[i].blockno) && (cache.bufs[i].blockno !in lh ==> ops[p] < MAXOPBLOCKS)
      modifies this`lh, this`ops, this`cache, this`trace, this`spec
      ensures Valid() && panics == old(LogWritePanics(View()))
      ensures panics ==> View() == old(View()) && spec == old(spec)
      ensures !panics ==>
        && old(MayLogWrite(View(), p, i)) && View() == AfterLogWrite(old(View()), p, i, data)
        && old(cache.bufs[i]).blockno < |old(spec).current|
        && spec == old(spec).(current := old(spec).current[old(cache.bufs[i]).blockno := data])
    {
      hide Reached;
      panics := |lh| >= LOGSIZE || |lh| >= lay.nlog - 1 || outstanding < 1;
      if panics { return; }
      LogWriteStep(trace, View(), spec, p, i, data);
      var b := cache.bufs[i].blockno;
      var k := 0;
      while k < |lh| && lh[k] != b
        invariant 0 <= k <= |lh| && b !in lh[..k]
      {
        k := k + 1;
      }
      trace := trace.Then(LogWrite(p, i, data));
      spec := spec.(current := spec.current[b := data]);
      if k == |lh| {
        assert lh[..k] == lh;
        lh := lh + [b];
        ops := ops[p := ops[p] + 1];
        cache := SetBuf(cache, i, cache.bufs[i].(data := data, refcnt := cache.bufs[i].refcnt + 1));
      } else {
        assert lh[k := b] == lh;
        cache := SetBuf(cache, i, cache.bufs[i].(data := data));
      }
    }

    /** end_op. The last operation out commits the transaction; from then on everything
        the file system sees is on disk and survives. */
    method EndOperation(p: Pid, ghost rest: set<nat>) returns (ok: bool)
      requires Valid() && p in ops && (outstanding == 1 ==> Uses(View(), p, {}, rest))
      modifies this
      ensures Valid() && spec.active == old(spec).active - {p} && spec.current == old(spec).current
      ensures old(outstanding) > 1 ==> ok && disk == old(disk) && lh == old(lh) && spec.durable == old(spec).durable && sleepers == {}
      ensures old(outstanding) == 1 ==> ok == (old(lh) == [] || Spare(old(View())))
      ensures old(outstanding) == 1 && ok ==>
        && phase == Idle && lh == [] && outstanding == 0 && sleepers == {}
        && WfDisk(lay, disk) && OnDisk(lay, disk) == []
        && SameHome(lay, disk, old(spec).current) && SameHome(lay, disk, spec.durable)
    {
      ghost var s := View();
      var doCommit := Leave(p);
      ok := true;
      if doCommit {
        UsesKept(s, p, {}, rest, View());
        if |lh| > 0 {
          ok := CommitTransaction(p, rest);
        }
        if ok {
          FinishOperation(p);
        }
      }
    }

    /** The critical section of end_op. */
    method Leave(p: Pid) returns (doCommit: bool)
      requires Valid() && p in ops
      modifies this`outstanding, this`committing, this`ops, this`sleepers, this`phase, this`trace, this`spec
      ensures Valid() && spec == old(spec).(active := old(spec).active - {p})
      ensures old(outstanding) > 0 && doCommit == (old(outstanding) == 1)
      ensures View() == Ended(old(View()), p)
    {
      hide Reached;
      EndStep(trace, View(), spec, p);
      outstanding := outstanding - 1;
      ops := ops - {p};
      trace := trace.Then(EndOp(p));
      spec := spec.(active := spec.active - {p});
      doCommit := outstanding == 0;
      if doCommit {
        committing := true;
        phase := if lh == [] then Finishing(p) else WriteLog(p, 0);
      } else {
        sleepers := {};
      }
    }

    method FinishOperation(p: Pid)
      requires Valid() && phase == Finishing(p) && lh == []
      modifies this`committing, this`phase, this`sleepers, this`trace
      ensures Valid() && phase == Idle && sleepers == {}
      ensures WfDisk(lay, disk) && OnDisk(lay, disk) == []
      ensures SameHome(lay, disk, spec.current) && SameHome(lay, disk, spec.durable)
    {
      ReachedSettled(trace, View(), spec);
      FinishStep(trace, View(), spec, p);
      committing := false;
      phase := Idle;
      sleepers := {};
      trace := trace.Then(FinishCommit(p));
    }

    /** recover_from_log, run at boot. It never fails, and leaves exactly the surviving
        blocks in their home locations. */
    method RecoverFromLog(p: Pid)
      requires Valid() && phase == Boot && Uses(View(), p, {}, {})
      modifies this`disk, this`lh, this`users, this`phase, this`trace, this`spec, this`cache
      ensures Valid() && phase == Idle && lh == [] && spec == old(spec)
      ensures WfDisk(lay, disk) && OnDisk(lay, disk) == [] && SameHome(lay, disk, spec.durable)
    {
      ReadHeader(p);
      InstallTrans(p, true, {});
      var ok := WriteHeader(p, {});
      ReachedSettled(trace, View(), spec);
    }

    /** read_head. */
    method ReadHeader(p: Pid)
      requires Valid() && phase == Boot && Uses(View(), p, {}, {})
      modifies this`lh, this`users, this`phase, this`trace, this`cache
      ensures Valid() && phase == Install(p, 0, true) && Uses(View(), p, {}, {}) && Spare(View())
    {
      ReachedBoot(trace, View(), spec);
      ReachedAlone(trace, View(), spec, p);
      var ok, i := OpenHeader(p, {});
      ghost var s := View();
      ReadHeadStep(trace, s, spec, p, i);
      lh := Decode(cache.bufs[i].data);
      phase := Install(p, 0, true);
      trace := trace.Then(ReadHead(p, i));
      UsesKept(s, p, {i}, {}, View());
      CloseOne(p, i, {});
    }
  }
}
