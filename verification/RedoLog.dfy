/** The redo log of kernel/log.c over the buffer cache, as a machine whose steps are
    the critical sections and the disk transfers of the code. Processes interleave
    freely, and the machine may crash before, after or in the middle of any transfer. */
module RedoLog {
  import opened Bytes
  import opened BufferCache
  import opened Counting

  const MAXOPBLOCKS: nat := 10
  const LOGSIZE: nat := 30  // MAXOPBLOCKS * 3
  const DEV: nat := 1       // ROOTDEV

  // ---------------------------------------------------------------------------
  // Disk layout and the log header
  // ---------------------------------------------------------------------------

  /** The part of the superblock the log uses: log.start, log.size and the disk size. */
  datatype Layout = Layout(start: nat, nlog: nat, size: nat) {
    ghost predicate Wf() {
      LOGSIZE < nlog && start + nlog <= size < 0x8000_0000
    }

    /** Blocks the file system proper may use. */
    ghost predicate Home(b: nat) {
      b < size && !(start <= b < start + nlog)
    }
  }

  ghost predicate WfEntries(lay: Layout, h: seq<nat>) {
    && |h| <= LOGSIZE
    && (forall k | 0 <= k < |h| :: lay.Home(h[k]))
    && Distinct(h)
  }

  function HeaderLen(b: Block): nat { GetU32(b, 0) }

  /** read_head: the block numbers listed in a header block. */
  function HeaderOf(b: Block): (h: seq<nat>)
    requires HeaderLen(b) < WORDS
    ensures |h| == HeaderLen(b)
  {
    seq(HeaderLen(b), (k: nat) requires k < HeaderLen(b) => GetU32(b, 1 + k))
  }

  /** write_head: store n and the first n entries, leaving the rest of the block. */
  function PutHeader(b: Block, h: seq<nat>): (r: Block)
    requires |h| <= LOGSIZE && forall k | 0 <= k < |h| :: h[k] < U32_LIMIT
    ensures HeaderLen(r) == |h| && HeaderOf(r) == h
  {
    PutWords(PutU32(b, 0, |h|), 1, h)
  }

  ghost predicate WfDisk(lay: Layout, disk: seq<Block>) {
    && lay.Wf()
    && |disk| == lay.size
    && HeaderLen(disk[lay.start]) <= LOGSIZE
    && WfEntries(lay, HeaderOf(disk[lay.start]))
  }

  // ---------------------------------------------------------------------------
  // States and steps
  // ---------------------------------------------------------------------------

  /** Where the process running commit() or recover_from_log() is. `Install(p, t, true)`
      is install_trans(1), run by recovery. */
  datatype Phase =
    | Boot
    | Idle
    | WriteLog(p: Pid, tail: nat)
    | Install(p: Pid, tail: nat, recovering: bool)
    | Clear(p: Pid, recovering: bool)
    | Finishing(p: Pid)

  /** `users[i]` are the processes that took a reference to buffer i and have not
      dropped it; `ops` maps each process inside begin_op..end_op to the number of
      log entries it has added. */
  datatype State = State(
    lay: Layout,
    disk: seq<Block>,
    cache: Cache,
    users: seq<set<Pid>>,
    lh: seq<nat>,
    outstanding: nat,
    ops: map<Pid, nat>,
    sleepers: set<Pid>,
    phase: Phase)

  datatype Step =
    | Bget(p: Pid, b: nat)
    | Lock(p: Pid, i: nat)
    | Fill(p: Pid, i: nat)
    | Unlock(p: Pid, i: nat)
    | Drop(p: Pid, i: nat)
    | BeginOp(p: Pid)
    | SleepInBeginOp(p: Pid)
    | LogWrite(p: Pid, i: nat, data: Block)
    | EndOp(p: Pid)
    | CopyToLog(p: Pid, to: nat, from: nat)
    | WriteHead(p: Pid, i: nat)
    | InstallBlock(p: Pid, lbuf: nat, dbuf: nat)
    | EraseHead(p: Pid)
    | WriteEmptyHead(p: Pid, i: nat)
    | FinishCommit(p: Pid)
    | ReadHead(p: Pid, i: nat)
    | Crash(torn: Option<Block>)

  /** p holds the sleep-lock of buffer i, which caches block b and has been read. */
  predicate Holds(s: State, p: Pid, i: nat, b: nat) {
    && i < |s.cache.bufs|
    && Matches(s.cache.bufs[i], DEV, b)
    && s.cache.bufs[i].valid
    && s.cache.bufs[i].lock == Some(p)
  }

  predicate Committing(phase: Phase) {
    match phase
    case WriteLog(_, _) => true
    case Install(_, _, recovering) => !recovering
    case Clear(_, recovering) => !recovering
    case Finishing(_) => true
    case Boot => false
    case Idle => false
  }

  predicate Recovering(phase: Phase) {
    match phase
    case Boot => true
    case Install(_, _, recovering) => recovering
    case Clear(_, recovering) => recovering
    case WriteLog(_, _) => false
    case Finishing(_) => false
    case Idle => false
  }

  /** The two conditions on which begin_op sleeps. */
  predicate MustWait(s: State) {
    Committing(s.phase) || |s.lh| + (s.outstanding + 1) * MAXOPBLOCKS > LOGSIZE
  }

  /** The two panics of log_write. */
  predicate LogWritePanics(s: State) {
    || |s.lh| >= LOGSIZE
    || |s.lh| >= s.lay.nlog - 1
    || s.outstanding < 1
  }

  ghost predicate WfShape(s: State) {
    && WfDisk(s.lay, s.disk)
    && WfCache(s.cache)
    && |s.users| == NBUF
    && WfEntries(s.lay, s.lh)
  }

  /** The block whose transfer is under way, and which a crash may leave with any
      content. A transfer of the header block is not one of them. */
  function InFlight(s: State): Option<nat> {
    match s.phase
    case WriteLog(_, t) => if t < |s.lh| then Some(s.lay.start + 1 + t) else None
    case Install(_, t, _) => if t < |s.lh| then Some(s.lh[t]) else None
    case Boot => None
    case Idle => None
    case Clear(_, _) => None
    case Finishing(_) => None
  }

  /** The caller holds the buffer and is inside an operation that has log space left;
      the file system writes no block of the log itself. */
  ghost predicate MayLogWrite(s: State, p: Pid, i: nat) {
    && p in s.ops && i < |s.cache.bufs|
    && Holds(s, p, i, s.cache.bufs[i].blockno)
    && s.lay.Home(s.cache.bufs[i].blockno)
    && !LogWritePanics(s)
    && (s.cache.bufs[i].blockno !in s.lh ==> s.ops[p] < MAXOPBLOCKS)
  }

  /** One turn of the loop of write_log, with both buffers read. */
  ghost predicate MayCopyToLog(s: State, p: Pid, to: nat, from: nat) {
    && s.phase.WriteLog? && s.phase.p == p && s.phase.tail < |s.lh|
    && Holds(s, p, to, s.lay.start + 1 + s.phase.tail)
    && Holds(s, p, from, s.lh[s.phase.tail])
    && s.cache.bufs[to].blockno < |s.disk|
  }

  /** One turn of the loop of install_trans, with both buffers read. */
  ghost predicate MayInstall(s: State, p: Pid, lbuf: nat, dbuf: nat) {
    && s.phase.Install? && s.phase.p == p && s.phase.tail < |s.lh|
    && Holds(s, p, lbuf, s.lay.start + 1 + s.phase.tail)
    && Holds(s, p, dbuf, s.lh[s.phase.tail])
    && s.cache.bufs[dbuf].refcnt > 0
    && s.cache.bufs[dbuf].blockno < |s.disk|
  }

  ghost predicate Enabled(s: State, st: Step)
    requires WfShape(s)
  {
    match st
    case Bget(p, b) =>
      // a process that already uses the buffer would wait for itself
      && b < s.lay.size
      && Get(s.cache, DEV, b).Got?
      && p !in s.users[Get(s.cache, DEV, b).i]
    case Lock(p, i) =>
      i < NBUF && p in s.users[i] && s.cache.bufs[i].lock.None?
    case Fill(p, i) =>
      i < NBUF && s.cache.bufs[i].lock == Some(p) && !s.cache.bufs[i].valid
      && s.cache.bufs[i].blockno < |s.disk|
    case Unlock(p, i) =>
      i < NBUF && s.cache.bufs[i].lock == Some(p)
    case Drop(p, i) =>
      i < NBUF && p in s.users[i] && s.cache.bufs[i].lock != Some(p) && s.cache.bufs[i].refcnt > 0
    case BeginOp(p) =>
      !Recovering(s.phase) && p !in s.ops && p !in s.sleepers && !MustWait(s)
    case SleepInBeginOp(p) =>
      !Recovering(s.phase) && p !in s.ops && MustWait(s)
    case LogWrite(p, i, data) =>
      MayLogWrite(s, p, i)
    case EndOp(p) =>
      p in s.ops && s.outstanding > 0
    case CopyToLog(p, to, from) =>
      MayCopyToLog(s, p, to, from)
    case WriteHead(p, i) =>
      && s.phase.WriteLog? && s.phase.p == p && s.phase.tail == |s.lh|
      && Holds(s, p, i, s.lay.start)
    case InstallBlock(p, lbuf, dbuf) =>
      MayInstall(s, p, lbuf, dbuf)
    case EraseHead(p) =>
      s.phase.Install? && s.phase.p == p && s.phase.tail == |s.lh|
    case WriteEmptyHead(p, i) =>
      s.phase.Clear? && s.phase.p == p && Holds(s, p, i, s.lay.start)
    case FinishCommit(p) =>
      s.phase == Finishing(p)
    case ReadHead(p, i) =>
      && s.phase.Boot? && Holds(s, p, i, s.lay.start)
      && HeaderLen(s.cache.bufs[i].data) <= LOGSIZE
    case Crash(torn) =>
      torn.Some? ==> InFlight(s).Some?
  }

  function SetBuf(c: Cache, i: nat, b: Buf): Cache
    requires i < |c.bufs|
  {
    c.(bufs := c.bufs[i := b])
  }

  const BootOrder: seq<nat> := seq(NBUF, (k: nat) requires k < NBUF => NBUF - 1 - k)

  /** Memory as it is after a reboot: only the disk survives. */
  function Rebooted(lay: Layout, disk: seq<Block>): State {
    State(lay, disk, Cache(seq(NBUF, _ => BootBuf), BootOrder), seq(NBUF, _ => {}),
          [], 0, map[], {}, Boot)
  }

  /** log_write with the caller's change to the buffer: absorb the block if it is
      already in the log, otherwise append it and pin the buffer. */
  ghost function AfterLogWrite(s: State, p: Pid, i: nat, data: Block): State
    requires MayLogWrite(s, p, i)
  {
    var b := s.cache.bufs[i].(data := data);
    if b.blockno in s.lh then
      s.(cache := SetBuf(s.cache, i, b))
    else
      s.(cache := SetBuf(s.cache, i, b.(refcnt := b.refcnt + 1)),
         lh := s.lh + [b.blockno],
         ops := s.ops[p := s.ops[p] + 1])
  }

  ghost function AfterCopyToLog(s: State, p: Pid, to: nat, from: nat): State
    requires MayCopyToLog(s, p, to, from)
  {
    var data := s.cache.bufs[from].data;
    s.(cache := SetBuf(s.cache, to, s.cache.bufs[to].(data := data)),
       disk := s.disk[s.cache.bufs[to].blockno := data],
       phase := WriteLog(p, s.phase.tail + 1))
  }

  ghost function AfterInstall(s: State, p: Pid, lbuf: nat, dbuf: nat): State
    requires MayInstall(s, p, lbuf, dbuf)
  {
    var data := s.cache.bufs[lbuf].data;
    var b := s.cache.bufs[dbuf].(data := data);
    s.(cache := SetBuf(s.cache, dbuf, if s.phase.recovering then b else b.(refcnt := b.refcnt - 1)),
       disk := s.disk[b.blockno := data],
       phase := Install(p, s.phase.tail + 1, s.phase.recovering))
  }

  ghost function Do(s: State, st: Step): State
    requires WfShape(s) && Enabled(s, st)
  {
    match st
    case Bget(p, b) =>
      var r := Get(s.cache, DEV, b);
      s.(cache := r.cache, users := s.users[r.i := s.users[r.i] + {p}])
    case Lock(p, i) =>
      s.(cache := SetBuf(s.cache, i, s.cache.bufs[i].(lock := Some(p))))
    case Fill(p, i) =>
      s.(cache := SetBuf(s.cache, i, s.cache.bufs[i].(valid := true, data := s.disk[s.cache.bufs[i].blockno])))
    case Unlock(p, i) =>
      s.(cache := SetBuf(s.cache, i, s.cache.bufs[i].(lock := None)))
    case Drop(p, i) =>
      s.(cache := Unref(s.cache, i), users := s.users[i := s.users[i] - {p}])
    case BeginOp(p) =>
      s.(outstanding := s.outstanding + 1, ops := s.ops[p := 0])
    case SleepInBeginOp(p) =>
      s.(sleepers := s.sleepers + {p})
    case LogWrite(p, i, data) =>
      AfterLogWrite(s, p, i, data)
    case EndOp(p) =>
      var s' := s.(outstanding := s.outstanding - 1, ops := s.ops - {p});
      if s'.outstanding != 0 then s'.(sleepers := {})
      else if s.lh == [] then s'.(phase := Finishing(p))
      else s'.(phase := WriteLog(p, 0))
    case CopyToLog(p, to, from) =>
      AfterCopyToLog(s, p, to, from)
    case WriteHead(p, i) =>
      var data := PutHeader(s.cache.bufs[i].data, s.lh);
      s.(cache := SetBuf(s.cache, i, s.cache.bufs[i].(data := data)),
         disk := s.disk[s.lay.start := data],
         phase := Install(p, 0, false))
    case InstallBlock(p, lbuf, dbuf) =>
      AfterInstall(s, p, lbuf, dbuf)
    case EraseHead(p) =>
      s.(lh := [], phase := Clear(p, s.phase.recovering))
    case WriteEmptyHead(p, i) =>
      var data := PutHeader(s.cache.bufs[i].data, s.lh);
      s.(cache := SetBuf(s.cache, i, s.cache.bufs[i].(data := data)),
         disk := s.disk[s.lay.start := data],
         phase := if s.phase.recovering then Idle else Finishing(p))
    case FinishCommit(p) =>
      s.(phase := Idle, sleepers := {})
    case ReadHead(p, i) =>
      s.(lh := HeaderOf(s.cache.bufs[i].data), phase := Install(p, 0, true))
    case Crash(torn) =>
      Rebooted(s.lay, if torn.Some? then s.disk[InFlight(s).value := torn.value] else s.disk)
  }

  // ---------------------------------------------------------------------------
  // The specification: transactions on a plain disk
  // ---------------------------------------------------------------------------

  /** `current` is the disk as the file system sees it, `durable` what survives a
      crash, `active` the file system operations under way. */
  datatype Spec = Spec(durable: seq<Block>, current: seq<Block>, active: set<Pid>)

  datatype Label =
    | Silent
    | Begin(p: Pid)
    | Update(p: Pid, b: nat, data: Block)
    | End(p: Pid)
    | Commit
    | Reset

  /** Only an operation under way changes blocks, and a commit takes in the updates
      of whole operations: none may be under way. */
  ghost predicate Allowed(a: Spec, l: Label) {
    match l
    case Silent => true
    case Begin(p) => p !in a.active
    case Update(p, b, _) => p in a.active && b < |a.current|
    case End(p) => p in a.active
    case Commit => a.active == {}
    case Reset => true
  }

  ghost function Effect(a: Spec, l: Label): Spec
    requires Allowed(a, l)
  {
    match l
    case Silent => a
    case Begin(p) => a.(active := a.active + {p})
    case Update(p, b, data) => a.(current := a.current[b := data])
    case End(p) => a.(active := a.active - {p})
    case Commit => a.(durable := a.current)
    case Reset => a.(current := a.durable, active := {})
  }

  /** The transaction event that a step stands for. The commit point is the write of
      the non-empty header, and nothing else. */
  ghost function Meaning(s: State, st: Step): Label
    requires WfShape(s) && Enabled(s, st)
  {
    match st
    case BeginOp(p) => Begin(p)
    case LogWrite(p, i, data) => Update(p, s.cache.bufs[i].blockno, data)
    case EndOp(p) => End(p)
    case WriteHead(_, _) => Commit
    case Crash(_) => Reset
    case _ => Silent
  }
}
