/** What the simulation means for whole runs: crash atomicity, cache coherence and
    log admission. */
module RedoLogTheorems {
  import opened Bytes
  import opened BufferCache
  import opened RedoLog
  import opened RedoLogProof
  import opened Runs

  lemma ReaderStepSimulates(s: State, a: Spec, st: Step)
    requires Sim(s, a) && Enabled(s, st)
    requires st.Bget? || st.Lock? || st.Fill? || st.Unlock? || st.Drop?
    ensures Sim(Do(s, st), a)
  {
    match st
    case Bget(p, b) => StepBget(s, a, p, b);
    case Lock(p, i) => StepLock(s, a, p, i);
    case Fill(p, i) => StepFill(s, a, p, i);
    case Unlock(p, i) => StepUnlock(s, a, p, i);
    case Drop(p, i) => StepDrop(s, a, p, i);
  }

  lemma CommitStepSimulates(s: State, a: Spec, st: Step)
    requires Sim(s, a) && Enabled(s, st)
    requires st.CopyToLog? || st.InstallBlock? || st.EraseHead? || st.WriteEmptyHead? || st.FinishCommit? || st.ReadHead?
    ensures Sim(Do(s, st), a)
  {
    match st
    case CopyToLog(p, to, from) => StepCopyToLog(s, a, p, to, from);
    case InstallBlock(p, lbuf, dbuf) => StepInstallBlock(s, a, p, lbuf, dbuf);
    case EraseHead(p) => StepEraseHead(s, a, p);
    case WriteEmptyHead(p, i) => StepWriteEmptyHead(s, a, p, i);
    case FinishCommit(p) => StepFinishCommit(s, a, p);
    case ReadHead(p, i) => StepReadHead(s, a, p, i);
  }

  lemma OperationStepSimulates(s: State, a: Spec, st: Step)
    requires Sim(s, a) && Enabled(s, st)
    requires st.BeginOp? || st.SleepInBeginOp? || st.LogWrite? || st.EndOp? || st.WriteHead? || st.Crash?
    ensures var l := Meaning(s, st); Allowed(a, l) && Sim(Do(s, st), Effect(a, l))
  {
    match st
    case BeginOp(p) => StepBeginOp(s, a, p);
    case SleepInBeginOp(p) => StepSleepInBeginOp(s, a, p);
    case LogWrite(p, i, data) => StepLogWrite(s, a, p, i, data);
    case EndOp(p) => StepEndOp(s, a, p);
    case WriteHead(p, i) => StepWriteHead(s, a, p, i);
    case Crash(torn) => StepCrash(s, a, torn);
  }

  /** Every step, of whichever process, is the transaction event it stands for. */
  lemma StepSimulates(s: State, a: Spec, st: Step)
    requires Sim(s, a) && Enabled(s, st)
    ensures var l := Meaning(s, st); Allowed(a, l) && Sim(Do(s, st), Effect(a, l))
  {
    if st.Bget? || st.Lock? || st.Fill? || st.Unlock? || st.Drop? {
      ReaderStepSimulates(s, a, st);
    } else if st.BeginOp? || st.SleepInBeginOp? || st.LogWrite? || st.EndOp? || st.WriteHead? || st.Crash? {
      OperationStepSimulates(s, a, st);
    } else {
      CommitStepSimulates(s, a, st);
    }
  }

  // ---------------------------------------------------------------------------
  // Runs
  // ---------------------------------------------------------------------------

  /** One step of the log. */
  ghost predicate Next(s: State, st: Step, t: State) {
    WfShape(s) && Enabled(s, st) && t == Do(s, st)
  }

  /** One step of the log and the event it stands for, with its process, block and data. */
  ghost predicate Moves(m: State, c: Spec, st: Step, v: State, a: Spec) {
    Next(m, st, v) && Allowed(c, Meaning(m, st)) && a == Effect(c, Meaning(m, st))
  }

  /** The machine and the specification side by side. */
  ghost predicate Joint(x: (State, Spec), st: Step, y: (State, Spec)) {
    Moves(x.0, x.1, st, y.0, y.1)
  }

  lemma NextSimulated(s: State, a: Spec, st: Step, t: State) returns (b: Spec)
    requires Sim(s, a) && Next(s, st, t)
    ensures Joint((s, a), st, (t, b)) && Sim(t, b)
  {
    StepSimulates(s, a, st);
    b := Effect(a, Meaning(s, st));
  }

  /** Every run of the log, with any interleaving and any crashes, is a run of the
      transaction specification: each step is the event it stands for. */
  lemma RunSimulates(s: State, a: Spec, steps: seq<Step>, t: State) returns (b: Spec)
    requires Sim(s, a) && Run(Next, s, steps, t)
    ensures Run(Joint, (s, a), steps, (t, b)) && Sim(t, b)
  {
    hide Sim, Next, Joint;
    forall m, st, n, c | Sim(m, c) && Next(m, st, n) ensures exists d :: Joint((m, c), st, (n, d)) && Sim(n, d) {
      var d := NextSimulated(m, c, st, n);
    }
    b := RunSimulated(Next, Joint, Sim, s, a, steps, t);
  }

  /** `t` is reached from a boot, on a disk on which `d` survives, by some steps. */
  ghost predicate Reaches(lay: Layout, disk: seq<Block>, d: seq<Block>, steps: seq<Step>, t: State) {
    WfDisk(lay, disk) && Survives(lay, disk, d) && Run(Next, Rebooted(lay, disk), steps, t)
  }

  /** The run takes the specification, which starts with `d` and no operation, to `a`. */
  ghost predicate Tells(lay: Layout, disk: seq<Block>, d: seq<Block>, steps: seq<Step>, t: State, a: Spec) {
    Run(Joint, (Rebooted(lay, disk), Spec(d, d, {})), steps, (t, a))
  }

  /** The transaction events behind a run from a boot. */
  lemma FromBoot(lay: Layout, disk: seq<Block>, d: seq<Block>, steps: seq<Step>, t: State) returns (a: Spec)
    requires Reaches(lay, disk, d, steps, t)
    ensures Tells(lay, disk, d, steps, t, a) && Sim(t, a)
  {
    BootSim(lay, disk, d);
    a := RunSimulates(Rebooted(lay, disk), Spec(d, d, {}), steps, t);
  }

  // ---------------------------------------------------------------------------
  // Crash atomicity
  // ---------------------------------------------------------------------------

  /** Only a commit, with no operation under way, changes what survives. */
  lemma DurableMoves(x: (State, Spec), st: Step, y: (State, Spec))
    requires Joint(x, st, y)
    ensures y.1.durable == x.1.durable || (st.WriteHead? && x.1.active == {} && y.1.durable == x.1.current)
  {
  }

  /** What would survive a crash is always the whole disk as the file system saw it at some
      earlier moment of the run when no operation was under way. */
  lemma {:induction false} DurableIsQuiescent(s: State, a: Spec, steps: seq<Step>, t: State, b: Spec)
    returns (n: nat, m: State, mid: Spec)
    requires Run(Joint, (s, a), steps, (t, b)) && a.durable == a.current && a.active == {}
    ensures n <= |steps| && Run(Joint, (s, a), steps[..n], (m, mid)) && Run(Joint, (m, mid), steps[n..], (t, b))
    ensures mid.active == {} && mid.current == b.durable
    decreases |steps|
  {
    hide Joint;
    if steps == [] {
      n, m, mid := 0, s, a;
    } else {
      var x :| Run(Joint, (s, a), Front(steps), x) && Joint(x, Last(steps), (t, b));
      DurableMoves(x, Last(steps), (t, b));
      if x.1.active == {} && b.durable == x.1.current {
        n, m, mid := |steps| - 1, x.0, x.1;
        assert steps[n..] == [] + [Last(steps)];
        RunExtends(Joint, (m, mid), [], (m, mid), Last(steps), (t, b));
      } else {
        n, m, mid := DurableIsQuiescent(s, a, Front(steps), x.0, x.1);
        assert Front(steps)[..n] == steps[..n] && steps[n..] == Front(steps)[n..] + [Last(steps)];
        RunExtends(Joint, (m, mid), Front(steps)[n..], x, Last(steps), (t, b));
      }
    }
  }

  /** Crash atomicity. Boot from a disk on which `d` survives and let the system run in
      any way at all, crashes included. What then survives the next crash is exactly
      the disk as the file system saw it at some earlier moment of the run with no operation
      under way: every operation is in it as a whole or not at all. */
  lemma CrashAtomicity(lay: Layout, disk: seq<Block>, d: seq<Block>, steps: seq<Step>, t: State)
    returns (n: nat, m: State, mid: Spec, a: Spec)
    requires Reaches(lay, disk, d, steps, t)
    ensures n <= |steps| && Tells(lay, disk, d, steps[..n], m, mid) && Run(Joint, (m, mid), steps[n..], (t, a))
    ensures mid.active == {} && m.ops == map[]
    ensures WfDisk(t.lay, t.disk) && Survives(t.lay, t.disk, mid.current)
  {
    a := FromBoot(lay, disk, d, steps, t);
    n, m, mid := DurableIsQuiescent(Rebooted(lay, disk), Spec(d, d, {}), steps, t, a);
    BootSim(lay, disk, d);
    JointSim(Rebooted(lay, disk), Spec(d, d, {}), steps[..n], m, mid);
  }

  lemma {:induction false} JointSim(s: State, a: Spec, steps: seq<Step>, t: State, b: Spec)
    requires Sim(s, a) && Run(Joint, (s, a), steps, (t, b))
    ensures Sim(t, b)
    decreases |steps|
  {
    hide Sim, Next;
    if steps != [] {
      var x :| Run(Joint, (s, a), Front(steps), x) && Joint(x, Last(steps), (t, b));
      JointSim(s, a, Front(steps), x.0, x.1);
      MovesSim(x.0, x.1, Last(steps), t, b);
    }
  }

  lemma MovesSim(s: State, a: Spec, st: Step, t: State, b: Spec)
    requires Sim(s, a) && Moves(s, a, st, t, b)
    ensures Sim(t, b)
  {
    hide Sim;
    StepSimulates(s, a, st);
  }

  /** Steps that recover_from_log takes, and the crashes that interrupt it. */
  predicate RecoveryStep(st: Step) {
    st.Bget? || st.Lock? || st.Fill? || st.Unlock? || st.Drop? || st.ReadHead? ||
    st.InstallBlock? || st.EraseHead? || st.WriteEmptyHead? || st.Crash?
  }

  /** Recovery. Crash at any moment of any run, with the block in flight torn in any way, and
      recover, interrupted by crashes any number of times. In the end precisely the blocks that
      were durable at the first crash are in their home locations, the log is empty, and every
      cached block agrees with them. */
  lemma RecoveryRestores(lay: Layout, disk: seq<Block>, d: seq<Block>, before: seq<Step>, s: State, torn: Option<Block>, r: State,
                         steps: seq<Step>, t: State)
    returns (a: Spec)
    requires Reaches(lay, disk, d, before, s) && Next(s, Crash(torn), r) && Run(Next, r, steps, t)
    requires t.phase.Idle? && forall k | 0 <= k < |steps| :: RecoveryStep(steps[k])
    ensures Tells(lay, disk, d, before, s, a)
    ensures WfDisk(s.lay, s.disk) && Survives(s.lay, s.disk, a.durable)
    ensures t.lay == s.lay && WfDisk(t.lay, t.disk) && OnDisk(t.lay, t.disk) == [] && t.lh == []
    ensures |t.cache.bufs| == NBUF && Restored(t, a.durable)
  {
    hide Sim, Next, Restored;
    a := FromBoot(lay, disk, d, before, s);
    SimSurvives(s, a);
    Crashed(s, a, torn, r);
    RecoveryRunKeeps(r, Effect(a, Reset), steps, t);
    RecoveredIdle(t, Effect(a, Reset));
  }

  /** The home blocks, on disk and in the cache, are those of d. */
  ghost predicate Restored(t: State, d: seq<Block>) {
    && SameHome(t.lay, t.disk, d)
    && forall i | 0 <= i < |t.cache.bufs| && t.cache.bufs[i].valid && t.lay.Home(t.cache.bufs[i].blockno) ::
         t.cache.bufs[i].blockno < |d| && t.cache.bufs[i].data == d[t.cache.bufs[i].blockno]
  }

  lemma SimSurvives(s: State, a: Spec)
    requires Sim(s, a)
    ensures WfDisk(s.lay, s.disk) && Survives(s.lay, s.disk, a.durable)
  {
  }

  lemma Crashed(s: State, a: Spec, torn: Option<Block>, r: State)
    requires Sim(s, a) && Next(s, Crash(torn), r)
    ensures Sim(r, Effect(a, Reset)) && r.lay == s.lay
  {
    hide Sim;
    StepCrash(s, a, torn);
  }

  lemma RecoveredIdle(t: State, a: Spec)
    requires Sim(t, a) && t.phase.Idle? && a.current == a.durable && a.active == {}
    ensures WfDisk(t.lay, t.disk) && OnDisk(t.lay, t.disk) == [] && t.lh == [] && |t.cache.bufs| == NBUF && Restored(t, a.durable)
  {
  }

  lemma RecoveryStepKeeps(s: State, a: Spec, st: Step, t: State)
    requires Sim(s, a) && a.current == a.durable && a.active == {} && Next(s, st, t) && RecoveryStep(st)
    ensures Sim(t, a) && t.lay == s.lay
  {
    StepSimulates(s, a, st);
    assert Effect(a, Meaning(s, st)) == a;
  }

  lemma {:induction false} RecoveryRunKeeps(s: State, a: Spec, steps: seq<Step>, t: State)
    requires Sim(s, a) && a.current == a.durable && a.active == {} && Run(Next, s, steps, t)
    requires forall k | 0 <= k < |steps| :: RecoveryStep(steps[k])
    ensures Sim(t, a) && t.lay == s.lay
    decreases |steps|
  {
    if steps != [] {
      var m :| Run(Next, s, Front(steps), m) && Next(m, Last(steps), t);
      RecoveryRunKeeps(s, a, Front(steps), m);
      RecoveryStepKeeps(m, a, Last(steps), t);
    }
  }

  /** The commit point: until the header is written the disk holds an empty log and the
      blocks from before the transaction, and from then on all of the transaction is
      what survives. No operation is under way in between. */
  lemma CommitPoint(lay: Layout, disk: seq<Block>, d: seq<Block>, steps: seq<Step>, t: State)
    returns (a: Spec)
    requires Reaches(lay, disk, d, steps, t)
    ensures Tells(lay, disk, d, steps, t, a) && WfDisk(t.lay, t.disk) && Survives(t.lay, t.disk, a.durable)
    ensures t.phase.WriteLog? ==> OnDisk(t.lay, t.disk) == [] && SameHome(t.lay, t.disk, a.durable)
    ensures t.phase.Install? || t.phase.Clear? || t.phase.Finishing? ==> SameHome(t.lay, a.current, a.durable)
    ensures Committing(t.phase) ==> t.ops == map[] && a.active == {}
  {
    a := FromBoot(lay, disk, d, steps, t);
  }

  // ---------------------------------------------------------------------------
  // Cache coherence
  // ---------------------------------------------------------------------------

  /** What bread hands out is the latest logged content, whatever has been evicted,
      logged, copied or installed since. */
  lemma ReadersSeeLatest(lay: Layout, disk: seq<Block>, d: seq<Block>, steps: seq<Step>, t: State, p: Pid, i: nat, b: nat)
    returns (a: Spec)
    requires Reaches(lay, disk, d, steps, t)
    requires !Recovering(t.phase) && Holds(t, p, i, b) && t.lay.Home(b)
    ensures Tells(lay, disk, d, steps, t, a)
    ensures b < |a.current| && t.cache.bufs[i].data == a.current[b]
  {
    a := FromBoot(lay, disk, d, steps, t);
  }

  /** A step that neither crashes nor logs block b. */
  ghost predicate NextBut(b: nat, s: State, st: Step, t: State) {
    Next(s, st, t) && !st.Crash? && (st.LogWrite? ==> st.i < |s.cache.bufs| && s.cache.bufs[st.i].blockno != b)
  }

  ghost function Unlogged(b: nat): (State, Step, State) -> bool { (s, st, t) => NextBut(b, s, st, t) }

  /** The same without the specification: after a log_write of data to a block, and until the next
      log_write to it or the next crash, whoever has read the block finds that data. */
  lemma ReadersSeeLastWrite(lay: Layout, disk: seq<Block>, d: seq<Block>, before: seq<Step>, s: State, p: Pid, i: nat, data: Block, r: State,
                            b: nat, after: seq<Step>, t: State, q: Pid, j: nat)
    requires Reaches(lay, disk, d, before, s) && Next(s, LogWrite(p, i, data), r) && Holds(s, p, i, b)
    requires Run(Unlogged(b), r, after, t) && Holds(t, q, j, b)
    ensures t.cache.bufs[j].data == data
  {
    hide Sim, Next;
    var a := FromBoot(lay, disk, d, before, s);
    var c := Logged(s, a, p, i, data, r, b);
    c := LoggedStays(r, c, b, data, after, t);
    ShownTo(t, c, q, j, b);
  }

  ghost predicate Current(s: State, a: Spec, b: nat, data: Block) {
    Sim(s, a) && !Recovering(s.phase) && s.lay.Home(b) && b < |a.current| && a.current[b] == data
  }

  lemma Logged(s: State, a: Spec, p: Pid, i: nat, data: Block, r: State, b: nat) returns (c: Spec)
    requires Sim(s, a) && Next(s, LogWrite(p, i, data), r) && Holds(s, p, i, b)
    ensures Current(r, c, b, data)
  {
    c := NextSimulated(s, a, LogWrite(p, i, data), r);
  }

  lemma {:induction false} LoggedStays(s: State, a: Spec, b: nat, data: Block, steps: seq<Step>, t: State) returns (c: Spec)
    requires Current(s, a, b, data) && Run(Unlogged(b), s, steps, t)
    ensures Current(t, c, b, data)
    decreases |steps|
  {
    hide Current, NextBut;
    c := a;
    if steps != [] {
      var m :| Run(Unlogged(b), s, Front(steps), m) && Unlogged(b)(m, Last(steps), t);
      c := LoggedStays(s, a, b, data, Front(steps), m);
      c := StaysCurrent(m, c, b, data, Last(steps), t);
    }
  }

  lemma StaysCurrent(s: State, a: Spec, b: nat, data: Block, st: Step, t: State) returns (c: Spec)
    requires Current(s, a, b, data) && NextBut(b, s, st, t)
    ensures Current(t, c, b, data)
  {
    hide Sim;
    c := NextSimulated(s, a, st, t);
  }

  lemma ShownTo(t: State, a: Spec, q: Pid, j: nat, b: nat)
    requires Sim(t, a) && !Recovering(t.phase) && t.lay.Home(b) && Holds(t, q, j, b)
    ensures b < |a.current| && t.cache.bufs[j].data == a.current[b]
  {
  }

  /** A buffer that differs from its home block is pinned, and bget will not give it to
      another block; a buffer without references equals the disk; no block is cached twice. */
  lemma DirtyBuffersStay(lay: Layout, disk: seq<Block>, d: seq<Block>, steps: seq<Step>, t: State, i: nat)
    requires Reaches(lay, disk, d, steps, t) && i < NBUF
    ensures WfShape(t)
    ensures t.cache.bufs[i].valid ==> t.cache.bufs[i].blockno < |t.disk|
    ensures t.cache.bufs[i].valid && t.cache.bufs[i].data != t.disk[t.cache.bufs[i].blockno] ==>
      t.cache.bufs[i].blockno in t.lh && t.cache.bufs[i].refcnt > 0
    ensures t.cache.bufs[i].valid && t.cache.bufs[i].refcnt == 0 ==> t.cache.bufs[i].data == t.disk[t.cache.bufs[i].blockno]
    ensures t.cache.bufs[i].refcnt > 0 ==>
      forall b | Get(t.cache, DEV, b).Got? && Get(t.cache, DEV, b).i == i :: Matches(t.cache.bufs[i], DEV, b)
    ensures Mine(t.cache.bufs[i]) ==>
      forall j: nat | j < NBUF && j != i && Mine(t.cache.bufs[j]) :: t.cache.bufs[j].blockno != t.cache.bufs[i].blockno
  {
    var a := FromBoot(lay, disk, d, steps, t);
    var pins := Pins(t.lh, t.phase);
    assert BufCounted(t.cache.bufs[i], t.users[i], pins, |t.disk|);
    assert BufCoherent(t.cache.bufs[i], pins, t.disk);
    if t.cache.bufs[i].refcnt > 0 {
      forall b | Get(t.cache, DEV, b).Got? && Get(t.cache, DEV, b).i == i ensures Matches(t.cache.bufs[i], DEV, b) {
        assert Fetched(t.cache, DEV, b, i, Get(t.cache, DEV, b).cache);
      }
    }
  }

  // ---------------------------------------------------------------------------
  // Log admission
  // ---------------------------------------------------------------------------

  /** Used entries and unused reservations fit in the log, so a log_write that appends
      within its operation's allowance cannot panic. */
  lemma AppendNeverPanics(lay: Layout, disk: seq<Block>, d: seq<Block>, steps: seq<Step>, t: State, p: Pid)
    requires Reaches(lay, disk, d, steps, t)
    requires p in t.ops && t.ops[p] < MAXOPBLOCKS
    ensures |t.lh| + Reserved(t.ops) <= LOGSIZE
    ensures !LogWritePanics(t)
  {
    var a := FromBoot(lay, disk, d, steps, t);
    ReservedRemove(t.ops, p);
    ReservedBound(t.ops - {p});
  }

  /** Inside an operation a log_write, of any block, panics exactly when the log is full. */
  lemma WritePanicsIff(lay: Layout, disk: seq<Block>, d: seq<Block>, steps: seq<Step>, t: State, p: Pid)
    requires Reaches(lay, disk, d, steps, t)
    requires p in t.ops
    ensures LogWritePanics(t) <==> |t.lh| == LOGSIZE
  {
    var a := FromBoot(lay, disk, d, steps, t);
    assert |t.ops| > 0;
  }

  /** log_write tests for space before it looks for the block, so a call that is absorbed, and
      needs no space, panics exactly when the log is full. */
  lemma AbsorbingWritePanicsIff(lay: Layout, disk: seq<Block>, d: seq<Block>, steps: seq<Step>, t: State, p: Pid, i: nat, b: nat, data: Block)
    requires Reaches(lay, disk, d, steps, t)
    requires p in t.ops && Holds(t, p, i, b) && b in t.lh
    ensures LogWritePanics(t) <==> |t.lh| == LOGSIZE
    ensures !LogWritePanics(t) ==>
      && MayLogWrite(t, p, i)
      && AfterLogWrite(t, p, i, data) == t.(cache := SetBuf(t.cache, i, t.cache.bufs[i].(data := data)))
  {
    WritePanicsIff(lay, disk, d, steps, t, p);
    var a := FromBoot(lay, disk, d, steps, t);
    assert t.lay.Home(b);
  }

  /** end_op's panic is unreachable, and nobody sleeps on the log unless an operation is
      outstanding or a commit is running. */
  lemma SleepsOnlyWhileBusy(lay: Layout, disk: seq<Block>, d: seq<Block>, steps: seq<Step>, t: State)
    requires Reaches(lay, disk, d, steps, t)
    ensures t.ops != map[] ==> !Committing(t.phase)
    ensures t.sleepers != {} ==> t.outstanding > 0 || Committing(t.phase)
    ensures t.phase.Idle? && t.outstanding == 0 ==> !MustWait(t)
  {
    var a := FromBoot(lay, disk, d, steps, t);
  }
}
