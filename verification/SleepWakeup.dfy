/** sleep and wakeup of kernel/proc.c, and the sleep-locks of kernel/sleeplock.c, as a machine
    whose steps are the critical sections of the code. A step that takes a process's p->lock and
    releases it again is one step; sleep() holds its own p->lock over several. */
module SleepWakeup {
  import opened Runs

  type Pid = nat
  type Lock = nat
  type Chan = nat

  datatype Status = Running | Runnable | Sleeping(ch: Chan)

  /** Where a process is. */
  datatype Pc =
    | Outside                              // holds no spinlock
    | Inside(l: Lock)                      // holds l
    | Going(ch: Chan, l: Lock)             // in sleep: holds l and its p->lock
    | Committed(ch: Chan, l: Lock)         // in sleep: has released l, holds its p->lock
    | Down(ch: Chan, l: Lock)              // in sleep, off the CPU
    | Back(l: Lock)                        // in sleep, running again, to reacquire l
    | Waking(ch: Chan, l: Lock, k: nat)    // in wakeup at process k, holds l

  datatype Proc = Proc(pc: Pc, status: Status)

  /** `owner` is lk->locked with lk->pid of each sleep-lock, by its spinlock. */
  datatype State = State(procs: seq<Proc>, holder: map<Lock, Pid>, owner: map<Lock, Pid>, clients: set<(Pid, Lock)>)

  function SetProc(s: State, p: Pid, q: Proc): State
    requires p < |s.procs|
  {
    s.(procs := s.procs[p := q])
  }

  predicate HoldsLock(pc: Pc, l: Lock) {
    match pc
    case Inside(m) => m == l
    case Going(_, m) => m == l
    case Waking(_, m, _) => m == l
    case _ => false
  }

  /** p->lock is taken: wakeup, kill and the scheduler have to wait. */
  predicate OwnLock(pc: Pc) { pc.Going? || pc.Committed? }

  datatype Step =
    | Acquire(p: Pid, l: Lock)
    | Release(p: Pid)
    | Sleep(p: Pid, ch: Chan)       // up to acquire(&p->lock)
    | Commit(p: Pid)                // release(lk)
    | Descend(p: Pid)               // p->chan, p->state and sched()
    | Dispatch(p: Pid)              // the scheduler, and the rest of sleep up to release(&p->lock)
    | Reacquire(p: Pid)             // acquire(lk)
    | Wakeup(p: Pid, ch: Chan)
    | Touch(p: Pid)                 // one turn of wakeup's loop
    | WakeDone(p: Pid)
    | Kill(p: Pid)                  // kill wakes a sleeper for no reason of its own
    | SetOwner(p: Pid, o: Pid, on: bool)  // any use of what l protects

  predicate Next(s: State, st: Step, t: State) {
    && st.p < |s.procs|
    && var q := s.procs[st.p];
    match st
    case Acquire(p, l) => q.pc.Outside? && l !in s.holder && t == SetProc(s, p, q.(pc := Inside(l))).(holder := s.holder[l := p])
    case Release(p) => q.pc.Inside? && t == SetProc(s, p, q.(pc := Outside)).(holder := s.holder - {q.pc.l})
    case Sleep(p, ch) => q.pc.Inside? && t == SetProc(s, p, q.(pc := Going(ch, q.pc.l)))
    case Commit(p) => q.pc.Going? && t == SetProc(s, p, q.(pc := Committed(q.pc.ch, q.pc.l))).(holder := s.holder - {q.pc.l})
    case Descend(p) => q.pc.Committed? && t == SetProc(s, p, Proc(Down(q.pc.ch, q.pc.l), Sleeping(q.pc.ch)))
    case Dispatch(p) => q.pc.Down? && q.status.Runnable? && t == SetProc(s, p, Proc(Back(q.pc.l), Running))
    case Reacquire(p) => q.pc.Back? && q.pc.l !in s.holder && t == SetProc(s, p, q.(pc := Inside(q.pc.l))).(holder := s.holder[q.pc.l := p])
    case Wakeup(p, ch) => q.pc.Inside? && t == SetProc(s, p, q.(pc := Waking(ch, q.pc.l, 0)))
    case Touch(p) => q.pc.Waking? && q.pc.k < |s.procs| && MayTouch(s, p, q.pc.k) && t == Touched(s, p, q.pc.ch, q.pc.l, q.pc.k)
    case WakeDone(p) => q.pc.Waking? && q.pc.k == |s.procs| && t == SetProc(s, p, q.(pc := Inside(q.pc.l)))
    case Kill(p) => q.status.Sleeping? && t == SetProc(s, p, q.(status := Runnable))
    case SetOwner(p, o, on) => q.pc.Inside? && t == s.(owner := if on then s.owner[q.pc.l := o] else s.owner - {q.pc.l})
  }

  predicate MayTouch(s: State, p: Pid, k: nat)
    requires k < |s.procs|
  {
    k == p || !OwnLock(s.procs[k].pc)
  }

  /** wakeup has looked at process k. */
  function Touched(s: State, p: Pid, ch: Chan, l: Lock, k: nat): State
    requires p < |s.procs| && k < |s.procs|
  {
    var woken := if k != p && s.procs[k].status == Sleeping(ch) then SetProc(s, k, s.procs[k].(status := Runnable)) else s;
    SetProc(woken, p, woken.procs[p].(pc := Waking(ch, l, k + 1)))
  }

  ghost predicate Start(s: State) {
    && (forall p | 0 <= p < |s.procs| :: s.procs[p] == Proc(Outside, Running))
    && s.holder == map[] && s.owner == map[] && s.clients == {}
  }

  // ---------------------------------------------------------------------------
  // No wakeup is lost
  // ---------------------------------------------------------------------------

  /** j has given up l to sleep on ch and nothing has woken it since. */
  predicate Bound(q: Proc, ch: Chan, l: Lock) {
    q.pc == Committed(ch, l) || (q.pc == Down(ch, l) && q.status == Sleeping(ch))
  }

  ghost predicate StatusOk(q: Proc) {
    match q.pc
    case Down(ch, _) => q.status == Sleeping(ch) || q.status == Runnable
    case _ => q.status == Running
  }

  ghost predicate LocksOk(s: State) {
    && (forall l | l in s.holder :: s.holder[l] < |s.procs| && HoldsLock(s.procs[s.holder[l]].pc, l))
    && (forall p, l | 0 <= p < |s.procs| && HoldsLock(s.procs[p].pc, l) :: l in s.holder && s.holder[l] == p)
  }

  /** wakeup has dealt with the processes below k. */
  ghost predicate Passed(procs: seq<Proc>, p: Pid, ch: Chan, l: Lock, k: nat) {
    forall j | 0 <= j < |procs| && j < k && j != p :: !Bound(procs[j], ch, l)
  }

  ghost predicate WakesOk(procs: seq<Proc>) {
    forall p | 0 <= p < |procs| && procs[p].pc.Waking? ::
      procs[p].pc.k <= |procs| && Passed(procs, p, procs[p].pc.ch, procs[p].pc.l, procs[p].pc.k)
  }

  ghost predicate Inv(s: State) {
    && (forall p | 0 <= p < |s.procs| :: StatusOk(s.procs[p]))
    && LocksOk(s)
    && WakesOk(s.procs)
  }

  lemma StatusKept(s: State, st: Step, t: State)
    requires (forall p | 0 <= p < |s.procs| :: StatusOk(s.procs[p])) && Next(s, st, t)
    ensures |t.procs| == |s.procs| && forall p | 0 <= p < |t.procs| :: StatusOk(t.procs[p])
  {
  }

  datatype LockChange = Same | Got(l: Lock) | Left(l: Lock)

  /** A step changes at most who holds one lock, and only for the process that makes it. */
  lemma LockMoves(s: State, st: Step, t: State) returns (c: LockChange)
    requires Next(s, st, t)
    ensures st.p < |s.procs| == |t.procs| && forall p | 0 <= p < |s.procs| && p != st.p :: t.procs[p].pc == s.procs[p].pc
    ensures match c
      case Same => t.holder == s.holder && forall l :: HoldsLock(t.procs[st.p].pc, l) == HoldsLock(s.procs[st.p].pc, l)
      case Got(l) => l !in s.holder && t.holder == s.holder[l := st.p] && (forall m :: !HoldsLock(s.procs[st.p].pc, m))
                       && (forall m :: HoldsLock(t.procs[st.p].pc, m) <==> m == l)
      case Left(l) => t.holder == s.holder - {l} && (forall m :: HoldsLock(s.procs[st.p].pc, m) <==> m == l)
                       && (forall m :: !HoldsLock(t.procs[st.p].pc, m))
  {
    c := match st
      case Acquire(_, l) => Got(l)
      case Reacquire(p) => Got(s.procs[p].pc.l)
      case Release(p) => Left(s.procs[p].pc.l)
      case Commit(p) => Left(s.procs[p].pc.l)
      case _ => Same;
  }

  lemma LocksKept(s: State, st: Step, t: State)
    requires LocksOk(s) && Next(s, st, t)
    ensures LocksOk(t)
  {
    hide Next, HoldsLock;
    var c := LockMoves(s, st, t);
    if c.Left? { assert HoldsLock(s.procs[st.p].pc, c.l); }
    forall p, l | 0 <= p < |t.procs| && HoldsLock(t.procs[p].pc, l) ensures l in t.holder && t.holder[l] == p {
      match c
      case Same => assert HoldsLock(s.procs[p].pc, l);
      case Got(m) => if p != st.p { assert HoldsLock(s.procs[p].pc, l); }
      case Left(m) => assert p != st.p; assert HoldsLock(s.procs[p].pc, l); assert l != m;
    }
    forall l | l in t.holder ensures t.holder[l] < |t.procs| && HoldsLock(t.procs[t.holder[l]].pc, l) {
      if l in s.holder && s.holder[l] == st.p { assert HoldsLock(s.procs[st.p].pc, l); }
    }
  }

  /** Only a process that holds l can become bound to it. */
  lemma BoundByCommit(s: State, st: Step, t: State, j: Pid, ch: Chan, l: Lock)
    requires Next(s, st, t) && j < |s.procs| == |t.procs| && Bound(t.procs[j], ch, l) && !Bound(s.procs[j], ch, l)
    ensures s.procs[j].pc == Going(ch, l)
  {
  }

  /** wakeup goes on only past a process that is not bound any more. */
  lemma WakingMoves(s: State, st: Step, t: State, p: Pid)
    requires (forall q | 0 <= q < |s.procs| :: StatusOk(s.procs[q])) && Next(s, st, t)
    requires p < |s.procs| == |t.procs| && t.procs[p].pc.Waking?
    ensures var w := t.procs[p].pc;
      || (w.k == 0 && s.procs[p].pc == Inside(w.l))
      || s.procs[p].pc == w
      || (0 < w.k <= |s.procs| && s.procs[p].pc == Waking(w.ch, w.l, w.k - 1) && (w.k - 1 == p || !Bound(t.procs[w.k - 1], w.ch, w.l)))
  {
  }

  lemma OneHolder(s: State, p: Pid, q: Pid, l: Lock)
    requires LocksOk(s) && p < |s.procs| && q < |s.procs| && HoldsLock(s.procs[p].pc, l) && HoldsLock(s.procs[q].pc, l)
    ensures p == q
  {
    assert s.holder[l] == p;
  }

  lemma WakesKept(s: State, st: Step, t: State)
    requires Inv(s) && Next(s, st, t) && |t.procs| == |s.procs|
    ensures WakesOk(t.procs)
  {
    hide Next;
    forall p | 0 <= p < |t.procs| && t.procs[p].pc.Waking?
      ensures t.procs[p].pc.k <= |t.procs| && Passed(t.procs, p, t.procs[p].pc.ch, t.procs[p].pc.l, t.procs[p].pc.k)
    {
      var w := t.procs[p].pc;
      WakingMoves(s, st, t, p);
      var v := s.procs[p].pc;
      if v.Waking? { assert Passed(s.procs, p, v.ch, v.l, v.k); }
      forall j | 0 <= j < |t.procs| && j < w.k && j != p ensures !Bound(t.procs[j], w.ch, w.l) {
        if Bound(t.procs[j], w.ch, w.l) && !Bound(s.procs[j], w.ch, w.l) {
          BoundByCommit(s, st, t, j, w.ch, w.l);
          OneHolder(s, p, j, w.l);
        }
      }
    }
  }

  lemma StepKeeps(s: State, st: Step, t: State)
    requires Inv(s) && Next(s, st, t)
    ensures Inv(t)
  {
    hide Next, LocksOk, WakesOk, StatusOk;
    StatusKept(s, st, t);
    LocksKept(s, st, t);
    WakesKept(s, st, t);
  }

  /** In every run: when wakeup(ch), called under l, returns, every process that had called
      sleep(ch, l) has been made RUNNABLE; none is asleep or about to be. */
  lemma NoLostWakeup(s: State, events: seq<Step>, t: State, p: Pid, j: Pid)
    requires Start(s) && Run(Next, s, events, t)
    requires p < |t.procs| && t.procs[p].pc.Waking? && t.procs[p].pc.k == |t.procs|
    requires j < |t.procs| && j != p
    ensures var ch, l := t.procs[p].pc.ch, t.procs[p].pc.l;
      && t.procs[j].pc != Going(ch, l) && t.procs[j].pc != Committed(ch, l)
      && (t.procs[j].pc == Down(ch, l) ==> t.procs[j].status == Runnable)
  {
    hide Next, Start;
    RunInv(s, events, t);
    var ch, l := t.procs[p].pc.ch, t.procs[p].pc.l;
    assert Passed(t.procs, p, ch, l, |t.procs|);
    assert !Bound(t.procs[j], ch, l);
    if t.procs[j].pc == Going(ch, l) { OneHolder(t, p, j, l); }
  }

  lemma RunInv(s: State, events: seq<Step>, t: State)
    requires Start(s) && Run(Next, s, events, t)
    ensures Inv(t)
  {
    StartInv(s);
    forall m, e, n | Inv(m) && Next(m, e, n) ensures Inv(n) { StepKeeps(m, e, n); }
    RunKeeps(Next, Inv, s, events, t);
  }

  lemma StartInv(s: State)
    requires Start(s)
    ensures Inv(s)
  {
  }

  // ---------------------------------------------------------------------------
  // Sleep-locks
  // ---------------------------------------------------------------------------

  /** What acquiresleep and releasesleep do; the channel of a sleep-lock is the lock itself. */
  datatype LockStep =
    | Base(st: Step)
    | Take(p: Pid)    // lk->locked = 1; lk->pid = p
    | Give(p: Pid)    // lk->locked = 0; lk->pid = 0; wakeup(lk)

  ghost predicate LockNext(s: State, e: LockStep, t: State) {
    match e
    case Base(st) =>
      && Next(s, st, t) && !st.SetOwner? && !st.Wakeup?
      && (st.Sleep? ==> st.ch == s.procs[st.p].pc.l && st.ch in s.owner)
    case Take(p) =>
      && p < |s.procs| && s.procs[p].pc.Inside? && s.procs[p].pc.l !in s.owner
      && t == s.(owner := s.owner[s.procs[p].pc.l := p], clients := s.clients + {(p, s.procs[p].pc.l)})
    case Give(p) =>
      && p < |s.procs| && s.procs[p].pc.Inside? && (p, s.procs[p].pc.l) in s.clients
      && var l := s.procs[p].pc.l;
      t == SetProc(s, p, s.procs[p].(pc := Waking(l, l, 0))).(owner := s.owner - {l}, clients := s.clients - {(p, l)})
  }

  /** Each step of a sleep-lock is one or two steps of the machine with sleep and wakeup, for
      which lk->locked is just data under lk->lk. */
  lemma LockStepsAreSteps(s: State, e: LockStep, t: State) returns (events: seq<Step>, t': State)
    requires LockNext(s, e, t)
    ensures Run(Next, s, events, t') && t == t'.(clients := t.clients)
  {
    match e
    case Base(st) =>
      RunExtends(Next, s, [], s, st, t);
      events, t' := [] + [st], t;
    case Take(p) =>
      t' := s.(owner := s.owner[s.procs[p].pc.l := p]);
      RunExtends(Next, s, [], s, SetOwner(p, p, true), t');
      events := [] + [SetOwner(p, p, true)];
    case Give(p) =>
      var m := s.(owner := s.owner - {s.procs[p].pc.l});
      t' := SetProc(m, p, m.procs[p].(pc := Waking(m.procs[p].pc.l, m.procs[p].pc.l, 0)));
      RunExtends(Next, s, [], s, SetOwner(p, p, false), m);
      RunExtends(Next, s, [SetOwner(p, p, false)], m, Wakeup(p, m.procs[p].pc.l), t');
      events := [SetOwner(p, p, false)] + [Wakeup(p, m.procs[p].pc.l)];
  }

  /** Who has taken a sleep-lock is no part of the machine with sleep and wakeup. */
  lemma {:induction false} ClientsAside(s: State, events: seq<Step>, t: State, clients: set<(Pid, Lock)>)
    requires Run(Next, s, events, t)
    ensures Run(Next, s.(clients := clients), events, t.(clients := clients))
    decreases |events|
  {
    if events != [] {
      var m :| Run(Next, s, Front(events), m) && Next(m, Last(events), t);
      ClientsAside(s, Front(events), m, clients);
      StepAside(m, Last(events), t, clients);
    }
  }

  lemma StepAside(s: State, st: Step, t: State, clients: set<(Pid, Lock)>)
    requires Next(s, st, t)
    ensures Next(s.(clients := clients), st, t.(clients := clients))
  {
  }

  /** So every run with sleep-locks is a run with sleep and wakeup. */
  lemma {:induction false} LockRunsAreRuns(s: State, events: seq<LockStep>, t: State) returns (steps: seq<Step>, t': State)
    requires Run(LockNext, s, events, t)
    ensures Run(Next, s, steps, t') && t == t'.(clients := t.clients)
    decreases |events|
  {
    hide Next, LockNext;
    if events == [] {
      steps, t' := [], s;
    } else {
      var m :| Run(LockNext, s, Front(events), m) && LockNext(m, Last(events), t);
      var before, m' := LockRunsAreRuns(s, Front(events), m);
      var more, u := LockStepsAreSteps(m, Last(events), t);
      ClientsAside(m, more, u, m'.clients);
      steps, t' := before + more, u.(clients := m'.clients);
      RunConcat(Next, s, before, m', more, t');
    }
  }

  /** And no wakeup is lost in it: when the wakeup of releasesleep ends, every process that had called
      sleep on the lock is RUNNABLE. */
  lemma LockWakesAll(s: State, events: seq<LockStep>, t: State, p: Pid, j: Pid)
    requires Start(s) && Run(LockNext, s, events, t)
    requires p < |t.procs| && t.procs[p].pc.Waking? && t.procs[p].pc.k == |t.procs| && j < |t.procs| && j != p
    ensures var ch, l := t.procs[p].pc.ch, t.procs[p].pc.l;
      && ch == l && t.procs[j].pc != Going(l, l) && t.procs[j].pc != Committed(l, l)
      && (t.procs[j].pc == Down(l, l) ==> t.procs[j].status == Runnable)
  {
    hide Next, LockNext, Start;
    LockRunInv(s, events, t);
    var steps, t' := LockRunsAreRuns(s, events, t);
    NoLostWakeup(s, steps, t', p, j);
  }

  /** The clients that have taken l are exactly its owner. */
  ghost predicate OwnersOk(s: State) {
    forall p, l :: (p, l) in s.clients <==> l in s.owner && s.owner[l] == p
  }

  /** Sleepers wait for the lock they found taken; wakeups are for the lock that is held. */
  ghost predicate OnOwnLock(s: State) {
    && (forall p | 0 <= p < |s.procs| && s.procs[p].pc.Going? :: s.procs[p].pc.ch == s.procs[p].pc.l && s.procs[p].pc.l in s.owner)
    && (forall p | 0 <= p < |s.procs| && s.procs[p].pc.Waking? :: s.procs[p].pc.ch == s.procs[p].pc.l)
  }

  /** Some process is in the wakeup of releasesleep for l. */
  ghost predicate BeingWoken(s: State, l: Lock) {
    l in s.holder && s.holder[l] < |s.procs| && s.procs[s.holder[l]].pc.Waking?
  }

  ghost predicate Awake(s: State, l: Lock) {
    forall j | 0 <= j < |s.procs| :: !Bound(s.procs[j], l, l)
  }

  ghost predicate LockInv(s: State) {
    && Inv(s) && OwnersOk(s) && OnOwnLock(s)
    && forall l :: l !in s.owner && !BeingWoken(s, l) ==> Awake(s, l)
  }

  lemma LockStepInv(s: State, e: LockStep, t: State)
    requires Inv(s) && LockNext(s, e, t)
    ensures Inv(t) && |t.procs| == |s.procs|
  {
    match e
    case Base(st) => StepKeeps(s, st, t); StatusKept(s, st, t);
    case Take(p) =>
    case Give(p) => GiveInv(s, p, t);
  }

  lemma GiveInv(s: State, p: Pid, t: State)
    requires Inv(s) && LockNext(s, Give(p), t)
    ensures Inv(t) && |t.procs| == |s.procs|
  {
    hide StatusOk, WakesOk, LocksOk;
    var m := s.(owner := s.owner - {s.procs[p].pc.l});
    var t' := SetProc(m, p, m.procs[p].(pc := Waking(m.procs[p].pc.l, m.procs[p].pc.l, 0)));
    StepKeeps(s, SetOwner(p, p, false), m);
    StepKeeps(m, Wakeup(p, m.procs[p].pc.l), t');
    SameLocks(t', t);
  }

  lemma SameLocks(s: State, t: State)
    requires LocksOk(s) && t.procs == s.procs && t.holder == s.holder
    ensures LocksOk(t)
  {
  }

  lemma BaseOwners(s: State, st: Step, t: State)
    requires OwnersOk(s) && OnOwnLock(s) && LockNext(s, Base(st), t)
    ensures OwnersOk(t) && OnOwnLock(t) && t.owner == s.owner && t.clients == s.clients
  {
  }

  /** Only the holder of l changes its owner. */
  lemma LockStepOwners(s: State, e: LockStep, t: State)
    requires LocksOk(s) && OwnersOk(s) && OnOwnLock(s) && LockNext(s, e, t)
    ensures OwnersOk(t) && OnOwnLock(t)
  {
    match e
    case Base(st) => BaseOwners(s, st, t);
    case Take(p) =>
    case Give(p) =>
      forall q | 0 <= q < |t.procs| && t.procs[q].pc.Going? ensures t.procs[q].pc.ch == t.procs[q].pc.l && t.procs[q].pc.l in t.owner {
        assert q != p && t.procs[q] == s.procs[q] && s.procs[q].pc.Going?;
        assert HoldsLock(s.procs[q].pc, s.procs[q].pc.l) && HoldsLock(s.procs[p].pc, s.procs[p].pc.l);
        assert s.holder[s.procs[q].pc.l] == q && s.holder[s.procs[p].pc.l] == p;
      }
  }

  /** Nobody becomes bound to a lock that is free, and the wakeup of a release frees all. */
  lemma LockStepAwake(s: State, e: LockStep, t: State, l: Lock)
    requires LockInv(s) && LockNext(s, e, t) && |t.procs| == |s.procs| && Inv(t)
    requires l !in t.owner && !BeingWoken(t, l)
    ensures Awake(t, l)
  {
    hide WakesOk, StatusOk, OwnersOk, Next;
    match e
    case Base(st) => BaseAwake(s, st, t, l);
    case Take(p) => assert Awake(s, l);
    case Give(p) =>
      var m := s.procs[p].pc.l;
      assert HoldsLock(s.procs[p].pc, m) && HoldsLock(t.procs[p].pc, m);
      assert l != m;
      assert BeingWoken(s, l) ==> BeingWoken(t, l);
      assert Awake(s, l);
      forall j | 0 <= j < |t.procs| ensures !Bound(t.procs[j], l, l) { assert !Bound(s.procs[j], l, l); }
  }

  lemma BaseAwake(s: State, st: Step, t: State, l: Lock)
    requires LockInv(s) && LockNext(s, Base(st), t) && |t.procs| == |s.procs| && Inv(t)
    requires l !in t.owner && !BeingWoken(t, l)
    ensures Awake(t, l)
  {
    hide Next, OwnersOk;
    BaseOwners(s, st, t);
    if BeingWoken(s, l) { WakeEnds(s, st, t, l); }
    assert Awake(s, l);
    forall j | 0 <= j < |t.procs| ensures !Bound(t.procs[j], l, l) {
      if Bound(t.procs[j], l, l) {
        BoundByCommit(s, st, t, j, l, l);
      }
    }
  }

  /** A wakeup that ends has woken everybody. */
  lemma WakeEnds(s: State, st: Step, t: State, l: Lock)
    requires LockInv(s) && LockNext(s, Base(st), t) && |t.procs| == |s.procs|
    requires BeingWoken(s, l) && !BeingWoken(t, l)
    ensures Awake(s, l)
  {
    hide OwnersOk;
    var q := s.holder[l];
    assert HoldsLock(s.procs[q].pc, l);
    assert st == WakeDone(q);
    forall j | 0 <= j < |s.procs| ensures !Bound(s.procs[j], l, l) { }
  }

  lemma LockStepKeeps(s: State, e: LockStep, t: State)
    requires LockInv(s) && LockNext(s, e, t)
    ensures LockInv(t)
  {
    hide LockNext, LocksOk, StatusOk, WakesOk, OwnersOk, OnOwnLock, BeingWoken, Awake;
    LockStepInv(s, e, t);
    LockStepOwners(s, e, t);
    forall l | l !in t.owner && !BeingWoken(t, l) ensures Awake(t, l) { LockStepAwake(s, e, t, l); }
  }

  lemma LockRunInv(s: State, events: seq<LockStep>, t: State)
    requires Start(s) && Run(LockNext, s, events, t)
    ensures LockInv(t)
  {
    hide LockNext;
    LockStartInv(s);
    forall m, e, n | LockInv(m) && LockNext(m, e, n) ensures LockInv(n) { LockStepKeeps(m, e, n); }
    RunKeeps(LockNext, LockInv, s, events, t);
  }

  lemma LockStartInv(s: State)
    requires Start(s)
    ensures LockInv(s)
  {
  }

  /** A sleep-lock has at most one holder. */
  lemma MutualExclusion(s: State, events: seq<LockStep>, t: State, p: Pid, q: Pid, l: Lock)
    requires Start(s) && Run(LockNext, s, events, t) && (p, l) in t.clients && (q, l) in t.clients
    ensures p == q && l in t.owner && t.owner[l] == p
  {
    hide LockNext;
    LockRunInv(s, events, t);
  }

  /** No waiter is asleep, or about to be, while the sleep-lock is free and nobody is releasing it. */
  lemma NoWaiterWhileFree(s: State, events: seq<LockStep>, t: State, l: Lock, j: Pid)
    requires Start(s) && Run(LockNext, s, events, t) && l !in t.owner && l !in t.holder && j < |t.procs|
    ensures !Bound(t.procs[j], l, l)
  {
    hide LockNext;
    LockRunInv(s, events, t);
    assert Awake(t, l);
  }
}
