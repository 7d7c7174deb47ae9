/** fork, exit, reparent and wait of kernel/proc.c over the process table, as a machine whose
    steps are the critical sections of the code. p->lock is held over several steps only by a
    process that is going to sleep or exiting. */
module ExitWait {

  const INIT: nat := 0  // initproc's slot

  datatype Status = Unused | Used | Sleeping(ch: nat) | Runnable | Running | Zombie

  datatype Parent = Nobody | ChildOf(q: nat)

  datatype Pc =
    | Quiet                        // not in fork, exit or wait; any other kernel or user code
    // fork of slot c
    | ForkNew(c: nat)              // allocated, memory being copied
    | ForkLink(c: nat)             // to set np->parent
    | ForkStart(c: nat)            // to make it RUNNABLE
    // exit
    | ExitScan(i: nat)             // reparent at slot i; holds wait_lock, as in the next two
    | ExitWakeInit(i: nat, k: nat) // reparent has given slot i to init; wakeup(initproc) at slot k
    | ExitWake(k: nat)             // wakeup(p->parent) at slot k
    | Exiting                      // ZOMBIE, holds p->lock, still on its CPU
    | Gone                         // off its CPU for good
    // wait
    | WaitScan(i: nat, kids: bool) // holds wait_lock
    | WaitGoing                    // in sleep: holds wait_lock and p->lock
    | WaitCommitted                // has released wait_lock, holds p->lock
    | WaitDown                     // off its CPU
    | WaitBack                     // on a CPU, to reacquire wait_lock

  datatype Slot = Slot(status: Status, parent: Parent, pid: nat, xstate: int, pc: Pc)

  const FreeSlot := Slot(Unused, Nobody, 0, 0, Quiet)

  datatype Holder = Nil | By(p: nat)

  /** `exited` has what each process that has become a zombie gave to exit, by its pid; `reaped` are
      the pids of those that wait has freed.
      `forker` has the pid of the process that called fork for each process ever forked, except
      where fork failed. */
  datatype State = State(slots: seq<Slot>, waitLock: Holder, nextpid: nat, exited: map<nat, int>, reaped: set<nat>, forker: map<nat, nat>)

  predicate HoldsWaitLock(pc: Pc) { pc.ExitScan? || pc.ExitWakeInit? || pc.ExitWake? || pc.WaitScan? || pc.WaitGoing? }

  /** The process holds its own p->lock. */
  predicate OwnLock(pc: Pc) { pc.Exiting? || pc.WaitGoing? || pc.WaitCommitted? }

  function SetSlot(s: State, p: nat, x: Slot): State
    requires p < |s.slots|
  {
    s.(slots := s.slots[p := x])
  }

  function SetPc(s: State, p: nat, pc: Pc): State
    requires p < |s.slots|
  {
    SetSlot(s, p, s.slots[p].(pc := pc))
  }

  /** wakeup(ch) by p looks at slot k, unless it has to wait for its lock. */
  predicate MayTouch(s: State, p: nat, k: nat) {
    k < |s.slots| && (k == p || !OwnLock(s.slots[k].pc))
  }

  function Touched(s: State, p: nat, ch: nat, k: nat): State
    requires k < |s.slots|
  {
    if k != p && s.slots[k].status == Sleeping(ch) then SetSlot(s, k, s.slots[k].(status := Runnable)) else s
  }

  datatype Step =
    | ForkAlloc(p: nat, c: nat)
    | ForkAbort(p: nat)
    | ForkRelease(p: nat)
    | ForkSetParent(p: nat)
    | ForkRun(p: nat)
    | ExitBegin(p: nat)
    | Reparent(p: nat)
    | WakeInit(p: nat)
    | WakeInitDone(p: nat)
    | ReparentDone(p: nat)
    | WakeParent(p: nat)
    | BecomeZombie(p: nat, xstate: int)
    | LeaveCpu(p: nat)
    | WaitBegin(p: nat)
    | WaitLook(p: nat)
    | WaitReap(p: nat)
    | WaitFault(p: nat)
    | WaitNone(p: nat)
    | WaitKilled(p: nat)
    | WaitSleep(p: nat)
    | WaitCommit(p: nat)
    | WaitDescend(p: nat)
    | WaitDispatch(p: nat)
    | WaitReacquire(p: nat)
    | Preempt(p: nat)
    | Dispatch(p: nat)
    | OtherSleep(p: nat, ch: nat)
    | Awaken(p: nat)

  predicate On(s: State, p: nat) { p < |s.slots| && s.slots[p].pc.Quiet? && s.slots[p].status == Running }

  /** Between critical sections a timer interrupt can take the CPU away. */
  predicate Interruptible(pc: Pc) { pc.Quiet? || pc.ForkLink? || pc.ForkStart? || pc.WaitBack? }

  predicate Next(s: State, st: Step, t: State) {
    && st.p < |s.slots|
    && var n, p, x := |s.slots|, st.p, s.slots[st.p];
    match st
    // fork
    case ForkAlloc(_, c) => On(s, p) && c < n && s.slots[c].status == Unused &&
      t == SetPc(SetSlot(s, c, Slot(Used, Nobody, s.nextpid, 0, Quiet)), p, ForkNew(c)).(nextpid := s.nextpid + 1, forker := s.forker[s.nextpid := x.pid])
    case ForkAbort(_) => x.pc.ForkNew? && x.pc.c < n &&
      t == SetPc(SetSlot(s, x.pc.c, FreeSlot), p, Quiet).(forker := s.forker - {s.slots[x.pc.c].pid})
    case ForkRelease(_) => x.pc.ForkNew? && t == SetPc(s, p, ForkLink(x.pc.c))
    case ForkSetParent(_) => x.pc.ForkLink? && x.status == Running && s.waitLock.Nil? && x.pc.c < n &&
      t == SetPc(SetSlot(s, x.pc.c, s.slots[x.pc.c].(parent := ChildOf(p))), p, ForkStart(x.pc.c))
    case ForkRun(_) => x.pc.ForkStart? && x.status == Running && x.pc.c < n &&
      t == SetPc(SetSlot(s, x.pc.c, s.slots[x.pc.c].(status := Runnable)), p, Quiet)
    // exit
    case ExitBegin(_) => On(s, p) && p != INIT && s.waitLock.Nil? && t == SetPc(s, p, ExitScan(0)).(waitLock := By(p))
    case Reparent(_) => x.pc.ExitScan? && x.pc.i < n &&
      t == if s.slots[x.pc.i].parent == ChildOf(p)
           then SetPc(SetSlot(s, x.pc.i, s.slots[x.pc.i].(parent := ChildOf(INIT))), p, ExitWakeInit(x.pc.i, 0))
           else SetPc(s, p, ExitScan(x.pc.i + 1))
    case WakeInit(_) => x.pc.ExitWakeInit? && MayTouch(s, p, x.pc.k) &&
      t == SetPc(Touched(s, p, INIT, x.pc.k), p, ExitWakeInit(x.pc.i, x.pc.k + 1))
    case WakeInitDone(_) => x.pc.ExitWakeInit? && x.pc.k == n && t == SetPc(s, p, ExitScan(x.pc.i + 1))
    case ReparentDone(_) => x.pc.ExitScan? && x.pc.i == n && t == SetPc(s, p, ExitWake(0))
    case WakeParent(_) => x.pc.ExitWake? && x.parent.ChildOf? && MayTouch(s, p, x.pc.k) &&
      t == SetPc(Touched(s, p, x.parent.q, x.pc.k), p, ExitWake(x.pc.k + 1))
    case BecomeZombie(_, xstate) => x.pc.ExitWake? && x.pc.k == n &&
      t == SetSlot(s, p, x.(status := Zombie, xstate := xstate, pc := Exiting)).(waitLock := Nil, exited := s.exited[x.pid := xstate])
    case LeaveCpu(_) => x.pc.Exiting? && t == SetPc(s, p, Gone)
    // wait
    case WaitBegin(_) => On(s, p) && s.waitLock.Nil? && t == SetPc(s, p, WaitScan(0, false)).(waitLock := By(p))
    case WaitLook(_) => x.pc.WaitScan? && x.pc.i < n && Passes(s, p, x.pc.i) &&
      t == SetPc(s, p, WaitScan(x.pc.i + 1, x.pc.kids || s.slots[x.pc.i].parent == ChildOf(p)))
    case WaitReap(_) => x.pc.WaitScan? && Reapable(s, p, x.pc.i) &&
      t == SetPc(SetSlot(s, x.pc.i, FreeSlot), p, Quiet).(waitLock := Nil, reaped := s.reaped + {s.slots[x.pc.i].pid})
    case WaitFault(_) => x.pc.WaitScan? && Reapable(s, p, x.pc.i) && t == SetPc(s, p, Quiet).(waitLock := Nil)
    case WaitNone(_) => x.pc.WaitScan? && x.pc.i == n && !x.pc.kids && t == SetPc(s, p, Quiet).(waitLock := Nil)
    case WaitKilled(_) => x.pc.WaitScan? && x.pc.i == n && t == SetPc(s, p, Quiet).(waitLock := Nil)
    case WaitSleep(_) => x.pc.WaitScan? && x.pc.i == n && x.pc.kids && t == SetPc(s, p, WaitGoing)
    case WaitCommit(_) => x.pc.WaitGoing? && t == SetPc(s, p, WaitCommitted).(waitLock := Nil)
    case WaitDescend(_) => x.pc.WaitCommitted? && t == SetSlot(s, p, x.(status := Sleeping(p), pc := WaitDown))
    case WaitDispatch(_) => x.pc.WaitDown? && x.status.Runnable? && t == SetSlot(s, p, x.(status := Running, pc := WaitBack))
    case WaitReacquire(_) => x.pc.WaitBack? && x.status == Running && s.waitLock.Nil? && t == SetPc(s, p, WaitScan(0, false)).(waitLock := By(p))
    // everything else a process does
    case Preempt(_) => Interruptible(x.pc) && x.status == Running && t == SetSlot(s, p, x.(status := Runnable))
    case Dispatch(_) => Interruptible(x.pc) && x.status.Runnable? && t == SetSlot(s, p, x.(status := Running))
    case OtherSleep(_, ch) => On(s, p) && ch >= n && t == SetSlot(s, p, x.(status := Sleeping(ch)))
    case Awaken(_) => x.status.Sleeping? && t == SetSlot(s, p, x.(status := Runnable))
  }

  /** wait goes past slot i: not a child, or a child that has not exited. */
  predicate Passes(s: State, p: nat, i: nat)
    requires i < |s.slots|
  {
    s.slots[i].parent != ChildOf(p) || (!OwnLock(s.slots[i].pc) && s.slots[i].status != Zombie)
  }

  /** wait finds an exited child: it has the child's lock, so the child is not in exit any more. */
  predicate Reapable(s: State, p: nat, i: nat) {
    i < |s.slots| && s.slots[i].parent == ChildOf(p) && !OwnLock(s.slots[i].pc) && s.slots[i].status == Zombie
  }

  // ---------------------------------------------------------------------------
  // The invariant
  // ---------------------------------------------------------------------------

  /** Neither RUNNING, RUNNABLE nor SLEEPING. */
  predicate Dead(x: Slot) { x.status == Unused || x.status == Used || x.status == Zombie }

  /** Status and place of one process agree. */
  ghost predicate SlotOk(p: nat, x: Slot) {
    match x.pc
    case Quiet => x.status != Zombie && x.status != Sleeping(p) && (x.status == Unused ==> x.parent == Nobody)
    case Exiting => x.status == Zombie
    case Gone => x.status == Zombie
    case WaitDown => x.status == Sleeping(p) || x.status == Runnable
    case _ => x.status == Running || (Interruptible(x.pc) && x.status == Runnable)
  }

  ghost predicate SlotsOk(slots: seq<Slot>) {
    forall p: nat | p < |slots| :: SlotOk(p, slots[p])
  }

  ghost predicate LockOk(slots: seq<Slot>, lock: Holder) {
    && (lock.By? ==> lock.p < |slots| && HoldsWaitLock(slots[lock.p].pc))
    && (forall p: nat | p < |slots| && HoldsWaitLock(slots[p].pc) :: lock == By(p))
  }

  predicate InFork(pc: Pc) { pc.ForkNew? || pc.ForkLink? || pc.ForkStart? }

  /** The child of a fork in progress belongs to nobody else. */
  ghost predicate ForksOk(slots: seq<Slot>) {
    && (forall p: nat | p < |slots| && InFork(slots[p].pc) ::
          slots[p].pc.c < |slots| && slots[slots[p].pc.c].status == Used && slots[slots[p].pc.c].pc.Quiet?)
    && (forall p: nat, q: nat | p < |slots| && q < |slots| && p != q && InFork(slots[p].pc) && InFork(slots[q].pc) :: slots[p].pc.c != slots[q].pc.c)
  }

  /** A parent pointer names a process that is neither UNUSED nor a zombie, nor still being made. */
  ghost predicate ParentsOk(slots: seq<Slot>) {
    && INIT < |slots| && !Dead(slots[INIT]) && slots[INIT].parent == Nobody
    && forall c: nat | c < |slots| && slots[c].parent.ChildOf? ::
         slots[c].parent.q < |slots| && slots[c].parent.q != c && !Dead(slots[slots[c].parent.q])
  }

  /** None of the slots below `upto` is a child of p. */
  ghost predicate NoKids(slots: seq<Slot>, p: nat, upto: nat) {
    forall j: nat | j < |slots| && j < upto :: slots[j].parent != ChildOf(p)
  }

  ghost predicate ExitOk(slots: seq<Slot>) {
    forall p: nat | p < |slots| :: ExitAt(slots, p, slots[p].pc)
  }

  ghost predicate ExitAt(slots: seq<Slot>, p: nat, pc: Pc) {
    match pc
    case ExitScan(i) => p != INIT && i <= |slots| && NoKids(slots, p, i)
    case ExitWakeInit(i, k) => p != INIT && i < |slots| && k <= |slots| && NoKids(slots, p, i + 1)
    case ExitWake(k) => p != INIT && k <= |slots| && NoKids(slots, p, |slots|)
    case _ => true
  }

  predicate ZombieChild(x: Slot, p: nat) { x.parent == ChildOf(p) && x.status == Zombie }

  /** None of the slots below `upto` is an exited child of p. */
  ghost predicate NoZombies(slots: seq<Slot>, p: nat, upto: nat) {
    forall j: nat | j < |slots| && j < upto :: !ZombieChild(slots[j], p)
  }

  ghost predicate WaitOk(slots: seq<Slot>) {
    forall p: nat | p < |slots| :: WaitAt(slots, p, slots[p].pc)
  }

  ghost predicate WaitAt(slots: seq<Slot>, p: nat, pc: Pc) {
    match pc
    case WaitScan(i, kids) => i <= |slots| && NoZombies(slots, p, i) && (!kids ==> NoKids(slots, p, i))
    case WaitGoing => NoZombies(slots, p, |slots|)
    case _ => true
  }

  /** The process is asleep in wait, or on its way there without wait_lock. */
  predicate Bound(p: nat, x: Slot) { x.pc.WaitCommitted? || (x.pc.WaitDown? && x.status == Sleeping(p)) }

  /** reparent has given init a child and its wakeup has not reached init yet. */
  predicate InitDue(slots: seq<Slot>, lock: Holder) {
    lock.By? && lock.p < |slots| && slots[lock.p].pc.ExitWakeInit? && slots[lock.p].pc.k <= INIT
  }

  ghost predicate SleepOk(slots: seq<Slot>, lock: Holder) {
    forall p: nat | p < |slots| && Bound(p, slots[p]) :: NoZombies(slots, p, |slots|) || (p == INIT && InitDue(slots, lock))
  }

  /** What the wakeups of an exit in progress have done so far. */
  ghost predicate WokeOk(slots: seq<Slot>) {
    forall p: nat | p < |slots| :: WokeAt(slots, p, slots[p].pc)
  }

  ghost predicate WokeAt(slots: seq<Slot>, p: nat, pc: Pc)
    requires p < |slots|
  {
    match pc
    case ExitWakeInit(_, k) => k > INIT && INIT < |slots| ==> !Bound(INIT, slots[INIT])
    case ExitWake(k) => slots[p].parent.ChildOf? && slots[p].parent.q < |slots| && k > slots[p].parent.q ==>
                          !Bound(slots[p].parent.q, slots[slots[p].parent.q])
    case _ => true
  }

  /** Live processes have pids of their own; zombies are the exited processes not reaped yet. */
  ghost predicate PidsOk(s: State) {
    && s.reaped <= s.exited.Keys && (forall x | x in s.exited :: x < s.nextpid)
    && (forall p: nat | p < |s.slots| && s.slots[p].status != Unused ::
          s.slots[p].pid < s.nextpid && s.slots[p].pid !in s.reaped && (s.slots[p].pid in s.exited <==> s.slots[p].status == Zombie)
          && (s.slots[p].status == Zombie ==> s.slots[p].pid in s.exited && s.exited[s.slots[p].pid] == s.slots[p].xstate))
    && (forall p: nat, q: nat | p < |s.slots| && q < |s.slots| && p != q && s.slots[p].status != Unused && s.slots[q].status != Unused ::
          s.slots[p].pid != s.slots[q].pid)
  }

  ghost predicate Inv(s: State) {
    Core(s) && SleepOk(s.slots, s.waitLock)
  }

  // ---------------------------------------------------------------------------
  // Changing one slot
  // ---------------------------------------------------------------------------

  /** All of the invariant but what concerns sleepers. */
  ghost predicate Core(s: State) {
    Table(s.slots, s.waitLock) && PidsOk(s)
  }

  ghost predicate Table(slots: seq<Slot>, lock: Holder) {
    && SlotsOk(slots) && LockOk(slots, lock) && ForksOk(slots) && ParentsOk(slots)
    && ExitOk(slots) && WaitOk(slots) && WokeOk(slots)
  }

  predicate InExit(pc: Pc) { pc.ExitScan? || pc.ExitWakeInit? || pc.ExitWake? }

  predicate InWait(pc: Pc) { pc.WaitScan? || pc.WaitGoing? }

  /** wait_lock stays with its holder, or p takes or releases it. */
  predicate LockMove(p: nat, x: Slot, y: Slot, lock: Holder, lock': Holder) {
    if lock' == lock then HoldsWaitLock(y.pc) == HoldsWaitLock(x.pc)
    else if lock' == Nil then lock == By(p) && !HoldsWaitLock(y.pc)
    else lock == Nil && lock' == By(p) && HoldsWaitLock(y.pc)
  }

  /** Nobody is making the process in slot c. */
  ghost predicate NewFork(slots: seq<Slot>, p: nat, c: nat) {
    && c < |slots| && c != p && slots[c].status == Used && slots[c].pc.Quiet?
    && forall q: nat | q < |slots| && InFork(slots[q].pc) :: slots[q].pc.c != c
  }

  /** The forks in progress go on, or p begins one, and the child of none is touched. */
  ghost predicate ForkMove(slots: seq<Slot>, p: nat, y: Slot)
    requires p < |slots|
  {
    && (InFork(y.pc) ==> (InFork(slots[p].pc) && y.pc.c == slots[p].pc.c) || NewFork(slots, p, y.pc.c))
    && ((y.status == slots[p].status && y.pc == slots[p].pc) || forall q: nat | q < |slots| && InFork(slots[q].pc) :: slots[q].pc.c != p)
  }

  /** Parent pointers stay good. */
  ghost predicate ParentMove(slots: seq<Slot>, p: nat, y: Slot)
    requires p < |slots|
  {
    && (y.parent != slots[p].parent && y.parent.ChildOf? ==> y.parent.q < |slots| && y.parent.q != p && !Dead(slots[y.parent.q]))
    && (Dead(y) && !Dead(slots[p]) ==> p != INIT && NoKids(slots, p, |slots|))
    && (p == INIT ==> y.parent == slots[p].parent)
    && (y.parent != slots[p].parent ==> !(y.parent.ChildOf? && y.parent.q < |slots| && (InExit(slots[y.parent.q].pc) || InWait(slots[y.parent.q].pc))))
  }

  /** No process in wait is given an exited child behind its back. */
  ghost predicate ZombieMove(slots: seq<Slot>, p: nat, y: Slot)
    requires p < |slots|
  {
    y.status == Zombie && slots[p].status != Zombie ==>
      forall q: nat | q < |slots| && q != p :: !InWait(slots[q].pc)
  }

  lemma SlotsKept(slots: seq<Slot>, p: nat, y: Slot)
    requires SlotsOk(slots) && p < |slots| && SlotOk(p, y)
    ensures SlotsOk(slots[p := y])
  {
  }

  lemma LockKept(slots: seq<Slot>, p: nat, y: Slot, lock: Holder, lock': Holder)
    requires LockOk(slots, lock) && p < |slots| && LockMove(p, slots[p], y, lock, lock')
    ensures LockOk(slots[p := y], lock')
  {
  }

  lemma ForksKept(slots: seq<Slot>, p: nat, y: Slot)
    requires ForksOk(slots) && p < |slots| && ForkMove(slots, p, y)
    ensures ForksOk(slots[p := y])
  {
    var slots' := slots[p := y];
    forall q: nat | q < |slots| && InFork(slots'[q].pc)
      ensures slots'[q].pc.c < |slots| && slots'[slots'[q].pc.c].status == Used && slots'[slots'[q].pc.c].pc.Quiet?
    {
      assert q != p ==> InFork(slots[q].pc);
    }
  }

  lemma ParentsKept(slots: seq<Slot>, p: nat, y: Slot)
    requires ParentsOk(slots) && p < |slots| && ParentMove(slots, p, y)
    ensures ParentsOk(slots[p := y])
  {
  }

  lemma NoKidsKept(slots: seq<Slot>, p: nat, y: Slot, q: nat, upto: nat)
    requires p < |slots| && NoKids(slots, q, upto) && (y.parent == slots[p].parent || y.parent != ChildOf(q))
    ensures NoKids(slots[p := y], q, upto)
  {
  }

  lemma ExitKept(slots: seq<Slot>, p: nat, y: Slot)
    requires ExitOk(slots) && p < |slots| && ParentMove(slots, p, y) && ExitAt(slots[p := y], p, y.pc)
    ensures ExitOk(slots[p := y])
  {
    hide NoKids;
    var slots' := slots[p := y];
    forall q: nat | q < |slots| ensures ExitAt(slots', q, slots'[q].pc) {
      if q != p {
        assert ExitAt(slots, q, slots[q].pc);
        match slots[q].pc
        case ExitScan(i) => NoKidsKept(slots, p, y, q, i);
        case ExitWakeInit(i, k) => NoKidsKept(slots, p, y, q, i + 1);
        case ExitWake(k) => NoKidsKept(slots, p, y, q, |slots|);
        case _ =>
      }
    }
  }

  lemma NoZombiesKept(slots: seq<Slot>, p: nat, y: Slot, q: nat, upto: nat)
    requires p < |slots| && NoZombies(slots, q, upto) && (ZombieChild(y, q) ==> ZombieChild(slots[p], q))
    ensures NoZombies(slots[p := y], q, upto)
  {
  }

  lemma WaitKept(slots: seq<Slot>, p: nat, y: Slot)
    requires WaitOk(slots) && p < |slots| && ParentMove(slots, p, y) && ZombieMove(slots, p, y) && WaitAt(slots[p := y], p, y.pc)
    ensures WaitOk(slots[p := y])
  {
    hide NoKids, NoZombies;
    var slots' := slots[p := y];
    forall q: nat | q < |slots| ensures WaitAt(slots', q, slots'[q].pc) {
      if q != p {
        assert WaitAt(slots, q, slots[q].pc);
        match slots[q].pc
        case WaitScan(i, kids) =>
          NoZombiesKept(slots, p, y, q, i);
          if !kids { NoKidsKept(slots, p, y, q, i); }
        case WaitGoing => NoZombiesKept(slots, p, y, q, |slots|);
        case _ =>
      }
    }
  }

  /** The parent of a process in exit's last part does not change, and nobody falls asleep behind its back. */
  ghost predicate WokeMove(slots: seq<Slot>, p: nat, y: Slot)
    requires p < |slots|
  {
    && (Bound(p, y) && !Bound(p, slots[p]) ==> forall q: nat | q < |slots| && q != p :: !InExit(slots[q].pc))
    && (y.parent != slots[p].parent ==> !y.pc.ExitWake?)
  }

  lemma WokeKept(slots: seq<Slot>, p: nat, y: Slot)
    requires WokeOk(slots) && p < |slots| && WokeMove(slots, p, y) && WokeAt(slots[p := y], p, y.pc)
    ensures WokeOk(slots[p := y])
  {
    var slots' := slots[p := y];
    forall q: nat | q < |slots| ensures WokeAt(slots', q, slots'[q].pc) {
      if q != p { assert WokeAt(slots, q, slots[q].pc); }
    }
  }

  /** The pids of live processes stay their own. */
  lemma PidsKept(s: State, p: nat, y: Slot)
    requires PidsOk(s) && p < |s.slots| && y.pid == s.slots[p].pid
    requires (y.status == Unused) == (s.slots[p].status == Unused) && (y.status == Zombie) == (s.slots[p].status == Zombie)
    requires y.status == Zombie ==> y.xstate == s.slots[p].xstate
    ensures PidsOk(SetSlot(s, p, y))
  {
  }

  /** A step of p that changes its own slot and perhaps wait_lock. */
  lemma OneSlot(s: State, p: nat, y: Slot, lock: Holder)
    requires Core(s) && p < |s.slots| && SlotOk(p, y) && LockMove(p, s.slots[p], y, s.waitLock, lock)
    requires ForkMove(s.slots, p, y) && ParentMove(s.slots, p, y) && ZombieMove(s.slots, p, y) && WokeMove(s.slots, p, y)
    requires ExitAt(s.slots[p := y], p, y.pc) && WaitAt(s.slots[p := y], p, y.pc) && WokeAt(s.slots[p := y], p, y.pc)
    ensures Table(s.slots[p := y], lock)
  {
    hide SlotsOk, LockOk, ForksOk, ParentsOk, ExitOk, WaitOk, WokeOk, SlotOk, LockMove, ForkMove, ParentMove, ZombieMove, WokeMove, ExitAt, WaitAt, WokeAt;
    SlotsKept(s.slots, p, y);
    LockKept(s.slots, p, y, s.waitLock, lock);
    ForksKept(s.slots, p, y);
    ParentsKept(s.slots, p, y);
    ExitKept(s.slots, p, y);
    WaitKept(s.slots, p, y);
    WokeKept(s.slots, p, y);
  }

  // ---------------------------------------------------------------------------
  // Every step keeps it
  // ---------------------------------------------------------------------------

  lemma NotForked(s: State, p: nat)
    requires Core(s) && p < |s.slots| && (s.slots[p].status != Used || !s.slots[p].pc.Quiet?)
    ensures SlotOk(p, s.slots[p]) && forall q: nat | q < |s.slots| && InFork(s.slots[q].pc) :: s.slots[q].pc.c != p
  {
    hide LockOk, ParentsOk, ExitOk, WaitOk, WokeOk, PidsOk, SlotOk;
  }

  lemma OnlyHolder(s: State, p: nat)
    requires Core(s) && p < |s.slots| && HoldsWaitLock(s.slots[p].pc)
    ensures s.waitLock == By(p) && forall q: nat | q < |s.slots| && q != p :: !HoldsWaitLock(s.slots[q].pc)
  {
    hide SlotsOk, ForksOk, ParentsOk, ExitOk, WaitOk, WokeOk, PidsOk, HoldsWaitLock;
  }

  lemma SetSame(s: State, p: nat, y: Slot)
    requires p < |s.slots|
    ensures SetSlot(s, p, y).(waitLock := s.waitLock) == SetSlot(s, p, y)
  {
  }

  /** A process goes on without any change to who is whose child, dead, or in fork. */
  lemma GoOn(s: State, p: nat, y: Slot, lock: Holder)
    requires Core(s) && p < |s.slots| && SlotOk(p, y) && LockMove(p, s.slots[p], y, s.waitLock, lock)
    requires y.parent == s.slots[p].parent && y.pid == s.slots[p].pid && !Dead(y) && !Dead(s.slots[p])
    requires InFork(y.pc) ==> InFork(s.slots[p].pc) && y.pc.c == s.slots[p].pc.c
    requires Bound(p, y) ==> Bound(p, s.slots[p]) || HoldsWaitLock(s.slots[p].pc)
    requires ExitAt(s.slots[p := y], p, y.pc) && WaitAt(s.slots[p := y], p, y.pc) && WokeAt(s.slots[p := y], p, y.pc)
    ensures Core(SetSlot(s, p, y).(waitLock := lock))
  {
    hide Table, SlotOk, LockMove, ExitAt, WaitAt, WokeAt, PidsOk;
    NotForked(s, p);
    if HoldsWaitLock(s.slots[p].pc) { OnlyHolder(s, p); }
    PidsKept(s, p, y);
    OneSlot(s, p, y, lock);
    SamePids(SetSlot(s, p, y), lock);
  }

  lemma SamePids(s: State, lock: Holder)
    ensures PidsOk(s) == PidsOk(s.(waitLock := lock))
  {
  }

  lemma CorePids(s: State)
    requires Core(s)
    ensures PidsOk(s) && ExitOk(s.slots) && WaitOk(s.slots) && WokeOk(s.slots) && ParentsOk(s.slots) && ForksOk(s.slots) && SlotsOk(s.slots)
  {
    hide SlotsOk, LockOk, ForksOk, ParentsOk, ExitOk, WaitOk, WokeOk, PidsOk;
  }

  // --- wait ------------------------------------------------------------------

  lemma ScanSteps(s: State, st: Step, t: State)
    requires Core(s) && Next(s, st, t) && (st.WaitBegin? || st.WaitReacquire? || st.ExitBegin?)
    ensures Core(t)
  {
    hide Core, PidsOk;
    var p, x := st.p, s.slots[st.p];
    NotForkedUser(s, p);
    GoOn(s, p, x.(pc := if st.ExitBegin? then ExitScan(0) else WaitScan(0, false)), By(p));
  }

  lemma WaitEnds(s: State, st: Step, t: State)
    requires Core(s) && Next(s, st, t) && (st.WaitFault? || st.WaitNone? || st.WaitKilled?)
    ensures Core(t)
  {
    hide Core, PidsOk, NoKids, NoZombies;
    var p, x := st.p, s.slots[st.p];
    NotForkedUser(s, p);
    OnlyHolder(s, p);
    GoOn(s, p, x.(pc := Quiet), Nil);
  }

  lemma WaitSleeps(s: State, st: Step, t: State)
    requires Core(s) && Next(s, st, t) && (st.WaitSleep? || st.WaitCommit? || st.WaitDescend? || st.WaitDispatch?)
    ensures Core(t)
  {
    hide Core, PidsOk, NoKids, NoZombies;
    var p, x := st.p, s.slots[st.p];
    NotForkedUser(s, p);
    if HoldsWaitLock(x.pc) { OnlyHolder(s, p); }
    CorePids(s);
    assert WaitAt(s.slots, p, x.pc);
    match st
    case WaitSleep(_) => NoZombiesKept(s.slots, p, x.(pc := WaitGoing), p, |s.slots|); GoOn(s, p, x.(pc := WaitGoing), s.waitLock);
    case WaitCommit(_) => GoOn(s, p, x.(pc := WaitCommitted), Nil);
    case WaitDescend(_) => GoOn(s, p, x.(status := Sleeping(p), pc := WaitDown), s.waitLock);
    case WaitDispatch(_) => GoOn(s, p, x.(status := Running, pc := WaitBack), s.waitLock);
  }

  lemma NotForkedUser(s: State, p: nat)
    requires Core(s) && p < |s.slots|
    ensures SlotOk(p, s.slots[p])
  {
    hide LockOk, ForksOk, ParentsOk, ExitOk, WaitOk, WokeOk, PidsOk, SlotOk;
  }

  lemma WaitLookStep(s: State, st: Step, t: State)
    requires Core(s) && Next(s, st, t) && st.WaitLook?
    ensures Core(t)
  {
    hide Core, PidsOk;
    var p, x := st.p, s.slots[st.p];
    NotForkedUser(s, p);
    CorePids(s);
    assert WaitAt(s.slots, p, x.pc);
    var y := x.(pc := WaitScan(x.pc.i + 1, x.pc.kids || s.slots[x.pc.i].parent == ChildOf(p)));
    GoOn(s, p, y, s.waitLock);
  }

  // --- everything else -------------------------------------------------------

  lemma OtherSteps(s: State, st: Step, t: State)
    requires Core(s) && Next(s, st, t) && (st.Preempt? || st.Dispatch? || st.OtherSleep? || st.Awaken? || st.ForkRelease?)
    ensures Core(t)
  {
    hide Core, PidsOk;
    var p, x := st.p, s.slots[st.p];
    NotForkedUser(s, p);
    CorePids(s);
    match st
    case Preempt(_) => GoOn(s, p, x.(status := Runnable), s.waitLock);
    case Dispatch(_) => GoOn(s, p, x.(status := Running), s.waitLock);
    case OtherSleep(_, ch) => GoOn(s, p, x.(status := Sleeping(ch)), s.waitLock);
    case Awaken(_) => GoOn(s, p, x.(status := Runnable), s.waitLock);
    case ForkRelease(_) => GoOn(s, p, x.(pc := ForkLink(x.pc.c)), s.waitLock);
  }

  // --- exit ------------------------------------------------------------------

  /** The loop of reparent moves on, or ends. */
  predicate ScanMoves(slots: seq<Slot>, p: nat, x: Slot, y: Slot) {
    || (x.pc.ExitWakeInit? && y == x.(pc := ExitScan(x.pc.i + 1)))
    || (x.pc.ExitScan? && x.pc.i == |slots| && y == x.(pc := ExitWake(0)))
    || (x.pc.ExitScan? && x.pc.i < |slots| && slots[x.pc.i].parent != ChildOf(p) && y == x.(pc := ExitScan(x.pc.i + 1)))
  }

  lemma ScanStays(slots: seq<Slot>, p: nat, y: Slot)
    requires p < |slots| && ScanMoves(slots, p, slots[p], y) && ExitAt(slots, p, slots[p].pc)
    ensures ExitAt(slots[p := y], p, y.pc) && WaitAt(slots[p := y], p, y.pc) && WokeAt(slots[p := y], p, y.pc)
  {
  }

  lemma ScanFits(s: State, p: nat, y: Slot)
    requires p < |s.slots| && ScanMoves(s.slots, p, s.slots[p], y) && SlotOk(p, s.slots[p])
    ensures SlotOk(p, y) && LockMove(p, s.slots[p], y, s.waitLock, s.waitLock) && y.parent == s.slots[p].parent && y.pid == s.slots[p].pid
    ensures !InFork(y.pc) && !Bound(p, y) && !Dead(y) && !Dead(s.slots[p])
  {
  }

  lemma ExitMoves(s: State, st: Step, t: State)
    requires Core(s) && Next(s, st, t) && (st.WakeInitDone? || st.ReparentDone? || (st.Reparent? && s.slots[s.slots[st.p].pc.i].parent != ChildOf(st.p)))
    ensures Core(t)
  {
    hide Core, PidsOk, ExitAt, WaitAt, WokeAt, SlotOk, LockMove, Bound, InFork, Dead;
    var p, x := st.p, s.slots[st.p];
    var y := x.(pc := t.slots[p].pc);
    CorePids(s);
    assert ExitAt(s.slots, p, x.pc) && SlotOk(p, x);
    ScanStays(s.slots, p, y);
    ScanFits(s, p, y);
    GoOn(s, p, y, s.waitLock);
  }

  /** A wakeup that gets to slot k. */
  lemma TouchCore(s: State, p: nat, ch: nat, k: nat)
    requires Core(s) && p < |s.slots| && MayTouch(s, p, k) && ch < |s.slots|
    ensures Core(Touched(s, p, ch, k))
    ensures k != p && k == ch ==> !Bound(k, Touched(s, p, ch, k).slots[k])
    ensures Touched(s, p, ch, k).slots[p] == s.slots[p] && |Touched(s, p, ch, k).slots| == |s.slots|
    ensures forall j: nat | j < |s.slots| && !Bound(j, s.slots[j]) :: !Bound(j, Touched(s, p, ch, k).slots[j])
  {
    hide Core, PidsOk;
    NotForkedUser(s, k);
    if k != p && s.slots[k].status == Sleeping(ch) {
      OtherSteps(s, Awaken(k), Touched(s, p, ch, k));
    }
  }

  lemma WakeSteps(s: State, st: Step, t: State)
    requires Core(s) && Next(s, st, t) && (st.WakeInit? || st.WakeParent?)
    ensures Core(t)
  {
    hide Core;
    var p, x := st.p, s.slots[st.p];
    if st.WakeInit? {
      WakeOne(s, p, INIT, x.pc.k, x.(pc := ExitWakeInit(x.pc.i, x.pc.k + 1)), t);
    } else {
      WakeOne(s, p, x.parent.q, x.pc.k, x.(pc := ExitWake(x.pc.k + 1)), t);
    }
  }

  /** One turn of a wakeup loop in exit: p looks at slot k and goes on. */
  lemma WakeOne(s: State, p: nat, ch: nat, k: nat, y: Slot, t: State)
    requires Core(s) && p < |s.slots| && MayTouch(s, p, k)
    requires var x := s.slots[p];
      || (x.pc.ExitWakeInit? && ch == INIT && x.pc.k == k && y == x.(pc := ExitWakeInit(x.pc.i, k + 1)))
      || (x.pc.ExitWake? && x.parent == ChildOf(ch) && x.pc.k == k && y == x.(pc := ExitWake(k + 1)))
    requires k < |s.slots| && t == SetSlot(Touched(s, p, ch, k), p, y)
    ensures Core(t)
  {
    hide Core, PidsOk, Touched, MayTouch, ExitAt, WokeAt, SlotOk, Bound;
    var x := s.slots[p];
    CorePids(s);
    assert ExitAt(s.slots, p, x.pc) && WokeAt(s.slots, p, x.pc) && SlotOk(p, x);
    WakeFits(p, x, y);
    ChannelExists(s.slots, p, ch);
    TouchCore(s, p, ch, k);
    var m := Touched(s, p, ch, k);
    CorePids(m);
    assert ExitAt(m.slots, p, x.pc);
    ExitStays(m.slots, p, x, y);
    WokeMore(s, m, p, ch, k, y);
    GoOn(m, p, y, m.waitLock);
    SetSame(m, p, y);
  }

  lemma WakeFits(p: nat, x: Slot, y: Slot)
    requires SlotOk(p, x)
    requires (x.pc.ExitWakeInit? && y == x.(pc := ExitWakeInit(x.pc.i, x.pc.k + 1))) || (x.pc.ExitWake? && y == x.(pc := ExitWake(x.pc.k + 1)))
    ensures SlotOk(p, y) && !Bound(p, y)
  {
  }

  /** Whom exit wakes: init, or a parent that exists. */
  lemma ChannelExists(slots: seq<Slot>, p: nat, ch: nat)
    requires p < |slots| && ParentsOk(slots)
    requires (slots[p].pc.ExitWakeInit? && ch == INIT) || slots[p].parent == ChildOf(ch)
    ensures ch < |slots|
  {
  }


  lemma ExitStays(slots: seq<Slot>, p: nat, x: Slot, y: Slot)
    requires p < |slots| && slots[p] == x && ExitAt(slots, p, x.pc) && y.parent == x.parent
    requires (x.pc.ExitWakeInit? && x.pc.k < |slots| && y.pc == ExitWakeInit(x.pc.i, x.pc.k + 1)) || (x.pc.ExitWake? && x.pc.k < |slots| && y.pc == ExitWake(x.pc.k + 1))
    ensures ExitAt(slots[p := y], p, y.pc)
  {
  }

  lemma WokeMore(s: State, m: State, p: nat, ch: nat, k: nat, y: Slot)
    requires p < |s.slots| == |m.slots| && k < |s.slots| && ch < |s.slots| && m.slots[p] == s.slots[p] && WokeAt(s.slots, p, s.slots[p].pc)
    requires k != p && k == ch ==> !Bound(k, m.slots[k])
    requires forall j: nat | j < |s.slots| && !Bound(j, s.slots[j]) :: !Bound(j, m.slots[j])
    requires y.parent == s.slots[p].parent
    requires (s.slots[p].pc.ExitWakeInit? && ch == INIT && s.slots[p].pc.k == k && y.pc == ExitWakeInit(s.slots[p].pc.i, k + 1))
          || (s.slots[p].pc.ExitWake? && y.parent == ChildOf(ch) && s.slots[p].pc.k == k && y.pc == ExitWake(k + 1))
    ensures WokeAt(m.slots[p := y], p, y.pc)
  {
  }

  /** The pid of a process that exits joins those that have exited. */
  lemma ExitedPids(s: State, p: nat, xstate: int, lock: Holder)
    requires PidsOk(s) && p < |s.slots| && s.slots[p].status != Unused
    ensures PidsOk(SetSlot(s, p, s.slots[p].(status := Zombie, xstate := xstate, pc := Exiting)).(waitLock := lock, exited := s.exited[s.slots[p].pid := xstate]))
  {
  }

  /** A process without children can become a zombie, and then leave its CPU. */
  lemma Exits(s: State, p: nat, y: Slot)
    requires p < |s.slots| && SlotOk(p, s.slots[p]) && ExitAt(s.slots, p, s.slots[p].pc)
    requires forall q: nat | q < |s.slots| && InFork(s.slots[q].pc) :: s.slots[q].pc.c != p
    requires s.slots[p].pc == ExitWake(|s.slots|) ==> forall q: nat | q < |s.slots| && q != p :: !HoldsWaitLock(s.slots[q].pc)
    requires var x := s.slots[p];
      || (x.pc == ExitWake(|s.slots|) && y == x.(status := Zombie, xstate := y.xstate, pc := Exiting))
      || (x.pc == Exiting && y == x.(pc := Gone))
    ensures SlotOk(p, y) && ForkMove(s.slots, p, y) && ParentMove(s.slots, p, y) && ZombieMove(s.slots, p, y) && WokeMove(s.slots, p, y)
    ensures ExitAt(s.slots[p := y], p, y.pc) && WaitAt(s.slots[p := y], p, y.pc) && WokeAt(s.slots[p := y], p, y.pc)
  {
  }

  lemma ZombieStep(s: State, st: Step, t: State)
    requires Core(s) && Next(s, st, t) && (st.BecomeZombie? || st.LeaveCpu?)
    ensures Core(t)
  {
    hide Table, PidsOk, SlotOk, ForkMove, ParentMove, ZombieMove, WokeMove, ExitAt, WaitAt, WokeAt, InFork;
    var p, x := st.p, s.slots[st.p];
    var y := if st.BecomeZombie? then x.(status := Zombie, xstate := st.xstate, pc := Exiting) else x.(pc := Gone);
    CorePids(s);
    assert SlotOk(p, x) && ExitAt(s.slots, p, x.pc);
    NotForked(s, p);
    if st.BecomeZombie? {
      OnlyHolder(s, p);
      RunsUntil(p, x);
      ExitedPids(s, p, st.xstate, Nil);
    } else {
      PidsKept(s, p, y);
    }
    Exits(s, p, y);
    OneSlot(s, p, y, t.waitLock);
  }

  lemma RunsUntil(p: nat, x: Slot)
    requires SlotOk(p, x) && x.pc.ExitWake?
    ensures x.status != Unused && x.status != Zombie
  {
  }

  // --- steps that change a second slot -----------------------------------------

  lemma ReparentStep(s: State, st: Step, t: State)
    requires Core(s) && Next(s, st, t) && st.Reparent? && s.slots[s.slots[st.p].pc.i].parent == ChildOf(st.p)
    ensures Core(t)
  {
    hide Table, PidsOk;
    var p, x := st.p, s.slots[st.p];
    var i := x.pc.i;
    CorePids(s);
    OnlyHolder(s, p);
    assert ExitAt(s.slots, p, x.pc) && SlotOk(i, s.slots[i]) && SlotOk(p, x);
    var y := s.slots[i].(parent := ChildOf(INIT));
    GiveToInit(s, p, i, y);
    var m := SetSlot(s, i, y);
    assert m.waitLock == s.waitLock;
    CorePids(m);
    assert ExitAt(m.slots, p, m.slots[p].pc);
    GoOn(m, p, m.slots[p].(pc := ExitWakeInit(i, 0)), m.waitLock);
  }

  lemma GiveToInit(s: State, p: nat, i: nat, y: Slot)
    requires Core(s) && p < |s.slots| && i < |s.slots| && s.slots[p].pc == ExitScan(i) && s.slots[i].parent == ChildOf(p)
    requires y == s.slots[i].(parent := ChildOf(INIT))
    ensures Core(SetSlot(s, i, y))
  {
    hide Table, PidsOk;
    CorePids(s);
    OnlyHolder(s, p);
    assert ExitAt(s.slots, p, s.slots[p].pc) && SlotOk(i, s.slots[i]);
    PidsKept(s, i, y);
    OneSlot(s, i, y, s.waitLock);
  }

  lemma ReapStep(s: State, st: Step, t: State)
    requires Core(s) && Next(s, st, t) && st.WaitReap?
    ensures Core(t)
  {
    hide Table, SlotsOk, LockOk, ForksOk, ParentsOk, ExitOk, WaitOk, WokeOk;
    var p, x := st.p, s.slots[st.p];
    var i := x.pc.i;
    NotForkedUser(s, p);
    var m := SetPc(s, p, Quiet).(waitLock := Nil);
    WaitEnds(s, WaitFault(p), m);
    NotForked(m, i);
    NotInit(m, i);
    OneSlot(m, i, FreeSlot, Nil);
    assert i != p && t == SetSlot(m, i, FreeSlot).(reaped := s.reaped + {s.slots[i].pid});
    PidsReaped(m, i);
  }

  lemma PidsReaped(s: State, i: nat)
    requires PidsOk(s) && i < |s.slots| && s.slots[i].status == Zombie
    ensures s.slots[i].pid in s.exited && s.slots[i].pid !in s.reaped && s.exited[s.slots[i].pid] == s.slots[i].xstate
    ensures PidsOk(SetSlot(s, i, FreeSlot).(reaped := s.reaped + {s.slots[i].pid}))
  {
  }

  lemma ForkSteps(s: State, st: Step, t: State)
    requires Core(s) && Next(s, st, t) && (st.ForkAlloc? || st.ForkAbort? || st.ForkSetParent? || st.ForkRun?)
    ensures Core(t)
  {
    hide Core;
    NotForkedUser(s, st.p);
    match st
    case ForkAlloc(p, c) => AllocStep(s, st, t);
    case ForkAbort(p) => AbortStep(s, st, t);
    case ForkSetParent(p) => SetParentStep(s, st, t);
    case ForkRun(p) => RunStep(s, st, t);
  }

  lemma AllocStep(s: State, st: Step, t: State)
    requires Core(s) && Next(s, st, t) && st.ForkAlloc?
    ensures Core(t)
  {
    hide Table, SlotsOk, LockOk, ForksOk, ParentsOk, ExitOk, WaitOk, WokeOk;
    var p, c, x := st.p, st.c, s.slots[st.p];
    NotForkedUser(s, p);
    NotForkedUser(s, c);
    NotForked(s, c);
    var y := Slot(Used, Nobody, s.nextpid, 0, Quiet);
    OneSlot(s, c, y, s.waitLock);
    var m := SetSlot(s, c, y).(nextpid := s.nextpid + 1);
    assert PidsOk(m);
    var z := x.(pc := ForkNew(c));
    NotForked(m, p);
    OneSlot(m, p, z, m.waitLock);
    PidsKept(m, p, z);
  }

  lemma AbortStep(s: State, st: Step, t: State)
    requires Core(s) && Next(s, st, t) && st.ForkAbort?
    ensures Core(t)
  {
    hide Table, SlotsOk, LockOk, ParentsOk, ExitOk, WaitOk, WokeOk;
    var p, x := st.p, s.slots[st.p];
    var c := x.pc.c;
    NotForkedUser(s, p);
    ForkAlone(s, p);
    var m := SetPc(s, p, Quiet);
    GoOn(s, p, x.(pc := Quiet), s.waitLock);
    assert m == SetSlot(s, p, x.(pc := Quiet)).(waitLock := s.waitLock);
    NotInit(m, c);
    OneSlot(m, c, FreeSlot, m.waitLock);
    assert t == SetSlot(m, c, FreeSlot).(forker := t.forker);
    PidsFreed(m, c);
  }

  lemma PidsFreed(s: State, c: nat)
    requires PidsOk(s) && c < |s.slots|
    ensures PidsOk(SetSlot(s, c, FreeSlot))
  {
  }

  /** The child belongs to this fork only. */
  lemma ForkAlone(s: State, p: nat)
    requires Core(s) && p < |s.slots| && InFork(s.slots[p].pc)
    ensures var c := s.slots[p].pc.c;
      && c < |s.slots| && c != p && s.slots[c].status == Used && s.slots[c].pc.Quiet?
      && forall q: nat | q < |s.slots| && q != p && InFork(s.slots[q].pc) :: s.slots[q].pc.c != c
  {
    hide LockOk, ParentsOk, ExitOk, WaitOk, WokeOk, PidsOk;
    assert SlotOk(p, s.slots[p]);
  }

  lemma SetParentStep(s: State, st: Step, t: State)
    requires Core(s) && Next(s, st, t) && st.ForkSetParent?
    ensures Core(t)
  {
    hide Table, SlotsOk, LockOk, ParentsOk, ExitOk, WaitOk, WokeOk;
    var p, x := st.p, s.slots[st.p];
    var c := x.pc.c;
    NotForkedUser(s, p);
    NotForkedUser(s, c);
    ForkAlone(s, p);
    NotInit(s, c);
    var y := s.slots[c].(parent := ChildOf(p));
    OneSlot(s, c, y, s.waitLock);
    PidsKept(s, c, y);
    var m := SetSlot(s, c, y);
    GoOn(m, p, x.(pc := ForkStart(c)), m.waitLock);
  }

  lemma NotInit(s: State, c: nat)
    requires Core(s) && c < |s.slots| && Dead(s.slots[c])
    ensures c != INIT
  {
  }

  lemma RunStep(s: State, st: Step, t: State)
    requires Core(s) && Next(s, st, t) && st.ForkRun?
    ensures Core(t)
  {
    hide Table, SlotsOk, LockOk, ParentsOk, ExitOk, WaitOk, WokeOk;
    var p, x := st.p, s.slots[st.p];
    var c := x.pc.c;
    NotForkedUser(s, p);
    ForkAlone(s, p);
    var m := SetPc(s, p, Quiet);
    GoOn(s, p, x.(pc := Quiet), s.waitLock);
    assert m == SetSlot(s, p, x.(pc := Quiet)).(waitLock := s.waitLock);
    var y := m.slots[c].(status := Runnable);
    OneSlot(m, c, y, m.waitLock);
    assert t == SetSlot(m, c, y);
    PidsKept(m, c, y);
  }

  lemma CoreKept(s: State, st: Step, t: State)
    requires Core(s) && Next(s, st, t)
    ensures Core(t)
  {
    hide Core, Next;
    if st.ForkAlloc? || st.ForkAbort? || st.ForkSetParent? || st.ForkRun? { ForkSteps(s, st, t); }
    else if st.Preempt? || st.Dispatch? || st.OtherSleep? || st.Awaken? || st.ForkRelease? { OtherSteps(s, st, t); }
    else if st.WaitBegin? || st.WaitReacquire? || st.ExitBegin? { ScanSteps(s, st, t); }
    else if st.WaitFault? || st.WaitNone? || st.WaitKilled? { WaitEnds(s, st, t); }
    else if st.WaitSleep? || st.WaitCommit? || st.WaitDescend? || st.WaitDispatch? { WaitSleeps(s, st, t); }
    else if st.WaitLook? { WaitLookStep(s, st, t); }
    else if st.WaitReap? { ReapStep(s, st, t); }
    else if st.WakeInit? || st.WakeParent? { WakeSteps(s, st, t); }
    else if st.BecomeZombie? || st.LeaveCpu? { ZombieStep(s, st, t); }
    else { ExitStep(s, st, t); }
  }

  lemma ExitStep(s: State, st: Step, t: State)
    requires Core(s) && Next(s, st, t) && (st.WakeInitDone? || st.ReparentDone? || st.Reparent?)
    ensures Core(t)
  {
    hide Core;
    if st.Reparent? && s.slots[s.slots[st.p].pc.i].parent == ChildOf(st.p) { ReparentStep(s, st, t); } else { ExitMoves(s, st, t); }
  }
}
