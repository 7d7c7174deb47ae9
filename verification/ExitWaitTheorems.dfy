/** What fork, exit and wait promise over every run. */
module ExitWaitTheorems {
  import opened Runs
  import opened ExitWait

  // ---------------------------------------------------------------------------
  // Sleepers
  // ---------------------------------------------------------------------------

  lemma BoundBefore(s: State, st: Step, t: State, p: nat)
    requires Next(s, st, t) && p < |s.slots| == |t.slots| && Bound(p, t.slots[p]) && !Bound(p, s.slots[p])
    ensures st == WaitCommit(p)
  {
  }

  lemma ZombieBefore(s: State, st: Step, t: State, j: nat, r: nat)
    requires Next(s, st, t) && j < |s.slots| == |t.slots| && ZombieChild(t.slots[j], r) && !ZombieChild(s.slots[j], r)
    ensures || (st.BecomeZombie? && st.p == j && s.slots[j].parent == ChildOf(r) && s.slots[j].pc == ExitWake(|s.slots|))
            || (st.Reparent? && r == INIT && t.waitLock == s.waitLock && s.slots[st.p].pc.ExitScan? && t.slots[st.p].pc == ExitWakeInit(j, 0))
            || st.ForkSetParent?
  {
  }

  lemma DueBefore(s: State, st: Step, t: State)
    requires Core(s) && Next(s, st, t) && |s.slots| == |t.slots|
    requires InitDue(s.slots, s.waitLock) && !InitDue(t.slots, t.waitLock)
    ensures st == WakeInit(s.waitLock.p) && t.slots[st.p].pc.ExitWakeInit? && t.slots[st.p].pc.k > INIT
  {
    hide Core;
    OnlyHolder(s, s.waitLock.p);
    Look(s, s.waitLock.p);
    Look(s, st.p);
  }

  lemma SameLength(s: State, st: Step, t: State)
    requires Next(s, st, t)
    ensures |t.slots| == |s.slots|
  {
  }

  /** Facts about single slots that the whole table gives. */
  lemma Look(s: State, p: nat)
    requires Core(s) && p < |s.slots|
    ensures SlotOk(p, s.slots[p]) && ExitAt(s.slots, p, s.slots[p].pc) && WaitAt(s.slots, p, s.slots[p].pc) && WokeAt(s.slots, p, s.slots[p].pc)
    ensures InFork(s.slots[p].pc) ==> s.slots[p].pc.c < |s.slots| && s.slots[s.slots[p].pc.c].status == Used
    ensures s.slots[p].parent.ChildOf? ==>
      s.slots[p].parent.q < |s.slots| && s.slots[p].parent.q != p && !Dead(s.slots[s.slots[p].parent.q])
  {
    hide PidsOk, LockOk, SlotOk, ExitAt, WaitAt, WokeAt;
  }

  /** fork links a child that is being made, not a zombie. */
  lemma LinkedIsUsed(s: State, st: Step, t: State, j: nat, r: nat)
    requires Core(s) && Next(s, st, t) && st.ForkSetParent? && j < |s.slots| == |t.slots| && !ZombieChild(s.slots[j], r)
    ensures !ZombieChild(t.slots[j], r)
  {
    hide Core;
    Look(s, st.p);
  }

  lemma StillNoZombies(s: State, st: Step, t: State, p: nat)
    requires Core(s) && Next(s, st, t) && |s.slots| == |t.slots| && p < |s.slots| && Bound(p, t.slots[p]) && NoZombies(s.slots, p, |s.slots|)
    ensures NoZombies(t.slots, p, |t.slots|) || (p == INIT && InitDue(t.slots, t.waitLock))
  {
    hide Core, Next, Bound;
    if !(p == INIT && InitDue(t.slots, t.waitLock)) {
      forall j: nat | j < |t.slots| ensures !ZombieChild(t.slots[j], p) {
        if ZombieChild(t.slots[j], p) {
          ZombieBefore(s, st, t, j, p);
          NewZombie(s, st, t, j, p);
        }
      }
    }
  }

  lemma NewZombie(s: State, st: Step, t: State, j: nat, p: nat)
    requires Core(s) && Next(s, st, t) && j < |s.slots| == |t.slots| && p < |s.slots| && Bound(p, t.slots[p])
    requires ZombieChild(t.slots[j], p) && !ZombieChild(s.slots[j], p)
    ensures p == INIT && InitDue(t.slots, t.waitLock)
  {
    hide Core;
    ZombieBefore(s, st, t, j, p);
    Look(s, j);
    if st.ForkSetParent? { LinkedIsUsed(s, st, t, j, p); }
    if st.Reparent? { OnlyHolder(s, st.p); }
    if st.BecomeZombie? && Bound(p, t.slots[p]) && !Bound(p, s.slots[p]) { BoundBefore(s, st, t, p); }
  }

  lemma SleepKept(s: State, st: Step, t: State)
    requires Inv(s) && Next(s, st, t) && Core(t)
    ensures SleepOk(t.slots, t.waitLock)
  {
    hide Core, Next, Bound, NoZombies, InitDue;
    SameLength(s, st, t);
    forall p: nat | p < |t.slots| && Bound(p, t.slots[p])
      ensures NoZombies(t.slots, p, |t.slots|) || (p == INIT && InitDue(t.slots, t.waitLock))
    {
      OneSleeper(s, st, t, p);
    }
  }

  lemma OneSleeper(s: State, st: Step, t: State, p: nat)
    requires Core(s) && Next(s, st, t) && Core(t) && |s.slots| == |t.slots| && p < |t.slots| && Bound(p, t.slots[p])
    requires Bound(p, s.slots[p]) ==> NoZombies(s.slots, p, |s.slots|) || (p == INIT && InitDue(s.slots, s.waitLock))
    ensures NoZombies(t.slots, p, |t.slots|) || (p == INIT && InitDue(t.slots, t.waitLock))
  {
    hide Core, Next, NoZombies;
    if !Bound(p, s.slots[p]) {
      BoundBefore(s, st, t, p);
      CommitsAfterScan(s, st, t, p);
    }
    if NoZombies(s.slots, p, |s.slots|) {
      StillNoZombies(s, st, t, p);
    } else if !InitDue(t.slots, t.waitLock) {
      DueBefore(s, st, t);
      Look(t, st.p);
    }
  }

  lemma CommitsAfterScan(s: State, st: Step, t: State, p: nat)
    requires Core(s) && Next(s, st, t) && st == WaitCommit(p)
    ensures NoZombies(s.slots, p, |s.slots|)
  {
    hide Core;
    Look(s, p);
  }

  lemma StepKeeps(s: State, st: Step, t: State)
    requires Inv(s) && Next(s, st, t)
    ensures Inv(t)
  {
    hide Core, Next, SleepOk;
    CoreKept(s, st, t);
    SleepKept(s, st, t);
  }

  // ---------------------------------------------------------------------------
  // Runs
  // ---------------------------------------------------------------------------

  /** After userinit: init is RUNNABLE, every other slot is free. */
  ghost predicate Start(s: State) {
    && INIT < |s.slots| && s.slots[INIT] == Slot(Runnable, Nobody, 1, 0, Quiet)
    && (forall p: nat | p < |s.slots| && p != INIT :: s.slots[p] == FreeSlot)
    && s.waitLock == Nil && s.nextpid == 2 && s.exited == map[] && s.reaped == {} && s.forker == map[]
  }

  lemma StartInv(s: State)
    requires Start(s)
    ensures Inv(s)
  {
  }

  lemma RunInv(s: State, events: seq<Step>, t: State)
    requires Start(s) && Run(Next, s, events, t)
    ensures Inv(t)
  {
    hide Next, Start, Inv;
    StartInv(s);
    forall m, e, n | Inv(m) && Next(m, e, n) ensures Inv(n) { StepKeeps(m, e, n); }
    RunKeeps(Next, Inv, s, events, t);
  }

  /** No parent pointer ever names an UNUSED or ZOMBIE slot. */
  lemma ParentsAreAlive(s: State, events: seq<Step>, t: State, c: nat)
    requires Start(s) && Run(Next, s, events, t) && c < |t.slots| && t.slots[c].parent.ChildOf?
    ensures var q := t.slots[c].parent.q;
      q < |t.slots| && t.slots[q].status != Unused && t.slots[q].status != Zombie
  {
    hide Next, Start, Core;
    RunInv(s, events, t);
    Look(t, c);
  }

  /** Whenever wait_lock is free, no process asleep in wait, or on its way there, has an exited child. */
  lemma NoSleeperWithZombie(s: State, events: seq<Step>, t: State, p: nat, c: nat)
    requires Start(s) && Run(Next, s, events, t) && t.waitLock.Nil?
    requires p < |t.slots| && Bound(p, t.slots[p]) && c < |t.slots| && t.slots[c].parent == ChildOf(p)
    ensures t.slots[c].status != Zombie
  {
    hide Next, Start, Core;
    RunInv(s, events, t);
    assert NoZombies(t.slots, p, |t.slots|);
    assert !ZombieChild(t.slots[c], p);
  }

  /** wait frees a process that has exited and left its CPU, as its current parent, and no
      process twice; the status it finds is the one that the process gave to exit. */
  lemma ReapsOnce(s: State, events: seq<Step>, t: State, st: Step, u: State)
    requires Start(s) && Run(Next, s, events, t) && Next(t, st, u) && st.WaitReap?
    ensures t.slots[st.p].pc.WaitScan?
    ensures var c := t.slots[st.p].pc.i;
      && c < |t.slots| && t.slots[c].parent == ChildOf(st.p)
      && t.slots[c].pc == Gone
      && t.slots[c].pid in t.exited && t.slots[c].xstate == t.exited[t.slots[c].pid]
      && t.slots[c].pid !in t.reaped && u.reaped == t.reaped + {t.slots[c].pid}
  {
    hide Start, Table, SleepOk;
    RunInv(s, events, t);
    var c := t.slots[st.p].pc.i;
    Look(t, c);
    PidsReaped(t, c);
  }

  /** Every pid that wait has returned had exited, and a zombie has not been returned yet. */
  lemma ReapedHadExited(s: State, events: seq<Step>, t: State, c: nat)
    requires Start(s) && Run(Next, s, events, t) && c < |t.slots|
    ensures t.reaped <= t.exited.Keys
    ensures t.slots[c].status != Unused ==> t.slots[c].pid !in t.reaped && (t.slots[c].pid in t.exited <==> t.slots[c].status == Zombie)
  {
    hide Start, Next, Table, SleepOk;
    RunInv(s, events, t);
  }

  /** wait returns -1 for want of children only when there are none. */
  lemma NoChildrenIsTrue(s: State, events: seq<Step>, t: State, st: Step, u: State, c: nat)
    requires Start(s) && Run(Next, s, events, t) && Next(t, st, u) && st.WaitNone? && c < |t.slots|
    ensures t.slots[c].parent != ChildOf(st.p)
  {
    hide Start, Core, SleepOk;
    RunInv(s, events, t);
    Look(t, st.p);
  }

  /** exit gives all children away before the process becomes a zombie. */
  lemma ZombieHasNoChildren(s: State, events: seq<Step>, t: State, p: nat, c: nat)
    requires Start(s) && Run(Next, s, events, t) && p < |t.slots| && t.slots[p].status == Zombie && c < |t.slots|
    ensures t.slots[c].parent != ChildOf(p)
  {
    hide Start, Next, Core, SleepOk;
    RunInv(s, events, t);
    Look(t, c);
  }
}
