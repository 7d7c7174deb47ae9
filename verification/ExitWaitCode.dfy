/** exit with reparent and wakeup, and wait, as methods on the process table. They run while every
    lock they need is free; each of their steps is a step of ExitWait. */
module ExitWaitCode {
  import opened ExitWait
  import opened ExitWaitTheorems
  import opened ExitWaitFamily
  import opened Runs

  /** What wakeup(ch) by process p does to a slot. */
  function WokenSlot(x: Slot, k: nat, p: nat, ch: nat): Slot {
    if k != p && x.status == Sleeping(ch) then x.(status := Runnable) else x
  }

  /** wakeup(ch) has been through the slots below n. */
  ghost predicate Woken(before: seq<Slot>, after: seq<Slot>, p: nat, ch: nat, n: nat) {
    && |after| == |before|
    && forall k: nat | k < |before| && k != p :: after[k] == if k < n then WokenSlot(before[k], k, p, ch) else before[k]
  }

  /** What exit of p does to another slot: children go to init, and those asleep on `ch`, or on
      init's channel once init has got a child, are woken. */
  function AfterExit(x: Slot, p: nat, ch: nat, kids: bool): Slot {
    var y := if x.parent == ChildOf(p) then x.(parent := ChildOf(INIT)) else x;
    if y.status == Sleeping(ch) || (kids && y.status == Sleeping(INIT)) then y.(status := Runnable) else y
  }

  ghost predicate HasKid(slots: seq<Slot>, p: nat, n: nat) {
    exists j: nat :: j < |slots| && j < n && slots[j].parent == ChildOf(p)
  }

  /** reparent has been through the slots below n. */
  ghost predicate Reparented(before: seq<Slot>, after: seq<Slot>, p: nat, n: nat) {
    && |after| == |before|
    && forall k: nat | k < |before| && k != p ::
         && after[k].pid == before[k].pid && after[k].xstate == before[k].xstate && after[k].pc == before[k].pc
         && after[k].parent == (if k < n && before[k].parent == ChildOf(p) then ChildOf(INIT) else before[k].parent)
         && after[k].status == (if HasKid(before, p, n) && before[k].status == Sleeping(INIT) then Runnable else before[k].status)
  }

  datatype WaitResult = Reaped(c: nat, pid: nat, xstate: int) | CopyFailed(c: nat) | NoChildren | Killed | Asleep

  /** v is what the steps, from the table that userinit leaves, lead to. */
  ghost predicate Reached(origin: State, steps: seq<Step>, v: State) { Start(origin) && Run(Next, origin, steps, v) }

  lemma Goes(origin: State, steps: seq<Step>, s: State, st: Step, t: State)
    requires Inv(s) && Reached(origin, steps, s) && Next(s, st, t)
    ensures Inv(t) && Reached(origin, steps + [st], t)
  {
    hide Next, Inv;
    StepKeeps(s, st, t);
    RunExtends(Next, origin, steps, s, st, t);
  }

  lemma GoesOn(origin: State, steps: seq<Step>, s: State, more: seq<Step>, t: State)
    requires Reached(origin, steps, s) && Run(Next, s, more, t)
    ensures Inv(t) && Reached(origin, steps + more, t)
  {
    hide Next, Inv, Start;
    RunConcat(Next, origin, steps, s, more, t);
    RunInv(origin, steps + more, t);
  }

  /** sleep(p, &wait_lock) in three critical sections. */
  lemma SleepSteps(s: State, p: nat)
    requires p < |s.slots| && s.waitLock == By(p) && s.slots[p].pc == WaitScan(|s.slots|, true)
    ensures var s1 := SetPc(s, p, WaitGoing);
      var s2 := SetPc(s1, p, WaitCommitted).(waitLock := Nil);
      var s3 := SetSlot(s2, p, s2.slots[p].(status := Sleeping(p), pc := WaitDown));
      Next(s, WaitSleep(p), s1) && Next(s1, WaitCommit(p), s2) && Next(s2, WaitDescend(p), s3)
  {
  }

  /** The steps that reparent takes at slot i, before and after the wakeup of init. */
  lemma ReparentSteps(s: State, p: nat, i: nat)
    requires p < |s.slots| && i < |s.slots| && i != p
    ensures s.slots[p].pc == ExitScan(i) && s.slots[i].parent == ChildOf(p) ==>
      Next(s, Reparent(p), SetPc(SetSlot(s, i, s.slots[i].(parent := ChildOf(INIT))), p, ExitWakeInit(i, 0)))
    ensures s.slots[p].pc == ExitScan(i) && s.slots[i].parent != ChildOf(p) ==> Next(s, Reparent(p), SetPc(s, p, ExitScan(i + 1)))
    ensures s.slots[p].pc == ExitWakeInit(i, |s.slots|) ==> Next(s, WakeInitDone(p), SetPc(s, p, ExitScan(i + 1)))
  {
  }

  /** The steps of exit outside its loops. */
  lemma ExitSteps(s: State, p: nat, xstate: int)
    requires p < |s.slots|
    ensures On(s, p) && p != INIT && s.waitLock.Nil? ==> Next(s, ExitBegin(p), SetPc(s, p, ExitScan(0)).(waitLock := By(p)))
    ensures s.slots[p].pc == ExitScan(|s.slots|) ==> Next(s, ReparentDone(p), SetPc(s, p, ExitWake(0)))
    ensures s.slots[p].pc == ExitWake(|s.slots|) ==>
      Next(s, BecomeZombie(p, xstate),
           SetSlot(s, p, s.slots[p].(status := Zombie, xstate := xstate, pc := Exiting)).(waitLock := Nil, exited := s.exited[s.slots[p].pid := xstate]))
  {
  }

  /** The end of a wait that has found an exited child. */
  lemma ReapSteps(s: State, p: nat, i: nat, kids: bool)
    requires p < |s.slots| && i < |s.slots| && s.slots[p].pc == WaitScan(i, kids) && Reapable(s, p, i)
    ensures Next(s, WaitFault(p), SetPc(s, p, Quiet).(waitLock := Nil))
    ensures Next(s, WaitReap(p), SetPc(SetSlot(s, i, FreeSlot), p, Quiet).(waitLock := Nil, reaped := s.reaped + {s.slots[i].pid}))
  {
  }

  class ProcTable {
    var slots: seq<Slot>
    var waitLock: Holder
    ghost var nextpid: nat
    ghost var exited: map<nat, int>
    ghost var reaped: set<nat>
    ghost var forker: map<nat, nat>
    ghost var origin: State       // the table as userinit left it
    ghost var steps: seq<Step>    // what has happened since

    ghost function View(): State
      reads this
    {
      State(slots, waitLock, nextpid, exited, reaped, forker)
    }

    ghost predicate Valid()
      reads this
    {
      Inv(View()) && Reached(origin, steps, View())
    }

    /** The table after userinit: init is RUNNABLE and alone. */
    constructor (nproc: nat)
      requires INIT < nproc
      ensures Valid() && Start(View()) && |slots| == nproc && steps == []
    {
      slots := seq(nproc, k => if k == INIT then Slot(Runnable, Nobody, 1, 0, Quiet) else FreeSlot);
      waitLock, nextpid, exited, reaped, forker := Nil, 2, map[], {}, map[];
      new;
      origin, steps := View(), [];
      StartInv(View());
    }

    /** Whatever else processes do in between: fork, the scheduler, and the steps of another exit or wait. */
    method Others(more: seq<Step>, t: State)
      requires Valid() && Run(Next, View(), more, t)
      modifies this
      ensures Valid() && View() == t
    {
      hide Inv, Reached, Next;
      GoesOn(origin, steps, View(), more, t);
      steps := steps + more;
      slots, waitLock, nextpid, exited, reaped, forker := t.slots, t.waitLock, t.nextpid, t.exited, t.reaped, t.forker;
    }

    /** Nobody but p holds a p->lock. */
    ghost predicate Unlocked(p: nat)
      reads this
    {
      forall j: nat | j < |slots| && j != p :: !OwnLock(slots[j].pc)
    }

    /** wakeup(initproc) inside reparent, for slot i. */
    method WakeupInit(p: nat, i: nat)
      requires Valid() && p < |slots| && slots[p].pc == ExitWakeInit(i, 0) && Unlocked(p)
      modifies this`steps, this`slots
      ensures Valid() && Woken(old(slots), slots, p, INIT, |slots|) && slots[p] == old(slots)[p].(pc := ExitWakeInit(i, |slots|)) && Unlocked(p)
    {
      hide Inv, Reached;
      ghost var before := slots;
      var k := 0;
      while k < |slots|
        invariant Valid() && 0 <= k <= |slots| == |before| && p < |slots| && slots[p] == before[p].(pc := ExitWakeInit(i, k))
        invariant Woken(before, slots, p, INIT, k) && Unlocked(p)
      {
        ghost var s := View();
        if k != p && slots[k].status == Sleeping(INIT) {
          slots := slots[k := slots[k].(status := Runnable)];
        }
        slots := slots[p := slots[p].(pc := ExitWakeInit(i, k + 1))];
        Goes(origin, steps, s, WakeInit(p), View());
        steps := steps + [WakeInit(p)];
        k := k + 1;
      }
    }

    /** wakeup(p->parent) of exit. */
    method WakeupParent(p: nat, ch: nat)
      requires Valid() && p < |slots| && slots[p].pc == ExitWake(0) && slots[p].parent == ChildOf(ch) && Unlocked(p)
      modifies this`steps, this`slots
      ensures Valid() && Woken(old(slots), slots, p, ch, |slots|) && slots[p] == old(slots)[p].(pc := ExitWake(|slots|)) && Unlocked(p)
    {
      hide Inv, Reached;
      ghost var before := slots;
      var k := 0;
      while k < |slots|
        invariant Valid() && 0 <= k <= |slots| == |before| && p < |slots| && slots[p] == before[p].(pc := ExitWake(k))
        invariant Woken(before, slots, p, ch, k) && Unlocked(p)
      {
        ghost var s := View();
        if k != p && slots[k].status == Sleeping(ch) {
          slots := slots[k := slots[k].(status := Runnable)];
        }
        slots := slots[p := slots[p].(pc := ExitWake(k + 1))];
        Goes(origin, steps, s, WakeParent(p), View());
        steps := steps + [WakeParent(p)];
        k := k + 1;
      }
    }

    /** One turn of reparent's loop. */
    method ReparentOne(p: nat, i: nat)
      requires Valid() && p < |slots| && i < |slots| && slots[p].pc == ExitScan(i) && Unlocked(p) && i != p
      modifies this`steps, this`slots
      ensures Valid() && |slots| == |old(slots)| && Unlocked(p) && slots[p] == old(slots)[p].(pc := ExitScan(i + 1))
      ensures forall k: nat | k < |slots| && k != p ::
        slots[k] == if old(slots)[i].parent != ChildOf(p) then old(slots)[k]
                    else WokenSlot(if k == i then old(slots)[k].(parent := ChildOf(INIT)) else old(slots)[k], k, p, INIT)
    {
      hide Inv, Reached, Next;
      ghost var s := View();
      ReparentSteps(s, p, i);
      if slots[i].parent == ChildOf(p) {
        slots := slots[i := slots[i].(parent := ChildOf(INIT))];
        slots := slots[p := slots[p].(pc := ExitWakeInit(i, 0))];
        Goes(origin, steps, s, Reparent(p), View());
        steps := steps + [Reparent(p)];
        WakeupInit(p, i);
        s := View();
        ReparentSteps(s, p, i);
        slots := slots[p := slots[p].(pc := ExitScan(i + 1))];
        Goes(origin, steps, s, WakeInitDone(p), View());
        steps := steps + [WakeInitDone(p)];
      } else {
        slots := slots[p := slots[p].(pc := ExitScan(i + 1))];
        Goes(origin, steps, s, Reparent(p), View());
        steps := steps + [Reparent(p)];
      }
    }

    /** reparent: all children of p become init's, and init is woken if it got any. */
    method ReparentAll(p: nat)
      requires Valid() && p < |slots| && slots[p].pc == ExitScan(0) && Unlocked(p)
      modifies this`steps, this`slots
      ensures Valid() && Unlocked(p) && Reparented(old(slots), slots, p, |slots|) && slots[p] == old(slots)[p].(pc := ExitScan(|slots|))
    {
      hide Inv, Reached, Next;
      ghost var before := slots;
      NotItsOwnChild(View(), p);
      var i := 0;
      while i < |slots|
        invariant Valid() && 0 <= i <= |slots| == |before| && p < |slots| && slots[p] == before[p].(pc := ExitScan(i))
        invariant Reparented(before, slots, p, i) && Unlocked(p)
      {
        ghost var now := slots;
        if i != p {
          ReparentOne(p, i);
        } else {
          ghost var s := View();
          slots := slots[p := slots[p].(pc := ExitScan(i + 1))];
          PastItself(origin, steps, s, View(), p);
          steps := steps + [Reparent(p)];
        }
        OneMore(before, now, slots, p, i);
        i := i + 1;
      }
    }

    /** exit of p, from acquire(&wait_lock) to sched: p is a zombie on its CPU that holds p->lock,
        its children are init's, and its parent, and init if it got a child, are not asleep in wait. */
    method Exit(p: nat, ch: nat, xstate: int)
      requires Valid() && On(View(), p) && p != INIT && slots[p].parent == ChildOf(ch) && waitLock.Nil? && Unlocked(p)
      modifies this
      ensures Valid() && waitLock.Nil? && |slots| == |old(slots)| && exited == old(exited)[old(slots)[p].pid := xstate] && reaped == old(reaped)
      ensures slots[p] == old(slots)[p].(status := Zombie, xstate := xstate, pc := Exiting)
      ensures forall k: nat | k < |slots| && k != p :: slots[k] == AfterExit(old(slots)[k], p, ch, HasKid(old(slots), p, |slots|))
    {
      hide Inv, Reached, Next;
      ghost var before, s := slots, View();
      NotItsOwnChild(s, p);
      ExitSteps(s, p, xstate);
      waitLock := By(p);
      slots := slots[p := slots[p].(pc := ExitScan(0))];
      Goes(origin, steps, s, ExitBegin(p), View());
      steps := steps + [ExitBegin(p)];
      SameKids(before, slots, p);
      ReparentAll(p);
      s := View();
      ExitSteps(s, p, xstate);
      slots := slots[p := slots[p].(pc := ExitWake(0))];
      Goes(origin, steps, s, ReparentDone(p), View());
      steps := steps + [ReparentDone(p)];
      ghost var given := slots;
      WakeupParent(p, ch);
      s := View();
      ExitSteps(s, p, xstate);
      slots := slots[p := slots[p].(status := Zombie, xstate := xstate, pc := Exiting)];
      waitLock, exited := Nil, exited[slots[p].pid := xstate];
      Goes(origin, steps, s, BecomeZombie(p, xstate), View());
      steps := steps + [BecomeZombie(p, xstate)];
      forall k: nat | k < |slots| && k != p ensures slots[k] == AfterExit(before[k], p, ch, HasKid(before, p, |slots|)) {
        OneAfterExit(before, given, slots, p, ch, k);
      }
    }

    /** wait of p until it returns or sleeps: the exited child in the lowest slot is freed; -1 exactly
        when p has no child, was killed, or the status cannot be copied out. */
    method Wait(p: nat, killed: bool, canCopy: bool) returns (r: WaitResult)
      requires Valid() && On(View(), p) && waitLock.Nil? && Unlocked(p)
      modifies this
      ensures Valid() && waitLock.Nil? && |slots| == |old(slots)| && exited == old(exited)
      ensures match r
        case Reaped(c, pid, xstate) =>
          && FirstZombie(old(slots), p, c) && canCopy && pid == old(slots)[c].pid && pid in exited && xstate == exited[pid]
          && slots == old(slots)[c := FreeSlot] && reaped == old(reaped) + {pid} && pid !in old(reaped)
        case CopyFailed(c) => FirstZombie(old(slots), p, c) && !canCopy && slots == old(slots) && reaped == old(reaped)
        case NoChildren =>
          && NoKids(old(slots), p, |slots|) && slots == old(slots) && reaped == old(reaped)
          && forall pid | pid in forker && forker[pid] == old(slots)[p].pid :: pid in reaped
        case Killed => killed && NoZombies(old(slots), p, |slots|) && slots == old(slots) && reaped == old(reaped)
        case Asleep =>
          && !killed && HasKid(old(slots), p, |slots|) && NoZombies(old(slots), p, |slots|) && reaped == old(reaped)
          && slots == old(slots)[p := old(slots)[p].(status := Sleeping(p), pc := WaitDown)]
    {
      hide Inv, Reached;
      ghost var before, s := slots, View();
      waitLock := By(p);
      slots := slots[p := slots[p].(pc := WaitScan(0, false))];
      Goes(origin, steps, s, WaitBegin(p), View());
      steps := steps + [WaitBegin(p)];
      var i, kids := WaitScanAll(p, before);
      if i < |slots| {
        r := ReapAt(p, i, kids, canCopy, before);
        return;
      }
      if !kids || killed {
        if !kids { NoKidAtAll(before, p); }
        r := Leave(p, kids, before);
        return;
      }
      SleepInWait(p);
      return Asleep;
    }

    /** wait returns -1 after a scan without an exited child. */
    method Leave(p: nat, kids: bool, ghost before: seq<Slot>) returns (r: WaitResult)
      requires Valid() && p < |slots| == |before| && waitLock == By(p)
      requires On(State(before, Nil, nextpid, exited, reaped, forker), p) && slots == before[p := before[p].(pc := WaitScan(|slots|, kids))]
      modifies this`steps, this`slots, this`waitLock
      ensures Valid() && waitLock.Nil? && slots == before && r == if kids then Killed else NoChildren
      ensures !kids ==> forall pid | pid in forker && forker[pid] == before[p].pid :: pid in reaped
    {
      hide Inv, Reached;
      ghost var s := View();
      slots, waitLock := slots[p := slots[p].(pc := Quiet)], Nil;
      if !kids { AllReaped(origin, steps, s, p, View()); }
      Goes(origin, steps, s, if kids then WaitKilled(p) else WaitNone(p), View());
      steps := steps + [if kids then WaitKilled(p) else WaitNone(p)];
      r := if kids then Killed else NoChildren;
    }

    /** The scan of wait: up to the first exited child, or to the end. */
    method WaitScanAll(p: nat, ghost before: seq<Slot>) returns (i: nat, kids: bool)
      requires Valid() && p < |slots| == |before| && waitLock == By(p) && Unlocked(p) && slots == before[p := before[p].(pc := WaitScan(0, false))]
      modifies this`steps, this`slots
      ensures Valid() && i <= |slots| == |before| && slots == before[p := before[p].(pc := WaitScan(i, kids))]
      ensures NoZombies(before, p, i) && kids == HasKid(before, p, i) && (i < |slots| ==> ZombieChild(slots[i], p)) && Unlocked(p)
    {
      hide Inv, Reached;
      i, kids := 0, false;
      while i < |slots|
        invariant Valid() && 0 <= i <= |slots| == |before| && p < |slots| && slots == before[p := before[p].(pc := WaitScan(i, kids))]
        invariant NoZombies(before, p, i) && kids == HasKid(before, p, i) && Unlocked(p)
      {
        if slots[i].parent == ChildOf(p) && slots[i].status == Zombie {
          return;
        }
        ghost var s := View();
        kids := kids || slots[i].parent == ChildOf(p);
        slots := slots[p := slots[p].(pc := WaitScan(i + 1, kids))];
        Goes(origin, steps, s, WaitLook(p), View());
        steps := steps + [WaitLook(p)];
        OneMoreKid(before, p, i);
        i := i + 1;
      }
    }

    /** sleep(p, &wait_lock) up to sched. */
    method SleepInWait(p: nat)
      requires Valid() && p < |slots| && waitLock == By(p) && slots[p].pc == WaitScan(|slots|, true)
      modifies this`steps, this`slots, this`waitLock
      ensures Valid() && waitLock.Nil? && slots == old(slots)[p := old(slots)[p].(status := Sleeping(p), pc := WaitDown)]
    {
      hide Inv, Reached, Next;
      ghost var s := View();
      SleepSteps(s, p);
      slots := slots[p := slots[p].(pc := WaitGoing)];
      Goes(origin, steps, s, WaitSleep(p), View());
      steps := steps + [WaitSleep(p)];
      s := View();
      slots, waitLock := slots[p := slots[p].(pc := WaitCommitted)], Nil;
      Goes(origin, steps, s, WaitCommit(p), View());
      steps := steps + [WaitCommit(p)];
      s := View();
      slots := slots[p := slots[p].(status := Sleeping(p), pc := WaitDown)];
      Goes(origin, steps, s, WaitDescend(p), View());
      steps := steps + [WaitDescend(p)];
    }

    /** wait has found an exited child in slot i. */
    method ReapAt(p: nat, i: nat, kids: bool, canCopy: bool, ghost before: seq<Slot>) returns (r: WaitResult)
      requires Valid() && p < |slots| == |before| && i < |slots| && waitLock == By(p) && Unlocked(p)
      requires On(State(before, Nil, nextpid, exited, reaped, forker), p) && slots == before[p := before[p].(pc := WaitScan(i, kids))]
      requires ZombieChild(slots[i], p) && NoZombies(before, p, i)
      modifies this
      ensures Valid() && waitLock.Nil? && exited == old(exited)
      ensures FirstZombie(before, p, i)
      ensures if canCopy
              then before[i].pid in exited && r == Reaped(i, before[i].pid, exited[before[i].pid]) && slots == before[i := FreeSlot] && before[i].pid !in old(reaped) && reaped == old(reaped) + {before[i].pid}
              else r == CopyFailed(i) && slots == before && reaped == old(reaped)
    {
      hide Inv, Reached, Next;
      ghost var s := View();
      NotRunning(s, p, i);
      ReapSteps(s, p, i, kids);
      var pid, xstate := slots[i].pid, slots[i].xstate;
      if !canCopy {
        slots, waitLock := slots[p := slots[p].(pc := Quiet)], Nil;
        Goes(origin, steps, s, WaitFault(p), View());
        steps := steps + [WaitFault(p)];
        assert slots == before;
        return CopyFailed(i);
      }
      ZombiePid(s, i);
      slots := slots[i := FreeSlot];
      slots, waitLock, reaped := slots[p := slots[p].(pc := Quiet)], Nil, reaped + {pid};
      Goes(origin, steps, s, WaitReap(p), View());
      steps := steps + [WaitReap(p)];
      assert slots == before[i := FreeSlot];
      r := Reaped(i, pid, xstate);
    }
  }

  /** wait has freed every process that a process without children has forked. */
  lemma AllReaped(origin: State, steps: seq<Step>, s: State, p: nat, t: State)
    requires Reached(origin, steps, s) && Next(s, WaitNone(p), t)
    ensures forall pid | pid in s.forker && s.forker[pid] == s.slots[p].pid :: pid in s.reaped
  {
    hide Run, Start;
    forall pid | pid in s.forker && s.forker[pid] == s.slots[p].pid ensures pid in s.reaped {
      NoChildrenLeft(origin, steps, s, WaitNone(p), t, pid);
    }
  }

  /** Slot c holds an exited child of p, and no slot before it does. */
  ghost predicate FirstZombie(slots: seq<Slot>, p: nat, c: nat) {
    c < |slots| && ZombieChild(slots[c], p) && NoZombies(slots, p, c)
  }

  lemma NotItsOwnChild(s: State, p: nat)
    requires Inv(s) && p < |s.slots|
    ensures s.slots[p].parent != ChildOf(p)
  {
    hide Core;
    Look(s, p);
  }

  lemma PastItself(origin: State, steps: seq<Step>, s: State, t: State, p: nat)
    requires Inv(s) && Reached(origin, steps, s) && p < |s.slots| && s.slots[p].pc == ExitScan(p) && t == SetPc(s, p, ExitScan(p + 1))
    ensures Inv(t) && Reached(origin, steps + [Reparent(p)], t)
  {
    hide Inv, Reached;
    NotItsOwnChild(s, p);
    Goes(origin, steps, s, Reparent(p), t);
  }

  lemma SameKids(before: seq<Slot>, after: seq<Slot>, p: nat)
    requires p < |before| == |after| && after == before[p := after[p]] && after[p].parent == before[p].parent
    ensures forall n: nat :: HasKid(after, p, n) <==> HasKid(before, p, n)
  {
    forall n: nat ensures HasKid(after, p, n) <==> HasKid(before, p, n) {
      if HasKid(after, p, n) {
        var j: nat :| j < |after| && j < n && after[j].parent == ChildOf(p);
        assert before[j].parent == ChildOf(p);
      }
      if HasKid(before, p, n) {
        var j: nat :| j < |before| && j < n && before[j].parent == ChildOf(p);
        assert after[j].parent == ChildOf(p);
      }
    }
  }

  /** What reparent and the wakeup of the parent do to one slot. */
  lemma OneAfterExit(before: seq<Slot>, given: seq<Slot>, after: seq<Slot>, p: nat, ch: nat, k: nat)
    requires |before| == |given| == |after| && k < |before| && k != p
    requires given[k].pid == before[k].pid && given[k].xstate == before[k].xstate && given[k].pc == before[k].pc
    requires given[k].parent == (if before[k].parent == ChildOf(p) then ChildOf(INIT) else before[k].parent)
    requires given[k].status == (if HasKid(before, p, |before|) && before[k].status == Sleeping(INIT) then Runnable else before[k].status)
    requires after[k] == WokenSlot(given[k], k, p, ch)
    ensures after[k] == AfterExit(before[k], p, ch, HasKid(before, p, |before|))
  {
    hide HasKid;
  }

  lemma OneMoreKid(before: seq<Slot>, p: nat, i: nat)
    requires i < |before|
    ensures HasKid(before, p, i + 1) <==> HasKid(before, p, i) || before[i].parent == ChildOf(p)
  {
  }

  lemma OneMore(before: seq<Slot>, now: seq<Slot>, after: seq<Slot>, p: nat, i: nat)
    requires Reparented(before, now, p, i) && i < |before| == |after| && p < |before| && before[p].parent != ChildOf(p)
    requires i == p ==> forall k: nat | k < |before| && k != p :: after[k] == now[k]
    requires i != p ==> forall k: nat | k < |before| && k != p ::
      after[k] == if now[i].parent != ChildOf(p) then now[k]
                  else WokenSlot(if k == i then now[k].(parent := ChildOf(INIT)) else now[k], k, p, INIT)
    ensures Reparented(before, after, p, i + 1)
  {
    OneMoreKid(before, p, i);
  }

  lemma NoKidAtAll(slots: seq<Slot>, p: nat)
    requires !HasKid(slots, p, |slots|)
    ensures NoKids(slots, p, |slots|)
  {
  }

  lemma NotRunning(s: State, p: nat, i: nat)
    requires Inv(s) && p < |s.slots| && i < |s.slots| && s.slots[i].status == Zombie && s.slots[p].pc.WaitScan?
    ensures i != p
  {
    hide Core;
    Look(s, p);
  }

  lemma ZombiePid(s: State, i: nat)
    requires Inv(s) && i < |s.slots| && s.slots[i].status == Zombie
    ensures s.slots[i].pid !in s.reaped && s.slots[i].pid in s.exited && s.exited[s.slots[i].pid] == s.slots[i].xstate
  {
    hide Table, SleepOk;
    PidsReaped(s, i);
  }
}
