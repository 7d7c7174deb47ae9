/** Whose child a process is: fork records who called it, and over every run the parent pointer
    names that process, or init once it has exited. */
module ExitWaitFamily {
  import opened Runs
  import opened ExitWait
  import opened ExitWaitTheorems

  /** The process with this pid has exited, or is in exit. */
  predicate Leaving(s: State, pid: nat) {
    || pid in s.exited
    || (s.waitLock.By? && s.waitLock.p < |s.slots| && InExit(s.slots[s.waitLock.p].pc) && s.slots[s.waitLock.p].pid == pid)
  }

  /** fork has made the process RUNNABLE. */
  predicate Started(x: Slot) { x.status != Unused && x.status != Used }

  /** The parent of x is the process that forked it, or init after that one. */
  predicate ParentFits(s: State, x: Slot) {
    && x.pid in s.forker && x.parent.ChildOf? && x.parent.q < |s.slots|
    && (s.slots[x.parent.q].pid == s.forker[x.pid] || (x.parent.q == INIT && Leaving(s, s.forker[x.pid])))
  }

  /** What fork of slot c by p has done so far. */
  predicate ForkFits(s: State, p: nat, c: nat)
    requires p < |s.slots|
  {
    && c < |s.slots| && s.slots[c].pid in s.forker && s.forker[s.slots[c].pid] == s.slots[p].pid
    && s.slots[c].parent == if s.slots[p].pc.ForkStart? then ChildOf(p) else Nobody
  }

  predicate Makes(x: Slot, c: nat) { InFork(x.pc) && x.pc.c == c }

  predicate IsProc(x: Slot, pid: nat) { x.status != Unused && x.pid == pid }

  ghost predicate Present(slots: seq<Slot>, pid: nat) { exists c: nat :: c < |slots| && IsProc(slots[c], pid) }

  ghost predicate BeingMade(slots: seq<Slot>, c: nat) { exists p: nat :: p < |slots| && Makes(slots[p], c) }

  ghost predicate Parented(s: State) {
    forall c: nat | c < |s.slots| && c != INIT && Started(s.slots[c]) :: ParentFits(s, s.slots[c])
  }

  ghost predicate Forking(s: State) {
    && (forall p: nat | p < |s.slots| && InFork(s.slots[p].pc) :: ForkFits(s, p, s.slots[p].pc.c))
    && (forall c: nat | c < |s.slots| && s.slots[c].status == Used :: BeingMade(s.slots, c))
  }

  /** Every process that fork has made is in the table until wait frees it. */
  ghost predicate Accounted(s: State) {
    forall pid | pid in s.forker :: pid < s.nextpid && (pid in s.reaped || Present(s.slots, pid))
  }

  /** Nobody forked init. */
  ghost predicate Rooted(s: State) { INIT < |s.slots| && s.slots[INIT].pid !in s.forker }

  ghost predicate Family(s: State) { Parented(s) && Forking(s) && Accounted(s) && Rooted(s) }

  // ---------------------------------------------------------------------------
  // Steps that move no child
  // ---------------------------------------------------------------------------

  /** The same process with the same parent, at the same place in fork. */
  predicate SameKin(x: Slot, y: Slot) {
    && y.pid == x.pid && y.parent == x.parent
    && (y.status == Unused <==> x.status == Unused) && (y.status == Used <==> x.status == Used)
    && InFork(y.pc) == InFork(x.pc) && (InFork(x.pc) ==> y.pc.c == x.pc.c && y.pc.ForkStart? == x.pc.ForkStart?)
  }

  ghost predicate SameFamily(s: State, t: State) {
    && |t.slots| == |s.slots| && t.forker == s.forker && s.nextpid <= t.nextpid && s.reaped <= t.reaped
    && (forall j: nat | j < |s.slots| :: SameKin(s.slots[j], t.slots[j]))
    && (forall pid: nat :: Leaving(s, pid) ==> Leaving(t, pid))
  }

  lemma FamilyStays(s: State, t: State)
    requires Parented(s) && Forking(s) && Accounted(s) && SameFamily(s, t)
    ensures Parented(t) && Forking(t) && Accounted(t)
  {
    hide Leaving;
    forall c: nat | c < |t.slots| && c != INIT && Started(t.slots[c]) ensures ParentFits(t, t.slots[c]) {
      assert SameKin(s.slots[c], t.slots[c]) && ParentFits(s, s.slots[c]);
    }
    forall p: nat | p < |t.slots| && InFork(t.slots[p].pc) ensures ForkFits(t, p, t.slots[p].pc.c) {
      assert SameKin(s.slots[p], t.slots[p]) && ForkFits(s, p, s.slots[p].pc.c);
    }
    forall c: nat | c < |t.slots| && t.slots[c].status == Used ensures BeingMade(t.slots, c) {
      assert SameKin(s.slots[c], t.slots[c]);
      var p: nat :| p < |s.slots| && Makes(s.slots[p], c);
      assert Makes(t.slots[p], c);
    }
    forall pid | pid in t.forker ensures pid < t.nextpid && (pid in t.reaped || Present(t.slots, pid)) {
      if pid !in s.reaped {
        var c: nat :| c < |s.slots| && IsProc(s.slots[c], pid);
        assert IsProc(t.slots[c], pid);
      }
    }
  }

  /** Fork, the reparenting of a child, and the end of a zombie change the family. */
  predicate MovesKin(s: State, st: Step) {
    || st.ForkAlloc? || st.ForkAbort? || st.ForkSetParent? || st.ForkRun? || st.WaitReap?
    || (st.Reparent? && st.p < |s.slots| && s.slots[st.p].pc.ExitScan? && s.slots[st.p].pc.i < |s.slots| && s.slots[s.slots[st.p].pc.i].parent == ChildOf(st.p))
  }

  lemma OwnSame(s: State, st: Step, t: State)
    requires Core(s) && Next(s, st, t) && !MovesKin(s, st) && |s.slots| == |t.slots|
    ensures SameKin(s.slots[st.p], t.slots[st.p])
  {
    hide Core;
    Look(s, st.p);
  }

  lemma OtherSame(s: State, st: Step, t: State, j: nat)
    requires Next(s, st, t) && !MovesKin(s, st) && j < |s.slots| == |t.slots| && j != st.p
    ensures SameKin(s.slots[j], t.slots[j])
  {
  }

  lemma ExitedStays(s: State, st: Step, t: State, pid: nat)
    requires Next(s, st, t) && pid in s.exited
    ensures pid in t.exited
  {
  }

  /** exit goes on until its process is a zombie. */
  lemma ExitGoesOn(s: State, st: Step, t: State, h: nat)
    requires Core(s) && Next(s, st, t) && s.waitLock == By(h) && h < |s.slots| == |t.slots| && InExit(s.slots[h].pc)
    ensures t.slots[h].pid == s.slots[h].pid && (s.slots[h].pid in t.exited || (t.waitLock == By(h) && InExit(t.slots[h].pc)))
  {
    hide Core;
    if st.p != h { Undisturbed(s, st, t, h); }
  }

  /** Others leave a process in exit, and its wait_lock, alone. */
  lemma Undisturbed(s: State, st: Step, t: State, h: nat)
    requires Core(s) && Next(s, st, t) && s.waitLock == By(h) && h < |s.slots| == |t.slots| && InExit(s.slots[h].pc) && st.p != h
    ensures t.slots[h].pid == s.slots[h].pid && t.slots[h].pc == s.slots[h].pc && t.waitLock == By(h)
  {
    hide Core;
    Look(s, h);
    if HoldsWaitLock(s.slots[st.p].pc) { OnlyHolder(s, st.p); }
    if InFork(s.slots[st.p].pc) { ForkAlone(s, st.p); }
  }

  /** Who has exited or is in exit stays so. */
  lemma LeavingStays(s: State, st: Step, t: State, pid: nat)
    requires Core(s) && Next(s, st, t) && Leaving(s, pid)
    ensures Leaving(t, pid)
  {
    hide Core, Next;
    SameLength(s, st, t);
    if pid in s.exited { ExitedStays(s, st, t, pid); } else { ExitGoesOn(s, st, t, s.waitLock.p); }
  }

  lemma OthersSame(s: State, st: Step, t: State)
    requires Core(s) && Next(s, st, t) && !MovesKin(s, st)
    ensures SameFamily(s, t)
  {
    hide Core, Leaving, SameKin, Next;
    SameLength(s, st, t);
    OthersRecords(s, st, t);
    forall j: nat | j < |s.slots| ensures SameKin(s.slots[j], t.slots[j]) {
      if j == st.p { OwnSame(s, st, t); } else { OtherSame(s, st, t, j); }
    }
    forall pid: nat | Leaving(s, pid) ensures Leaving(t, pid) { LeavingStays(s, st, t, pid); }
  }

  lemma OthersRecords(s: State, st: Step, t: State)
    requires Next(s, st, t) && !st.ForkAlloc? && !st.ForkAbort?
    ensures t.forker == s.forker && t.nextpid == s.nextpid && s.reaped <= t.reaped
  {
  }

  // ---------------------------------------------------------------------------
  // Steps that move a child
  // ---------------------------------------------------------------------------

  /** A parent that was right is right after a step that leaves the two processes their pids. */
  lemma ParentFitsStill(s: State, st: Step, t: State, x: Slot)
    requires Core(s) && Next(s, st, t) && ParentFits(s, x) && |t.slots| == |s.slots|
    requires x.pid in t.forker && t.forker[x.pid] == s.forker[x.pid] && t.slots[x.parent.q].pid == s.slots[x.parent.q].pid
    ensures ParentFits(t, x)
  {
    hide Core, Next, Leaving;
    if Leaving(s, s.forker[x.pid]) { LeavingStays(s, st, t, s.forker[x.pid]); }
  }

  /** No parent pointer names a slot that is UNUSED, USED or ZOMBIE. */
  lemma NotParent(s: State, c: nat, j: nat)
    requires Core(s) && c < |s.slots| && j < |s.slots| && Dead(s.slots[c]) && s.slots[j].parent.ChildOf?
    ensures s.slots[j].parent.q != c
  {
    hide Core;
    Look(s, j);
  }

  lemma UniquePid(s: State, c: nat, d: nat)
    requires Core(s) && c < |s.slots| && d < |s.slots| && s.slots[c].status != Unused && s.slots[d].status != Unused && s.slots[c].pid == s.slots[d].pid
    ensures c == d
  {
    hide Table;
  }

  // --- fork ------------------------------------------------------------------

  lemma AllocParented(s: State, st: Step, t: State)
    requires Core(s) && Family(s) && Next(s, st, t) && st.ForkAlloc?
    ensures Parented(t)
  {
    hide Core, Forking, Leaving;
    forall c: nat | c < |t.slots| && c != INIT && Started(t.slots[c]) ensures ParentFits(t, t.slots[c]) {
      assert ParentFits(s, s.slots[c]);
      NotParent(s, st.c, c);
      ParentFitsStill(s, st, t, s.slots[c]);
    }
  }

  lemma AllocForking(s: State, st: Step, t: State)
    requires Core(s) && Family(s) && Next(s, st, t) && st.ForkAlloc?
    ensures Forking(t)
  {
    hide Core, Parented;
    forall p: nat | p < |t.slots| && InFork(t.slots[p].pc) ensures ForkFits(t, p, t.slots[p].pc.c) {
      if p != st.p {
        ForkAlone(s, p);
        Look(s, p);
        assert ForkFits(s, p, s.slots[p].pc.c);
      }
    }
    forall c: nat | c < |t.slots| && t.slots[c].status == Used ensures BeingMade(t.slots, c) {
      if c == st.c {
        assert Makes(t.slots[st.p], c);
      } else {
        var p: nat :| p < |s.slots| && Makes(s.slots[p], c);
        Look(s, p);
        assert Makes(t.slots[p], c);
      }
    }
  }

  lemma AllocAccounted(s: State, st: Step, t: State)
    requires Family(s) && Next(s, st, t) && st.ForkAlloc?
    ensures Accounted(t)
  {
    hide Parented, Forking;
    forall pid | pid in t.forker ensures pid < t.nextpid && (pid in t.reaped || Present(t.slots, pid)) {
      if pid == s.nextpid {
        assert IsProc(t.slots[st.c], pid);
      } else if pid !in s.reaped {
        var c: nat :| c < |s.slots| && IsProc(s.slots[c], pid);
        assert IsProc(t.slots[c], pid);
      }
    }
  }

  lemma AbortFamily(s: State, st: Step, t: State)
    requires Core(s) && Family(s) && Next(s, st, t) && st.ForkAbort?
    ensures Parented(t) && Accounted(t)
  {
    hide Core, Leaving, ForkFits;
    var c := s.slots[st.p].pc.c;
    ForkAlone(s, st.p);
    forall j: nat | j < |t.slots| && j != INIT && Started(t.slots[j]) ensures ParentFits(t, t.slots[j]) {
      assert ParentFits(s, s.slots[j]);
      NotParent(s, c, j);
      if s.slots[j].pid == s.slots[c].pid { UniquePid(s, j, c); }
      ParentFitsStill(s, st, t, s.slots[j]);
    }
    forall pid | pid in t.forker ensures pid < t.nextpid && (pid in t.reaped || Present(t.slots, pid)) {
      if pid !in s.reaped {
        var d: nat :| d < |s.slots| && IsProc(s.slots[d], pid);
        assert IsProc(t.slots[d], pid);
      }
    }
  }

  lemma AbortForking(s: State, st: Step, t: State)
    requires Core(s) && Family(s) && Next(s, st, t) && st.ForkAbort?
    ensures Forking(t)
  {
    hide Core, Parented, Accounted;
    var c := s.slots[st.p].pc.c;
    ForkAlone(s, st.p);
    forall p: nat | p < |t.slots| && InFork(t.slots[p].pc) ensures ForkFits(t, p, t.slots[p].pc.c) {
      ForkAlone(s, p);
      Look(s, p);
      assert ForkFits(s, p, s.slots[p].pc.c);
      if s.slots[s.slots[p].pc.c].pid == s.slots[c].pid { UniquePid(s, s.slots[p].pc.c, c); }
    }
    forall d: nat | d < |t.slots| && t.slots[d].status == Used ensures BeingMade(t.slots, d) {
      var p: nat :| p < |s.slots| && Makes(s.slots[p], d);
      Look(s, p);
      assert Makes(t.slots[p], d);
    }
  }

  /** fork sets the parent, and then makes the child RUNNABLE. */
  lemma LinkFamily(s: State, st: Step, t: State)
    requires Core(s) && Family(s) && Next(s, st, t) && (st.ForkSetParent? || st.ForkRun?)
    ensures Parented(t) && Accounted(t)
  {
    hide Core, Leaving;
    var p, c := st.p, s.slots[st.p].pc.c;
    ForkAlone(s, p);
    Look(s, p);
    assert ForkFits(s, p, c);
    forall j: nat | j < |t.slots| && j != INIT && Started(t.slots[j]) ensures ParentFits(t, t.slots[j]) {
      if j != c {
        assert ParentFits(s, s.slots[j]);
        ParentFitsStill(s, st, t, s.slots[j]);
      }
    }
    forall pid | pid in t.forker ensures pid < t.nextpid && (pid in t.reaped || Present(t.slots, pid)) {
      if pid !in s.reaped {
        var d: nat :| d < |s.slots| && IsProc(s.slots[d], pid);
        assert IsProc(t.slots[d], pid);
      }
    }
  }

  lemma LinkForking(s: State, st: Step, t: State)
    requires Core(s) && Family(s) && Next(s, st, t) && (st.ForkSetParent? || st.ForkRun?)
    ensures Forking(t)
  {
    hide Core, Parented, Accounted;
    var c := s.slots[st.p].pc.c;
    ForkAlone(s, st.p);
    Look(s, st.p);
    assert ForkFits(s, st.p, c);
    forall p: nat | p < |t.slots| && InFork(t.slots[p].pc) ensures ForkFits(t, p, t.slots[p].pc.c) {
      if p != st.p {
        ForkAlone(s, p);
        Look(s, p);
        assert ForkFits(s, p, s.slots[p].pc.c);
      }
    }
    forall d: nat | d < |t.slots| && t.slots[d].status == Used ensures BeingMade(t.slots, d) {
      var p: nat :| p < |s.slots| && Makes(s.slots[p], d);
      Look(s, p);
      assert Makes(t.slots[p], d);
    }
  }

  // --- exit ------------------------------------------------------------------

  /** A child that reparent finds was forked by the process that exits. */
  lemma OwnChild(s: State, p: nat, i: nat)
    requires Core(s) && Family(s) && p < |s.slots| && i < |s.slots| && s.slots[p].pc == ExitScan(i) && s.slots[i].parent == ChildOf(p)
    ensures p != INIT && i != INIT && i != p && Started(s.slots[i]) && s.slots[i].pid in s.forker && s.forker[s.slots[i].pid] == s.slots[p].pid
  {
    hide Core, Leaving, Accounted;
    Look(s, p);
    Look(s, i);
    InitAlone(s);
    if s.slots[i].status != Used { assert ParentFits(s, s.slots[i]); }
  }

  lemma InitAlone(s: State)
    requires Core(s)
    ensures INIT < |s.slots| && s.slots[INIT].parent == Nobody && !Dead(s.slots[INIT])
  {
    hide SlotsOk, LockOk, ForksOk, ExitOk, WaitOk, WokeOk, PidsOk;
  }

  lemma ReparentFamily(s: State, st: Step, t: State)
    requires Core(s) && Family(s) && Next(s, st, t) && st.Reparent? && MovesKin(s, st)
    ensures Parented(t) && Accounted(t)
  {
    hide Core, Forking;
    var p, i := st.p, s.slots[st.p].pc.i;
    OwnChild(s, p, i);
    OnlyHolder(s, p);
    InitAlone(s);
    forall j: nat | j < |t.slots| && j != INIT && Started(t.slots[j]) ensures ParentFits(t, t.slots[j]) {
      assert ParentFits(s, s.slots[j]);
      if j != i { ParentFitsStill(s, st, t, s.slots[j]); }
    }
    forall pid | pid in t.forker ensures pid < t.nextpid && (pid in t.reaped || Present(t.slots, pid)) {
      if pid !in s.reaped {
        var d: nat :| d < |s.slots| && IsProc(s.slots[d], pid);
        assert IsProc(t.slots[d], pid);
      }
    }
  }

  lemma ReparentForking(s: State, st: Step, t: State)
    requires Core(s) && Family(s) && Next(s, st, t) && st.Reparent? && MovesKin(s, st)
    ensures Forking(t)
  {
    hide Core, Parented, Accounted;
    OwnChild(s, st.p, s.slots[st.p].pc.i);
    forall p: nat | p < |t.slots| && InFork(t.slots[p].pc) ensures ForkFits(t, p, t.slots[p].pc.c) {
      ForkAlone(s, p);
      assert ForkFits(s, p, s.slots[p].pc.c);
    }
    forall d: nat | d < |t.slots| && t.slots[d].status == Used ensures BeingMade(t.slots, d) {
      var p: nat :| p < |s.slots| && Makes(s.slots[p], d);
      assert Makes(t.slots[p], d);
    }
  }

  // --- wait ------------------------------------------------------------------

  lemma ReapFamily(s: State, st: Step, t: State)
    requires Core(s) && Family(s) && Next(s, st, t) && st.WaitReap?
    ensures Parented(t) && Accounted(t)
  {
    hide Core, Forking, Leaving;
    var i := s.slots[st.p].pc.i;
    forall j: nat | j < |t.slots| && j != INIT && Started(t.slots[j]) ensures ParentFits(t, t.slots[j]) {
      assert ParentFits(s, s.slots[j]);
      NotParent(s, i, j);
      ParentFitsStill(s, st, t, s.slots[j]);
    }
    forall pid | pid in t.forker ensures pid < t.nextpid && (pid in t.reaped || Present(t.slots, pid)) {
      if pid !in s.reaped {
        var d: nat :| d < |s.slots| && IsProc(s.slots[d], pid);
        assert d != i ==> IsProc(t.slots[d], pid);
      }
    }
  }

  lemma ReapForking(s: State, st: Step, t: State)
    requires Core(s) && Family(s) && Next(s, st, t) && st.WaitReap?
    ensures Forking(t)
  {
    hide Core, Parented, Accounted;
    var i := s.slots[st.p].pc.i;
    Look(s, i);
    forall p: nat | p < |t.slots| && InFork(t.slots[p].pc) ensures ForkFits(t, p, t.slots[p].pc.c) {
      ForkAlone(s, p);
      assert ForkFits(s, p, s.slots[p].pc.c);
    }
    forall d: nat | d < |t.slots| && t.slots[d].status == Used ensures BeingMade(t.slots, d) {
      var p: nat :| p < |s.slots| && Makes(s.slots[p], d);
      assert Makes(t.slots[p], d);
    }
  }

  lemma RootKept(s: State, st: Step, t: State)
    requires Core(s) && Rooted(s) && Next(s, st, t)
    ensures Rooted(t)
  {
    hide Table, SlotOk, PidsOk;
    InitAlone(s);
    PidBelow(s, INIT);
    if InFork(s.slots[st.p].pc) { ForkAlone(s, st.p); }
  }

  lemma PidBelow(s: State, p: nat)
    requires Core(s) && p < |s.slots| && s.slots[p].status != Unused
    ensures s.slots[p].pid < s.nextpid
  {
    hide Table;
  }

  lemma FamilyKept(s: State, st: Step, t: State)
    requires Core(s) && Family(s) && Next(s, st, t)
    ensures Family(t)
  {
    hide Core, Next, Parented, Forking, Accounted, Rooted;
    RootKept(s, st, t);
    match st
    case ForkAlloc(_, _) => AllocParented(s, st, t); AllocForking(s, st, t); AllocAccounted(s, st, t);
    case ForkAbort(_) => AbortFamily(s, st, t); AbortForking(s, st, t);
    case ForkSetParent(_) => LinkFamily(s, st, t); LinkForking(s, st, t);
    case ForkRun(_) => LinkFamily(s, st, t); LinkForking(s, st, t);
    case WaitReap(_) => ReapFamily(s, st, t); ReapForking(s, st, t);
    case _ =>
      if MovesKin(s, st) {
        ReparentFamily(s, st, t);
        ReparentForking(s, st, t);
      } else {
        OthersSame(s, st, t);
        FamilyStays(s, t);
      }
  }

  // ---------------------------------------------------------------------------
  // Runs
  // ---------------------------------------------------------------------------

  lemma RunFamily(s: State, events: seq<Step>, t: State)
    requires Start(s) && Run(Next, s, events, t)
    ensures Inv(t) && Family(t)
  {
    hide Next, Start, Inv, Family;
    StartFamily(s);
    forall m, e, n | Inv(m) && Family(m) && Next(m, e, n) ensures Inv(n) && Family(n) {
      StepKeeps(m, e, n);
      InvCore(m);
      FamilyKept(m, e, n);
    }
    RunKeeps(Next, (m: State) => Inv(m) && Family(m), s, events, t);
  }

  lemma InvCore(s: State)
    requires Inv(s)
    ensures Core(s)
  {
  }

  lemma StartFamily(s: State)
    requires Start(s)
    ensures Inv(s) && Family(s)
  {
    StartInv(s);
  }

  /** In every run, the parent of a process other than init, from the moment fork has made it
      RUNNABLE until wait frees it, is the process that forked it as long as that one is not in
      exit, and init once that one has exited. */
  lemma ParentIsForker(s: State, events: seq<Step>, t: State, c: nat)
    requires Start(s) && Run(Next, s, events, t) && c < |t.slots| && c != INIT && Started(t.slots[c])
    ensures t.slots[c].pid in t.forker && t.slots[c].parent.ChildOf? && t.slots[c].parent.q < |t.slots|
    ensures var q, pid := t.slots[c].parent.q, t.forker[t.slots[c].pid];
      && (t.slots[q].pid == pid || q == INIT)
      && (!Leaving(t, pid) ==> t.slots[q].pid == pid)
      && (pid in t.exited ==> q == INIT)
  {
    hide Next, Start, Leaving, Core, SleepOk, Forking, Accounted;
    RunFamily(s, events, t);
    assert ParentFits(t, t.slots[c]);
    ParentsAreAlive(s, events, t, c);
    ReapedHadExited(s, events, t, t.slots[c].parent.q);
  }

  /** In every run, a process whose fork succeeded is in the table until wait frees it. */
  lemma ForkedUntilReaped(s: State, events: seq<Step>, t: State, pid: nat) returns (c: nat)
    requires Start(s) && Run(Next, s, events, t) && pid in t.forker && pid !in t.reaped
    ensures c < |t.slots| && t.slots[c].status != Unused && t.slots[c].pid == pid
  {
    hide Next, Start, Inv, Parented, Forking;
    RunFamily(s, events, t);
    c :| c < |t.slots| && IsProc(t.slots[c], pid);
  }

  /** wait returns -1 for want of children only when wait has freed every process that the caller
      ever forked. */
  lemma NoChildrenLeft(s: State, events: seq<Step>, t: State, st: Step, u: State, pid: nat)
    requires Start(s) && Run(Next, s, events, t) && Next(t, st, u) && st.WaitNone?
    requires pid in t.forker && t.forker[pid] == t.slots[st.p].pid
    ensures pid in t.reaped
  {
    hide Start, Inv, Family, Run;
    if pid !in t.reaped {
      var c := ForkedUntilReaped(s, events, t, pid);
      RunFamily(s, events, t);
      InvCore(t);
      NoChildrenIsTrue(s, events, t, st, u, c);
      ReapedHadExited(s, events, t, st.p);
      Awake(t, st.p);
      StillChild(t, st.p, c);
    }
  }

  lemma Awake(t: State, p: nat)
    requires Core(t) && p < |t.slots| && t.slots[p].pc.WaitScan?
    ensures t.slots[p].status == Running
  {
    hide Core;
    Look(t, p);
  }

  /** A process in wait is the parent of each process that it forked and that is in the table. */
  lemma StillChild(t: State, p: nat, c: nat)
    requires Core(t) && Family(t) && p < |t.slots| && c < |t.slots| && t.slots[p].pc.WaitScan? && t.slots[p].pid !in t.exited
    requires t.slots[c].status != Unused && t.slots[c].pid in t.forker && t.forker[t.slots[c].pid] == t.slots[p].pid
    ensures t.slots[c].parent == ChildOf(p)
  {
    hide Core, Accounted;
    OnlyHolder(t, p);
    Look(t, p);
    if t.slots[c].status == Used {
      var q: nat :| q < |t.slots| && Makes(t.slots[q], c);
      assert ForkFits(t, q, c);
      Look(t, q);
      UniquePid(t, p, q);
    } else {
      assert ParentFits(t, t.slots[c]);
      NotParentDead(t, c);
      UniquePid(t, p, t.slots[c].parent.q);
    }
  }

  lemma NotParentDead(t: State, c: nat)
    requires Core(t) && c < |t.slots| && t.slots[c].parent.ChildOf?
    ensures t.slots[c].parent.q < |t.slots| && t.slots[t.slots[c].parent.q].status != Unused
  {
    hide Core;
    Look(t, c);
  }

  /** What wait returns to a process is a child that it forked, or, for init, one whose forker has exited. */
  lemma ReapsForked(s: State, events: seq<Step>, t: State, st: Step, u: State)
    requires Start(s) && Run(Next, s, events, t) && Next(t, st, u) && st.WaitReap?
    ensures var pid := t.slots[t.slots[st.p].pc.i].pid;
      && pid in t.forker && pid in u.reaped
      && (t.forker[pid] == t.slots[st.p].pid || (st.p == INIT && t.forker[pid] in t.exited))
  {
    hide Start, Core, SleepOk, Forking, Accounted;
    var c := t.slots[st.p].pc.i;
    RunFamily(s, events, t);
    InitAlone(t);
    OnlyHolder(t, st.p);
    assert ParentFits(t, t.slots[c]);
  }
}
