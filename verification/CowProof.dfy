/** Every step of copy-on-write memory keeps the counts exact and is a step of eager copying. */
module CowProof {
  import opened CowMemory
  import opened PageRefs

  // ---------------------------------------------------------------------------
  // The invariant
  // ---------------------------------------------------------------------------

  /** The user pages that have an entry. */
  ghost predicate HasEntry(q: Proc, v: nat) {
    match q.pc
    case Embryo(_, n, pending) => v < n || (pending && v == n)
    case GrowAlloc(u, _) => v < u
    case GrowPopped(u, _, _) => v < u
    case GrowMap(u, _, _) => v < u
    case GrowUndo(u, _) => v < u
    case GrowUndoPush(u, _) => v < u
    case Unmap(u, hi, _) => v < q.np || u <= v < hi
    case UnmapPush(u, hi, _, _) => v < q.np || u <= v < hi
    case UnmapClear(u, hi, _) => v < q.np || u <= v < hi
    case _ => v < q.np
  }

  ghost predicate Ending(q: Proc, next: Then) {
    next.Resume? || (q.np == 0 && q.kpages == {})
  }

  /** CowHandler works on a copy-on-write entry. */
  ghost predicate Faulted(q: Proc, v: nat) { v < q.np && v in q.pt && q.pt[v].cow }

  ghost predicate PcOk(q: Proc) {
    match q.pc
    case CowAlloc(v) => Faulted(q, v)
    case CowPopped(v, _) => Faulted(q, v)
    case CowCopy(v, _) => Faulted(q, v)
    case CowFree(v, _) => Faulted(q, v)
    case CowPush(v, _, _) => Faulted(q, v)
    case CowSet(v, _) => Faulted(q, v)
    case Embryo(_, _, _) => q.np == 0 && q.kpages == {}
    case GrowAlloc(v, hi) => q.np <= v <= hi
    case GrowPopped(v, hi, _) => q.np <= v < hi
    case GrowMap(v, hi, _) => q.np <= v < hi
    case GrowUndo(v, _) => q.np <= v
    case GrowUndoPush(v, _) => q.np <= v
    case Unmap(v, hi, next) => q.np <= v <= hi && Ending(q, next)
    case UnmapPush(v, hi, next, _) => q.np <= v < hi && Ending(q, next)
    case UnmapClear(v, hi, next) => q.np <= v < hi && Ending(q, next)
    case _ => true
  }

  /** No page is in a process twice. */
  ghost predicate Injective(q: Proc) {
    && (forall u, v | u in q.pt && v in q.pt && Counted(q, u) && Counted(q, v) && u != v :: Backing(q, u) != Backing(q, v))
    && Mapped(q) !! Temp(q.pc)
    && Mapped(q) !! q.kpages
    && Temp(q.pc) !! q.kpages
  }

  ghost predicate ProcOk(q: Proc) {
    && PcOk(q)
    && (forall v: nat :: v in q.pt <==> HasEntry(q, v))
    && Injective(q)
    && InRam(q)
  }

  /** The child's entries are the parent's, and may not be written through. */
  ghost predicate ForkPair(parent: Proc, child: Proc, p: Pid) {
    && child.pc.Embryo? && child.pc.parent == p
    && child.pc.n <= parent.np && (child.pc.pending ==> child.pc.n < parent.np)
    && forall v | v in child.pt :: v in parent.pt && child.pt[v] == parent.pt[v] && !child.pt[v].w
  }

  ghost predicate ForksOk(procs: map<Pid, Proc>) {
    && (forall p | p in procs && procs[p].pc.Forking? ::
          procs[p].pc.c in procs && procs[p].pc.c != p && ForkPair(procs[p], procs[procs[p].pc.c], p))
    && (forall c | c in procs && procs[c].pc.Embryo? ::
          procs[c].pc.parent in procs && procs[procs[c].pc.parent].pc == Forking(c))
  }

  /** Between the copy and the release CowHandler's two pages are equal. */
  ghost predicate Copied(mem: seq<Page>, q: Proc)
    requires |mem| == STOP && InRam(q)
  {
    q.pc.CowFree? && q.pc.v in q.pt ==> q.pc.r < STOP && mem[q.pc.r] == mem[q.pt[q.pc.v].pn]
  }

  ghost function FootOf(q: Proc): Foot { Foot(Held(q), Loose(q.pc), Writable(q)) }

  ghost function FeetOf(procs: map<Pid, Proc>): Feet { map p | p in procs :: FootOf(procs[p]) }

  ghost predicate AllOk(mem: seq<Page>, procs: map<Pid, Proc>)
    requires |mem| == STOP
  {
    forall p | p in procs :: ProcOk(procs[p]) && Copied(mem, procs[p])
  }

  ghost predicate Inv(s: State) {
    && RAM_START <= s.first <= STOP && |s.mem| == STOP
    && AllocInv(s.first, s.pgref, s.free, FeetOf(s.procs))
    && AllOk(s.mem, s.procs)
    && ForksOk(s.procs)
  }

  ghost predicate Sees(mem: seq<Page>, procs: map<Pid, Proc>, a: Eager)
    requires |mem| == STOP
  {
    && (forall p :: p in a <==> p in procs && Live(procs[p]))
    && (forall p | p in a :: p in procs && InRam(procs[p]) && a[p] == View(mem, procs[p]))
  }

  ghost predicate Sim(s: State, a: Eager) {
    Inv(s) && Sees(s.mem, s.procs, a)
  }

  lemma GetProc(s: State, p: Pid)
    requires Inv(s) && p in s.procs
    ensures ProcOk(s.procs[p]) && InRam(s.procs[p]) && |s.mem| == STOP && Copied(s.mem, s.procs[p])
    ensures p in FeetOf(s.procs) && FeetOf(s.procs)[p] == FootOf(s.procs[p])
  {
    hide AllocInv, ForksOk, Copied;
  }

  lemma GetAlloc(s: State)
    requires Inv(s)
    ensures |s.mem| == |s.pgref| == STOP && AllocInv(s.first, s.pgref, s.free, FeetOf(s.procs))
  {
    hide AllOk, ForksOk;
  }

  lemma GetPair(s: State, p: Pid, c: Pid)
    requires Inv(s) && p in s.procs && s.procs[p].pc == Forking(c)
    ensures c in s.procs && c != p && ForkPair(s.procs[p], s.procs[c], p)
  {
    hide AllocInv, AllOk, ForkPair;
  }

  // ---------------------------------------------------------------------------
  // Feet
  // ---------------------------------------------------------------------------

  lemma FeetSet(procs: map<Pid, Proc>, p: Pid, q: Proc)
    ensures FeetOf(procs[p := q]) == FeetOf(procs)[p := FootOf(q)]
  {
  }

  ghost predicate Has(q: Proc, v: nat) { v in q.pt && Counted(q, v) }

  /** q and r have the same counted entries, backed by the same pages, with the same rights. */
  ghost predicate SameEntries(q: Proc, r: Proc) {
    && (forall v :: Has(q, v) <==> Has(r, v))
    && (forall v | Has(q, v) && Has(r, v) :: Backing(q, v) == Backing(r, v) && RightsOf(q.pt[v]) == RightsOf(r.pt[v]))
  }

  lemma SameMapped(q: Proc, r: Proc)
    requires SameEntries(q, r)
    ensures Mapped(q) == Mapped(r)
  {
    forall x | x in Mapped(q) ensures x in Mapped(r) {
      var v :| v in q.pt && Counted(q, v) && x == Backing(q, v);
      assert Has(q, v) && Has(r, v);
    }
    forall x | x in Mapped(r) ensures x in Mapped(q) {
      var v :| v in r.pt && Counted(r, v) && x == Backing(r, v);
      assert Has(q, v) && Has(r, v);
    }
  }

  /** The process may change user page v. */
  ghost predicate Mutable(q: Proc, v: nat)
    requires v in q.pt
  {
    Swapped(q, v) || q.pt[v].w
  }

  /** The pages behind writable entries. */
  ghost function Writes(q: Proc): set<nat> {
    set v | v in q.pt && Counted(q, v) && (Swapped(q, v) || q.pt[v].w) :: Backing(q, v)
  }

  lemma FewerWrites(q: Proc, r: Proc)
    requires SameEntries(q, r)
    requires forall v | Has(r, v) && Has(q, v) && Mutable(r, v) :: Mutable(q, v)
    ensures Writes(r) <= Writes(q)
  {
    forall x | x in Writes(r) ensures x in Writes(q) {
      var v :| v in r.pt && Counted(r, v) && (Swapped(r, v) || r.pt[v].w) && x == Backing(r, v);
      assert Has(r, v) && Has(q, v) && Mutable(r, v) && Mutable(q, v);
    }
  }

  /** One entry is no longer counted: its page is no longer mapped. */
  lemma MappedWithout(q: Proc, r: Proc, u: nat)
    requires Injective(q) && u in q.pt && Counted(q, u)
    requires forall v :: v in r.pt && Counted(r, v) <==> v in q.pt && Counted(q, v) && v != u
    requires forall v | v in r.pt && Counted(r, v) :: Backing(r, v) == Backing(q, v) && (Swapped(r, v) || r.pt[v].w <==> Swapped(q, v) || q.pt[v].w)
    ensures Mapped(r) == Mapped(q) - {Backing(q, u)}
    ensures Writes(r) == Writes(q) - {Backing(q, u)}
  {
    forall x | x in Mapped(q) && x != Backing(q, u) ensures x in Mapped(r) {
      var v :| v in q.pt && Counted(q, v) && x == Backing(q, v);
      assert v in r.pt && Counted(r, v);
    }
    forall x | x in Mapped(r) ensures x in Mapped(q) && x != Backing(q, u) {
      var v :| v in r.pt && Counted(r, v) && x == Backing(r, v);
      assert v in q.pt && Counted(q, v);
    }
    forall x | x in Writes(q) && x != Backing(q, u) ensures x in Writes(r) {
      var v :| v in q.pt && Counted(q, v) && (Swapped(q, v) || q.pt[v].w) && x == Backing(q, v);
      assert v in r.pt && Counted(r, v);
    }
    forall x | x in Writes(r) ensures x in Writes(q) && x != Backing(q, u) {
      var v :| v in r.pt && Counted(r, v) && (Swapped(r, v) || r.pt[v].w) && x == Backing(r, v);
      assert v in q.pt && Counted(q, v);
    }
  }

  // ---------------------------------------------------------------------------
  // Contents
  // ---------------------------------------------------------------------------

  /** Writing a page that a process does not hold changes nothing it sees. */
  lemma WriteElsewhere(mem: seq<Page>, q: Proc, x: nat, data: Page)
    requires |mem| == STOP && x < STOP && InRam(q) && x !in Held(q) && PcOk(q) && (forall v: nat :: v in q.pt <==> HasEntry(q, v))
    ensures View(mem[x := data], q) == View(mem, q)
    ensures Copied(mem, q) ==> Copied(mem[x := data], q)
  {
    forall v | v in q.pt && Counted(q, v) ensures Backing(q, v) != x {
      assert Backing(q, v) in Mapped(q);
    }
    if q.pc.CowFree? {
      assert Counted(q, q.pc.v) && Backing(q, q.pc.v) == q.pt[q.pc.v].pn;
    }
  }

  /** What one process may write, no other holds. */
  lemma NobodyElseHolds(s: State, p: Pid, q: Pid, x: nat)
    requires Inv(s) && p in s.procs && q in s.procs && p != q
    requires x in Writable(s.procs[p]) || x in Loose(s.procs[p].pc)
    ensures x < STOP && x !in Held(s.procs[q])
  {
    var feet := FeetOf(s.procs);
    assert FootOk(s.first, s.pgref, s.free, feet[p]);
    assert Apart(feet[p], feet[q]);
    if x in Loose(s.procs[p].pc) { FewHolders(s.first, s.pgref, feet, x, q, p); }
  }

  /** A process does not hold its own loose page. */
  lemma LooseNotHeld(s: State, p: Pid, x: nat)
    requires Inv(s) && p in s.procs && x in Loose(s.procs[p].pc)
    ensures x < STOP && x !in Held(s.procs[p])
  {
    var feet := FeetOf(s.procs);
    assert FootOk(s.first, s.pgref, s.free, feet[p]);
    FewHolders(s.first, s.pgref, feet, x, p, p);
  }

  // ---------------------------------------------------------------------------
  // Steps of one process
  // ---------------------------------------------------------------------------

  predicate Alone(pc: Pc) { !pc.Forking? && !pc.Embryo? }

  ghost function Written(mem: seq<Page>, x: nat, data: Page): seq<Page> {
    if x < |mem| then mem[x := data] else mem
  }

  lemma ForksKept(procs: map<Pid, Proc>, p: Pid, q: Proc)
    requires ForksOk(procs) && p in procs && Alone(procs[p].pc) && Alone(q.pc)
    ensures ForksOk(procs[p := q])
  {
    forall t | t in procs && t != p && procs[t].pc.Forking? ensures procs[t].pc.c != p {
      assert ForkPair(procs[t], procs[procs[t].pc.c], t);
    }
  }

  /** What p writes into its own pages does not show elsewhere. */
  lemma OthersUnaffected(s: State, p: Pid, x: nat, data: Page, t: Pid)
    requires Inv(s) && p in s.procs && t in s.procs && t != p
    requires x in Writable(s.procs[p]) || x in Loose(s.procs[p].pc) || x >= STOP
    ensures View(Written(s.mem, x, data), s.procs[t]) == View(s.mem, s.procs[t])
    ensures Copied(Written(s.mem, x, data), s.procs[t])
  {
    assert ProcOk(s.procs[t]) && Copied(s.mem, s.procs[t]);
    if x < STOP {
      NobodyElseHolds(s, p, t, x);
      WriteElsewhere(s.mem, s.procs[t], x, data);
    }
  }

  lemma OneProcOk(s: State, p: Pid, q: Proc, x: nat, data: Page)
    requires Inv(s) && p in s.procs
    requires x in Writable(s.procs[p]) || x in Loose(s.procs[p].pc) || x >= STOP
    requires ProcOk(q) && Copied(Written(s.mem, x, data), q)
    ensures AllOk(Written(s.mem, x, data), s.procs[p := q])
  {
    forall t | t in s.procs && t != p ensures ProcOk(s.procs[t]) && Copied(Written(s.mem, x, data), s.procs[t]) {
      OthersUnaffected(s, p, x, data, t);
    }
  }

  lemma OneProcSees(s: State, a: Eager, p: Pid, q: Proc, x: nat, data: Page)
    requires Sim(s, a) && p in s.procs
    requires x in Writable(s.procs[p]) || x in Loose(s.procs[p].pc) || x >= STOP
    requires InRam(q) && (Live(q) <==> Live(s.procs[p]))
    ensures Sees(Written(s.mem, x, data), s.procs[p := q], if Live(q) then a[p := View(Written(s.mem, x, data), q)] else a)
  {
    var mem := Written(s.mem, x, data);
    forall t | t in a && t != p ensures t in s.procs && InRam(s.procs[t]) && a[t] == View(mem, s.procs[t]) {
      OthersUnaffected(s, p, x, data, t);
    }
    SeesUpdate(s.mem, mem, s.procs, a, p, q);
  }

  lemma SeesUpdate(mem: seq<Page>, mem': seq<Page>, procs: map<Pid, Proc>, a: Eager, p: Pid, q: Proc)
    requires |mem| == |mem'| == STOP && p in procs && InRam(q) && (Live(q) <==> Live(procs[p]))
    requires Sees(mem, procs, a)
    requires forall t | t in a && t != p :: t in procs && InRam(procs[t]) && a[t] == View(mem', procs[t])
    ensures Sees(mem', procs[p := q], if Live(q) then a[p := View(mem', q)] else a)
  {
  }

  /** A step of p that writes only its own pages keeps what the others rely on. */
  lemma OneProc(s: State, a: Eager, p: Pid, q: Proc, x: nat, data: Page, pgref: seq<nat>, free: seq<nat>)
    requires Sim(s, a) && p in s.procs && Alone(s.procs[p].pc) && Alone(q.pc)
    requires x in Writable(s.procs[p]) || x in Loose(s.procs[p].pc) || x >= STOP
    requires ProcOk(q) && Copied(Written(s.mem, x, data), q) && (Live(q) <==> Live(s.procs[p]))
    requires AllocInv(s.first, pgref, free, FeetOf(s.procs)[p := FootOf(q)])
    ensures Sim(State(s.first, Written(s.mem, x, data), pgref, free, s.procs[p := q]),
                if Live(q) then a[p := View(Written(s.mem, x, data), q)] else a)
  {
    FeetSet(s.procs, p, q);
    ForksKept(s.procs, p, q);
    OneProcOk(s, p, q, x, data);
    OneProcSees(s, a, p, q, x, data);
  }

  /** The same when the step writes no page. */
  lemma OneProcNoWrite(s: State, a: Eager, p: Pid, q: Proc, pgref: seq<nat>, free: seq<nat>)
    requires Sim(s, a) && p in s.procs && Alone(s.procs[p].pc) && Alone(q.pc)
    requires ProcOk(q) && Copied(s.mem, q) && (Live(q) <==> Live(s.procs[p]))
    requires AllocInv(s.first, pgref, free, FeetOf(s.procs)[p := FootOf(q)])
    ensures Sim(State(s.first, s.mem, pgref, free, s.procs[p := q]), if Live(q) then a[p := View(s.mem, q)] else a)
  {
    OneProc(s, a, p, q, STOP, ZeroPage(), pgref, free);
  }

  lemma SameFoot(q: Proc, r: Proc)
    requires SameEntries(q, r) && (forall v | Has(q, v) && Has(r, v) :: Mutable(q, v) <==> Mutable(r, v))
    requires q.kpages == r.kpages && Temp(q.pc) == Temp(r.pc) && Loose(q.pc) == Loose(r.pc)
    ensures FootOf(q) == FootOf(r)
    ensures Injective(q) ==> Injective(r)
  {
    SameMapped(q, r);
    FewerWrites(q, r);
    FewerWrites(r, q);
    if Injective(q) {
      forall u, v | u in r.pt && v in r.pt && Counted(r, u) && Counted(r, v) && u != v ensures Backing(r, u) != Backing(r, v) {
        assert Has(r, u) && Has(r, v) && Has(q, u) && Has(q, v);
      }
    }
  }

  lemma SameView(mem: seq<Page>, q: Proc, r: Proc)
    requires |mem| == STOP && InRam(q) && InRam(r) && SameEntries(q, r)
    ensures View(mem, q) == View(mem, r)
  {
    forall v ensures v in View(mem, q) <==> v in View(mem, r) { assert Has(q, v) <==> Has(r, v); }
    forall v | v in View(mem, q) ensures View(mem, q)[v] == View(mem, r)[v] { assert Has(q, v) && Has(r, v); }
  }

  /** The entries of q agree with its place in the code. */
  ghost predicate Placed(q: Proc) {
    PcOk(q) && (forall v: nat :: v in q.pt <==> HasEntry(q, v)) && InRam(q)
  }

  /** q becomes r without any change to its pages. */
  ghost predicate Moves(q: Proc, r: Proc) {
    && Alone(q.pc) && Alone(r.pc) && !r.pc.CowFree?
    && Placed(r)
    && SameEntries(q, r)
    && (forall v | Has(q, v) && Has(r, v) :: Mutable(q, v) <==> Mutable(r, v))
    && q.kpages == r.kpages && Temp(q.pc) == Temp(r.pc) && Loose(q.pc) == Loose(r.pc)
    && (Live(q) <==> Live(r))
  }

  /** Such a step is silent. */
  lemma MoveOn(s: State, a: Eager, p: Pid, q: Proc)
    requires Sim(s, a) && p in s.procs && Moves(s.procs[p], q)
    ensures Sim(SetProc(s, p, q), a)
  {
    hide AllocInv, ForksOk, Injective, Copied;
    var q0 := s.procs[p];
    assert ProcOk(q0);
    SameFoot(q0, q);
    assert FeetOf(s.procs)[p := FootOf(q)] == FeetOf(s.procs);
    OneProcNoWrite(s, a, p, q, s.pgref, s.free);
    SameView(s.mem, q0, q);
    assert Live(q) ==> a[p := View(s.mem, q)] == a;
  }

  lemma GrowMoves(q: Proc, hi: nat)
    requires ProcOk(q) && q.pc.User? && q.np <= hi
    ensures Moves(q, q.(pc := GrowAlloc(q.np, hi)))
  {
  }

  lemma StepGrow(s: State, a: Eager, p: Pid, hi: nat)
    requires Sim(s, a) && MayGrow(s, p, hi)
    ensures Sim(AfterGrow(s, p, hi), a)
  {
    GrowMoves(s.procs[p], hi);
    MoveOn(s, a, p, s.procs[p].(pc := GrowAlloc(s.procs[p].np, hi)));
  }

  lemma FaultMoves(q: Proc, v: nat)
    requires ProcOk(q) && q.pc.User? && v in q.pt && q.pt[v].cow
    ensures Moves(q, q.(pc := CowAlloc(v)))
  {
  }

  /** CowHandler reads a count of 0 whatever the true count, so it always copies. */
  lemma FaultReadsZero(s: State, p: Pid, v: nat)
    requires Inv(s) && MayFault(s, p, v)
    ensures s.pgref[CowIndex(s.procs[p].pt[v])] == 0
  {
    var q := s.procs[p];
    assert q.pt[v].pn in FeetOf(s.procs)[p].held by { assert Backing(q, v) in Mapped(q); }
    assert FootOk(s.first, s.pgref, s.free, FeetOf(s.procs)[p]);
    CowIndexOutsideRam(q.pt[v]);
  }

  lemma StepFault(s: State, a: Eager, p: Pid, v: nat)
    requires Sim(s, a) && MayFault(s, p, v)
    ensures Sim(AfterFault(s, p, v), a)
  {
    FaultReadsZero(s, p, v);
    FaultMoves(s.procs[p], v);
    MoveOn(s, a, p, s.procs[p].(pc := CowAlloc(v)));
  }

  lemma SetPteMoves(q: Proc)
    requires ProcOk(q) && q.pc.CowSet? && q.pc.v in q.pt
    ensures Moves(q, q.(pt := q.pt[q.pc.v := Owned(q.pt[q.pc.v], q.pc.r)], pc := User))
  {
    assert InRam(q) && Backing(q, q.pc.v) == q.pc.r;
  }

  lemma StepSetPte(s: State, a: Eager, p: Pid)
    requires Sim(s, a) && MaySetPte(s, p)
    ensures Sim(AfterSetPte(s, p), a)
  {
    var q := s.procs[p];
    SetPteMoves(q);
    MoveOn(s, a, p, q.(pt := q.pt[q.pc.v := Owned(q.pt[q.pc.v], q.pc.r)], pc := User));
  }

  lemma RunOutMoves(q: Proc)
    requires ProcOk(q) && Popping(q.pc)
    ensures Moves(q, q.(pc := if q.pc.CowAlloc? then User else Unmap(q.np, q.pc.v, Resume)))
  {
  }

  lemma StepRunOut(s: State, a: Eager, p: Pid)
    requires Sim(s, a) && MayRunOut(s, p)
    ensures Sim(AfterRunOut(s, p), a)
  {
    var q := s.procs[p];
    RunOutMoves(q);
    MoveOn(s, a, p, q.(pc := if q.pc.CowAlloc? then User else Unmap(q.np, q.pc.v, Resume)));
  }

  lemma MapFailMoves(q: Proc)
    requires ProcOk(q) && q.pc.GrowMap?
    ensures Moves(q, q.(pc := GrowUndo(q.pc.v, q.pc.r)))
  {
  }

  lemma StepMapFail(s: State, a: Eager, p: Pid)
    requires Sim(s, a) && MayMapFail(s, p)
    ensures Sim(AfterMapFail(s, p), a)
  {
    MapFailMoves(s.procs[p]);
    MoveOn(s, a, p, s.procs[p].(pc := GrowUndo(s.procs[p].pc.v, s.procs[p].pc.r)));
  }

  lemma GrowDoneMoves(q: Proc)
    requires ProcOk(q) && q.pc.GrowAlloc? && q.pc.v == q.pc.hi
    ensures Moves(q, q.(np := q.pc.hi, pc := User))
  {
  }

  lemma StepGrowDone(s: State, a: Eager, p: Pid)
    requires Sim(s, a) && MayGrowDone(s, p)
    ensures Sim(AfterGrowDone(s, p), a)
  {
    GrowDoneMoves(s.procs[p]);
    MoveOn(s, a, p, s.procs[p].(np := s.procs[p].pc.hi, pc := User));
  }

  lemma ShrinkMoves(q: Proc, lo: nat, next: Then)
    requires ProcOk(q) && q.pc.User? && lo <= q.np && !next.Abandon? && (next.Vanish? ==> lo == 0 && q.kpages == {})
    ensures Moves(q, q.(np := lo, pc := Unmap(lo, q.np, next)))
  {
  }

  lemma StepShrink(s: State, a: Eager, p: Pid, lo: nat, next: Then)
    requires Sim(s, a) && MayShrink(s, p, lo, next)
    ensures Sim(AfterShrink(s, p, lo, next), a)
  {
    ShrinkMoves(s.procs[p], lo, next);
    MoveOn(s, a, p, s.procs[p].(np := lo, pc := Unmap(lo, s.procs[p].np, next)));
  }

  lemma ClearMoves(q: Proc)
    requires ProcOk(q) && q.pc.UnmapClear?
    ensures Moves(q, Cleared(q))
  {
    var r := Cleared(q);
    assert InRam(r) by { forall v | v in r.pt ensures Backing(r, v) == Backing(q, v) { } }
  }

  lemma StepClear(s: State, a: Eager, p: Pid)
    requires Sim(s, a) && MayClear(s, p)
    ensures Sim(AfterClear(s, p), a)
  {
    ClearMoves(s.procs[p]);
    MoveOn(s, a, p, Cleared(s.procs[p]));
  }
}
