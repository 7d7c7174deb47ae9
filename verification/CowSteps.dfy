/** The steps of copy-on-write memory that move, copy or count pages. */
module CowSteps {
  import opened CowMemory
  import opened PageRefs
  import opened CowProof

  // ---------------------------------------------------------------------------
  // Stores and copies
  // ---------------------------------------------------------------------------

  lemma StoreView(mem: seq<Page>, q: Proc, v: nat, data: Page)
    requires |mem| == STOP && ProcOk(q) && q.pc.User? && v in q.pt && q.pt[v].w
    ensures q.pt[v].pn in Writable(q) && q.pt[v].pn < STOP
    ensures v in View(mem, q) && View(mem, q)[v].rights == RightsOf(q.pt[v])
    ensures View(mem[q.pt[v].pn := data], q) == SetPage(View(mem, q), v, View(mem, q)[v].(data := data))
  {
    assert Counted(q, v) && Backing(q, v) == q.pt[v].pn;
    forall u | u in q.pt && u != v ensures Backing(q, u) != q.pt[v].pn {
      assert Counted(q, u);
    }
  }

  lemma StepStore(s: State, a: Eager, p: Pid, v: nat, data: Page) returns (b: Eager)
    requires Sim(s, a) && MayStore(s, p, v)
    ensures EagerNext(a, Write(p, v, data), b) && Sim(AfterStore(s, p, v, data), b)
  {
    var q := s.procs[p];
    StoreView(s.mem, q, v, data);
    assert s.procs[p := q] == s.procs;
    assert FeetOf(s.procs)[p := FootOf(q)] == FeetOf(s.procs);
    OneProc(s, a, p, q, q.pt[v].pn, data, s.pgref, s.free);
    b := a[p := SetPage(a[p], v, a[p][v].(data := data))];
  }

  /** CowCopy to CowFree: tables and pages stay the process's own. */
  lemma CopyProc(q: Proc)
    requires ProcOk(q) && q.pc.CowCopy?
    ensures ProcOk(q.(pc := CowFree(q.pc.v, q.pc.r))) && FootOf(q.(pc := CowFree(q.pc.v, q.pc.r))) == FootOf(q)
  {
    var r := q.(pc := CowFree(q.pc.v, q.pc.r));
    assert SameEntries(q, r);
    SameFoot(q, r);
  }

  /** The page that is copied to is mapped by no entry. */
  lemma CopyAside(q: Proc)
    requires ProcOk(q) && q.pc.CowCopy?
    ensures q.pc.v in q.pt && q.pc.r < STOP && q.pc.r in Writable(q)
    ensures forall v | v in q.pt && Counted(q, v) :: Backing(q, v) == q.pt[v].pn && q.pt[v].pn != q.pc.r
  {
    assert q.pc.r in Temp(q.pc);
    forall v | v in q.pt && Counted(q, v) ensures Backing(q, v) == q.pt[v].pn && q.pt[v].pn != q.pc.r { assert Backing(q, v) in Mapped(q); }
  }

  /** The copy is made in a page that nobody else can see. */
  lemma CopyFoot(mem: seq<Page>, q: Proc)
    requires |mem| == STOP && ProcOk(q) && q.pc.CowCopy?
    ensures q.pc.v in q.pt && q.pc.r < STOP
    ensures var r := q.(pc := CowFree(q.pc.v, q.pc.r));
      var mem' := mem[q.pc.r := mem[q.pt[q.pc.v].pn]];
      && ProcOk(r) && FootOf(r) == FootOf(q) && Copied(mem', r)
      && View(mem', r) == View(mem, q)
      && q.pc.r in Writable(q)
  {
    hide PcOk, Injective, HasEntry, FootOf, Writable;
    CopyProc(q);
    CopyAside(q);
    assert Counted(q, q.pc.v);
  }

  lemma StepCopy(s: State, a: Eager, p: Pid)
    requires Sim(s, a) && MayCopy(s, p)
    ensures Sim(AfterCopy(s, p), a)
  {
    hide AllocInv, ForksOk;
    var q := s.procs[p];
    CopyFoot(s.mem, q);
    var r := q.(pc := CowFree(q.pc.v, q.pc.r));
    assert FeetOf(s.procs)[p := FootOf(r)] == FeetOf(s.procs);
    OneProc(s, a, p, r, q.pc.r, s.mem[q.pt[q.pc.v].pn], s.pgref, s.free);
    assert a[p := a[p]] == a;
  }

  // ---------------------------------------------------------------------------
  // kalloc
  // ---------------------------------------------------------------------------

  /** q takes page r from the free list. */
  ghost predicate Takes(q: Proc, t: Proc, r: nat) {
    && Alone(q.pc) && Alone(t.pc) && !t.pc.CowFree?
    && ProcOk(t)
    && FootOf(q).loose == {} && FootOf(t) == FootOf(q).(loose := {r})
    && SameEntries(q, t)
    && Live(q) && Live(t)
  }

  /** A step that changes which pages p has in hand, and nothing that it sees. */
  lemma Unseen(s: State, a: Eager, p: Pid, t: Proc, x: nat, data: Page, pgref: seq<nat>, free: seq<nat>)
    requires Sim(s, a) && p in s.procs && Alone(s.procs[p].pc) && Alone(t.pc)
    requires x in Loose(s.procs[p].pc) || x >= STOP
    requires ProcOk(t) && !t.pc.CowFree? && SameEntries(s.procs[p], t) && (Live(t) <==> Live(s.procs[p]))
    requires AllocInv(s.first, pgref, free, FeetOf(s.procs)[p := FootOf(t)])
    ensures Sim(State(s.first, Written(s.mem, x, data), pgref, free, s.procs[p := t]), a)
  {
    OneProc(s, a, p, t, x, data, pgref, free);
    if Live(t) {
      UnseenView(s, p, t, x, data);
      assert a[p := a[p]] == a;
    }
  }

  lemma UnseenView(s: State, p: Pid, t: Proc, x: nat, data: Page)
    requires Inv(s) && p in s.procs && ProcOk(t) && SameEntries(s.procs[p], t)
    requires x in Loose(s.procs[p].pc) || x >= STOP
    ensures View(Written(s.mem, x, data), t) == View(s.mem, s.procs[p])
  {
    var q := s.procs[p];
    assert ProcOk(q);
    SameView(s.mem, q, t);
    if x < STOP {
      LooseNotHeld(s, p, x);
      SameView(s.mem[x := data], q, t);
      WriteElsewhere(s.mem, q, x, data);
    }
  }

  lemma TakeInv(s: State, p: Pid, t: Proc)
    requires Inv(s) && p in s.procs && s.free != [] && Takes(s.procs[p], t, s.free[0])
    ensures AllocInv(s.first, s.pgref, s.free[1..], FeetOf(s.procs)[p := FootOf(t)])
  {
    TakeFree(s.first, s.pgref, s.free, FeetOf(s.procs), p, FeetOf(s.procs)[p := FootOf(t)]);
  }

  lemma TakeStep(s: State, a: Eager, p: Pid, t: Proc)
    requires Sim(s, a) && p in s.procs && s.free != [] && Takes(s.procs[p], t, s.free[0])
    ensures Sim(SetProc(s, p, t).(free := s.free[1..]), a)
  {
    hide AllocInv, ForksOk, ProcOk, Sees, AllOk;
    TakeInv(s, p, t);
    Unseen(s, a, p, t, STOP, ZeroPage(), s.pgref, s.free[1..]);
  }

  lemma LooseFoot(q: Proc, t: Proc)
    requires SameEntries(q, t) && (forall v | Has(q, v) && Has(t, v) :: Mutable(q, v) <==> Mutable(t, v))
    requires q.kpages == t.kpages && Temp(q.pc) == Temp(t.pc)
    ensures FootOf(t) == FootOf(q).(loose := Loose(t.pc))
    ensures Injective(q) ==> Injective(t)
  {
    SameMapped(q, t);
    FewerWrites(q, t);
    FewerWrites(t, q);
    if Injective(q) {
      forall u, v | u in t.pt && v in t.pt && Counted(t, u) && Counted(t, v) && u != v ensures Backing(t, u) != Backing(t, v) {
        assert Has(t, u) && Has(t, v) && Has(q, u) && Has(q, v);
      }
    }
  }

  lemma PopTakes(q: Proc, r: nat)
    requires ProcOk(q) && Popping(q.pc) && r < STOP
    ensures Takes(q, q.(pc := if q.pc.CowAlloc? then CowPopped(q.pc.v, r) else GrowPopped(q.pc.v, q.pc.hi, r)), r)
  {
    LooseFoot(q, q.(pc := if q.pc.CowAlloc? then CowPopped(q.pc.v, r) else GrowPopped(q.pc.v, q.pc.hi, r)));
  }

  lemma FreeInRam(s: State)
    requires Inv(s) && s.free != []
    ensures s.free[0] < STOP
  {
  }

  lemma StepPop(s: State, a: Eager, p: Pid)
    requires Sim(s, a) && MayPop(s, p)
    ensures Sim(AfterPop(s, p), a)
  {
    var q, r := s.procs[p], s.free[0];
    FreeInRam(s);
    PopTakes(q, r);
    TakeStep(s, a, p, q.(pc := if q.pc.CowAlloc? then CowPopped(q.pc.v, r) else GrowPopped(q.pc.v, q.pc.hi, r)));
  }

  lemma KernTakes(q: Proc, r: nat)
    requires ProcOk(q) && q.pc.User? && r < STOP
    ensures Takes(q, q.(pc := KernPopped(r)), r)
  {
    LooseFoot(q, q.(pc := KernPopped(r)));
  }

  lemma StepKernAlloc(s: State, a: Eager, p: Pid)
    requires Sim(s, a) && MayKernAlloc(s, p)
    ensures Sim(AfterKernAlloc(s, p), a)
  {
    FreeInRam(s);
    KernTakes(s.procs[p], s.free[0]);
    TakeStep(s, a, p, s.procs[p].(pc := KernPopped(s.free[0])));
  }

  lemma InitInjective(q: Proc)
    requires ProcOk(q) && Initing(q.pc) && q.pc.r !in Held(q)
    ensures Injective(Inited(q)) && SameEntries(q, Inited(q))
    ensures FootOf(Inited(q)) == Foot(FootOf(q).held + {q.pc.r}, {}, FootOf(q).writable + {q.pc.r})
  {
    hide InRam, PcOk, HasEntry;
    var t := Inited(q);
    SameMapped(q, t);
    FewerWrites(q, t);
    FewerWrites(t, q);
    assert Writable(t) == Writes(t) + Temp(t.pc) + t.kpages;
    assert Writable(q) == Writes(q) + Temp(q.pc) + q.kpages;
    forall u, v | u in t.pt && v in t.pt && Counted(t, u) && Counted(t, v) && u != v ensures Backing(t, u) != Backing(t, v) {
      assert Has(t, u) && Has(t, v) && Has(q, u) && Has(q, v);
    }
  }

  /** kalloc's page becomes the caller's. */
  lemma InitPlaced(q: Proc)
    requires ProcOk(q) && Initing(q.pc)
    ensures var t := Inited(q);
      && Alone(q.pc) && Alone(t.pc) && !t.pc.CowFree? && Live(q) && Live(t)
      && Placed(t) && Loose(q.pc) == {q.pc.r}
  {
    var t := Inited(q);
    assert q.pc.r in Loose(q.pc);
    assert InRam(t) by { forall v | v in t.pt ensures Backing(t, v) == Backing(q, v) { } }
  }

  lemma InitInv(s: State, p: Pid)
    requires Inv(s) && MayInit(s, p)
    ensures var q := s.procs[p];
      && ProcOk(Inited(q)) && SameEntries(q, Inited(q))
      && AllocInv(s.first, s.pgref[q.pc.r := 1], s.free, FeetOf(s.procs)[p := FootOf(Inited(q))])
  {
    var q := s.procs[p];
    InitPlaced(q);
    assert q.pc.r in Loose(q.pc);
    LooseNotHeld(s, p, q.pc.r);
    InitInjective(q);
    Adopt(s.first, s.pgref, s.free, FeetOf(s.procs), p, q.pc.r, FeetOf(s.procs)[p := FootOf(Inited(q))]);
  }

  lemma StepInit(s: State, a: Eager, p: Pid)
    requires Sim(s, a) && MayInit(s, p)
    ensures Sim(AfterInit(s, p), a)
  {
    hide AllocInv, ForksOk, Sees;
    var q := s.procs[p];
    InitPlaced(q);
    InitInv(s, p);
    Unseen(s, a, p, Inited(q), q.pc.r, Filled(5), s.pgref[q.pc.r := 1], s.free);
  }

  // ---------------------------------------------------------------------------
  // kfree
  // ---------------------------------------------------------------------------

  /** q gives up its reference to pn and becomes t, with the pages `loose` in hand. */
  ghost predicate Gives(q: Proc, t: Proc, pn: nat, loose: set<nat>) {
    && Alone(q.pc) && Alone(t.pc) && !t.pc.CowFree? && (Live(q) <==> Live(t))
    && ProcOk(t)
    && pn in Held(q) && pn < STOP && Loose(q.pc) == {}
    && Held(t) == Held(q) - {pn} && Writable(t) == Writable(q) - {pn} && Loose(t.pc) == loose
  }

  /** The counts after kfree's critical section. */
  function Lowered(pgref: seq<nat>, pn: nat): seq<nat>
    requires pn < |pgref|
  {
    if pgref[pn] > 1 then pgref[pn := pgref[pn] - 1] else pgref[pn := 0]
  }

  lemma DropSharedInv(s: State, p: Pid, t: Proc, pn: nat)
    requires Inv(s) && p in s.procs && pn < STOP && s.pgref[pn] > 1 && Gives(s.procs[p], t, pn, {})
    ensures AllocInv(s.first, Lowered(s.pgref, pn), s.free, FeetOf(s.procs)[p := FootOf(t)])
  {
    var feet := FeetOf(s.procs);
    assert FootOf(t) == Foot(feet[p].held - {pn}, feet[p].loose, feet[p].writable - {pn});
    DropShared(s.first, s.pgref, s.free, feet, p, pn, feet[p := FootOf(t)]);
  }

  lemma DropLastInv(s: State, p: Pid, t: Proc, pn: nat)
    requires Inv(s) && p in s.procs && pn < STOP && s.pgref[pn] <= 1 && Gives(s.procs[p], t, pn, {pn})
    ensures AllocInv(s.first, Lowered(s.pgref, pn), s.free, FeetOf(s.procs)[p := FootOf(t)])
  {
    var feet := FeetOf(s.procs);
    assert FootOf(t) == Foot(feet[p].held - {pn}, {pn}, feet[p].writable - {pn});
    DropLast(s.first, s.pgref, s.free, feet, p, pn, feet[p := FootOf(t)]);
  }

  lemma DropStep(s: State, a: Eager, p: Pid, t: Proc, pn: nat)
    requires Sim(s, a) && p in s.procs && pn < STOP
    requires Gives(s.procs[p], t, pn, if s.pgref[pn] > 1 then {} else {pn})
    ensures Sim(State(s.first, s.mem, Lowered(s.pgref, pn), s.free, s.procs[p := t]), if Live(t) then a[p := View(s.mem, t)] else a)
  {
    if s.pgref[pn] > 1 { DropSharedInv(s, p, t, pn); } else { DropLastInv(s, p, t, pn); }
    OneProcNoWrite(s, a, p, t, Lowered(s.pgref, pn), s.free);
  }

  /** A kfree that the process does not notice. */
  lemma DropUnseen(s: State, a: Eager, p: Pid, t: Proc, pn: nat, s': State)
    requires Sim(s, a) && p in s.procs && pn < STOP
    requires Gives(s.procs[p], t, pn, if s.pgref[pn] > 1 then {} else {pn}) && Live(t)
    requires View(s.mem, t) == View(s.mem, s.procs[p])
    requires s' == State(s.first, s.mem, Lowered(s.pgref, pn), s.free, s.procs[p := t])
    ensures Sim(s', a)
  {
    DropStep(s, a, p, t, pn);
    SeesSame(s.mem, s.procs, a, p, t);
  }

  lemma SeesSame(mem: seq<Page>, procs: map<Pid, Proc>, a: Eager, p: Pid, t: Proc)
    requires |mem| == STOP && Sees(mem, procs, a) && p in procs && Live(procs[p]) && InRam(procs[p]) && InRam(t)
    requires View(mem, t) == View(mem, procs[p])
    ensures a[p := View(mem, t)] == a
  {
  }

  lemma DropState(s: State, p: Pid, pn: nat)
    requires MayDrop(s, p, pn)
    ensures AfterDrop(s, p, pn) ==
      State(s.first, s.mem, Lowered(s.pgref, pn), s.free, s.procs[p := Dropped(s.procs[p], pn, s.pgref[pn] <= 1)])
  {
  }

  lemma WritesMapped(q: Proc)
    ensures Writes(q) <= Mapped(q)
  {
  }

  /** What kfree leaves its caller with. */
  function Dropped(q: Proc, pn: nat, last: bool): Proc {
    q.(pc := if last then Freeing(q, pn) else Freed(q))
  }

  // --- CowHandler ------------------------------------------------------------

  /** The copy takes the place of the shared page. */
  lemma SwapEntries(q: Proc, t: Proc)
    requires ProcOk(q) && q.pc.CowFree? && q.pc.v in q.pt
    requires t.pt == q.pt && t.kpages == q.kpages && (t.pc.CowSet? || t.pc.CowPush?) && t.pc.v == q.pc.v && t.pc.r == q.pc.r
    ensures forall v | v in q.pt :: Backing(t, v) == if v == q.pc.v then q.pc.r else Backing(q, v)
    ensures Mapped(t) == Mapped(q) - {q.pt[q.pc.v].pn} + {q.pc.r}
    ensures Writes(t) == Writes(q) - {q.pt[q.pc.v].pn} + {q.pc.r}
  {
    var pn, u, r := q.pt[q.pc.v].pn, q.pc.v, q.pc.r;
    assert Has(q, u) && Backing(q, u) == pn && Counted(t, u) && Backing(t, u) == r && Swapped(t, u);
    forall x | x in Mapped(q) && x != pn ensures x in Mapped(t) {
      var v :| v in q.pt && Counted(q, v) && x == Backing(q, v);
      assert v in t.pt && Counted(t, v) && x == Backing(t, v);
    }
    forall x | x in Mapped(t) ensures x in Mapped(q) - {pn} + {r} {
      var v :| v in t.pt && Counted(t, v) && x == Backing(t, v);
      assert v in q.pt && Counted(q, v);
    }
    forall x | x in Writes(q) && x != pn ensures x in Writes(t) {
      var v :| v in q.pt && Counted(q, v) && (Swapped(q, v) || q.pt[v].w) && x == Backing(q, v);
      assert v in t.pt && Counted(t, v) && x == Backing(t, v);
    }
    forall x | x in Writes(t) ensures x in Writes(q) - {pn} + {r} {
      var v :| v in t.pt && Counted(t, v) && (Swapped(t, v) || t.pt[v].w) && x == Backing(t, v);
      assert v in q.pt && Counted(q, v);
    }
  }

  lemma CowFreeGives(q: Proc, last: bool)
    requires ProcOk(q) && q.pc.CowFree?
    ensures q.pc.v in q.pt
    ensures var pn := q.pt[q.pc.v].pn;
      Gives(q, Dropped(q, pn, last), pn, if last then {pn} else {})
  {
    var pn := q.pt[q.pc.v].pn;
    var t := Dropped(q, pn, last);
    assert q.pc.r in Temp(q.pc);
    assert Has(q, q.pc.v) && Backing(q, q.pc.v) == pn && pn in Mapped(q);
    SwapEntries(q, t);
    assert Writable(t) == Writes(t) + Temp(t.pc) + t.kpages;
    assert Writable(q) == Writes(q) + Temp(q.pc) + q.kpages;
    CowFreeInjective(q, t);
    assert Placed(t);
  }

  lemma CowFreeInjective(q: Proc, t: Proc)
    requires ProcOk(q) && q.pc.CowFree? && q.pc.v in q.pt
    requires t.pt == q.pt && t.kpages == q.kpages && (t.pc.CowSet? || t.pc.CowPush?) && t.pc.v == q.pc.v && t.pc.r == q.pc.r
    ensures Injective(t)
  {
    SwapEntries(q, t);
    assert q.pc.r in Temp(q.pc);
    forall u, v | u in t.pt && v in t.pt && Counted(t, u) && Counted(t, v) && u != v ensures Backing(t, u) != Backing(t, v) {
      assert Counted(q, u) && Counted(q, v) && Backing(q, u) in Mapped(q) && Backing(q, v) in Mapped(q);
    }
  }

  lemma SwapView(mem: seq<Page>, q: Proc, t: Proc)
    requires |mem| == STOP && ProcOk(q) && InRam(t) && q.pc.CowFree? && q.pc.v in q.pt && Copied(mem, q)
    requires t.pt == q.pt && (t.pc.CowSet? || t.pc.CowPush?) && t.pc.v == q.pc.v && t.pc.r == q.pc.r
    ensures View(mem, t) == View(mem, q)
  {
  }

  lemma CowFreeUnseen(mem: seq<Page>, q: Proc, pn: nat, last: bool)
    requires |mem| == STOP && ProcOk(q) && Copied(mem, q) && q.pc.CowFree? && Dropping(q, pn)
    ensures Gives(q, Dropped(q, pn, last), pn, if last then {pn} else {})
    ensures Live(q) && View(mem, Dropped(q, pn, last)) == View(mem, q)
  {
    CowFreeGives(q, last);
    SwapView(mem, q, Dropped(q, pn, last));
  }

  lemma StepDropCow(s: State, a: Eager, p: Pid, pn: nat)
    requires Sim(s, a) && MayDrop(s, p, pn) && s.procs[p].pc.CowFree?
    ensures Sim(AfterDrop(s, p, pn), a)
  {
    var q := s.procs[p];
    var t := Dropped(q, pn, s.pgref[pn] <= 1);
    CowFreeUnseen(s.mem, q, pn, s.pgref[pn] <= 1);
    DropState(s, p, pn);
    DropUnseen(s, a, p, t, pn, AfterDrop(s, p, pn));
  }

  // --- uvmalloc's failure ----------------------------------------------------

  lemma GrowUndoGives(q: Proc, last: bool)
    requires ProcOk(q) && q.pc.GrowUndo?
    ensures var t := Dropped(q, q.pc.r, last);
      Gives(q, t, q.pc.r, if last then {q.pc.r} else {}) && SameEntries(q, t)
  {
    var t := Dropped(q, q.pc.r, last);
    assert q.pc.r in Temp(q.pc);
    SameMapped(q, t);
    FewerWrites(q, t);
    FewerWrites(t, q);
    assert Writable(t) == Writes(t) + Temp(t.pc) + t.kpages;
    assert Writable(q) == Writes(q) + Temp(q.pc) + q.kpages;
    WritesMapped(q);
    assert Placed(t);
  }

  lemma StepDropUndo(s: State, a: Eager, p: Pid, pn: nat)
    requires Sim(s, a) && MayDrop(s, p, pn) && s.procs[p].pc.GrowUndo?
    ensures Sim(AfterDrop(s, p, pn), a)
  {
    var q := s.procs[p];
    var t := Dropped(q, pn, s.pgref[pn] <= 1);
    GrowUndoGives(q, s.pgref[pn] <= 1);
    SameView(s.mem, q, t);
    DropState(s, p, pn);
    DropUnseen(s, a, p, t, pn, AfterDrop(s, p, pn));
  }

  // --- uvmunmap --------------------------------------------------------------

  lemma UnmapGives(q: Proc, last: bool)
    requires ProcOk(q) && q.pc.Unmap? && q.pc.v < q.pc.hi
    ensures q.pc.v in q.pt
    ensures var pn := q.pt[q.pc.v].pn;
      Gives(q, Dropped(q, pn, last), pn, if last then {pn} else {})
  {
    var pn := q.pt[q.pc.v].pn;
    var t := Dropped(q, pn, last);
    assert Backing(q, q.pc.v) == pn && Backing(q, q.pc.v) in Mapped(q);
    MappedWithout(q, t, q.pc.v);
    assert Writable(t) == Writes(t) + Temp(t.pc) + t.kpages;
    assert Writable(q) == Writes(q) + Temp(q.pc) + q.kpages;
    assert Placed(t);
    assert forall v | v in t.pt && Counted(t, v) :: Counted(q, v) && Backing(t, v) == Backing(q, v);
  }

  lemma UnmapView(mem: seq<Page>, q: Proc, last: bool)
    requires |mem| == STOP && ProcOk(q) && q.pc.Unmap? && q.pc.v < q.pc.hi && q.pc.v in q.pt
    requires InRam(Dropped(q, q.pt[q.pc.v].pn, last))
    ensures q.pc.v in View(mem, q) && View(mem, Dropped(q, q.pt[q.pc.v].pn, last)) == View(mem, q) - {q.pc.v}
  {
  }

  lemma StepDropUnmap(s: State, a: Eager, p: Pid, pn: nat) returns (e: Event, b: Eager)
    requires Sim(s, a) && MayDrop(s, p, pn) && s.procs[p].pc.Unmap?
    ensures EagerNext(a, e, b) && Sim(AfterDrop(s, p, pn), b)
    ensures e == if Live(s.procs[p]) then Release(p, s.procs[p].pc.v) else Silent
  {
    hide Inv, Sees, EagerNext, View, ProcOk, Gives, AfterDrop, InRam, Backing;
    var q := s.procs[p];
    var last := s.pgref[pn] <= 1;
    GetProc(s, p);
    UnmapGives(q, last);
    DropState(s, p, pn);
    DropStep(s, a, p, Dropped(q, pn, last), pn);
    if Live(q) {
      SeenBy(s, a, p);
      StaysInRam(q, last);
      UnmapView(s.mem, q, last);
      e, b := Release(p, q.pc.v), a[p := a[p] - {q.pc.v}];
      Released(a, p, q.pc.v);
    } else {
      e, b := Silent, a;
      Unchanged(a);
    }
  }

  lemma SeenBy(s: State, a: Eager, p: Pid)
    requires Sim(s, a) && p in s.procs && Live(s.procs[p])
    ensures |s.mem| == STOP && InRam(s.procs[p]) && p in a && a[p] == View(s.mem, s.procs[p])
  {
    hide Inv, View;
    GetProc(s, p);
  }

  lemma StaysInRam(q: Proc, last: bool)
    requires ProcOk(q) && InRam(q) && q.pc.Unmap? && q.pc.v < q.pc.hi && q.pc.v in q.pt
    ensures InRam(Dropped(q, q.pt[q.pc.v].pn, last))
  {
  }

  lemma Released(a: Eager, p: Pid, v: nat)
    requires p in a && v in a[p]
    ensures EagerNext(a, Release(p, v), a[p := a[p] - {v}])
  {
  }

  lemma Unchanged(a: Eager)
    ensures EagerNext(a, Silent, a)
  {
  }

  // --- kernel pages ----------------------------------------------------------

  function KernDropped(q: Proc, pn: nat, last: bool): Proc {
    q.(kpages := q.kpages - {pn}, pc := if last then KernPush(pn) else User)
  }

  lemma KernGives(q: Proc, pn: nat, last: bool)
    requires ProcOk(q) && q.pc.User? && pn in q.kpages
    ensures var t := KernDropped(q, pn, last);
      Gives(q, t, pn, if last then {pn} else {}) && SameEntries(q, t)
  {
    var t := KernDropped(q, pn, last);
    SameMapped(q, t);
    FewerWrites(q, t);
    FewerWrites(t, q);
    assert Writable(t) == Writes(t) + Temp(t.pc) + t.kpages;
    assert Writable(q) == Writes(q) + Temp(q.pc) + q.kpages;
    WritesMapped(q);
    assert Placed(t);
  }

  lemma StepKernFree(s: State, a: Eager, p: Pid, pn: nat)
    requires Sim(s, a) && MayKernFree(s, p, pn)
    ensures Sim(AfterKernFree(s, p, pn), a)
  {
    hide AllocInv, ForksOk, Sees, Injective, PcOk, HasEntry, SameEntries;
    var q := s.procs[p];
    var t := KernDropped(q, pn, s.pgref[pn] <= 1);
    KernGives(q, pn, s.pgref[pn] <= 1);
    SameView(s.mem, q, t);
    DropUnseen(s, a, p, t, pn, AfterKernFree(s, p, pn));
  }

  // --- the free list ---------------------------------------------------------

  lemma PushFoot(q: Proc)
    requires ProcOk(q) && Pushing(q.pc)
    ensures var t := q.(pc := Freed(q));
      && Alone(q.pc) && Alone(t.pc) && !t.pc.CowFree? && (Live(q) <==> Live(t))
      && ProcOk(t) && SameEntries(q, t)
      && Loose(q.pc) == {q.pc.gone} && FootOf(t) == FootOf(q).(loose := {})
  {
    LooseFoot(q, q.(pc := Freed(q)));
  }

  lemma PushInv(s: State, p: Pid)
    requires Inv(s) && MayPush(s, p)
    ensures var q := s.procs[p];
      AllocInv(s.first, s.pgref, [q.pc.gone] + s.free, FeetOf(s.procs)[p := FootOf(q.(pc := Freed(q)))])
  {
    var q := s.procs[p];
    PushFoot(q);
    PushFree(s.first, s.pgref, s.free, FeetOf(s.procs), p, q.pc.gone, FeetOf(s.procs)[p := FootOf(q.(pc := Freed(q)))]);
  }

  lemma StepPush(s: State, a: Eager, p: Pid)
    requires Sim(s, a) && MayPush(s, p)
    ensures Sim(AfterPush(s, p), a)
  {
    var q := s.procs[p];
    PushFoot(q);
    PushInv(s, p);
    Unseen(s, a, p, q.(pc := Freed(q)), q.pc.gone, Filled(1), s.pgref, [q.pc.gone] + s.free);
  }
}
