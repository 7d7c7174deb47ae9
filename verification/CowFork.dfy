/** The steps of copy-on-write memory that extend an address space, end one, or involve
    a parent and the child it is building. */
module CowFork {
  import opened CowMemory
  import opened PageRefs
  import opened CowProof

  // ---------------------------------------------------------------------------
  // uvmalloc maps a page
  // ---------------------------------------------------------------------------

  lemma MapEntries(q: Proc, w: bool, e: bool)
    requires ProcOk(q) && q.pc.GrowMap?
    ensures Mapped(MappedIn(q, w, e)) == Mapped(q) + {q.pc.r}
    ensures Writes(MappedIn(q, w, e)) <= Writes(q) + {q.pc.r}
  {
    var t := MappedIn(q, w, e);
    assert q.pc.v !in q.pt;
    assert Counted(t, q.pc.v) && Backing(t, q.pc.v) == q.pc.r;
    forall x | x in Mapped(q) ensures x in Mapped(t) {
      var v :| v in q.pt && Counted(q, v) && x == Backing(q, v);
      assert v in t.pt && Counted(t, v) && x == Backing(t, v);
    }
    forall x | x in Mapped(t) ensures x in Mapped(q) + {q.pc.r} {
      var v :| v in t.pt && Counted(t, v) && x == Backing(t, v);
      assert v != q.pc.v ==> v in q.pt && Counted(q, v);
    }
    forall x | x in Writes(t) ensures x in Writes(q) + {q.pc.r} {
      var v :| v in t.pt && Counted(t, v) && (Swapped(t, v) || t.pt[v].w) && x == Backing(t, v);
      assert v != q.pc.v ==> v in q.pt && Counted(q, v);
    }
  }

  lemma MapProc(q: Proc, w: bool, e: bool)
    requires ProcOk(q) && q.pc.GrowMap?
    ensures var t := MappedIn(q, w, e);
      && ProcOk(t) && InRam(t) && q.pc.r in Writable(q)
      && FootOf(t).held == FootOf(q).held && FootOf(t).loose == FootOf(q).loose && FootOf(t).writable <= FootOf(q).writable
  {
    var t := MappedIn(q, w, e);
    assert q.pc.r in Temp(q.pc);
    MapEntries(q, w, e);
    assert Writable(t) == Writes(t) + Temp(t.pc) + t.kpages;
    assert Writable(q) == Writes(q) + Temp(q.pc) + q.kpages;
    forall u, v | u in t.pt && v in t.pt && Counted(t, u) && Counted(t, v) && u != v ensures Backing(t, u) != Backing(t, v) {
      if u != q.pc.v { assert Counted(q, u) && Backing(q, u) in Mapped(q); }
      if v != q.pc.v { assert Counted(q, v) && Backing(q, v) in Mapped(q); }
    }
    assert Placed(t);
  }

  lemma MapView(mem: seq<Page>, q: Proc, w: bool, x: bool)
    requires |mem| == STOP && ProcOk(q) && q.pc.GrowMap? && q.pc.r < STOP && InRam(MappedIn(q, w, x))
    ensures q.pc.v !in View(mem, q)
    ensures View(mem[q.pc.r := ZeroPage()], MappedIn(q, w, x)) == SetPage(View(mem, q), q.pc.v, NewPage(w, x))
  {
    assert q.pc.r in Temp(q.pc);
    forall v | v in q.pt && Counted(q, v) ensures Backing(q, v) != q.pc.r { assert Backing(q, v) in Mapped(q); }
  }

  lemma StepMapPage(s: State, a: Eager, p: Pid, w: bool, x: bool) returns (b: Eager)
    requires Sim(s, a) && MayMapPage(s, p)
    ensures EagerNext(a, Extend(p, s.procs[p].pc.v, w, x), b) && Sim(AfterMapPage(s, p, w, x), b)
  {
    hide AllocInv, AllOk, ForksOk, ProcOk, FootOf, Writable, InRam;
    var q := s.procs[p];
    GetProc(s, p);
    GetAlloc(s);
    MapProc(q, w, x);
    Restrict(s.first, s.pgref, s.free, FeetOf(s.procs), p, FootOf(MappedIn(q, w, x)));
    OneProc(s, a, p, MappedIn(q, w, x), q.pc.r, ZeroPage(), s.pgref, s.free);
    MapView(s.mem, q, w, x);
    b := a[p := SetPage(a[p], q.pc.v, NewPage(w, x))];
  }

  // ---------------------------------------------------------------------------
  // The end of uvmunmap
  // ---------------------------------------------------------------------------

  lemma UnmapDoneMoves(q: Proc)
    requires ProcOk(q) && q.pc.Unmap? && q.pc.v >= q.pc.hi && q.pc.next.Resume?
    ensures Moves(q, q.(pc := User))
  {
  }

  lemma StepUnmapResume(s: State, a: Eager, p: Pid)
    requires Sim(s, a) && MayUnmapDone(s, p) && s.procs[p].pc.next.Resume?
    ensures Sim(AfterUnmapDone(s, p), a)
  {
    UnmapDoneMoves(s.procs[p]);
    MoveOn(s, a, p, s.procs[p].(pc := User));
  }

  lemma EndFoot(q: Proc)
    requires ProcOk(q) && q.pc.Unmap? && q.pc.v >= q.pc.hi && !q.pc.next.Resume?
    ensures q.pt == map[] && FootOf(q) == Foot({}, {}, {})
  {
    assert forall v :: v !in q.pt;
  }

  lemma EndProcs(s: State, a: Eager, p: Pid)
    requires Sim(s, a) && p in s.procs && Alone(s.procs[p].pc)
    ensures AllOk(s.mem, s.procs - {p}) && ForksOk(s.procs - {p})
    ensures Sees(s.mem, s.procs - {p}, a - {p})
  {
    hide ProcOk, Copied, View, InRam, Live, ForksOk;
    EndForks(s.procs, p);
  }

  lemma EndForks(procs: map<Pid, Proc>, p: Pid)
    requires ForksOk(procs) && p in procs && Alone(procs[p].pc)
    ensures ForksOk(procs - {p})
  {
    forall t | t in procs && t != p && procs[t].pc.Forking? ensures procs[t].pc.c != p {
      assert ForkPair(procs[t], procs[procs[t].pc.c], t);
    }
  }

  lemma EndInv(s: State, p: Pid)
    requires Inv(s) && p in s.procs && FootOf(s.procs[p]) == Foot({}, {}, {})
    ensures AllocInv(s.first, s.pgref, s.free, FeetOf(s.procs - {p}))
  {
    hide Inv, AllocInv, FootOf;
    GetProc(s, p);
    GetAlloc(s);
    Forget(s.first, s.pgref, s.free, FeetOf(s.procs), p);
    assert FeetOf(s.procs - {p}) == FeetOf(s.procs) - {p};
  }

  lemma StepUnmapEnd(s: State, a: Eager, p: Pid) returns (e: Event, b: Eager)
    requires Sim(s, a) && MayUnmapDone(s, p) && !s.procs[p].pc.next.Resume?
    ensures EagerNext(a, e, b) && Sim(AfterUnmapDone(s, p), b)
    ensures e == if s.procs[p].pc.next.Vanish? then End(p) else Silent
  {
    hide AllocInv, AllOk, ForksOk, ProcOk, FootOf;
    GetProc(s, p);
    EndFoot(s.procs[p]);
    EndInv(s, p);
    EndProcs(s, a, p);
    if s.procs[p].pc.next.Vanish? {
      assert a[p] == View(s.mem, s.procs[p]) == map[];
      e, b := End(p), a - {p};
    } else {
      assert a - {p} == a;
      e, b := Silent, a;
    }
  }

  // ---------------------------------------------------------------------------
  // fork
  // ---------------------------------------------------------------------------

  /** The child is new, or is the one the parent is building. */
  ghost predicate Pair(procs: map<Pid, Proc>, p: Pid, c: Pid) {
    && p in procs && p != c
    && (if c in procs then procs[p].pc == Forking(c) && procs[c].pc.Embryo? && procs[c].pc.parent == p else procs[p].pc.User?)
  }

  lemma ForksSet(procs: map<Pid, Proc>, p: Pid, c: Pid, parent: Proc, child: Proc)
    requires ForksOk(procs) && Pair(procs, p, c)
    requires (parent.pc == Forking(c) && ForkPair(parent, child, p)) || (Alone(parent.pc) && Alone(child.pc))
    ensures ForksOk(procs[p := parent][c := child])
  {
    var procs' := procs[p := parent][c := child];
    forall t | t in procs && t != p && t != c && procs[t].pc.Forking? ensures procs[t].pc.c != p && procs[t].pc.c != c {
      assert ForkPair(procs[t], procs[procs[t].pc.c], t);
    }
    forall t | t in procs && t != p && t != c && procs[t].pc.Embryo? ensures procs[t].pc.parent != p && procs[t].pc.parent != c {
    }
  }

  lemma PairSees(mem: seq<Page>, procs: map<Pid, Proc>, a: Eager, p: Pid, c: Pid, parent: Proc, child: Proc)
    requires |mem| == STOP && Sees(mem, procs, a) && Pair(procs, p, c)
    requires InRam(procs[p]) && InRam(parent) && InRam(child) && Live(parent) && View(mem, parent) == View(mem, procs[p])
    ensures p in a && c !in a
    ensures Sees(mem, procs[p := parent][c := child], if Live(child) then a[c := View(mem, child)] else a)
  {
    hide View, InRam;
  }

  ghost function SetBoth<T>(m: map<Pid, T>, p: Pid, x: T, c: Pid, y: T): map<Pid, T> { m[p := x][c := y] }

  /** A step of fork: pages change hands, nothing is written, and the parent sees what it saw. */
  lemma TwoProcs(s: State, a: Eager, p: Pid, c: Pid, parent: Proc, child: Proc, pgref: seq<nat>)
    requires Sim(s, a) && Pair(s.procs, p, c)
    requires (parent.pc == Forking(c) && ForkPair(parent, child, p)) || (Alone(parent.pc) && Alone(child.pc))
    requires ProcOk(parent) && ProcOk(child) && !parent.pc.CowFree? && !child.pc.CowFree?
    requires Live(parent) && SameEntries(s.procs[p], parent)
    requires AllocInv(s.first, pgref, s.free, SetBoth(FeetOf(s.procs), p, FootOf(parent), c, FootOf(child)))
    ensures c !in a
    ensures Sim(State(s.first, s.mem, pgref, s.free, SetBoth(s.procs, p, parent, c, child)),
                if Live(child) then a[c := View(s.mem, child)] else a)
  {
    hide AllocInv, ForksOk, Sees, ForkPair, Injective, PcOk, HasEntry, View, SameEntries, FootOf;
    var procs := s.procs[p := parent][c := child];
    GetProc(s, p);
    SameView(s.mem, s.procs[p], parent);
    ForksSet(s.procs, p, c, parent, child);
    PairSees(s.mem, s.procs, a, p, c, parent, child);
    FeetSet(s.procs, p, parent);
    FeetSet(s.procs[p := parent], c, child);
    assert AllOk(s.mem, procs);
  }

  // --- the start -------------------------------------------------------------

  function Newborn(p: Pid): Proc { Proc(map[], 0, {}, Embryo(p, 0, false)) }

  lemma NewbornOk(p: Pid)
    ensures ProcOk(Newborn(p)) && FootOf(Newborn(p)) == Foot({}, {}, {})
  {
  }

  lemma ForkStartProc(q: Proc, c: Pid)
    requires ProcOk(q) && q.pc.User?
    ensures var t := q.(pc := Forking(c));
      ProcOk(t) && SameEntries(q, t) && FootOf(t) == FootOf(q)
  {
    SameFoot(q, q.(pc := Forking(c)));
  }

  lemma StepForkStart(s: State, a: Eager, p: Pid, c: Pid)
    requires Sim(s, a) && MayForkStart(s, p, c)
    ensures Sim(AfterForkStart(s, p, c), a)
  {
    hide AllocInv, AllOk, ProcOk, FootOf, Sees;
    var parent := s.procs[p].(pc := Forking(c));
    GetProc(s, p);
    GetAlloc(s);
    ForkStartProc(s.procs[p], c);
    NewbornOk(p);
    assert FeetOf(s.procs)[p := FootOf(parent)] == FeetOf(s.procs);
    Restrict(s.first, s.pgref, s.free, FeetOf(s.procs), c, FootOf(Newborn(p)));
    TwoProcs(s, a, p, c, parent, Newborn(p), s.pgref);
  }

  // --- one page --------------------------------------------------------------

  /** The parent with its entry for page n made read-only and copy-on-write. */
  function Guarded(q: Proc, n: nat, pc: Pc): Proc {
    q.(pt := if n in q.pt then q.pt[n := Shared(q.pt[n])] else q.pt, pc := pc)
  }

  /** Write protection changes no page and no more than the right to write. */
  lemma GuardedEntries(q: Proc, n: nat, pc: Pc)
    requires PcOk(q) && q.pc.Forking? && n in q.pt && (pc == q.pc || pc.User?)
    ensures var t := Guarded(q, n, pc); SameEntries(q, t) && PcOk(t) && t.pt.Keys == q.pt.Keys
  {
  }

  lemma GuardedFoot(q: Proc, n: nat, pc: Pc)
    requires PcOk(q) && q.pc.Forking? && n in q.pt && (pc == q.pc || pc.User?)
    ensures var t := Guarded(q, n, pc);
      FootOf(t).held == FootOf(q).held && FootOf(t).loose == FootOf(q).loose && FootOf(t).writable <= FootOf(q).writable
  {
    var t := Guarded(q, n, pc);
    GuardedEntries(q, n, pc);
    SameMapped(q, t);
    FewerWrites(q, t);
    assert Writable(t) == Writes(t) + Temp(t.pc) + t.kpages;
    assert Writable(q) == Writes(q) + Temp(q.pc) + q.kpages;
  }

  lemma GuardedInjective(q: Proc, n: nat, pc: Pc)
    requires PcOk(q) && Injective(q) && q.pc.Forking? && n in q.pt && (pc == q.pc || pc.User?)
    ensures Injective(Guarded(q, n, pc))
  {
    var t := Guarded(q, n, pc);
    GuardedEntries(q, n, pc);
    SameMapped(q, t);
    forall u, v | u in t.pt && v in t.pt && Counted(t, u) && Counted(t, v) && u != v ensures Backing(t, u) != Backing(t, v) {
      assert Has(t, u) && Has(t, v) && Has(q, u) && Has(q, v);
    }
  }

  lemma GuardedPlaces(q: Proc, n: nat, pc: Pc)
    requires ProcOk(q) && q.pc.Forking? && n in q.pt && (pc == q.pc || pc.User?)
    ensures var t := Guarded(q, n, pc); InRam(t) && forall v: nat :: v in t.pt <==> HasEntry(t, v)
  {
    hide Injective;
    GuardedEntries(q, n, pc);
  }

  lemma GuardedProc(q: Proc, n: nat, pc: Pc)
    requires ProcOk(q) && q.pc.Forking? && n in q.pt && (pc == q.pc || pc.User?)
    ensures var t := Guarded(q, n, pc);
      && ProcOk(t) && SameEntries(q, t)
      && FootOf(t).held == FootOf(q).held && FootOf(t).loose == FootOf(q).loose && FootOf(t).writable <= FootOf(q).writable
  {
    hide PcOk, Injective, InRam, HasEntry, SameEntries, FootOf, Guarded;
    GuardedEntries(q, n, pc);
    GuardedFoot(q, n, pc);
    GuardedInjective(q, n, pc);
    GuardedPlaces(q, n, pc);
  }

  function Receiving(child: Proc, p: Pid, n: nat, e: Pte): Proc {
    child.(pt := child.pt[n := e], pc := Embryo(p, n, true))
  }

  lemma ReceivingProc(child: Proc, p: Pid, n: nat, e: Pte)
    requires ProcOk(child) && child.pc == Embryo(p, n, false) && e.pn < STOP
    ensures ProcOk(Receiving(child, p, n, e)) && FootOf(Receiving(child, p, n, e)) == FootOf(child)
  {
    SameFoot(child, Receiving(child, p, n, e));
  }

  lemma ForkMapPair(parent: Proc, child: Proc, p: Pid, c: Pid, n: nat)
    requires ProcOk(child) && ForkPair(parent, child, p) && child.pc == Embryo(p, n, false) && n < parent.np && n in parent.pt
    ensures ForkPair(Guarded(parent, n, parent.pc), Receiving(child, p, n, Shared(parent.pt[n])), p)
  {
  }

  lemma ForkMapInv(s: State, p: Pid, c: Pid, n: nat, parent: Proc, child: Proc)
    requires MayForkMap(s, p, c, n)
    requires parent == Guarded(s.procs[p], n, s.procs[p].pc) && child == Receiving(s.procs[c], p, n, Shared(s.procs[p].pt[n]))
    requires Inv(s)
    ensures
      && ProcOk(parent) && ProcOk(child) && SameEntries(s.procs[p], parent) && ForkPair(parent, child, p)
      && AllocInv(s.first, s.pgref, s.free, FeetOf(s.procs)[p := FootOf(parent)][c := FootOf(child)])
  {
    hide Inv, ProcOk, AllocInv, ForkPair, SameEntries, FootOf;
    var q, feet := s.procs[p], FeetOf(s.procs);
    GetProc(s, p);
    GetProc(s, c);
    GetAlloc(s);
    GetPair(s, p, c);
    GuardedProc(q, n, q.pc);
    ReceivingProc(s.procs[c], p, n, Shared(q.pt[n]));
    ForkMapPair(q, s.procs[c], p, c, n);
    Restrict(s.first, s.pgref, s.free, feet, p, FootOf(parent));
    var guarded: Feet := feet[p := FootOf(parent)];
    assert guarded[c := FootOf(child)] == guarded;
  }

  lemma StepForkMap(s: State, a: Eager, p: Pid, c: Pid, n: nat)
    requires Sim(s, a) && MayForkMap(s, p, c, n)
    ensures Sim(AfterForkMap(s, p, c, n), a)
  {
    hide Inv, AllocInv, ProcOk, SameEntries, Sees, FootOf, ForkPair;
    var parent, child := Guarded(s.procs[p], n, s.procs[p].pc), Receiving(s.procs[c], p, n, Shared(s.procs[p].pt[n]));
    ForkMapInv(s, p, c, n, parent, child);
    TwoProcs(s, a, p, c, parent, child, s.pgref);
  }

  // --- the count -------------------------------------------------------------

  function Received(child: Proc, p: Pid, n: nat): Proc { child.(pc := Embryo(p, n + 1, false)) }

  lemma ReceivedEntries(child: Proc, p: Pid, n: nat)
    requires ProcOk(child) && child.pc == Embryo(p, n, true) && n in child.pt && (forall v | v in child.pt :: !child.pt[v].w)
    ensures Mapped(Received(child, p, n)) == Mapped(child) + {child.pt[n].pn}
    ensures Writes(Received(child, p, n)) == Writes(child) == {}
  {
    var t := Received(child, p, n);
    assert Counted(t, n) && Backing(t, n) == child.pt[n].pn;
    forall x | x in Mapped(child) ensures x in Mapped(t) {
      var v :| v in child.pt && Counted(child, v) && x == Backing(child, v);
      assert v in t.pt && Counted(t, v) && x == Backing(t, v);
    }
    forall x | x in Mapped(t) ensures x in Mapped(child) + {child.pt[n].pn} {
      var v :| v in t.pt && Counted(t, v) && x == Backing(t, v);
      assert v != n ==> Counted(child, v) && x == Backing(child, v);
    }
  }

  /** The page is the parent's, the parent may not write it, and the child has it only once. */
  lemma SharedOnce(parent: Proc, child: Proc, p: Pid, n: nat)
    requires ProcOk(parent) && ProcOk(child) && ForkPair(parent, child, p)
    requires parent.pc.Forking? && child.pc == Embryo(p, n, true) && n in child.pt
    ensures var pn := child.pt[n].pn;
      pn in Held(parent) && pn !in Writable(parent) && pn !in Mapped(child)
  {
    var pn := child.pt[n].pn;
    assert Counted(parent, n) && Backing(parent, n) == pn && Backing(parent, n) in Mapped(parent);
    assert Writable(parent) == Writes(parent) + Temp(parent.pc) + parent.kpages;
    forall v | v in parent.pt && Counted(parent, v) && (Swapped(parent, v) || parent.pt[v].w) ensures Backing(parent, v) != pn {
      assert v != n;
    }
    forall v | v in child.pt && Counted(child, v) ensures Backing(child, v) != pn {
      assert v != n && Counted(parent, v) && Backing(parent, v) == Backing(child, v);
    }
  }

  lemma ReceivedInjective(parent: Proc, child: Proc, p: Pid, n: nat)
    requires ProcOk(parent) && ProcOk(child) && ForkPair(parent, child, p)
    requires parent.pc.Forking? && child.pc == Embryo(p, n, true) && n in child.pt
    ensures ProcOk(Received(child, p, n))
  {
    var t := Received(child, p, n);
    forall u, v | u in t.pt && v in t.pt && Counted(t, u) && Counted(t, v) && u != v ensures Backing(t, u) != Backing(t, v) {
      assert Counted(parent, u) && Counted(parent, v);
      assert Backing(parent, u) == Backing(t, u) && Backing(parent, v) == Backing(t, v);
    }
    assert Placed(t);
  }

  lemma ReceivedFoot(parent: Proc, child: Proc, p: Pid, n: nat)
    requires ProcOk(parent) && ProcOk(child) && ForkPair(parent, child, p)
    requires parent.pc.Forking? && child.pc == Embryo(p, n, true) && n in child.pt
    ensures var pn := child.pt[n].pn;
      && FootOf(Received(child, p, n)) == FootOf(child).(held := FootOf(child).held + {pn})
      && pn in FootOf(parent).held && pn !in FootOf(parent).writable && pn !in FootOf(child).held
  {
    SharedOnce(parent, child, p, n);
    ReceivedEntries(child, p, n);
  }

  lemma ForkRefInv(s: State, p: Pid, c: Pid, n: nat)
    requires Inv(s) && MayForkRef(s, p, c, n)
    ensures var child := Received(s.procs[c], p, n);
      && ProcOk(child) && ForkPair(s.procs[p], child, p)
      && AllocInv(s.first, AfterForkRef(s, p, c, n).pgref, s.free, FeetOf(s.procs)[c := FootOf(child)])
  {
    hide Inv, ProcOk, AllocInv, FootOf;
    var feet := FeetOf(s.procs);
    var child, pn := Received(s.procs[c], p, n), s.procs[c].pt[n].pn;
    GetProc(s, p);
    GetProc(s, c);
    GetAlloc(s);
    GetPair(s, p, c);
    ReceivedInjective(s.procs[p], s.procs[c], p, n);
    ReceivedFoot(s.procs[p], s.procs[c], p, n);
    Share(s.first, s.pgref, s.free, feet, p, c, pn, feet[c := FootOf(child)]);
  }

  lemma StepForkRef(s: State, a: Eager, p: Pid, c: Pid, n: nat)
    requires Sim(s, a) && MayForkRef(s, p, c, n)
    ensures Sim(AfterForkRef(s, p, c, n), a)
  {
    hide AllocInv, AllOk, ProcOk, FootOf, ForkPair, Sees;
    ForkRefInv(s, p, c, n);
    GetProc(s, p);
    assert s.procs[p := s.procs[p]] == s.procs;
    assert FeetOf(s.procs)[p := FootOf(s.procs[p])] == FeetOf(s.procs);
    TwoProcs(s, a, p, c, s.procs[p], Received(s.procs[c], p, n), AfterForkRef(s, p, c, n).pgref);
  }

  // --- success and failure ---------------------------------------------------

  lemma BornProc(parent: Proc, child: Proc, p: Pid)
    requires ProcOk(parent) && ProcOk(child) && ForkPair(parent, child, p) && child.pc == Embryo(p, parent.np, false) && parent.pc.Forking?
    ensures var t := child.(np := parent.np, pc := User);
      ProcOk(t) && InRam(t) && FootOf(t) == FootOf(child) && SameEntries(parent, t)
  {
    var t := child.(np := parent.np, pc := User);
    SameFoot(child, t);
    assert Placed(t);
  }

  lemma ForkEndProc(q: Proc)
    requires ProcOk(q) && q.pc.Forking?
    ensures var t := q.(pc := User);
      ProcOk(t) && SameEntries(q, t) && FootOf(t) == FootOf(q)
  {
    SameFoot(q, q.(pc := User));
  }

  lemma StepForkDone(s: State, a: Eager, p: Pid, c: Pid) returns (b: Eager)
    requires Sim(s, a) && MayForkDone(s, p, c)
    ensures EagerNext(a, Duplicate(p, c), b) && Sim(AfterForkDone(s, p, c), b)
  {
    hide AllocInv, AllOk, ProcOk, FootOf, ForkPair, InRam;
    var parent, child := s.procs[p].(pc := User), s.procs[c].(np := s.procs[p].np, pc := User);
    GetProc(s, p);
    GetProc(s, c);
    GetAlloc(s);
    GetPair(s, p, c);
    BornProc(s.procs[p], s.procs[c], p);
    ForkEndProc(s.procs[p]);
    assert FeetOf(s.procs)[p := FootOf(parent)][c := FootOf(child)] == FeetOf(s.procs);
    TwoProcs(s, a, p, c, parent, child, s.pgref);
    SameView(s.mem, s.procs[p], child);
    b := a[c := a[p]];
  }

  lemma UndoneProc(child: Proc, p: Pid, n: nat)
    requires ProcOk(child) && child.pc == Embryo(p, n, false)
    ensures var t := child.(pc := Unmap(0, n, Abandon));
      ProcOk(t) && FootOf(t) == FootOf(child)
  {
    SameFoot(child, child.(pc := Unmap(0, n, Abandon)));
  }

  lemma ForkFailInv(s: State, p: Pid, c: Pid, n: nat, parent: Proc, child: Proc)
    requires MayForkFail(s, p, c, n) && parent == Guarded(s.procs[p], n, User) && child == s.procs[c].(pc := Unmap(0, n, Abandon))
    requires Inv(s)
    ensures
      && ProcOk(parent) && ProcOk(child) && SameEntries(s.procs[p], parent)
      && AllocInv(s.first, s.pgref, s.free, FeetOf(s.procs)[p := FootOf(parent)][c := FootOf(child)])
  {
    hide Inv, ProcOk, AllocInv, ForkPair, SameEntries, FootOf;
    var q, feet := s.procs[p], FeetOf(s.procs);
    GetProc(s, p);
    GetProc(s, c);
    GetAlloc(s);
    GuardedProc(q, n, User);
    UndoneProc(s.procs[c], p, n);
    Restrict(s.first, s.pgref, s.free, feet, p, FootOf(parent));
    var guarded: Feet := feet[p := FootOf(parent)];
    assert guarded[c := FootOf(child)] == guarded;
  }

  lemma StepForkFail(s: State, a: Eager, p: Pid, c: Pid, n: nat)
    requires Sim(s, a) && MayForkFail(s, p, c, n)
    ensures Sim(AfterForkFail(s, p, c, n), a)
  {
    hide Inv, AllocInv, ProcOk, SameEntries, Sees, FootOf;
    var parent, child := Guarded(s.procs[p], n, User), s.procs[c].(pc := Unmap(0, n, Abandon));
    ForkFailInv(s, p, c, n, parent, child);
    TwoProcs(s, a, p, c, parent, child, s.pgref);
  }
}
