/** What copy-on-write memory promises over every run. */
module CowTheorems {
  import opened Counting
  import opened Runs
  import opened CowMemory
  import opened PageRefs
  import opened CowProof
  import opened CowSteps
  import opened CowFork

  // ---------------------------------------------------------------------------
  // Refinement of eager copying
  // ---------------------------------------------------------------------------

  lemma StepDrop(s: State, a: Eager, p: Pid, pn: nat) returns (b: Eager)
    requires Sim(s, a) && MayDrop(s, p, pn)
    ensures EagerNext(a, Meaning(s, Drop(p, pn)), b) && Sim(AfterDrop(s, p, pn), b)
  {
    hide Inv, Sees;
    match s.procs[p].pc
    case CowFree(_, _) => StepDropCow(s, a, p, pn); b := a;
    case GrowUndo(_, _) => StepDropUndo(s, a, p, pn); b := a;
    case Unmap(_, _, _) => var e; e, b := StepDropUnmap(s, a, p, pn);
  }

  lemma StepUnmapDone(s: State, a: Eager, p: Pid) returns (b: Eager)
    requires Sim(s, a) && MayUnmapDone(s, p)
    ensures EagerNext(a, Meaning(s, UnmapDone(p)), b) && Sim(AfterUnmapDone(s, p), b)
  {
    hide Inv, Sees;
    if s.procs[p].pc.next.Resume? {
      StepUnmapResume(s, a, p);
      b := a;
    } else {
      var e;
      e, b := StepUnmapEnd(s, a, p);
    }
  }

  /** Steps after which every process sees exactly what it saw. */
  lemma SilentStep(s: State, a: Eager, st: Step, t: State)
    requires Sim(s, a) && Next(s, st, t)
    requires !st.Store? && !st.ForkDone? && !st.MapPage? && !st.Drop? && !st.UnmapDone?
    ensures Sim(t, a)
  {
    hide Sim;
    match st
    case Fault(p, v) => StepFault(s, a, p, v);
    case Copy(p) => StepCopy(s, a, p);
    case SetPte(p) => StepSetPte(s, a, p);
    case Pop(p) => StepPop(s, a, p);
    case RunOut(p) => StepRunOut(s, a, p);
    case Init(p) => StepInit(s, a, p);
    case Push(p) => StepPush(s, a, p);
    case KernAlloc(p) => StepKernAlloc(s, a, p);
    case KernFree(p, pn) => StepKernFree(s, a, p, pn);
    case ForkStart(p, c) => StepForkStart(s, a, p, c);
    case ForkMap(p, c, n) => StepForkMap(s, a, p, c, n);
    case ForkRef(p, c, n) => StepForkRef(s, a, p, c, n);
    case ForkFail(p, c, n) => StepForkFail(s, a, p, c, n);
    case Grow(p, hi) => StepGrow(s, a, p, hi);
    case MapFail(p) => StepMapFail(s, a, p);
    case GrowDone(p) => StepGrowDone(s, a, p);
    case Shrink(p, lo, next) => StepShrink(s, a, p, lo, next);
    case Clear(p) => StepClear(s, a, p);
  }

  /** Every step is its event of the eager machine. */
  lemma NextSimulated(s: State, a: Eager, st: Step, t: State) returns (b: Eager)
    requires Sim(s, a) && Next(s, st, t)
    ensures EagerNext(a, Meaning(s, st), b) && Sim(t, b)
  {
    hide Sim;
    match st
    case Store(p, v, data) => b := StepStore(s, a, p, v, data);
    case ForkDone(p, c) => b := StepForkDone(s, a, p, c);
    case MapPage(p, w, x) => b := StepMapPage(s, a, p, w, x);
    case Drop(p, pn) => b := StepDrop(s, a, p, pn);
    case UnmapDone(p) => b := StepUnmapDone(s, a, p);
    case _ => SilentStep(s, a, st, t); b := a;
  }

  /** The machine and the eager machine side by side. */
  ghost predicate Joint(x: (State, Eager), st: Step, y: (State, Eager)) {
    Next(x.0, st, y.0) && EagerNext(x.1, Meaning(x.0, st), y.1)
  }

  /** After kinit: all pages from `first` on are free. Process 0 stands for the kernel's own
      use of pages, process 1 for the first user process, which has no memory yet. */
  ghost predicate Booted(s: State) {
    && RAM_START <= s.first <= STOP && |s.mem| == |s.pgref| == STOP
    && (forall k | 0 <= k < STOP :: s.pgref[k] == 0)
    && Distinct(s.free) && (forall k | 0 <= k < |s.free| :: InRange(s.first, s.free[k]))
    && (forall pn: nat | InRange(s.first, pn) :: pn in s.free)
    && s.procs == map[0 := Proc(map[], 0, {}, User), 1 := Proc(map[], 0, {}, User)]
  }

  function EagerBoot(): Eager { map[0 := map[], 1 := map[]] }

  lemma BootFeet(s: State)
    requires Booted(s)
    ensures AllocInv(s.first, s.pgref, s.free, FeetOf(s.procs))
  {
    var feet := FeetOf(s.procs);
    var q := Proc(map[], 0, {}, User);
    assert FootOf(q) == Foot({}, {}, {});
    forall k ensures Holders(feet, k) == {} { }
    forall pn: nat | InRange(s.first, pn) ensures Found(s.pgref, s.free, feet, pn) { }
  }

  lemma NoMemory(mem: seq<Page>)
    requires |mem| == STOP
    ensures var q := Proc(map[], 0, {}, User);
      ProcOk(q) && InRam(q) && Copied(mem, q) && View(mem, q) == map[]
  {
  }

  lemma BootSim(s: State)
    requires Booted(s)
    ensures Sim(s, EagerBoot())
  {
    hide AllocInv, ProcOk, InRam, Copied, View;
    BootFeet(s);
    NoMemory(s.mem);
  }

  /** Over every run, each process sees the bytes it would see if fork duplicated every page: the
      eager machine, taking the event of each step in turn, is in step with this one. */
  lemma RefinesEagerCopy(s: State, steps: seq<Step>, t: State) returns (b: Eager)
    requires Booted(s) && Run(Next, s, steps, t)
    ensures Run(Joint, (s, EagerBoot()), steps, (t, b)) && Sim(t, b)
  {
    hide Sim, Next, Booted, Joint;
    BootSim(s);
    forall m, e, n, c | Sim(m, c) && Next(m, e, n) ensures exists d :: Joint((m, c), e, (n, d)) && Sim(n, d) {
      var d := NextSimulated(m, c, e, n);
      Jointly(m, c, e, n, d);
    }
    b := RunSimulated(Next, Joint, Sim, s, EagerBoot(), steps, t);
  }

  lemma Jointly(m: State, c: Eager, st: Step, n: State, d: Eager)
    requires Next(m, st, n) && EagerNext(c, Meaning(m, st), d)
    ensures Joint((m, c), st, (n, d))
  {
  }

  lemma UserView(s: State, a: Eager, p: Pid, v: nat)
    requires Sim(s, a) && p in s.procs && s.procs[p].pc.User?
    ensures p in a && (v in a[p] <==> v < s.procs[p].np) && (v in a[p] <==> v in s.procs[p].pt)
    ensures v in a[p] ==> s.procs[p].pt[v].pn < |s.mem| && a[p][v] == UserPage(s.mem[s.procs[p].pt[v].pn], RightsOf(s.procs[p].pt[v]))
  {
    hide AllocInv, ForksOk;
    GetProc(s, p);
    assert v in s.procs[p].pt ==> Backing(s.procs[p], v) == s.procs[p].pt[v].pn;
  }

  /** e maps a page with these bytes, and lets its user do what the eager machine does: the entry
      is writable or copy-on-write exactly where a write is allowed. */
  ghost predicate Stands(e: Pte, mem: seq<Page>, page: UserPage) {
    && e.pn < |mem| && mem[e.pn] == page.data
    && (e.w || e.cow <==> page.rights.write) && e.x == page.rights.execute && e.u == page.rights.user
  }

  /** In every run, a process that is not inside the kernel's memory code finds through its
      page table exactly the pages, with exactly the bytes and rights, of the eager machine. */
  lemma SeesItsMemory(s: State, events: seq<Step>, t: State, p: Pid) returns (b: Eager)
    requires Booted(s) && Run(Next, s, events, t) && p in t.procs && t.procs[p].pc.User?
    ensures Run(Joint, (s, EagerBoot()), events, (t, b)) && p in b
    ensures forall v: nat :: (v in b[p] <==> v < t.procs[p].np) && (v in b[p] <==> v in t.procs[p].pt)
    ensures forall v: nat | v in b[p] :: Stands(t.procs[p].pt[v], t.mem, b[p][v])
  {
    hide Sim, Next, Booted, Joint;
    b := RefinesEagerCopy(s, events, t);
    UserView(t, b, p, 0);
    forall v: nat
      ensures (v in b[p] <==> v < t.procs[p].np) && (v in b[p] <==> v in t.procs[p].pt)
      ensures v in b[p] ==> Stands(t.procs[p].pt[v], t.mem, b[p][v])
    {
      UserView(t, b, p, v);
    }
  }

  /** In every run, a store by a user process that the eager machine allows either goes through
      or enters CowHandler, never both, and no other store does either. */
  lemma WritesAreServed(s: State, events: seq<Step>, t: State, p: Pid, v: nat) returns (b: Eager)
    requires Booted(s) && Run(Next, s, events, t) && p in t.procs && t.procs[p].pc.User?
    ensures Run(Joint, (s, EagerBoot()), events, (t, b)) && p in b
    ensures v in b[p] && b[p][v].rights.write && b[p][v].rights.user <==> MayStore(t, p, v) || MayFault(t, p, v)
    ensures !(MayStore(t, p, v) && MayFault(t, p, v))
  {
    hide Sim, Next, Booted, Joint, TableOk;
    b := SeesItsMemory(s, events, t, p);
    ReachableInv(s, events, t);
    ReachableTable(s, events, t);
    TableFlags(t.procs, p);
    if v in t.procs[p].pt { IndexInRam(t, p, v); }
  }

  lemma TableFlags(procs: map<Pid, Proc>, p: Pid)
    requires TableOk(procs) && p in procs
    ensures FlagsOk(procs[p])
  {
  }

  lemma IndexInRam(t: State, p: Pid, v: nat)
    requires Inv(t) && p in t.procs && v in t.procs[p].pt
    ensures |t.mem| == |t.pgref| == STOP && t.procs[p].pt[v].pn < STOP && CowIndex(t.procs[p].pt[v]) < STOP
  {
    hide AllocInv, ForksOk;
    GetAlloc(t);
    GetProc(t, p);
  }

  lemma ReachableInv(s: State, events: seq<Step>, t: State)
    requires Booted(s) && Run(Next, s, events, t)
    ensures Inv(t)
  {
    hide Inv, Sees, Booted, Next;
    var b := RefinesEagerCopy(s, events, t);
  }

  // ---------------------------------------------------------------------------
  // Exact counts
  // ---------------------------------------------------------------------------

  /** A reference to a page: a user page of a process, or the kernel on its behalf. */
  datatype Owner = Leaf(p: Pid, v: nat) | InKernel(p: Pid)

  ghost predicate Owns(procs: map<Pid, Proc>, o: Owner, pn: nat) {
    && o.p in procs
    && match o
       case Leaf(p, v) => v in procs[p].pt && Counted(procs[p], v) && Backing(procs[p], v) == pn
       case InKernel(p) => pn in Temp(procs[p].pc) || pn in procs[p].kpages
  }

  ghost predicate AllOwners(procs: map<Pid, Proc>, owners: set<Owner>, pn: nat) {
    forall o :: o in owners <==> Owns(procs, o, pn)
  }

  /** The owner through which a holder holds a page. */
  ghost function OwnerIn(procs: map<Pid, Proc>, p: Pid, pn: nat): Owner
    requires p in procs
  {
    if pn in Mapped(procs[p]) then
      var v :| v in procs[p].pt && Counted(procs[p], v) && pn == Backing(procs[p], v);
      Leaf(p, v)
    else InKernel(p)
  }

  lemma OnlyOwner(procs: map<Pid, Proc>, o: Owner, pn: nat)
    requires o.p in procs && ProcOk(procs[o.p])
    ensures Owns(procs, o, pn) <==> pn in Held(procs[o.p]) && o == OwnerIn(procs, o.p, pn)
  {
    var q := procs[o.p];
    if o.Leaf? && Owns(procs, o, pn) { assert pn in Mapped(q); }
  }

  lemma OwnersOf(procs: map<Pid, Proc>, pn: nat) returns (owners: set<Owner>)
    requires forall p | p in procs :: ProcOk(procs[p])
    ensures AllOwners(procs, owners, pn) && |owners| == |Holders(FeetOf(procs), pn)|
  {
    hide ProcOk, Owns, Held, OwnerIn;
    var h := Holders(FeetOf(procs), pn);
    owners := OwnersFrom(procs, pn, h);
    forall o ensures o in owners <==> Owns(procs, o, pn) {
      if o.p in procs { OnlyOwner(procs, o, pn); }
      NeedsProc(procs, o, pn);
    }
  }

  lemma NeedsProc(procs: map<Pid, Proc>, o: Owner, pn: nat)
    ensures Owns(procs, o, pn) ==> o.p in procs
  {
  }

  /** One owner for each of the holders in h. */
  lemma {:induction false} OwnersFrom(procs: map<Pid, Proc>, pn: nat, h: set<Pid>) returns (owners: set<Owner>)
    requires h <= procs.Keys
    ensures |owners| == |h|
    ensures forall o :: o in owners <==> o.p in h && o == OwnerIn(procs, o.p, pn)
    decreases |h|
  {
    if h == {} {
      owners := {};
    } else {
      var p :| p in h;
      var rest := OwnersFrom(procs, pn, h - {p});
      owners := rest + {OwnerIn(procs, p, pn)};
    }
  }

  /** In every reachable state the count of each page is its number of owners. */
  lemma CountsAreExact(s: State, events: seq<Step>, t: State, pn: nat) returns (owners: set<Owner>)
    requires Booted(s) && Run(Next, s, events, t) && t.first <= pn < STOP
    ensures AllOwners(t.procs, owners, pn)
    ensures pn < |t.pgref| && t.pgref[pn] == |owners|
  {
    hide Booted, Next, AllOwners, ProcOk, Copied;
    ReachableInv(s, events, t);
    GetAlloc(t);
    owners := OwnersOf(t.procs, pn);
  }

  /** The free list is exactly the pages without an owner that nobody has in hand, each once. */
  lemma FreeListIsExact(s: State, events: seq<Step>, t: State, pn: nat)
    requires Booted(s) && Run(Next, s, events, t) && t.first <= pn < STOP
    ensures Distinct(t.free) && |t.pgref| == STOP
    ensures pn in t.free <==> t.pgref[pn] == 0 && forall p | p in t.procs :: pn !in Loose(t.procs[p].pc)
  {
    hide Booted, Next, Inv, AllocInv;
    ReachableInv(s, events, t);
    GetAlloc(t);
    var feet := FeetOf(t.procs);
    FreeIff(t.first, t.pgref, t.free, feet, pn);
    AllocDistinct(t.first, t.pgref, t.free, feet);
    forall p | p in t.procs ensures FeetOf(t.procs)[p].loose == Loose(t.procs[p].pc) { }
  }

  lemma AllocDistinct(first: nat, pgref: seq<nat>, free: seq<nat>, feet: Feet)
    requires AllocInv(first, pgref, free, feet)
    ensures Distinct(free)
  {
  }

  /** No entry is both writable and copy-on-write. */
  ghost predicate FlagsOk(q: Proc) {
    forall v | v in q.pt :: !(q.pt[v].w && q.pt[v].cow)
  }

  /** The process table has no more than its NPROC slots in use. */
  ghost predicate TableOk(procs: map<Pid, Proc>) { |procs| <= NPROC + 1 && forall p | p in procs :: FlagsOk(procs[p]) }

  lemma SetOk(procs: map<Pid, Proc>, p: Pid, q: Proc)
    requires TableOk(procs) && FlagsOk(q) && (p in procs || |procs| <= NPROC)
    ensures TableOk(procs[p := q])
  {
    assert procs[p := q].Keys == procs.Keys + {p};
  }

  lemma RemoveOk(procs: map<Pid, Proc>, p: Pid)
    requires TableOk(procs)
    ensures TableOk(procs - {p})
  {
    assert (procs - {p}).Keys == procs.Keys - {p};
    SubsetCount(procs.Keys - {p}, procs.Keys);
  }

  /** Steps of CowHandler, kalloc and kfree. */
  lemma PageFlags(s: State, st: Step, t: State)
    requires Next(s, st, t) && st.p in s.procs && FlagsOk(s.procs[st.p])
    requires st.Fault? || st.Copy? || st.SetPte? || st.Pop? || st.RunOut? || st.Init? || st.Drop? || st.Push? || st.KernAlloc? || st.KernFree?
    ensures st.p in t.procs && t.procs == s.procs[st.p := t.procs[st.p]] && FlagsOk(t.procs[st.p])
  {
  }

  /** Steps of sbrk and exit. */
  lemma SizeFlags(s: State, st: Step, t: State)
    requires Next(s, st, t) && st.p in s.procs && FlagsOk(s.procs[st.p])
    requires st.Grow? || st.MapPage? || st.MapFail? || st.GrowDone? || st.Shrink? || st.Clear?
    ensures st.p in t.procs && t.procs == s.procs[st.p := t.procs[st.p]] && FlagsOk(t.procs[st.p])
  {
  }

  /** Steps of fork, which change a parent and a child. */
  ghost predicate BothSet(s: State, p: Pid, c: Pid, t: State) {
    && p in t.procs && c in t.procs && t.procs == s.procs[p := t.procs[p]][c := t.procs[c]]
    && FlagsOk(t.procs[p]) && FlagsOk(t.procs[c]) && (c in s.procs || |s.procs| <= NPROC)
  }

  lemma ForkPageFlags(s: State, st: Step, t: State)
    requires st.ForkMap? || st.ForkFail?
    requires Next(s, st, t) && st.p in s.procs && FlagsOk(s.procs[st.p]) && (st.c in s.procs ==> FlagsOk(s.procs[st.c]))
    ensures BothSet(s, st.p, st.c, t)
  {
  }

  lemma ForkFlags(s: State, st: Step, t: State)
    requires st.ForkStart? || st.ForkMap? || st.ForkRef? || st.ForkDone? || st.ForkFail?
    requires Next(s, st, t) && st.p in s.procs && FlagsOk(s.procs[st.p]) && (st.c in s.procs ==> FlagsOk(s.procs[st.c]))
    ensures BothSet(s, st.p, st.c, t)
  {
    if st.ForkMap? || st.ForkFail? { ForkPageFlags(s, st, t); }
  }

  lemma TableKept(s: State, st: Step, t: State)
    requires TableOk(s.procs) && Next(s, st, t)
    ensures TableOk(t.procs)
  {
    hide FlagsOk, Next;
    Actor(s, st, t);
    if st.ForkStart? || st.ForkMap? || st.ForkRef? || st.ForkDone? || st.ForkFail? {
      ForkFlags(s, st, t);
      SetOk(s.procs, st.p, t.procs[st.p]);
      assert s.procs[st.p := t.procs[st.p]].Keys == s.procs.Keys;
      SetOk(s.procs[st.p := t.procs[st.p]], st.c, t.procs[st.c]);
    } else if st.Grow? || st.MapPage? || st.MapFail? || st.GrowDone? || st.Shrink? || st.Clear? {
      SizeFlags(s, st, t);
      SetOk(s.procs, st.p, t.procs[st.p]);
    } else if st.UnmapDone? {
      EndFlags(s, st, t);
    } else if !st.Store? {
      PageFlags(s, st, t);
      SetOk(s.procs, st.p, t.procs[st.p]);
    }
  }

  lemma Actor(s: State, st: Step, t: State)
    requires Next(s, st, t)
    ensures st.p in s.procs && (st.Store? ==> t.procs == s.procs)
  {
  }

  lemma EndFlags(s: State, st: Step, t: State)
    requires TableOk(s.procs) && Next(s, st, t) && st.UnmapDone?
    ensures TableOk(t.procs)
  {
    if s.procs[st.p].pc.next.Resume? {
      SetOk(s.procs, st.p, s.procs[st.p].(pc := User));
    } else {
      RemoveOk(s.procs, st.p);
    }
  }

  lemma ReachableTable(s: State, events: seq<Step>, t: State)
    requires Booted(s) && Run(Next, s, events, t)
    ensures TableOk(t.procs)
  {
    hide Next, TableOk;
    BootTable(s);
    forall m: State, e, n | TableOk(m.procs) && Next(m, e, n) ensures TableOk(n.procs) { TableKept(m, e, n); }
    RunKeeps(Next, (m: State) => TableOk(m.procs), s, events, t);
  }

  lemma BootTable(s: State)
    requires Booted(s)
    ensures TableOk(s.procs)
  {
    var q := Proc(map[], 0, {}, User);
    SetOk(map[], 0, q);
    SetOk(map[0 := q], 1, q);
  }

  /** A page that is mapped writable has that mapping as its only owner, wherever its process is in
      fork, sbrk, the fault handler or exit. The one entry left out is that of uvmunmap between
      kfree and the clear: it names a page that is no longer its process's. */
  lemma WritableIsNotShared(s: State, events: seq<Step>, t: State, p: Pid, v: nat)
    requires Booted(s) && Run(Next, s, events, t)
    requires p in t.procs && v in t.procs[p].pt && t.procs[p].pt[v].w && Counted(t.procs[p], v)
    ensures t.procs[p].pt[v].pn < |t.pgref| && t.pgref[t.procs[p].pt[v].pn] == 1
    ensures forall o :: Owns(t.procs, o, t.procs[p].pt[v].pn) <==> o == Leaf(p, v)
  {
    hide Booted, Next, Inv, AllocInv, ProcOk, Copied, AllOwners, Owns;
    var pn, feet, q := t.procs[p].pt[v].pn, FeetOf(t.procs), t.procs[p];
    ReachableInv(s, events, t);
    ReachableTable(s, events, t);
    GetProc(t, p);
    GetAlloc(t);
    NotSwapped(q, v);
    assert pn in feet[p].writable by { assert Counted(q, v) && Backing(q, v) == pn; }
    SoleHolder(t.first, t.pgref, t.free, feet, p, pn);
    OnlyThisOwner(s, events, t, p, v);
  }

  lemma NotSwapped(q: Proc, v: nat)
    requires ProcOk(q) && FlagsOk(q) && v in q.pt && q.pt[v].w
    ensures !Swapped(q, v)
  {
    hide Injective, InRam, HasEntry;
  }

  lemma OnlyThisOwner(s: State, events: seq<Step>, t: State, p: Pid, v: nat)
    requires Booted(s) && Run(Next, s, events, t)
    requires p in t.procs && v in t.procs[p].pt && Counted(t.procs[p], v) && !Swapped(t.procs[p], v)
    requires t.procs[p].pt[v].pn < |t.pgref| && t.pgref[t.procs[p].pt[v].pn] == 1
    ensures forall o :: Owns(t.procs, o, t.procs[p].pt[v].pn) <==> o == Leaf(p, v)
  {
    hide Booted, Next, Inv;
    var pn := t.procs[p].pt[v].pn;
    ReachableInv(s, events, t);
    InAllocRange(t, p, v);
    var owners := CountsAreExact(s, events, t, pn);
    assert Leaf(p, v) in owners;
    OnlyOne(owners, Leaf(p, v));
  }

  lemma InAllocRange(t: State, p: Pid, v: nat)
    requires Inv(t) && p in t.procs && v in t.procs[p].pt && Counted(t.procs[p], v) && !Swapped(t.procs[p], v)
    ensures t.first <= t.procs[p].pt[v].pn < STOP
  {
    GetAlloc(t);
    var pn := t.procs[p].pt[v].pn;
    assert pn in Mapped(t.procs[p]) by { assert Backing(t.procs[p], v) == pn; }
    assert pn in FeetOf(t.procs)[p].held;
  }

  lemma OnlyOne<T>(s: set<T>, x: T)
    requires |s| == 1 && x in s
    ensures s == {x}
  {
    SubsetCount({x}, s);
    assert |s - {x}| == 0;
  }

  /** No count exceeds the number of processes and the kernel, so the 32-bit counters never wrap. */
  lemma CountsAreBounded(s: State, events: seq<Step>, t: State, pn: nat)
    requires Booted(s) && Run(Next, s, events, t) && pn < STOP
    ensures pn < |t.pgref| && t.pgref[pn] <= |t.procs| <= NPROC + 1 < 0x1_0000_0000
  {
    hide Booted, Next, ProcOk, AllOk, ForksOk, FlagsOk;
    ReachableInv(s, events, t);
    ReachableTable(s, events, t);
    GetAlloc(t);
    SubsetCount(Holders(FeetOf(t.procs), pn), t.procs.Keys);
  }

  /** The handler's test for a single owner never succeeds: it reads another page's count. */
  lemma HandlerAlwaysCopies(s: State, events: seq<Step>, t: State, p: Pid, v: nat)
    requires Booted(s) && Run(Next, s, events, t) && MayFault(t, p, v)
    ensures AfterFault(t, p, v) == SetProc(t, p, t.procs[p].(pc := CowAlloc(v)))
  {
    hide Booted, Next, Inv;
    ReachableInv(s, events, t);
    FaultReadsZero(t, p, v);
  }

  /** When no process has pages, all of memory is free again. */
  lemma NothingLeaks(s: State, events: seq<Step>, t: State, pn: nat)
    requires Booted(s) && Run(Next, s, events, t) && t.first <= pn < STOP
    requires forall p | p in t.procs :: t.procs[p].pc.User? && t.procs[p].np == 0 && t.procs[p].kpages == {}
    ensures pn in t.free
  {
    hide Booted, Next, AllocInv, ForksOk;
    ReachableInv(s, events, t);
    FreeListIsExact(s, events, t, pn);
    var owners := CountsAreExact(s, events, t, pn);
    forall o ensures !Owns(t.procs, o, pn) {
      if o.p in t.procs {
        GetProc(t, o.p);
        assert o.Leaf? ==> o.v !in t.procs[o.p].pt;
      }
    }
    assert forall o :: o !in owners;
  }
}
