/** The memory code of kernel/kalloc.c, kernel/vm.c and CowHandler as methods that change
    the page counts, the free list, physical memory and the page tables in place. Every
    method is made of the steps of CowMemory, and `spec`, the memory that each process
    would have if nothing were shared, says what the method means to its users. */
module CowCode {
  import opened Counting
  import opened CowMemory
  import opened PageRefs
  import opened CowProof
  import opened CowSteps
  import opened CowFork
  import opened CowTheorems
  import opened Runs

  /** What kfree means for the process that calls it: uvmunmap takes a page of its user away. */
  ghost function Without(a: Eager, p: Pid, q: Proc): Eager {
    if p in a && q.pc.Unmap? && Live(q) then a[p := a[p] - {q.pc.v}] else a
  }

  lemma DropMeans(s: State, a: Eager, p: Pid, pn: nat)
    requires Sim(s, a) && MayDrop(s, p, pn)
    ensures Sim(AfterDrop(s, p, pn), Without(a, p, s.procs[p]))
    ensures EagerNext(a, Meaning(s, Drop(p, pn)), Without(a, p, s.procs[p]))
  {
    hide Inv;
    match s.procs[p].pc
    case CowFree(_, _) => StepDropCow(s, a, p, pn);
    case GrowUndo(_, _) => StepDropUndo(s, a, p, pn);
    case Unmap(_, _, _) => var e, b := StepDropUnmap(s, a, p, pn);
  }

  lemma SimInv(s: State, a: Eager)
    requires Sim(s, a)
    ensures Inv(s)
  {
    hide Inv, Sees;
  }

  /** The pages named by a process are pages of RAM. */
  lemma PagesInRam(s: State, p: Pid, v: nat)
    requires Inv(s) && p in s.procs
    ensures |s.mem| == |s.pgref| == STOP && (v in s.procs[p].pt ==> s.procs[p].pt[v].pn < STOP && CowIndex(s.procs[p].pt[v]) < STOP)
    ensures forall r | r in Loose(s.procs[p].pc) || r in Temp(s.procs[p].pc) :: r < STOP
  {
    hide AllocInv, ForksOk;
    GetAlloc(s);
    GetProc(s, p);
  }

  /** v is what the steps, from a boot, lead to, and a what the eager machine makes of them. */
  ghost predicate Reached(origin: State, steps: seq<Step>, v: State, a: Eager) {
    Booted(origin) && Run(Joint, (origin, EagerBoot()), steps, (v, a))
  }

  lemma Advance(origin: State, steps: seq<Step>, s: State, a: Eager, st: Step, t: State, b: Eager)
    requires Reached(origin, steps, s, a) && Next(s, st, t) && EagerNext(a, Meaning(s, st), b)
    ensures Reached(origin, steps + [st], t, b)
  {
    hide Next, EagerNext, Meaning, Booted;
    RunExtends(Joint, (origin, EagerBoot()), steps, (s, a), st, (t, b));
  }

  lemma Silently(origin: State, steps: seq<Step>, s: State, a: Eager, st: Step, t: State)
    requires Reached(origin, steps, s, a) && Next(s, st, t) && Meaning(s, st) == Silent
    ensures Reached(origin, steps + [st], t, a)
  {
    hide Next, Meaning, Reached;
    Advance(origin, steps, s, a, st, t, a);
  }

  lemma {:induction false} ReachedIsRun(origin: State, steps: seq<Step>, v: State, a: Eager)
    requires Reached(origin, steps, v, a)
    ensures Booted(origin) && Run(Next, origin, steps, v)
    decreases |steps|
  {
    hide Next, Booted, EagerNext, Meaning;
    if steps != [] {
      var x :| Run(Joint, (origin, EagerBoot()), Front(steps), x) && Joint(x, Last(steps), (v, a));
      ReachedIsRun(origin, Front(steps), x.0, x.1);
    }
  }

  // ---------------------------------------------------------------------------
  // One step of the machine at a time
  // ---------------------------------------------------------------------------

  lemma DoPop(origin: State, steps: seq<Step>, s: State, a: Eager, p: Pid)
    requires Sim(s, a) && Reached(origin, steps, s, a) && MayPop(s, p)
    ensures Sim(AfterPop(s, p), a) && Reached(origin, steps + [Pop(p)], AfterPop(s, p), a)
  {
    hide Sim, Reached;
    StepPop(s, a, p);
    Silently(origin, steps, s, a, Pop(p), AfterPop(s, p));
  }

  lemma DoRunOut(origin: State, steps: seq<Step>, s: State, a: Eager, p: Pid)
    requires Sim(s, a) && Reached(origin, steps, s, a) && MayRunOut(s, p)
    ensures Sim(AfterRunOut(s, p), a) && Reached(origin, steps + [RunOut(p)], AfterRunOut(s, p), a)
  {
    hide Sim, Reached;
    StepRunOut(s, a, p);
    Silently(origin, steps, s, a, RunOut(p), AfterRunOut(s, p));
  }

  lemma DoInit(origin: State, steps: seq<Step>, s: State, a: Eager, p: Pid)
    requires Sim(s, a) && Reached(origin, steps, s, a) && MayInit(s, p)
    ensures Sim(AfterInit(s, p), a) && Reached(origin, steps + [Init(p)], AfterInit(s, p), a)
  {
    hide Sim, Reached;
    StepInit(s, a, p);
    Silently(origin, steps, s, a, Init(p), AfterInit(s, p));
  }

  lemma DoPush(origin: State, steps: seq<Step>, s: State, a: Eager, p: Pid)
    requires Sim(s, a) && Reached(origin, steps, s, a) && MayPush(s, p)
    ensures Sim(AfterPush(s, p), a) && Reached(origin, steps + [Push(p)], AfterPush(s, p), a)
  {
    hide Sim, Reached;
    StepPush(s, a, p);
    Silently(origin, steps, s, a, Push(p), AfterPush(s, p));
  }

  lemma DoCopy(origin: State, steps: seq<Step>, s: State, a: Eager, p: Pid)
    requires Sim(s, a) && Reached(origin, steps, s, a) && MayCopy(s, p)
    ensures Sim(AfterCopy(s, p), a) && Reached(origin, steps + [Copy(p)], AfterCopy(s, p), a)
  {
    hide Sim, Reached;
    StepCopy(s, a, p);
    Silently(origin, steps, s, a, Copy(p), AfterCopy(s, p));
  }

  lemma DoSetPte(origin: State, steps: seq<Step>, s: State, a: Eager, p: Pid)
    requires Sim(s, a) && Reached(origin, steps, s, a) && MaySetPte(s, p)
    ensures Sim(AfterSetPte(s, p), a) && Reached(origin, steps + [SetPte(p)], AfterSetPte(s, p), a)
  {
    hide Sim, Reached;
    StepSetPte(s, a, p);
    Silently(origin, steps, s, a, SetPte(p), AfterSetPte(s, p));
  }

  lemma DoClear(origin: State, steps: seq<Step>, s: State, a: Eager, p: Pid)
    requires Sim(s, a) && Reached(origin, steps, s, a) && MayClear(s, p)
    ensures Sim(AfterClear(s, p), a) && Reached(origin, steps + [Clear(p)], AfterClear(s, p), a)
  {
    hide Sim, Reached;
    StepClear(s, a, p);
    Silently(origin, steps, s, a, Clear(p), AfterClear(s, p));
  }

  lemma DoFault(origin: State, steps: seq<Step>, s: State, a: Eager, p: Pid, v: nat)
    requires Sim(s, a) && Reached(origin, steps, s, a) && MayFault(s, p, v)
    ensures Sim(AfterFault(s, p, v), a) && Reached(origin, steps + [Fault(p, v)], AfterFault(s, p, v), a)
  {
    hide Sim, Reached;
    StepFault(s, a, p, v);
    Silently(origin, steps, s, a, Fault(p, v), AfterFault(s, p, v));
  }

  lemma DoMapFail(origin: State, steps: seq<Step>, s: State, a: Eager, p: Pid)
    requires Sim(s, a) && Reached(origin, steps, s, a) && MayMapFail(s, p)
    ensures Sim(AfterMapFail(s, p), a) && Reached(origin, steps + [MapFail(p)], AfterMapFail(s, p), a)
  {
    hide Sim, Reached;
    StepMapFail(s, a, p);
    Silently(origin, steps, s, a, MapFail(p), AfterMapFail(s, p));
  }

  lemma DoGrow(origin: State, steps: seq<Step>, s: State, a: Eager, p: Pid, hi: nat)
    requires Sim(s, a) && Reached(origin, steps, s, a) && MayGrow(s, p, hi)
    ensures Sim(AfterGrow(s, p, hi), a) && Reached(origin, steps + [Grow(p, hi)], AfterGrow(s, p, hi), a)
  {
    hide Sim, Reached;
    StepGrow(s, a, p, hi);
    Silently(origin, steps, s, a, Grow(p, hi), AfterGrow(s, p, hi));
  }

  lemma DoGrowDone(origin: State, steps: seq<Step>, s: State, a: Eager, p: Pid)
    requires Sim(s, a) && Reached(origin, steps, s, a) && MayGrowDone(s, p)
    ensures Sim(AfterGrowDone(s, p), a) && Reached(origin, steps + [GrowDone(p)], AfterGrowDone(s, p), a)
  {
    hide Sim, Reached;
    StepGrowDone(s, a, p);
    Silently(origin, steps, s, a, GrowDone(p), AfterGrowDone(s, p));
  }

  lemma DoShrink(origin: State, steps: seq<Step>, s: State, a: Eager, p: Pid, lo: nat, next: Then)
    requires Sim(s, a) && Reached(origin, steps, s, a) && MayShrink(s, p, lo, next)
    ensures Sim(AfterShrink(s, p, lo, next), a) && Reached(origin, steps + [Shrink(p, lo, next)], AfterShrink(s, p, lo, next), a)
  {
    hide Sim, Reached;
    StepShrink(s, a, p, lo, next);
    Silently(origin, steps, s, a, Shrink(p, lo, next), AfterShrink(s, p, lo, next));
  }

  lemma DoForkMap(origin: State, steps: seq<Step>, s: State, a: Eager, p: Pid, c: Pid, n: nat)
    requires Sim(s, a) && Reached(origin, steps, s, a) && MayForkMap(s, p, c, n)
    ensures Sim(AfterForkMap(s, p, c, n), a) && Reached(origin, steps + [ForkMap(p, c, n)], AfterForkMap(s, p, c, n), a)
  {
    hide Sim, Reached;
    StepForkMap(s, a, p, c, n);
    Silently(origin, steps, s, a, ForkMap(p, c, n), AfterForkMap(s, p, c, n));
  }

  lemma DoForkRef(origin: State, steps: seq<Step>, s: State, a: Eager, p: Pid, c: Pid, n: nat)
    requires Sim(s, a) && Reached(origin, steps, s, a) && MayForkRef(s, p, c, n)
    ensures Sim(AfterForkRef(s, p, c, n), a) && Reached(origin, steps + [ForkRef(p, c, n)], AfterForkRef(s, p, c, n), a)
  {
    hide Sim, Reached;
    StepForkRef(s, a, p, c, n);
    Silently(origin, steps, s, a, ForkRef(p, c, n), AfterForkRef(s, p, c, n));
  }

  lemma DoForkFail(origin: State, steps: seq<Step>, s: State, a: Eager, p: Pid, c: Pid, n: nat)
    requires Sim(s, a) && Reached(origin, steps, s, a) && MayForkFail(s, p, c, n)
    ensures Sim(AfterForkFail(s, p, c, n), a) && Reached(origin, steps + [ForkFail(p, c, n)], AfterForkFail(s, p, c, n), a)
  {
    hide Sim, Reached;
    StepForkFail(s, a, p, c, n);
    Silently(origin, steps, s, a, ForkFail(p, c, n), AfterForkFail(s, p, c, n));
  }

  lemma DoForkStart(origin: State, steps: seq<Step>, s: State, a: Eager, p: Pid, c: Pid)
    requires Sim(s, a) && Reached(origin, steps, s, a) && MayForkStart(s, p, c) && HasSlot(s)
    ensures Sim(AfterForkStart(s, p, c), a) && Reached(origin, steps + [ForkStart(p, c)], AfterForkStart(s, p, c), a)
  {
    hide Sim, Reached;
    StepForkStart(s, a, p, c);
    Silently(origin, steps, s, a, ForkStart(p, c), AfterForkStart(s, p, c));
  }

  lemma DoResume(origin: State, steps: seq<Step>, s: State, a: Eager, p: Pid)
    requires Sim(s, a) && Reached(origin, steps, s, a) && MayUnmapDone(s, p) && s.procs[p].pc.next.Resume?
    ensures Sim(AfterUnmapDone(s, p), a) && Reached(origin, steps + [UnmapDone(p)], AfterUnmapDone(s, p), a)
  {
    hide Sim, Reached;
    StepUnmapResume(s, a, p);
    Silently(origin, steps, s, a, UnmapDone(p), AfterUnmapDone(s, p));
  }

  lemma DoEnd(origin: State, steps: seq<Step>, s: State, a: Eager, p: Pid) returns (b: Eager)
    requires Sim(s, a) && Reached(origin, steps, s, a) && MayUnmapDone(s, p) && !s.procs[p].pc.next.Resume?
    ensures Sim(AfterUnmapDone(s, p), b) && Reached(origin, steps + [UnmapDone(p)], AfterUnmapDone(s, p), b)
    ensures b == if s.procs[p].pc.next.Vanish? then a - {p} else a
  {
    hide Sim, Reached;
    var e;
    e, b := StepUnmapEnd(s, a, p);
    Advance(origin, steps, s, a, UnmapDone(p), AfterUnmapDone(s, p), b);
  }

  lemma DoDrop(origin: State, steps: seq<Step>, s: State, a: Eager, p: Pid, pn: nat)
    requires Sim(s, a) && Reached(origin, steps, s, a) && MayDrop(s, p, pn)
    ensures var b := Without(a, p, s.procs[p]);
      Sim(AfterDrop(s, p, pn), b) && Reached(origin, steps + [Drop(p, pn)], AfterDrop(s, p, pn), b)
  {
    hide Sim, Reached, Meaning, EagerNext;
    DropMeans(s, a, p, pn);
    Advance(origin, steps, s, a, Drop(p, pn), AfterDrop(s, p, pn), Without(a, p, s.procs[p]));
  }

  lemma DoMapPage(origin: State, steps: seq<Step>, s: State, a: Eager, p: Pid, w: bool, x: bool)
    requires Sim(s, a) && Reached(origin, steps, s, a) && MayMapPage(s, p)
    ensures var b := Zeroed(a, p, s.procs[p].pc.v, w, x);
      Sim(AfterMapPage(s, p, w, x), b) && Reached(origin, steps + [MapPage(p, w, x)], AfterMapPage(s, p, w, x), b)
  {
    hide Sim, Reached;
    var b := StepMapPage(s, a, p, w, x);
    Advance(origin, steps, s, a, MapPage(p, w, x), AfterMapPage(s, p, w, x), b);
  }

  lemma DoForkDone(origin: State, steps: seq<Step>, s: State, a: Eager, p: Pid, c: Pid)
    requires Sim(s, a) && Reached(origin, steps, s, a) && MayForkDone(s, p, c)
    ensures p in a
    ensures var b := a[c := a[p]];
      Sim(AfterForkDone(s, p, c), b) && Reached(origin, steps + [ForkDone(p, c)], AfterForkDone(s, p, c), b)
  {
    hide Sim, Reached;
    var b := StepForkDone(s, a, p, c);
    Advance(origin, steps, s, a, ForkDone(p, c), AfterForkDone(s, p, c), b);
  }

  class Memory {
    const first: nat
    const pgref: array<nat>
    var mem: seq<Page>
    var free: seq<nat>
    var procs: map<Pid, Proc>
    ghost var spec: Eager
    ghost var origin: State       // the machine as kinit left it
    ghost var steps: seq<Step>    // what has happened since

    ghost function View(): State
      reads this, pgref
    {
      State(first, mem, pgref[..], free, procs)
    }

    ghost predicate Valid()
      reads this, pgref
    {
      Sim(View(), spec) && Reached(origin, steps, View(), spec)
    }

    /** What the methods do is a run of the machine, to which the theorems about runs apply. */
    lemma IsRun()
      requires Valid()
      ensures Booted(origin) && Run(Next, origin, steps, View())
    {
      hide Sim;
      ReachedIsRun(origin, steps, View(), spec);
    }

    /** kinit and freerange. */
    constructor (end: nat, ram: seq<Page>)
      requires RAM_START <= end <= STOP && |ram| == STOP
      ensures Valid() && Booted(View()) && first == end && steps == []
      ensures fresh(pgref)
    {
      first := end;
      pgref := new nat[STOP](_ => 0);
      mem := ram;
      free := [];
      procs := map[0 := Proc(map[], 0, {}, User), 1 := Proc(map[], 0, {}, User)];
      spec := EagerBoot();
      new;
      var pn := first;
      while pn < STOP
        invariant first <= pn <= STOP && |mem| == STOP && spec == EagerBoot()
        invariant procs == map[0 := Proc(map[], 0, {}, User), 1 := Proc(map[], 0, {}, User)]
        invariant forall k | 0 <= k < STOP :: pgref[k] == 0
        invariant Distinct(free) && forall k | 0 <= k < |free| :: first <= free[k] < pn
        invariant forall k | first <= k < pn :: k in free
      {
        // setref(p, 1), and kfree(p) of a page whose count is 1
        pgref[pn] := 1;
        pgref[pn] := 0;
        mem := mem[pn := Filled(1)];
        free := [pn] + free;
        pn := pn + 1;
      }
      hide Sim, Booted;
      origin, steps := View(), [];
      BootSim(View());
    }

    // -------------------------------------------------------------------------
    // kalloc and kfree
    // -------------------------------------------------------------------------

    /** kalloc, on behalf of CowHandler or uvmalloc. */
    method Kalloc(p: Pid) returns (ok: bool)
      requires Valid() && p in procs && Popping(procs[p].pc)
      modifies this, pgref
      ensures Valid() && spec == old(spec)
      ensures ok == (old(free) != [])
      ensures !ok ==> View() == old(View())
      ensures ok ==> var r, q := old(free)[0], old(procs[p]);
        && free == old(free)[1..] && r < |old(mem)| && mem == old(mem)[r := Filled(5)]
        && pgref.Length == STOP && r < STOP && pgref[..] == old(pgref[..])[r := 1]
        && procs == old(procs)[p := q.(pc := if q.pc.CowAlloc? then CowCopy(q.pc.v, r) else GrowMap(q.pc.v, q.pc.hi, r))]
    {
      hide Inv, Sees, Reached, Next, Meaning, EagerNext;
      ok := free != [];
      if ok {
        FreeInRam(View());
        PagesInRam(View(), p, 0);
        DoPop(origin, steps, View(), spec, p);
        steps := steps + [Pop(p)];
        var q, r := procs[p], free[0];
        free := free[1..];
        procs := procs[p := q.(pc := if q.pc.CowAlloc? then CowPopped(q.pc.v, r) else GrowPopped(q.pc.v, q.pc.hi, r))];
        DoInit(origin, steps, View(), spec, p);
        steps := steps + [Init(p)];
        mem := mem[r := Filled(5)];
        pgref[r] := 1;
        procs := procs[p := Inited(procs[p])];
      }
    }

    /** kfree(pn): one reference less; the page of the last reference becomes free. */
    method Kfree(p: Pid, pn: nat)
      requires Valid() && p in procs && Dropping(procs[p], pn)
      modifies this, pgref
      ensures Valid() && spec == Without(old(spec), p, old(procs[p]))
      ensures pn < pgref.Length && pgref[..] == Lowered(old(pgref[..]), pn)
      ensures free == if old(pgref[pn]) > 1 then old(free) else [pn] + old(free)
      ensures pn < |old(mem)| && mem == if old(pgref[pn]) > 1 then old(mem) else old(mem)[pn := Filled(1)]
      ensures procs == old(procs)[p := old(procs[p]).(pc := Freed(old(procs[p])))]
    {
      hide Sim, Reached, Freed, Freeing, Without;
      var last := DropRef(p, pn);
      if last {
        PushPage(p);
      }
    }

    /** The reflock section of kfree. */
    method DropRef(p: Pid, pn: nat) returns (last: bool)
      requires Valid() && p in procs && Dropping(procs[p], pn)
      modifies this`steps, this`spec, this`procs, pgref
      ensures Valid() && spec == Without(old(spec), p, old(procs[p]))
      ensures pn < pgref.Length && pgref[..] == Lowered(old(pgref[..]), pn) && last == (old(pgref[pn]) <= 1) && pn < |mem|
      ensures procs == old(procs)[p := old(procs[p]).(pc := if last then Freeing(old(procs[p]), pn) else Freed(old(procs[p])))]
      ensures last ==> Pushing(procs[p].pc) && procs[p].pc.gone == pn && Freed(procs[p]) == Freed(old(procs[p]))
    {
      hide Sim, Reached, Inv;
      SimInv(View(), spec);
      DropInRam(View(), p, pn);
      DoDrop(origin, steps, View(), spec, p, pn);
      steps := steps + [Drop(p, pn)];
      spec := Without(spec, p, procs[p]);
      last := pgref[pn] <= 1;
      if last {
        pgref[pn] := 0;
        procs := procs[p := procs[p].(pc := Freeing(procs[p], pn))];
      } else {
        pgref[pn] := pgref[pn] - 1;
        procs := procs[p := procs[p].(pc := Freed(procs[p]))];
      }
    }

    /** The rest of kfree: memset and the kmem.lock section. */
    method PushPage(p: Pid)
      requires Valid() && p in procs && Pushing(procs[p].pc) && procs[p].pc.gone < |mem|
      modifies this`steps, this`mem, this`free, this`procs
      ensures Valid() && procs == old(procs)[p := old(procs[p]).(pc := Freed(old(procs[p])))]
      ensures free == [old(procs[p]).pc.gone] + old(free) && mem == old(mem)[old(procs[p]).pc.gone := Filled(1)]
    {
      hide Sim, Reached, Freed;
      DoPush(origin, steps, View(), spec, p);
      steps := steps + [Push(p)];
      var pn := procs[p].pc.gone;
      mem := mem[pn := Filled(1)];
      free := [pn] + free;
      procs := procs[p := procs[p].(pc := Freed(procs[p]))];
    }

    // -------------------------------------------------------------------------
    // CowHandler
    // -------------------------------------------------------------------------

    /** The test for a single owner. It reads the count of another page, so it always
        goes on to the copy. */
    method TestCount(p: Pid, v: nat)
      requires Valid() && p in procs && procs[p].pc.User? && v in procs[p].pt && procs[p].pt[v].u && procs[p].pt[v].cow
      modifies this`steps, this`procs
      ensures Valid() && procs == old(procs)[p := old(procs[p]).(pc := CowAlloc(v))]
    {
      hide Inv, Sees, Reached, Next, Meaning, EagerNext;
      ghost var s := View();
      PagesInRam(s, p, v);
      DoFault(origin, steps, s, spec, p, v);
      steps := steps + [Fault(p, v)];
      var q := procs[p];
      if pgref[CowIndex(q.pt[v])] == 1 {
        procs := procs[p := q.(pt := q.pt[v := q.pt[v].(w := true, cow := false)])];
      } else {
        procs := procs[p := q.(pc := CowAlloc(v))];
      }
      assert View() == AfterFault(s, p, v);
      FaultReadsZero(s, p, v);
    }

    /** memmove of the shared page into the new one. */
    method CopyPage(p: Pid)
      requires Valid() && p in procs && procs[p].pc.CowCopy? && procs[p].pc.v in procs[p].pt
      modifies this`steps, this`mem, this`procs
      ensures Valid()
      ensures procs == old(procs)[p := old(procs[p]).(pc := CowFree(old(procs[p]).pc.v, old(procs[p]).pc.r))]
    {
      hide Inv, Sees, Reached, Next, Meaning, EagerNext;
      var q := procs[p];
      PagesInRam(View(), p, q.pc.v);
      assert q.pc.r in Temp(q.pc);
      DoCopy(origin, steps, View(), spec, p);
      steps := steps + [Copy(p)];
      mem := mem[q.pc.r := mem[q.pt[q.pc.v].pn]];
      procs := procs[p := q.(pc := CowFree(q.pc.v, q.pc.r))];
    }

    /** CowHandler(va): -1 when the page is not a copy-on-write page of the user, -2 when
        no page is free; otherwise the process gets a page of its own, and no process sees
        any difference. */
    method CowHandler(p: Pid, va: nat) returns (r: int)
      requires Valid() && p in procs && procs[p].pc.User?
      modifies this, pgref
      ensures Valid() && spec == old(spec)
      ensures r == -1 <==> !Guards(old(procs[p]), va / PGSIZE)
      ensures r == -2 <==> Guards(old(procs[p]), va / PGSIZE) && old(free) == []
      ensures r == 0 || r == -1 || r == -2
      ensures r != 0 ==> View() == old(View())
      ensures r == 0 ==> var q, v := old(procs[p]), va / PGSIZE;
        && procs == old(procs)[p := q.(pt := q.pt[v := Pte(old(free)[0], true, q.pt[v].x, true, false)])]
        && pgref.Length == STOP && old(free)[0] < STOP && q.pt[v].pn < STOP
        && pgref[..] == Lowered(old(pgref[..])[old(free)[0] := 1], q.pt[v].pn)
    {
      hide Inv, Sees, Reached, Next, Meaning, EagerNext;
      var v := va / PGSIZE;
      var q := procs[p];
      if v !in q.pt || !q.pt[v].u || !q.pt[v].cow {
        return -1;
      }
      TestCount(p, v);
      var ok := Kalloc(p);
      if !ok {
        DoRunOut(origin, steps, View(), spec, p);
        steps := steps + [RunOut(p)];
        procs := procs[p := procs[p].(pc := User)];
        assert procs == old(procs);
        return -2;
      }
      CopyPage(p);
      Kfree(p, q.pt[v].pn);
      DoSetPte(origin, steps, View(), spec, p);
      steps := steps + [SetPte(p)];
      procs := procs[p := procs[p].(pt := procs[p].pt[v := Owned(procs[p].pt[v], procs[p].pc.r)], pc := User)];
      assert procs == old(procs)[p := q.(pt := q.pt[v := Owned(q.pt[v], old(free)[0])])];
      r := 0;
    }

    // -------------------------------------------------------------------------
    // Growing and shrinking an address space
    // -------------------------------------------------------------------------

    /** uvmunmap with do_free, over the pages the process is at. */
    method Uvmunmap(p: Pid)
      requires Valid() && p in procs && procs[p].pc.Unmap?
      modifies this, pgref
      ensures Valid()
      ensures var q := old(procs[p]);
        && procs == old(procs)[p := Proc(q.pt - Span(q.pc.v, q.pc.hi), q.np, q.kpages, Unmap(q.pc.hi, q.pc.hi, q.pc.next))]
        && spec == Cut(old(spec), p, Live(q), q.pc.v, q.pc.hi)
    {
      hide Sim, Reached, Inv;
      var q := procs[p];
      SimInv(View(), spec);
      UnmapInTable(View(), p);
      var v := q.pc.v;
      assert q.pt - Span(v, v) == q.pt;
      CutNothing(spec, p, Live(q), v);
      while v < q.pc.hi
        invariant Valid() && q.pc.v <= v <= q.pc.hi
        invariant procs == old(procs)[p := Proc(q.pt - Span(q.pc.v, v), q.np, q.kpages, Unmap(v, q.pc.hi, q.pc.next))]
        invariant spec == Cut(old(spec), p, Live(q), q.pc.v, v)
      {
        SimInv(View(), spec);
        UnmapInTable(View(), p);
        Kfree(p, procs[p].pt[v].pn);
        DoClear(origin, steps, View(), spec, p);
        steps := steps + [Clear(p)];
        procs := procs[p := Cleared(procs[p])];
        SpanGrows(q.pt, q.pc.v, v);
        CutGrows(old(spec), p, Live(q), q.pc.v, v);
        v := v + 1;
      }
    }

    /** uvmdealloc: the pages above the new size are gone, the others are as they were. */
    method Uvmdealloc(p: Pid, oldsz: nat, newsz: nat) returns (r: nat)
      requires Valid() && p in procs && procs[p].pc.User? && Spans(procs[p].pt, oldsz)
      modifies this, pgref
      ensures Valid()
      ensures r == if newsz >= oldsz then oldsz else newsz
      ensures var q := old(procs[p]);
        && procs == old(procs)[p := q.(pt := q.pt - Span(Pages(r), q.np), np := Pages(r))]
        && spec == Cut(old(spec), p, true, Pages(r), q.np)
      ensures Spans(procs[p].pt, r)
    {
      hide Inv, Sees, Reached, Next, Meaning, EagerNext, Spans;
      var q := procs[p];
      UserTable(View(), p);
      SpansPages(q.pt, q.np, oldsz);
      PagesMonotone(newsz, oldsz);
      SpansCut(q.pt, q.np, if newsz >= oldsz then oldsz else newsz);
      if newsz >= oldsz || Pages(newsz) == Pages(oldsz) {
        assert q.pt - Span(q.np, q.np) == q.pt;
        assert procs == procs[p := q];
        CutNothing(spec, p, true, q.np);
        return if newsz >= oldsz then oldsz else newsz;
      }
      DoShrink(origin, steps, View(), spec, p, Pages(newsz), Resume);
      steps := steps + [Shrink(p, Pages(newsz), Resume)];
      procs := procs[p := q.(np := Pages(newsz), pc := Unmap(Pages(newsz), q.np, Resume))];
      Uvmunmap(p);
      DoResume(origin, steps, View(), spec, p);
      steps := steps + [UnmapDone(p)];
      procs := procs[p := procs[p].(pc := User)];
      return newsz;
    }

    /** The end of a failed uvmalloc: all that it added is taken back. */
    method TakeBack(p: Pid)
      requires Valid() && p in procs && procs[p].pc.Unmap? && procs[p].pc.v == procs[p].np && procs[p].pc.next.Resume?
      modifies this, pgref
      ensures Valid()
      ensures var q := old(procs[p]);
        && procs == old(procs)[p := q.(pt := q.pt - Span(q.np, q.pc.hi), pc := User)]
        && spec == Cut(old(spec), p, true, q.np, q.pc.hi)
    {
      hide Inv, Sees, Reached, Next, Meaning, EagerNext;
      Uvmunmap(p);
      DoResume(origin, steps, View(), spec, p);
      steps := steps + [UnmapDone(p)];
      procs := procs[p := procs[p].(pc := User)];
    }

    /** uvmalloc's page for v: kalloc, memset and mappages, or everything taken back.
        mappages finds or makes page tables for the pages below `tables`. */
    method GrowOne(p: Pid, w: bool, x: bool, tables: nat) returns (ok: bool)
      requires Valid() && p in procs && procs[p].pc.GrowAlloc? && procs[p].pc.v < procs[p].pc.hi
      modifies this, pgref
      ensures Valid()
      ensures ok == (old(free) != [] && old(procs[p]).pc.v < tables)
      ensures var q := old(procs[p]);
        && (ok ==>
              && |free| == |old(free)| - 1
              && spec == Zeroed(old(spec), p, q.pc.v, w, x)
              && procs == old(procs)[p := q.(pt := q.pt[q.pc.v := Pte(old(free)[0], w, x, true, false)], pc := GrowAlloc(q.pc.v + 1, q.pc.hi))])
        && (!ok ==>
              && procs == old(procs)[p := q.(pt := q.pt - Span(q.np, q.pc.v), pc := User)]
              && spec == Cut(old(spec), p, true, q.np, q.pc.v))
    {
      hide Inv, Sees, Reached, Next, Meaning, EagerNext;
      var q := procs[p];
      ok := Kalloc(p);
      if !ok {
        DoRunOut(origin, steps, View(), spec, p);
        steps := steps + [RunOut(p)];
        procs := procs[p := q.(pc := Unmap(q.np, q.pc.v, Resume))];
        TakeBack(p);
      } else if q.pc.v < tables {
        DoMapPage(origin, steps, View(), spec, p, w, x);
        steps := steps + [MapPage(p, w, x)];
        mem := mem[procs[p].pc.r := ZeroPage()];
        procs := procs[p := MappedIn(procs[p], w, x)];
        spec := Zeroed(spec, p, q.pc.v, w, x);
      } else {
        ok := false;
        DoMapFail(origin, steps, View(), spec, p);
        steps := steps + [MapFail(p)];
        procs := procs[p := procs[p].(pc := GrowUndo(q.pc.v, procs[p].pc.r))];
        Kfree(p, procs[p].pc.r);
        TakeBack(p);
      }
    }

    /** uvmalloc: zeroed pages up to the new size, or, exactly when memory or page tables
        run out, everything as it was. */
    method Uvmalloc(p: Pid, oldsz: nat, newsz: nat, w: bool, x: bool, tables: nat) returns (r: nat, ghost ok: bool)
      requires Valid() && p in procs && procs[p].pc.User? && Spans(procs[p].pt, oldsz)
      modifies this, pgref
      ensures Valid()
      ensures newsz < oldsz ==> r == oldsz && View() == old(View()) && spec == old(spec)
      ensures newsz >= oldsz ==> var q, hi := old(procs[p]), Pages(newsz);
        && ok == (hi - q.np <= |old(free)| && (q.np < hi ==> hi <= tables))
        && r == (if ok then newsz else 0)
        && (ok ==>
              && spec == ZeroedTo(old(spec), p, q.np, hi, w, x)
              && p in procs && procs == old(procs)[p := q.(pt := procs[p].pt, np := hi)]
              && Extended(q.pt, procs[p].pt, w, x) && Spans(procs[p].pt, newsz))
        && (!ok ==>
              && spec == old(spec) && procs == old(procs)
              && pgref[..] == old(pgref[..]) && Elements(free) == Elements(old(free)))
    {
      hide Inv, Sees, Reached, Next, Meaning, EagerNext, Elements, Extended, Cut, Zeroed, Spans;
      if newsz < oldsz {
        return oldsz, false;
      }
      PagesMonotone(oldsz, newsz);
      ghost var s := View();
      var q, hi := procs[p], Pages(newsz);
      UserTable(s, p);
      SpansPages(q.pt, q.np, oldsz);
      ExtendedSelf(q.pt, w, x);
      DoGrow(origin, steps, View(), spec, p, hi);
      steps := steps + [Grow(p, hi)];
      procs := procs[p := q.(pc := GrowAlloc(q.np, hi))];
      var v := q.np;
      while v < hi
        invariant Valid() && q.np <= v <= hi
        invariant p in procs && procs == old(procs)[p := q.(pt := procs[p].pt, pc := GrowAlloc(v, hi))]
        invariant Extended(q.pt, procs[p].pt, w, x) && BelowOnly(procs[p].pt, v)
        invariant spec == ZeroedTo(old(spec), p, q.np, v, w, x) && |free| == |old(free)| - (v - q.np)
        invariant q.np < v ==> v <= tables
      {
        ExtendedOne(q.pt, procs[p].pt, w, x, v, if free == [] then 0 else free[0]);
        ExtendedBack(q.pt, procs[p].pt, w, x, q.np, v);
        var more := GrowOne(p, w, x, tables);
        if !more {
          assert procs == old(procs);
          ZeroedBack(old(spec), p, q.np, v, w, x, s);
          SameProcsSameAllocs(s, View());
          return 0, false;
        }
        v := v + 1;
      }
      DoGrowDone(origin, steps, View(), spec, p);
      steps := steps + [GrowDone(p)];
      procs := procs[p := procs[p].(np := hi, pc := User)];
      PagesSpan(procs[p].pt, newsz);
      return newsz, true;
    }

    // -------------------------------------------------------------------------
    // fork and exit
    // -------------------------------------------------------------------------

    /** One turn of uvmcopy's loop, with a mappages that succeeds. */
    method ShareOne(p: Pid, c: Pid, n: nat)
      requires Valid() && p in procs && c in procs && c != p
      requires procs[p].pc == Forking(c) && procs[c].pc == Embryo(p, n, false) && n < procs[p].np && n in procs[p].pt
      modifies this`steps, this`procs, pgref
      ensures Valid()
      ensures var q := old(procs[p]);
        var e := Pte(q.pt[n].pn, false, q.pt[n].x, q.pt[n].u, q.pt[n].w || q.pt[n].cow);
        procs == old(procs)[p := q.(pt := q.pt[n := e])][c := old(procs[c]).(pt := old(procs[c]).pt[n := e], pc := Embryo(p, n + 1, false))]
    {
      hide Inv, Sees, Reached, Next, Meaning, EagerNext;
      DoForkMap(origin, steps, View(), spec, p, c, n);
      steps := steps + [ForkMap(p, c, n)];
      var e := Shared(procs[p].pt[n]);
      procs := procs[p := procs[p].(pt := procs[p].pt[n := e])];
      procs := procs[c := procs[c].(pt := procs[c].pt[n := e], pc := Embryo(p, n, true))];
      PagesInRam(View(), c, n);
      DoForkRef(origin, steps, View(), spec, p, c, n);
      steps := steps + [ForkRef(p, c, n)];
      pgref[e.pn] := pgref[e.pn] + 1;
      procs := procs[c := procs[c].(pc := Embryo(p, n + 1, false))];
    }

    method FinishFork(p: Pid, c: Pid)
      requires Valid() && p in procs && c in procs && c != p
      requires procs[p].pc == Forking(c) && procs[c].pc == Embryo(p, procs[p].np, false)
      modifies this`steps, this`procs, this`spec
      ensures Valid() && p in old(spec) && spec == old(spec)[c := old(spec)[p]]
      ensures procs == old(procs)[p := old(procs[p]).(pc := User)][c := old(procs[c]).(np := old(procs[p]).np, pc := User)]
    {
      hide Inv, Sees, Reached, Next, Meaning, EagerNext;
      DoForkDone(origin, steps, View(), spec, p, c);
      steps := steps + [ForkDone(p, c)];
      var n := procs[p].np;
      procs := procs[p := procs[p].(pc := User)];
      procs := procs[c := procs[c].(np := n, pc := User)];
      spec := spec[c := spec[p]];
    }

    /** The error path of uvmcopy. */
    method UndoFork(p: Pid, c: Pid, n: nat)
      requires Valid() && p in procs && c in procs && c != p
      requires procs[p].pc == Forking(c) && procs[c].pc == Embryo(p, n, false) && n < procs[p].np && n in procs[p].pt
      modifies this, pgref
      ensures Valid() && spec == old(spec)
      ensures var q := old(procs[p]);
        var e := Pte(q.pt[n].pn, false, q.pt[n].x, q.pt[n].u, q.pt[n].w || q.pt[n].cow);
        procs == (old(procs) - {c})[p := q.(pt := q.pt[n := e], pc := User)]
    {
      hide Inv, Sees, Reached, Next, Meaning, EagerNext;
      DoForkFail(origin, steps, View(), spec, p, c, n);
      steps := steps + [ForkFail(p, c, n)];
      procs := procs[p := procs[p].(pt := procs[p].pt[n := Shared(procs[p].pt[n])], pc := User)];
      procs := procs[c := procs[c].(pc := Unmap(0, n, Abandon))];
      Uvmunmap(c);
      ghost var b := DoEnd(origin, steps, View(), spec, c);
      steps := steps + [UnmapDone(c)];
      procs := procs - {c};
    }

    /** uvmcopy, called by fork: the child gets the memory of the parent, or, when there
        is no page table for its page `tables`, the child is gone and nothing else has changed
        but write protection. */
    method Uvmcopy(p: Pid, c: Pid, tables: nat) returns (ok: bool)
      requires Valid() && p in procs && procs[p].pc.User? && c !in procs && |procs| <= NPROC
      modifies this, pgref
      ensures Valid()
      ensures var q := old(procs[p]);
        && ok == (q.np <= tables)
        && (ok ==>
              && p in old(spec) && spec == old(spec)[c := old(spec)[p]]
              && p in procs && SharesBelow(q.pt, procs[p].pt, q.np)
              && procs == old(procs)[p := q.(pt := procs[p].pt)][c := Proc(procs[p].pt, q.np, {}, User)])
        && (!ok ==>
              && p in procs && SharesBelow(q.pt, procs[p].pt, tables + 1)
              && spec == old(spec) && procs == old(procs)[p := q.(pt := procs[p].pt)]
              && pgref[..] == old(pgref[..]) && Elements(free) == Elements(old(free)))
    {
      hide Sim, Inv, Reached, Elements, Below, Shared, Protected, SharesBelow;
      ghost var s := View();
      var q := procs[p];
      SimInv(s, spec);
      UserTable(s, p);
      BeginFork(p, c);
      var n := ShareAll(p, c, tables, q);
      ok := n == q.np;
      if ok {
        FinishFork(p, c);
        BelowAll(q.pt, n);
        ProtectedShares(q.pt, n);
      } else {
        ProtectedOne(q.pt, n);
        UndoFork(p, c, n);
        assert procs == old(procs)[p := q.(pt := Protected(q.pt, n + 1))];
        ProtectedShares(q.pt, n + 1);
        SimInv(View(), spec);
        ProtectedAllocs(s, View(), p, n + 1);
      }
    }

    /** The loop of uvmcopy, until there is no page table for the next page. */
    method ShareAll(p: Pid, c: Pid, tables: nat, q: Proc) returns (n: nat)
      requires Valid() && p in procs && c in procs && c != p && BelowOnly(q.pt, q.np)
      requires procs[p] == q.(pc := Forking(c)) && procs[c] == Proc(map[], 0, {}, Embryo(p, 0, false))
      modifies this`steps, this`procs, pgref
      ensures Valid() && n == (if q.np < tables then q.np else tables)
      ensures procs == old(procs)[p := q.(pt := Protected(q.pt, n), pc := Forking(c))][c := Proc(Below(Protected(q.pt, n), n), 0, {}, Embryo(p, n, false))]
    {
      hide Sim, Reached, Below, Shared, Protected;
      ProtectedNone(q.pt);
      n := 0;
      while n < q.np && n < tables
        invariant Valid() && n <= q.np && n <= tables
        invariant procs == old(procs)[p := q.(pt := Protected(q.pt, n), pc := Forking(c))][c := Proc(Below(Protected(q.pt, n), n), 0, {}, Embryo(p, n, false))]
      {
        ProtectedOne(q.pt, n);
        ShareOne(p, c, n);
        n := n + 1;
      }
    }

    /** The start of uvmcopy, with an empty table for the child. */
    method BeginFork(p: Pid, c: Pid)
      requires Valid() && p in procs && procs[p].pc.User? && c !in procs && |procs| <= NPROC
      modifies this`steps, this`procs
      ensures Valid()
      ensures procs == old(procs)[p := old(procs[p]).(pc := Forking(c))][c := Proc(map[], 0, {}, Embryo(p, 0, false))]
    {
      hide Sim, Reached;
      DoForkStart(origin, steps, View(), spec, p, c);
      steps := steps + [ForkStart(p, c)];
      procs := procs[p := procs[p].(pc := Forking(c))];
      procs := procs[c := Proc(map[], 0, {}, Embryo(p, 0, false))];
    }

    /** The memory side of fork: -1 when allocproc finds no slot or uvmcopy fails. */
    method Fork(p: Pid, c: Pid, tables: nat) returns (ok: bool)
      requires Valid() && p in procs && procs[p].pc.User? && c !in procs
      modifies this, pgref
      ensures Valid()
      ensures ok == (|old(procs)| <= NPROC && old(procs[p]).np <= tables)
      ensures ok ==> p in old(spec) && spec == old(spec)[c := old(spec)[p]] && procs.Keys == old(procs).Keys + {c}
      ensures !ok ==> spec == old(spec) && procs.Keys == old(procs).Keys && pgref[..] == old(pgref[..]) && Elements(free) == Elements(old(free))
    {
      hide Inv, Sees, Reached, Next, Meaning, EagerNext, Elements, Protected;
      if |procs| > NPROC {
        return false;
      }
      ok := Uvmcopy(p, c, tables);
    }

    /** The memory of a process that has exited. */
    method FreeMemory(p: Pid)
      requires Valid() && p in procs && procs[p].pc.User? && procs[p].kpages == {}
      modifies this, pgref
      ensures Valid() && procs == old(procs) - {p} && spec == old(spec) - {p}
    {
      hide Inv, Sees, Reached, Next, Meaning, EagerNext;
      var q := procs[p];
      DoShrink(origin, steps, View(), spec, p, 0, Vanish);
      steps := steps + [Shrink(p, 0, Vanish)];
      procs := procs[p := q.(np := 0, pc := Unmap(0, q.np, Vanish))];
      Uvmunmap(p);
      ghost var b := DoEnd(origin, steps, View(), spec, p);
      steps := steps + [UnmapDone(p)];
      procs := procs - {p};
      spec := b;
    }
  }

  /** The table after uvmcopy has been through the pages below n. */
  function Protected(pt: map<nat, Pte>, n: nat): map<nat, Pte> {
    map v | v in pt :: if v < n then Shared(pt[v]) else pt[v]
  }

  function Below(pt: map<nat, Pte>, n: nat): map<nat, Pte> {
    map v | v in pt && v < n :: pt[v]
  }

  lemma ProtectedNone(pt: map<nat, Pte>)
    ensures Protected(pt, 0) == pt && Below(pt, 0) == map[]
  {
  }

  lemma ProtectedOne(pt: map<nat, Pte>, n: nat)
    requires n in pt
    ensures n in Protected(pt, n) && Protected(pt, n)[n] == pt[n]
    ensures var e := Pte(pt[n].pn, false, pt[n].x, pt[n].u, pt[n].w || pt[n].cow);
      && Protected(pt, n)[n := e] == Protected(pt, n + 1)
      && Below(Protected(pt, n), n)[n := e] == Below(Protected(pt, n + 1), n + 1)
  {
  }

  /** No page below n may be written any more, and the ones that might be written before, or were
      copy-on-write, are copy-on-write; nothing else is different. */
  ghost predicate SharesBelow(pt: map<nat, Pte>, pt': map<nat, Pte>, n: nat) {
    && pt'.Keys == pt.Keys
    && (forall v | v in pt && v < n :: pt'[v] == Pte(pt[v].pn, false, pt[v].x, pt[v].u, pt[v].w || pt[v].cow))
    && (forall v | v in pt && v >= n :: pt'[v] == pt[v])
  }

  lemma ProtectedShares(pt: map<nat, Pte>, n: nat)
    ensures SharesBelow(pt, Protected(pt, n), n)
  {
  }

  lemma BelowAll(pt: map<nat, Pte>, n: nat)
    requires BelowOnly(pt, n)
    ensures Below(Protected(pt, n), n) == Protected(pt, n)
  {
  }

  lemma ProtectedFoot(q: Proc, n: nat)
    requires q.pc.User?
    ensures var t := q.(pt := Protected(q.pt, n));
      FootOf(t).held == FootOf(q).held && FootOf(t).loose == FootOf(q).loose
  {
    SameMapped(q, q.(pt := Protected(q.pt, n)));
  }

  lemma ProtectedAllocs(s: State, t: State, p: Pid, n: nat)
    requires Inv(s) && Inv(t) && s.first == t.first && p in s.procs && s.procs[p].pc.User?
    requires t.procs == s.procs[p := s.procs[p].(pt := Protected(s.procs[p].pt, n))]
    ensures s.pgref == t.pgref && Elements(s.free) == Elements(t.free)
  {
    hide Inv, AllocInv, FootOf;
    GetAlloc(s);
    GetAlloc(t);
    ProtectedFoot(s.procs[p], n);
    HandsDecide(s.first, s.pgref, s.free, FeetOf(s.procs), t.pgref, t.free, FeetOf(t.procs));
  }

  /** pt' has the entries of pt and only fresh ones besides. */
  ghost predicate Extended(pt: map<nat, Pte>, pt': map<nat, Pte>, w: bool, x: bool) {
    && (forall v | v in pt :: v in pt' && pt'[v] == pt[v])
    && (forall v | v in pt' && v !in pt :: pt'[v].w == w && pt'[v].x == x && pt'[v].u && !pt'[v].cow)
  }

  ghost function Zeroed(a: Eager, p: Pid, v: nat, w: bool, x: bool): Eager {
    if p in a then a[p := SetPage(a[p], v, NewPage(w, x))] else a
  }

  /** p has the zero pages [lo, hi) in addition. */
  ghost function ZeroedTo(a: Eager, p: Pid, lo: nat, hi: nat, w: bool, x: bool): Eager {
    if hi <= lo then a else Zeroed(ZeroedTo(a, p, lo, hi - 1, w, x), p, hi - 1, w, x)
  }

  /** The pages of an address space, and where ZeroedTo puts them. */
  lemma {:induction false} ZeroedMeans(a: Eager, p: Pid, lo: nat, hi: nat, w: bool, x: bool)
    requires p in a
    ensures var b := ZeroedTo(a, p, lo, hi, w, x);
      && b.Keys == a.Keys && (forall t | t in a && t != p :: b[t] == a[t])
      && (forall v :: v in b[p] <==> v in a[p] || lo <= v < hi)
      && (forall v | v in b[p] :: b[p][v] == if lo <= v < hi then UserPage(ZeroPage(), Rights(w, x, true)) else a[p][v])
  {
    if lo < hi { ZeroedMeans(a, p, lo, hi - 1, w, x); }
  }

  lemma ExtendedSelf(pt: map<nat, Pte>, w: bool, x: bool)
    ensures Extended(pt, pt, w, x)
  {
  }

  lemma ExtendedOne(pt: map<nat, Pte>, pt': map<nat, Pte>, w: bool, x: bool, v: nat, r: nat)
    requires Extended(pt, pt', w, x) && BelowOnly(pt', v)
    ensures Extended(pt, pt'[v := Pte(r, w, x, true, false)], w, x) && BelowOnly(pt'[v := Pte(r, w, x, true, false)], v + 1)
  {
  }

  lemma ExtendedBack(pt: map<nat, Pte>, pt': map<nat, Pte>, w: bool, x: bool, lo: nat, v: nat)
    requires Extended(pt, pt', w, x) && BelowOnly(pt, lo) && BelowOnly(pt', v)
    ensures pt' - Span(lo, v) == pt
  {
  }

  lemma ZeroedBack(a: Eager, p: Pid, lo: nat, hi: nat, w: bool, x: bool, s: State)
    requires Sim(s, a) && p in s.procs && s.procs[p].pc.User? && s.procs[p].np == lo
    ensures Cut(ZeroedTo(a, p, lo, hi, w, x), p, true, lo, hi) == a
  {
    hide Sim;
    SpecKeys(s, a, p);
    ZeroedMeans(a, p, lo, hi, w, x);
    var b := ZeroedTo(a, p, lo, hi, w, x);
    assert b[p] - Span(lo, hi) == a[p];
  }

  lemma SpecKeys(s: State, a: Eager, p: Pid)
    requires Sim(s, a) && p in s.procs && s.procs[p].pc.User?
    ensures p in a && forall v: nat :: v in a[p] <==> v < s.procs[p].np
  {
    hide Inv, Sees;
    UserView(s, a, p, 0);
    forall v: nat ensures v in a[p] <==> v < s.procs[p].np { UserView(s, a, p, v); }
  }

  /** The entries are those of the pages below n. */
  ghost predicate BelowOnly(pt: map<nat, Pte>, n: nat) {
    forall v: nat :: v in pt <==> v < n
  }

  lemma UserTable(s: State, p: Pid)
    requires Inv(s) && p in s.procs && s.procs[p].pc.User?
    ensures BelowOnly(s.procs[p].pt, s.procs[p].np)
  {
    hide AllocInv, ForksOk, Copied, InRam, Injective;
    GetProc(s, p);
  }

  /** The tables decide the counts and the content of the free list. */
  lemma SameProcsSameAllocs(s: State, t: State)
    requires Inv(s) && Inv(t) && s.first == t.first && s.procs == t.procs
    ensures s.pgref == t.pgref && Elements(s.free) == Elements(t.free)
  {
    hide Inv, AllocInv;
    GetAlloc(s);
    GetAlloc(t);
    HandsDecide(s.first, s.pgref, s.free, FeetOf(s.procs), t.pgref, t.free, FeetOf(t.procs));
  }

  /** PGROUNDUP(sz) / PGSIZE */
  function Pages(sz: nat): nat { (sz + PGSIZE - 1) / PGSIZE }

  lemma PagesMonotone(a: nat, b: nat)
    ensures a <= b ==> Pages(a) <= Pages(b)
  {
  }

  /** The table maps the page of every byte below sz, and no page that begins at sz or above. */
  ghost predicate Spans(pt: map<nat, Pte>, sz: nat) {
    && (forall a: nat | a < sz :: a / PGSIZE in pt)
    && (forall v | v in pt :: v * PGSIZE < sz)
  }

  lemma PagesSpan(pt: map<nat, Pte>, sz: nat)
    requires BelowOnly(pt, Pages(sz))
    ensures Spans(pt, sz)
  {
  }

  lemma SpansPages(pt: map<nat, Pte>, n: nat, sz: nat)
    requires BelowOnly(pt, n) && Spans(pt, sz)
    ensures n == Pages(sz)
  {
    if n > 0 { assert n - 1 in pt; }
    if sz > 0 { assert (sz - 1) / PGSIZE in pt; }
  }

  lemma SpansCut(pt: map<nat, Pte>, n: nat, sz: nat)
    requires BelowOnly(pt, n) && Pages(sz) <= n
    ensures Spans(pt - Span(Pages(sz), n), sz)
  {
    PagesSpan(pt - Span(Pages(sz), n), sz);
  }

  predicate AtLeast(lo: nat, v: nat) { lo <= v }

  function Span(lo: nat, hi: nat): set<nat> { set v: nat | v < hi && AtLeast(lo, v) }

  lemma SpanGrows(pt: map<nat, Pte>, lo: nat, v: nat)
    requires lo <= v
    ensures pt - Span(lo, v) - {v} == pt - Span(lo, v + 1)
  {
    assert Span(lo, v + 1) == Span(lo, v) + {v};
  }

  /** The user pages [lo, hi) of p are taken away. */
  ghost function Cut(a: Eager, p: Pid, live: bool, lo: nat, hi: nat): Eager {
    if live && p in a then a[p := a[p] - Span(lo, hi)] else a
  }

  lemma CutNothing(a: Eager, p: Pid, live: bool, v: nat)
    ensures Cut(a, p, live, v, v) == a
  {
    if p in a { assert a[p] - Span(v, v) == a[p] && a[p := a[p]] == a; }
  }

  lemma CutGrows(a: Eager, p: Pid, live: bool, lo: nat, v: nat)
    requires lo <= v
    ensures var b := Cut(a, p, live, lo, v);
      (if live && p in b then b[p := b[p] - {v}] else b) == Cut(a, p, live, lo, v + 1)
  {
    assert Span(lo, v + 1) == Span(lo, v) + {v};
    if live && p in a { assert a[p] - Span(lo, v) - {v} == a[p] - Span(lo, v + 1); }
  }

  lemma UnmapInTable(s: State, p: Pid)
    requires Inv(s) && p in s.procs && s.procs[p].pc.Unmap?
    ensures s.procs[p].pc.v <= s.procs[p].pc.hi
    ensures s.procs[p].pc.v < s.procs[p].pc.hi ==> s.procs[p].pc.v in s.procs[p].pt
  {
    hide AllocInv, ForksOk, Copied, InRam, Injective;
    GetProc(s, p);
  }

  /** The page can be the reason of a fault that CowHandler serves. */
  predicate Guards(q: Proc, v: nat) {
    v in q.pt && q.pt[v].u && q.pt[v].cow
  }

  lemma DropInRam(s: State, p: Pid, pn: nat)
    requires Inv(s) && p in s.procs && Dropping(s.procs[p], pn)
    ensures |s.mem| == |s.pgref| == STOP && pn < STOP
  {
    hide AllocInv, ForksOk;
    GetAlloc(s);
    GetProc(s, p);
    assert s.procs[p].pc.GrowUndo? ==> pn in Temp(s.procs[p].pc);
  }
}
