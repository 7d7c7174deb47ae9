/** Copy-on-write memory: kernel/kalloc.c, kernel/vm.c and CowHandler of kernel/trap.c, as a
    machine whose steps are the critical sections and page copies of the code. Every
    process is somewhere in one of the kernel's memory operations, and they interleave. */
module CowMemory {

  const PGSIZE: nat := 4096
  const STOP: nat := 0x8_8000       // PHYSTOP >> PGSHIFT, the length of pgref
  const RAM_START: nat := 0x8_0000  // KERNBASE >> PGSHIFT
  const NPROC: nat := 64

  type Pid = nat
  type Page = b: seq<int> | |b| == PGSIZE witness seq(PGSIZE, _ => 0)

  /** memset(page, c, PGSIZE) */
  function Filled(c: int): Page { seq(PGSIZE, _ => c) }

  function ZeroPage(): (r: Page)
    ensures forall k | 0 <= k < PGSIZE :: r[k] == 0
  {
    Filled(0)
  }

  // ---------------------------------------------------------------------------
  // Page table entries
  // ---------------------------------------------------------------------------

  /** A valid user leaf: physical page number and the flags that matter here. Every leaf
      also has PTE_V and PTE_R; `x` is PTE_X. */
  datatype Pte = Pte(pn: nat, w: bool, x: bool, u: bool, cow: bool)

  function Bit(b: bool, value: nat): nat { if b then value else 0 }

  /** The low ten bits of the entry. */
  function Flags(e: Pte): (f: nat)
    ensures f < 1024
  {
    1 + 2 + Bit(e.w, 4) + Bit(e.x, 8) + Bit(e.u, 16) + Bit(e.cow, 256)
  }

  /** The 64-bit entry: PA2PTE(pa) | flags. */
  function Word(e: Pte): nat { e.pn * 1024 + Flags(e) }

  /** The element of pgref that CowHandler reads: PGINDEX(*pte), of the entry itself and
      not of the address in it. */
  function CowIndex(e: Pte): nat { Word(e) / PGSIZE }

  /** CowHandler looks at the count of page pn / 4, which for a page of RAM is no page of RAM. */
  lemma CowIndexOutsideRam(e: Pte)
    requires RAM_START <= e.pn < STOP
    ensures CowIndex(e) == e.pn / 4 < RAM_START
  {
  }

  /** uvmcopy's change to a parent entry: writable and copy-on-write pages become
      read-only and copy-on-write. */
  function Shared(e: Pte): Pte {
    if e.w || e.cow then e.(w := false, cow := true) else e
  }

  /** CowHandler's new entry. */
  function Owned(e: Pte, r: nat): Pte {
    e.(pn := r, w := true, cow := false)
  }

  // ---------------------------------------------------------------------------
  // Processes
  // ---------------------------------------------------------------------------

  /** What follows uvmunmap: back to the process, the end of an exited process, or the
      end of a child that fork could not complete. */
  datatype Then = Resume | Vanish | Abandon

  /** Where a process is in the kernel's memory code. `r` is a page from kalloc, `gone` a
      page whose count kfree has set to 0 and which is not yet on the free list. */
  datatype Pc =
    | User
    // CowHandler(v)
    | CowAlloc(v: nat)
    | CowPopped(v: nat, r: nat)
    | CowCopy(v: nat, r: nat)
    | CowFree(v: nat, r: nat)
    | CowPush(v: nat, r: nat, gone: nat)
    | CowSet(v: nat, r: nat)
    // fork: the parent, and the child it is building (pages below n are counted)
    | Forking(c: Pid)
    | Embryo(parent: Pid, n: nat, pending: bool)
    // uvmalloc, at page v on the way to hi
    | GrowAlloc(v: nat, hi: nat)
    | GrowPopped(v: nat, hi: nat, r: nat)
    | GrowMap(v: nat, hi: nat, r: nat)
    | GrowUndo(v: nat, r: nat)
    | GrowUndoPush(v: nat, gone: nat)
    // uvmunmap with do_free, at page v on the way to hi
    | Unmap(v: nat, hi: nat, next: Then)
    | UnmapPush(v: nat, hi: nat, next: Then, gone: nat)
    | UnmapClear(v: nat, hi: nat, next: Then)
    // pages for page tables, trapframes and pipes
    | KernPopped(r: nat)
    | KernPush(gone: nat)

  /** `np` is PGROUNDUP(sz) / PGSIZE; `kpages` are pages the kernel holds on the
      process's behalf. */
  datatype Proc = Proc(pt: map<nat, Pte>, np: nat, kpages: set<nat>, pc: Pc)

  /** The reference of a table entry is in pgref, except for the entry that fork has
      mapped and not counted yet, or that uvmunmap has given up and not cleared yet. */
  predicate Counted(q: Proc, v: nat) {
    && v in q.pt
    && match q.pc
       case Embryo(_, n, _) => v < n
       case UnmapPush(u, _, _, _) => v != u
       case UnmapClear(u, _, _) => v != u
       case _ => true
  }

  predicate Swapped(q: Proc, v: nat) {
    match q.pc
    case CowPush(u, _, _) => v == u
    case CowSet(u, _) => v == u
    case _ => false
  }

  /** The page that holds the content of user page v. Once CowHandler has given up the
      shared page this is the copy, although the entry is set only afterwards. */
  function Backing(q: Proc, v: nat): nat
    requires v in q.pt
  {
    if Swapped(q, v) then q.pc.r else q.pt[v].pn
  }

  /** A page from kalloc that is in no table yet. */
  function Temp(pc: Pc): set<nat> {
    match pc
    case CowCopy(_, r) => {r}
    case CowFree(_, r) => {r}
    case GrowMap(_, _, r) => {r}
    case GrowUndo(_, r) => {r}
    case _ => {}
  }

  /** A page that is neither counted nor on the free list. */
  function Loose(pc: Pc): set<nat> {
    match pc
    case CowPopped(_, r) => {r}
    case CowPush(_, _, gone) => {gone}
    case GrowPopped(_, _, r) => {r}
    case GrowUndoPush(_, gone) => {gone}
    case UnmapPush(_, _, _, gone) => {gone}
    case KernPopped(r) => {r}
    case KernPush(gone) => {gone}
    case _ => {}
  }

  ghost function Mapped(q: Proc): set<nat> {
    set v | v in q.pt && Counted(q, v) :: Backing(q, v)
  }

  ghost function Held(q: Proc): set<nat> {
    Mapped(q) + Temp(q.pc) + q.kpages
  }

  /** Pages the process may change. */
  ghost function Writable(q: Proc): set<nat> {
    (set v | v in q.pt && Counted(q, v) && (Swapped(q, v) || q.pt[v].w) :: Backing(q, v)) + Temp(q.pc) + q.kpages
  }

  // ---------------------------------------------------------------------------
  // States and steps
  // ---------------------------------------------------------------------------

  /** `first` is the first page after the kernel; `free` is kmem.freelist. */
  datatype State = State(first: nat, mem: seq<Page>, pgref: seq<nat>, free: seq<nat>, procs: map<Pid, Proc>)

  /** All page numbers in the process are below PHYSTOP. */
  ghost predicate InRam(q: Proc) {
    && (forall v | v in q.pt :: q.pt[v].pn < STOP && Backing(q, v) < STOP)
    && (forall r | r in Temp(q.pc) :: r < STOP)
    && (forall r | r in Loose(q.pc) :: r < STOP)
    && (forall r | r in q.kpages :: r < STOP)
  }

  function SetProc(s: State, p: Pid, q: Proc): State { s.(procs := s.procs[p := q]) }

  // --- user memory -----------------------------------------------------------

  /** A user store, or the memmove of copyout, to a page that is writable. */
  ghost predicate MayStore(s: State, p: Pid, v: nat) {
    && p in s.procs && s.procs[p].pc.User? && v in s.procs[p].pt
    && s.procs[p].pt[v].w && s.procs[p].pt[v].u && s.procs[p].pt[v].pn < |s.mem|
  }

  ghost function AfterStore(s: State, p: Pid, v: nat, data: Page): State
    requires MayStore(s, p, v)
  {
    s.(mem := s.mem[s.procs[p].pt[v].pn := data])
  }

  /** CowHandler up to the release of reflock. */
  ghost predicate MayFault(s: State, p: Pid, v: nat) {
    && p in s.procs && s.procs[p].pc.User? && v in s.procs[p].pt
    && s.procs[p].pt[v].u && s.procs[p].pt[v].cow
    && CowIndex(s.procs[p].pt[v]) < |s.pgref|
  }

  ghost function AfterFault(s: State, p: Pid, v: nat): State
    requires MayFault(s, p, v)
  {
    var q := s.procs[p];
    if s.pgref[CowIndex(q.pt[v])] == 1
    then SetProc(s, p, q.(pt := q.pt[v := q.pt[v].(w := true, cow := false)]))
    else SetProc(s, p, q.(pc := CowAlloc(v)))
  }

  /** memmove(mem, pa, PGSIZE) of CowHandler. */
  ghost predicate MayCopy(s: State, p: Pid) {
    && p in s.procs && s.procs[p].pc.CowCopy?
    && s.procs[p].pc.v in s.procs[p].pt && s.procs[p].pt[s.procs[p].pc.v].pn < |s.mem| && s.procs[p].pc.r < |s.mem|
  }

  ghost function AfterCopy(s: State, p: Pid): State
    requires MayCopy(s, p)
  {
    var q := s.procs[p];
    SetProc(s, p, q.(pc := CowFree(q.pc.v, q.pc.r))).(mem := s.mem[q.pc.r := s.mem[q.pt[q.pc.v].pn]])
  }

  /** The end of CowHandler: the entry now names the copy. */
  ghost predicate MaySetPte(s: State, p: Pid) {
    p in s.procs && s.procs[p].pc.CowSet? && s.procs[p].pc.v in s.procs[p].pt
  }

  ghost function AfterSetPte(s: State, p: Pid): State
    requires MaySetPte(s, p)
  {
    var q := s.procs[p];
    SetProc(s, p, q.(pt := q.pt[q.pc.v := Owned(q.pt[q.pc.v], q.pc.r)], pc := User))
  }

  // --- kalloc and kfree ------------------------------------------------------

  predicate Popping(pc: Pc) { pc.CowAlloc? || (pc.GrowAlloc? && pc.v < pc.hi) }

  /** kalloc up to the release of kmem.lock. */
  ghost predicate MayPop(s: State, p: Pid) {
    p in s.procs && Popping(s.procs[p].pc) && s.free != []
  }

  ghost function AfterPop(s: State, p: Pid): State
    requires MayPop(s, p)
  {
    var q, r := s.procs[p], s.free[0];
    var pc := if q.pc.CowAlloc? then CowPopped(q.pc.v, r) else GrowPopped(q.pc.v, q.pc.hi, r);
    SetProc(s, p, q.(pc := pc)).(free := s.free[1..])
  }

  /** kalloc returns 0: CowHandler fails with -2, and uvmalloc takes back its pages. */
  ghost predicate MayRunOut(s: State, p: Pid) {
    p in s.procs && Popping(s.procs[p].pc) && s.free == []
  }

  ghost function AfterRunOut(s: State, p: Pid): State
    requires MayRunOut(s, p)
  {
    var q := s.procs[p];
    SetProc(s, p, q.(pc := if q.pc.CowAlloc? then User else Unmap(q.np, q.pc.v, Resume)))
  }

  predicate Initing(pc: Pc) { pc.CowPopped? || pc.GrowPopped? || pc.KernPopped? }

  /** The caller of kalloc now has its page. */
  function Inited(q: Proc): Proc {
    match q.pc
    case CowPopped(v, r) => q.(pc := CowCopy(v, r))
    case GrowPopped(v, hi, r) => q.(pc := GrowMap(v, hi, r))
    case KernPopped(r) => q.(pc := User, kpages := q.kpages + {r})
    case _ => q
  }

  /** memset and setref(r, 1) of kalloc. */
  ghost predicate MayInit(s: State, p: Pid) {
    p in s.procs && Initing(s.procs[p].pc) && s.procs[p].pc.r < |s.mem| == |s.pgref|
  }

  ghost function AfterInit(s: State, p: Pid): State
    requires MayInit(s, p)
  {
    var r := s.procs[p].pc.r;
    SetProc(s, p, Inited(s.procs[p])).(mem := s.mem[r := Filled(5)], pgref := s.pgref[r := 1])
  }

  /** The page that the kfree of this process is about to give up. */
  predicate Dropping(q: Proc, pn: nat) {
    match q.pc
    case CowFree(v, _) => v in q.pt && pn == q.pt[v].pn
    case GrowUndo(_, r) => pn == r
    case Unmap(v, hi, _) => v < hi && v in q.pt && pn == q.pt[v].pn
    case _ => false
  }

  /** What the caller of kfree does when kfree returns. */
  function Freed(q: Proc): Pc {
    match q.pc
    case CowFree(v, r) => CowSet(v, r)
    case CowPush(v, r, _) => CowSet(v, r)
    case Unmap(v, hi, next) => UnmapClear(v, hi, next)
    case UnmapPush(v, hi, next, _) => UnmapClear(v, hi, next)
    case GrowUndo(v, _) => Unmap(q.np, v, Resume)
    case GrowUndoPush(v, _) => Unmap(q.np, v, Resume)
    case KernPush(_) => User
    case _ => q.pc
  }

  /** kfree with a page to put on the free list. */
  function Freeing(q: Proc, gone: nat): Pc {
    match q.pc
    case CowFree(v, r) => CowPush(v, r, gone)
    case Unmap(v, hi, next) => UnmapPush(v, hi, next, gone)
    case GrowUndo(v, _) => GrowUndoPush(v, gone)
    case _ => KernPush(gone)
  }

  /** The reflock section of kfree(pn). */
  ghost predicate MayDrop(s: State, p: Pid, pn: nat) {
    p in s.procs && Dropping(s.procs[p], pn) && pn < |s.pgref|
  }

  ghost function AfterDrop(s: State, p: Pid, pn: nat): State
    requires MayDrop(s, p, pn)
  {
    var q := s.procs[p];
    if s.pgref[pn] > 1
    then SetProc(s, p, q.(pc := Freed(q))).(pgref := s.pgref[pn := s.pgref[pn] - 1])
    else SetProc(s, p, q.(pc := Freeing(q, pn))).(pgref := s.pgref[pn := 0])
  }

  predicate Pushing(pc: Pc) { pc.CowPush? || pc.UnmapPush? || pc.GrowUndoPush? || pc.KernPush? }

  /** memset and the kmem.lock section of kfree. */
  ghost predicate MayPush(s: State, p: Pid) {
    p in s.procs && Pushing(s.procs[p].pc) && s.procs[p].pc.gone < |s.mem|
  }

  ghost function AfterPush(s: State, p: Pid): State
    requires MayPush(s, p)
  {
    var q := s.procs[p];
    SetProc(s, p, q.(pc := Freed(q))).(mem := s.mem[q.pc.gone := Filled(1)], free := [q.pc.gone] + s.free)
  }

  /** The kernel takes a page for itself, or gives one back. */
  ghost predicate MayKernAlloc(s: State, p: Pid) {
    p in s.procs && s.procs[p].pc.User? && s.free != []
  }

  ghost function AfterKernAlloc(s: State, p: Pid): State
    requires MayKernAlloc(s, p)
  {
    SetProc(s, p, s.procs[p].(pc := KernPopped(s.free[0]))).(free := s.free[1..])
  }

  ghost predicate MayKernFree(s: State, p: Pid, pn: nat) {
    p in s.procs && s.procs[p].pc.User? && pn in s.procs[p].kpages && pn < |s.pgref|
  }

  ghost function AfterKernFree(s: State, p: Pid, pn: nat): State
    requires MayKernFree(s, p, pn)
  {
    var q := s.procs[p].(kpages := s.procs[p].kpages - {pn});
    if s.pgref[pn] > 1
    then SetProc(s, p, q).(pgref := s.pgref[pn := s.pgref[pn] - 1])
    else SetProc(s, p, q.(pc := KernPush(pn))).(pgref := s.pgref[pn := 0])
  }

  // --- fork ------------------------------------------------------------------

  ghost predicate MayForkStart(s: State, p: Pid, c: Pid) {
    p in s.procs && s.procs[p].pc.User? && c !in s.procs
  }

  /** allocproc finds a slot: the table has NPROC of them, and the kernel is not in it. */
  ghost predicate HasSlot(s: State) { |s.procs| <= NPROC }

  ghost function AfterForkStart(s: State, p: Pid, c: Pid): State
    requires MayForkStart(s, p, c)
  {
    SetProc(SetProc(s, p, s.procs[p].(pc := Forking(c))), c, Proc(map[], 0, {}, Embryo(p, 0, false)))
  }

  /** p is in uvmcopy, with n pages of child c done. */
  ghost predicate Building(s: State, p: Pid, c: Pid, n: nat, pending: bool) {
    && p in s.procs && c in s.procs && c != p
    && s.procs[p].pc == Forking(c) && s.procs[c].pc == Embryo(p, n, pending)
  }

  /** One turn of uvmcopy's loop up to mappages: both tables now name the page, and
      neither may write it. */
  ghost predicate MayForkMap(s: State, p: Pid, c: Pid, n: nat) {
    Building(s, p, c, n, false) && n < s.procs[p].np && n in s.procs[p].pt
  }

  ghost function AfterForkMap(s: State, p: Pid, c: Pid, n: nat): State
    requires MayForkMap(s, p, c, n)
  {
    var e := Shared(s.procs[p].pt[n]);
    var parent, child := s.procs[p], s.procs[c];
    SetProc(SetProc(s, p, parent.(pt := parent.pt[n := e])), c, child.(pt := child.pt[n := e], pc := Embryo(p, n, true)))
  }

  /** incref(pa) of uvmcopy. */
  ghost predicate MayForkRef(s: State, p: Pid, c: Pid, n: nat) {
    Building(s, p, c, n, true) && n in s.procs[c].pt && s.procs[c].pt[n].pn < |s.pgref|
  }

  ghost function AfterForkRef(s: State, p: Pid, c: Pid, n: nat): State
    requires MayForkRef(s, p, c, n)
  {
    var pn := s.procs[c].pt[n].pn;
    SetProc(s, c, s.procs[c].(pc := Embryo(p, n + 1, false))).(pgref := s.pgref[pn := s.pgref[pn] + 1])
  }

  ghost predicate MayForkDone(s: State, p: Pid, c: Pid) {
    p in s.procs && Building(s, p, c, s.procs[p].np, false)
  }

  ghost function AfterForkDone(s: State, p: Pid, c: Pid): State
    requires MayForkDone(s, p, c)
  {
    SetProc(SetProc(s, p, s.procs[p].(pc := User)), c, s.procs[c].(np := s.procs[p].np, pc := User))
  }

  /** mappages fails at page n, after the parent's entry has been changed. */
  ghost predicate MayForkFail(s: State, p: Pid, c: Pid, n: nat) {
    Building(s, p, c, n, false) && n < s.procs[p].np && n in s.procs[p].pt
  }

  ghost function AfterForkFail(s: State, p: Pid, c: Pid, n: nat): State
    requires MayForkFail(s, p, c, n)
  {
    var parent := s.procs[p];
    SetProc(SetProc(s, p, parent.(pt := parent.pt[n := Shared(parent.pt[n])], pc := User)),
            c, s.procs[c].(pc := Unmap(0, n, Abandon)))
  }

  // --- sbrk and exit ---------------------------------------------------------

  ghost predicate MayGrow(s: State, p: Pid, hi: nat) {
    p in s.procs && s.procs[p].pc.User? && s.procs[p].np <= hi
  }

  ghost function AfterGrow(s: State, p: Pid, hi: nat): State
    requires MayGrow(s, p, hi)
  {
    SetProc(s, p, s.procs[p].(pc := GrowAlloc(s.procs[p].np, hi)))
  }

  /** memset(mem, 0, PGSIZE) and a mappages that succeeds; `w` and `x` are uvmalloc's xperm. */
  ghost predicate MayMapPage(s: State, p: Pid) {
    p in s.procs && s.procs[p].pc.GrowMap? && s.procs[p].pc.r < |s.mem|
  }

  function MappedIn(q: Proc, w: bool, x: bool): Proc
    requires q.pc.GrowMap?
  {
    q.(pt := q.pt[q.pc.v := Pte(q.pc.r, w, x, true, false)], pc := GrowAlloc(q.pc.v + 1, q.pc.hi))
  }

  ghost function AfterMapPage(s: State, p: Pid, w: bool, x: bool): State
    requires MayMapPage(s, p)
  {
    SetProc(s, p, MappedIn(s.procs[p], w, x)).(mem := s.mem[s.procs[p].pc.r := ZeroPage()])
  }

  ghost predicate MayMapFail(s: State, p: Pid) {
    p in s.procs && s.procs[p].pc.GrowMap?
  }

  ghost function AfterMapFail(s: State, p: Pid): State
    requires MayMapFail(s, p)
  {
    SetProc(s, p, s.procs[p].(pc := GrowUndo(s.procs[p].pc.v, s.procs[p].pc.r)))
  }

  ghost predicate MayGrowDone(s: State, p: Pid) {
    p in s.procs && s.procs[p].pc.GrowAlloc? && s.procs[p].pc.v == s.procs[p].pc.hi
  }

  ghost function AfterGrowDone(s: State, p: Pid): State
    requires MayGrowDone(s, p)
  {
    SetProc(s, p, s.procs[p].(np := s.procs[p].pc.hi, pc := User))
  }

  ghost predicate MayShrink(s: State, p: Pid, lo: nat, next: Then) {
    && p in s.procs && s.procs[p].pc.User?
    && (next.Resume? ==> lo < s.procs[p].np)
    && (next.Vanish? ==> lo == 0 && s.procs[p].kpages == {})
    && !next.Abandon?
  }

  /** uvmdealloc down to lo pages, or the freeing of all pages of an exited process. */
  ghost function AfterShrink(s: State, p: Pid, lo: nat, next: Then): State
    requires MayShrink(s, p, lo, next)
  {
    SetProc(s, p, s.procs[p].(np := lo, pc := Unmap(lo, s.procs[p].np, next)))
  }

  ghost predicate MayClear(s: State, p: Pid) {
    p in s.procs && s.procs[p].pc.UnmapClear?
  }

  function Cleared(q: Proc): Proc
    requires q.pc.UnmapClear?
  {
    Proc(q.pt - {q.pc.v}, q.np, q.kpages, Unmap(q.pc.v + 1, q.pc.hi, q.pc.next))
  }

  /** *pte = 0 of uvmunmap. */
  ghost function AfterClear(s: State, p: Pid): State
    requires MayClear(s, p)
  {
    SetProc(s, p, Cleared(s.procs[p]))
  }

  ghost predicate MayUnmapDone(s: State, p: Pid) {
    p in s.procs && s.procs[p].pc.Unmap? && s.procs[p].pc.v >= s.procs[p].pc.hi
  }

  ghost function AfterUnmapDone(s: State, p: Pid): State
    requires MayUnmapDone(s, p)
  {
    if s.procs[p].pc.next.Resume? then SetProc(s, p, s.procs[p].(pc := User))
    else s.(procs := s.procs - {p})
  }

  // ---------------------------------------------------------------------------
  // The machine
  // ---------------------------------------------------------------------------

  datatype Step =
    | Store(p: Pid, v: nat, data: Page)
    | Fault(p: Pid, v: nat)
    | Copy(p: Pid)
    | SetPte(p: Pid)
    | Pop(p: Pid)
    | RunOut(p: Pid)
    | Init(p: Pid)
    | Drop(p: Pid, pn: nat)
    | Push(p: Pid)
    | KernAlloc(p: Pid)
    | KernFree(p: Pid, pn: nat)
    | ForkStart(p: Pid, c: Pid)
    | ForkMap(p: Pid, c: Pid, n: nat)
    | ForkRef(p: Pid, c: Pid, n: nat)
    | ForkDone(p: Pid, c: Pid)
    | ForkFail(p: Pid, c: Pid, n: nat)
    | Grow(p: Pid, hi: nat)
    | MapPage(p: Pid, w: bool, x: bool)
    | MapFail(p: Pid)
    | GrowDone(p: Pid)
    | Shrink(p: Pid, lo: nat, next: Then)
    | Clear(p: Pid)
    | UnmapDone(p: Pid)

  ghost predicate Next(s: State, st: Step, t: State) {
    match st
    case Store(p, v, data) => MayStore(s, p, v) && t == AfterStore(s, p, v, data)
    case Fault(p, v) => MayFault(s, p, v) && t == AfterFault(s, p, v)
    case Copy(p) => MayCopy(s, p) && t == AfterCopy(s, p)
    case SetPte(p) => MaySetPte(s, p) && t == AfterSetPte(s, p)
    case Pop(p) => MayPop(s, p) && t == AfterPop(s, p)
    case RunOut(p) => MayRunOut(s, p) && t == AfterRunOut(s, p)
    case Init(p) => MayInit(s, p) && t == AfterInit(s, p)
    case Drop(p, pn) => MayDrop(s, p, pn) && t == AfterDrop(s, p, pn)
    case Push(p) => MayPush(s, p) && t == AfterPush(s, p)
    case KernAlloc(p) => MayKernAlloc(s, p) && t == AfterKernAlloc(s, p)
    case KernFree(p, pn) => MayKernFree(s, p, pn) && t == AfterKernFree(s, p, pn)
    case ForkStart(p, c) => MayForkStart(s, p, c) && HasSlot(s) && t == AfterForkStart(s, p, c)
    case ForkMap(p, c, n) => MayForkMap(s, p, c, n) && t == AfterForkMap(s, p, c, n)
    case ForkRef(p, c, n) => MayForkRef(s, p, c, n) && t == AfterForkRef(s, p, c, n)
    case ForkDone(p, c) => MayForkDone(s, p, c) && t == AfterForkDone(s, p, c)
    case ForkFail(p, c, n) => MayForkFail(s, p, c, n) && t == AfterForkFail(s, p, c, n)
    case Grow(p, hi) => MayGrow(s, p, hi) && t == AfterGrow(s, p, hi)
    case MapPage(p, w, x) => MayMapPage(s, p) && t == AfterMapPage(s, p, w, x)
    case MapFail(p) => MayMapFail(s, p) && t == AfterMapFail(s, p)
    case GrowDone(p) => MayGrowDone(s, p) && t == AfterGrowDone(s, p)
    case Shrink(p, lo, next) => MayShrink(s, p, lo, next) && t == AfterShrink(s, p, lo, next)
    case Clear(p) => MayClear(s, p) && t == AfterClear(s, p)
    case UnmapDone(p) => MayUnmapDone(s, p) && t == AfterUnmapDone(s, p)
  }

  // ---------------------------------------------------------------------------
  // The specification: fork duplicates every page
  // ---------------------------------------------------------------------------

  /** What the user of a page may do with it, besides reading. */
  datatype Rights = Rights(write: bool, execute: bool, user: bool)

  datatype UserPage = UserPage(data: Page, rights: Rights)

  type Eager = map<Pid, map<nat, UserPage>>

  datatype Event =
    | Silent
    | Write(p: Pid, v: nat, data: Page)
    | Duplicate(p: Pid, c: Pid)
    | Extend(p: Pid, v: nat, w: bool, x: bool)
    | Release(p: Pid, v: nat)
    | End(p: Pid)

  function SetPage(m: map<nat, UserPage>, v: nat, page: UserPage): map<nat, UserPage> { m[v := page] }

  /** The page that uvmalloc adds. */
  function NewPage(w: bool, x: bool): UserPage { UserPage(ZeroPage(), Rights(w, x, true)) }

  ghost predicate EagerNext(a: Eager, e: Event, b: Eager) {
    match e
    case Silent => b == a
    case Write(p, v, data) =>
      && p in a && v in a[p] && a[p][v].rights.write && a[p][v].rights.user
      && b == a[p := SetPage(a[p], v, a[p][v].(data := data))]
    case Duplicate(p, c) => p in a && c !in a && b == a[c := a[p]]
    case Extend(p, v, w, x) => p in a && v !in a[p] && b == a[p := SetPage(a[p], v, NewPage(w, x))]
    case Release(p, v) => p in a && v in a[p] && b == a[p := a[p] - {v}]
    case End(p) => p in a && a[p] == map[] && b == a - {p}
  }

  /** The event of the eager machine that a step is: which page sbrk adds, which page is given up.
      Giving up the shared page of CowHandler, the page of a failed uvmalloc, or a page of a child
      that fork could not complete is none. */
  ghost function Meaning(s: State, st: Step): Event {
    match st
    case Store(p, v, data) => Write(p, v, data)
    case ForkDone(p, c) => Duplicate(p, c)
    case MapPage(p, w, x) => if p in s.procs && s.procs[p].pc.GrowMap? then Extend(p, s.procs[p].pc.v, w, x) else Silent
    case Drop(p, _) => if p in s.procs && s.procs[p].pc.Unmap? && Live(s.procs[p]) then Release(p, s.procs[p].pc.v) else Silent
    case UnmapDone(p) => if p in s.procs && s.procs[p].pc.Unmap? && s.procs[p].pc.next.Vanish? then End(p) else Silent
    case _ => Silent
  }

  /** A process that exists for its user: not a child still being built or being undone. */
  predicate Live(q: Proc) {
    match q.pc
    case Embryo(_, _, _) => false
    case Unmap(_, _, next) => !next.Abandon?
    case UnmapPush(_, _, next, _) => !next.Abandon?
    case UnmapClear(_, _, next) => !next.Abandon?
    case _ => true
  }

  /** What an entry stands for: a copy-on-write page is one that its user may write. */
  function RightsOf(e: Pte): Rights { Rights(e.w || e.cow, e.x, e.u) }

  /** The memory a process sees. */
  ghost function View(mem: seq<Page>, q: Proc): map<nat, UserPage>
    requires forall v | v in q.pt :: Backing(q, v) < |mem|
  {
    map v | v in q.pt && Counted(q, v) :: UserPage(mem[Backing(q, v)], RightsOf(q.pt[v]))
  }
}
