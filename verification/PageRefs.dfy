/** Reference counts and the free list, for processes of which only the pages matter. */
module PageRefs {
  import opened Counting
  import opened CowMemory

  /** Pages a process holds references to, pages it has in hand between the counts and
      the free list, and pages it may change. */
  datatype Foot = Foot(held: set<nat>, loose: set<nat>, writable: set<nat>)

  type Feet = map<Pid, Foot>

  ghost function Holders(feet: Feet, pn: nat): set<Pid> {
    set p | p in feet && pn in feet[p].held
  }

  ghost predicate InRange(first: nat, pn: nat) { first <= pn < STOP }

  /** pgref is the number of holders of every page, and 0 below the allocator's pages. */
  ghost predicate Exact(first: nat, pgref: seq<nat>, feet: Feet) {
    && |pgref| == STOP
    && (forall k | 0 <= k < first && k < STOP :: pgref[k] == 0)
    && (forall k | first <= k < STOP :: pgref[k] == |Holders(feet, k)|)
  }

  /** The free list holds each of its pages once, and no page of it is counted. */
  ghost predicate FreeOk(first: nat, pgref: seq<nat>, free: seq<nat>) {
    && Distinct(free)
    && forall k | 0 <= k < |free| :: InRange(first, free[k]) && free[k] < |pgref| && pgref[free[k]] == 0
  }

  ghost predicate FootOk(first: nat, pgref: seq<nat>, free: seq<nat>, f: Foot) {
    && f.writable <= f.held
    && (forall x | x in f.held :: InRange(first, x))
    && (forall x | x in f.loose :: InRange(first, x) && x < |pgref| && pgref[x] == 0 && x !in free)
  }

  /** A loose page is in one hand, and a page that one process may change is held by no other. */
  ghost predicate Apart(f: Foot, g: Foot) {
    && f.loose !! g.loose
    && f.writable !! g.held
    && f.held !! g.writable
  }

  /** An uncounted page is on the free list or in somebody's hand. */
  ghost predicate Found(pgref: seq<nat>, free: seq<nat>, feet: Feet, pn: nat) {
    pn < |pgref| && pgref[pn] == 0 ==> pn in free || InHand(feet, pn)
  }

  ghost predicate InHand(feet: Feet, pn: nat) {
    exists p :: p in feet && pn in feet[p].loose
  }

  ghost predicate AllocInv(first: nat, pgref: seq<nat>, free: seq<nat>, feet: Feet) {
    && Exact(first, pgref, feet)
    && FreeOk(first, pgref, free)
    && (forall p | p in feet :: FootOk(first, pgref, free, feet[p]))
    && (forall p, q | p in feet && q in feet && p != q :: Apart(feet[p], feet[q]))
    && (forall pn: nat | InRange(first, pn) :: Found(pgref, free, feet, pn))
  }

  lemma HoldersSet(feet: Feet, p: Pid, f: Foot, pn: nat)
    ensures Holders(feet[p := f], pn) ==
      if pn in f.held then Holders(feet, pn) + {p} else Holders(feet, pn) - {p}
  {
  }

  lemma ExactAdd(first: nat, pgref: seq<nat>, feet: Feet, p: Pid, f: Foot, pn: nat)
    requires Exact(first, pgref, feet) && p in feet && InRange(first, pn)
    requires pn !in feet[p].held && f.held == feet[p].held + {pn}
    ensures Exact(first, pgref[pn := pgref[pn] + 1], feet[p := f])
  {
    var pgref' := pgref[pn := pgref[pn] + 1];
    forall k | first <= k < STOP ensures pgref'[k] == |Holders(feet[p := f], k)| {
      HoldersSet(feet, p, f, k);
      assert p in Holders(feet, k) <==> k in feet[p].held;
      if k != pn { assert Holders(feet[p := f], k) == Holders(feet, k); }
    }
  }

  lemma ExactRemove(first: nat, pgref: seq<nat>, feet: Feet, p: Pid, f: Foot, pn: nat)
    requires Exact(first, pgref, feet) && p in feet && InRange(first, pn)
    requires pn in feet[p].held && f.held == feet[p].held - {pn}
    ensures pgref[pn] > 0 && Exact(first, pgref[pn := pgref[pn] - 1], feet[p := f])
  {
    assert p in Holders(feet, pn);
    var pgref' := pgref[pn := pgref[pn] - 1];
    forall k | first <= k < STOP ensures pgref'[k] == |Holders(feet[p := f], k)| {
      HoldersSet(feet, p, f, k);
      assert p in Holders(feet, k) <==> k in feet[p].held;
      if k != pn { assert Holders(feet[p := f], k) == Holders(feet, k); }
    }
  }

  lemma ExactSame(first: nat, pgref: seq<nat>, feet: Feet, p: Pid, f: Foot)
    requires Exact(first, pgref, feet) && f.held == if p in feet then feet[p].held else {}
    ensures Exact(first, pgref, feet[p := f])
  {
    forall k | first <= k < STOP ensures Holders(feet[p := f], k) == Holders(feet, k) {
      HoldersSet(feet, p, f, k);
    }
  }

  /** A page with no count has no holder, and one with a count of 1 only one. */
  lemma FewHolders(first: nat, pgref: seq<nat>, feet: Feet, pn: nat, p: Pid, q: Pid)
    requires Exact(first, pgref, feet) && InRange(first, pn) && p in feet && q in feet
    ensures pgref[pn] == 0 ==> pn !in feet[p].held
    ensures pgref[pn] <= 1 && pn in feet[p].held && p != q ==> pn !in feet[q].held
  {
    var h := Holders(feet, pn);
    assert p in h <==> pn in feet[p].held;
    assert q in h <==> pn in feet[q].held;
    if p in h && q in h && p != q { SubsetCount({p, q}, h); }
  }

  /** A page that somebody may change has a count of 1. */
  lemma SoleHolder(first: nat, pgref: seq<nat>, free: seq<nat>, feet: Feet, p: Pid, pn: nat)
    requires AllocInv(first, pgref, free, feet) && p in feet && pn in feet[p].writable
    ensures pn < STOP == |pgref| && pgref[pn] == 1
  {
    assert FootOk(first, pgref, free, feet[p]);
    forall r ensures r in Holders(feet, pn) <==> r == p {
      if r in feet && r != p { assert Apart(feet[p], feet[r]); }
    }
    assert Holders(feet, pn) == {p};
  }

  /** Pages that stay loose, or stay counted, are still accounted for. */
  lemma FoundKeeps(first: nat, pgref: seq<nat>, pgref': seq<nat>, free: seq<nat>, free': seq<nat>, feet: Feet, feet': Feet)
    requires |pgref| == |pgref'| == STOP
    requires forall x: nat | InRange(first, x) :: Found(pgref, free, feet, x)
    requires forall x: nat | InRange(first, x) && pgref'[x] == 0 && pgref[x] != 0 :: InHand(feet', x)
    requires forall x: nat | x in free && x < STOP && pgref'[x] == 0 :: x in free' || InHand(feet', x)
    requires forall q, x | q in feet && x in feet[q].loose && x < STOP && pgref'[x] == 0 :: x in free' || InHand(feet', x)
    ensures forall x: nat | InRange(first, x) :: Found(pgref', free', feet', x)
  {
    forall x: nat | InRange(first, x) ensures Found(pgref', free', feet', x) {
      assert Found(pgref, free, feet, x);
    }
  }

  /** kalloc takes the first page of the free list. */
  lemma TakeFree(first: nat, pgref: seq<nat>, free: seq<nat>, feet: Feet, p: Pid, feet': Feet)
    requires AllocInv(first, pgref, free, feet)
    requires p in feet && feet[p].loose == {} && free != []
    requires feet' == feet[p := feet[p].(loose := {free[0]})]
    ensures AllocInv(first, pgref, free[1..], feet')
  {
    ExactSame(first, pgref, feet, p, feet'[p]);
    forall q | q in feet' ensures FootOk(first, pgref, free[1..], feet'[q]) {
      assert FootOk(first, pgref, free, feet[q]);
    }
    forall q, t | q in feet' && t in feet' && q != t ensures Apart(feet'[q], feet'[t]) {
      assert Apart(feet[q], feet[t]);
      assert FootOk(first, pgref, free, feet[q]) && FootOk(first, pgref, free, feet[t]);
    }
    forall x | x in free ensures x in free[1..] || InHand(feet', x) { assert x == free[0] ==> x in feet'[p].loose; }
    forall q, x | q in feet && x in feet[q].loose ensures InHand(feet', x) { assert q in feet' && x in feet'[q].loose; }
    FoundKeeps(first, pgref, pgref, free, free[1..], feet, feet');
  }

  /** kalloc gives its caller the page with a count of 1. */
  lemma Adopt(first: nat, pgref: seq<nat>, free: seq<nat>, feet: Feet, p: Pid, r: nat, feet': Feet)
    requires AllocInv(first, pgref, free, feet)
    requires p in feet && feet[p].loose == {r}
    requires feet' == feet[p := Foot(feet[p].held + {r}, {}, feet[p].writable + {r})]
    ensures r < STOP && AllocInv(first, pgref[r := 1], free, feet')
  {
    assert FootOk(first, pgref, free, feet[p]);
    FewHolders(first, pgref, feet, r, p, p);
    ExactAdd(first, pgref, feet, p, feet'[p], r);
    var pgref' := pgref[r := 1];
    forall q | q in feet' ensures FootOk(first, pgref', free, feet'[q]) {
      assert FootOk(first, pgref, free, feet[q]);
      if q != p { assert Apart(feet[p], feet[q]); }
    }
    forall q, t | q in feet' && t in feet' && q != t ensures Apart(feet'[q], feet'[t]) {
      assert Apart(feet[q], feet[t]);
      assert FootOk(first, pgref, free, feet[q]) && FootOk(first, pgref, free, feet[t]);
      FewHolders(first, pgref, feet, r, q, t);
      FewHolders(first, pgref, feet, r, t, q);
    }
    forall q, x | q in feet && x in feet[q].loose && x < STOP && pgref'[x] == 0 ensures InHand(feet', x) { assert q in feet' && x in feet'[q].loose; }
    FoundKeeps(first, pgref, pgref', free, free, feet, feet');
  }

  /** kfree gives up one of several references. */
  lemma DropShared(first: nat, pgref: seq<nat>, free: seq<nat>, feet: Feet, p: Pid, pn: nat, feet': Feet)
    requires AllocInv(first, pgref, free, feet)
    requires p in feet && pn in feet[p].held && pn < STOP && pgref[pn] > 1
    requires feet' == feet[p := Foot(feet[p].held - {pn}, feet[p].loose, feet[p].writable - {pn})]
    ensures AllocInv(first, pgref[pn := pgref[pn] - 1], free, feet')
  {
    assert FootOk(first, pgref, free, feet[p]);
    ExactRemove(first, pgref, feet, p, feet'[p], pn);
    var pgref' := pgref[pn := pgref[pn] - 1];
    forall q | q in feet' ensures FootOk(first, pgref', free, feet'[q]) {
      assert FootOk(first, pgref, free, feet[q]);
    }
    forall q, t | q in feet' && t in feet' && q != t ensures Apart(feet'[q], feet'[t]) {
      assert Apart(feet[q], feet[t]);
    }
    forall q, x | q in feet && x in feet[q].loose ensures InHand(feet', x) { assert q in feet' && x in feet'[q].loose; }
    FoundKeeps(first, pgref, pgref', free, free, feet, feet');
  }

  /** kfree gives up the last reference. */
  lemma DropLast(first: nat, pgref: seq<nat>, free: seq<nat>, feet: Feet, p: Pid, pn: nat, feet': Feet)
    requires AllocInv(first, pgref, free, feet)
    requires p in feet && pn in feet[p].held && pn < STOP && pgref[pn] <= 1 && feet[p].loose == {}
    requires feet' == feet[p := Foot(feet[p].held - {pn}, {pn}, feet[p].writable - {pn})]
    ensures AllocInv(first, pgref[pn := 0], free, feet')
  {
    assert FootOk(first, pgref, free, feet[p]);
    ExactRemove(first, pgref, feet, p, feet'[p], pn);
    var pgref' := pgref[pn := 0];
    assert pn !in free;
    forall q | q in feet' ensures FootOk(first, pgref', free, feet'[q]) {
      assert FootOk(first, pgref, free, feet[q]);
    }
    forall q, t | q in feet' && t in feet' && q != t ensures Apart(feet'[q], feet'[t]) {
      assert Apart(feet[q], feet[t]);
      assert FootOk(first, pgref, free, feet[q]) && FootOk(first, pgref, free, feet[t]);
    }
    assert InHand(feet', pn) by { assert p in feet' && pn in feet'[p].loose; }
    forall q, x | q in feet && x in feet[q].loose ensures InHand(feet', x) { assert q in feet' && x in feet'[q].loose; }
    FoundKeeps(first, pgref, pgref', free, free, feet, feet');
  }

  /** kfree puts the page on the free list. */
  lemma PushFree(first: nat, pgref: seq<nat>, free: seq<nat>, feet: Feet, p: Pid, gone: nat, feet': Feet)
    requires AllocInv(first, pgref, free, feet)
    requires p in feet && feet[p].loose == {gone}
    requires feet' == feet[p := feet[p].(loose := {})]
    ensures AllocInv(first, pgref, [gone] + free, feet')
  {
    assert FootOk(first, pgref, free, feet[p]);
    ExactSame(first, pgref, feet, p, feet'[p]);
    forall q | q in feet' ensures FootOk(first, pgref, [gone] + free, feet'[q]) {
      assert FootOk(first, pgref, free, feet[q]);
      if q != p { assert Apart(feet[p], feet[q]); }
    }
    forall q, t | q in feet' && t in feet' && q != t ensures Apart(feet'[q], feet'[t]) {
      assert Apart(feet[q], feet[t]);
    }
    forall q, x | q in feet && x in feet[q].loose ensures x in [gone] + free || InHand(feet', x) {
      assert q in feet' && (q != p ==> x in feet'[q].loose);
    }
    FoundKeeps(first, pgref, pgref, free, [gone] + free, feet, feet');
  }

  /** fork counts another holder of a page that nobody may change. */
  lemma ShareApart(feet: Feet, p: Pid, c: Pid, pn: nat, q: Pid, t: Pid)
    requires forall x, y | x in feet && y in feet && x != y :: Apart(feet[x], feet[y])
    requires p in feet && c in feet && p != c && pn in feet[p].held && pn !in feet[p].writable
    requires q in feet && t in feet && q != t
    ensures var feet' := feet[c := feet[c].(held := feet[c].held + {pn})]; Apart(feet'[q], feet'[t])
  {
    assert Apart(feet[q], feet[t]);
    if q != p { assert Apart(feet[p], feet[q]); }
    if t != p { assert Apart(feet[p], feet[t]); }
  }

  lemma Share(first: nat, pgref: seq<nat>, free: seq<nat>, feet: Feet, p: Pid, c: Pid, pn: nat, feet': Feet)
    requires AllocInv(first, pgref, free, feet)
    requires p in feet && c in feet && p != c && pn in feet[p].held && pn !in feet[p].writable && pn !in feet[c].held
    requires feet' == feet[c := feet[c].(held := feet[c].held + {pn})]
    ensures pn < STOP && AllocInv(first, pgref[pn := pgref[pn] + 1], free, feet')
  {
    hide Apart;
    assert FootOk(first, pgref, free, feet[p]) && FootOk(first, pgref, free, feet[c]);
    ExactAdd(first, pgref, feet, c, feet'[c], pn);
    FewHolders(first, pgref, feet, pn, p, c);
    var pgref' := pgref[pn := pgref[pn] + 1];
    forall q | q in feet' ensures FootOk(first, pgref', free, feet'[q]) {
      assert FootOk(first, pgref, free, feet[q]);
    }
    forall q, t | q in feet' && t in feet' && q != t ensures Apart(feet'[q], feet'[t]) {
      ShareApart(feet, p, c, pn, q, t);
    }
    forall q, x | q in feet && x in feet[q].loose ensures InHand(feet', x) { assert q in feet' && x in feet'[q].loose; }
    FoundKeeps(first, pgref, pgref', free, free, feet, feet');
  }

  /** A process that may change fewer pages than before, or a new one without pages. */
  lemma Restrict(first: nat, pgref: seq<nat>, free: seq<nat>, feet: Feet, p: Pid, f: Foot)
    requires AllocInv(first, pgref, free, feet)
    requires p in feet ==> f.held == feet[p].held && f.loose == feet[p].loose && f.writable <= feet[p].writable
    requires p !in feet ==> f == Foot({}, {}, {})
    ensures AllocInv(first, pgref, free, feet[p := f])
  {
    var feet' := feet[p := f];
    ExactSame(first, pgref, feet, p, f);
    forall q | q in feet' ensures FootOk(first, pgref, free, feet'[q]) {
      if q in feet { assert FootOk(first, pgref, free, feet[q]); }
    }
    forall q, t | q in feet' && t in feet' && q != t ensures Apart(feet'[q], feet'[t]) {
      if q in feet && t in feet { assert Apart(feet[q], feet[t]); }
    }
    forall q, x | q in feet && x in feet[q].loose ensures InHand(feet', x) { assert q in feet' && x in feet'[q].loose; }
    FoundKeeps(first, pgref, pgref, free, free, feet, feet');
  }

  /** A process without pages can go. */
  lemma Forget(first: nat, pgref: seq<nat>, free: seq<nat>, feet: Feet, p: Pid)
    requires AllocInv(first, pgref, free, feet)
    requires p in feet && feet[p].held == {} && feet[p].loose == {}
    ensures AllocInv(first, pgref, free, feet - {p})
  {
    var feet' := feet - {p};
    forall x ensures Holders(feet', x) == Holders(feet, x) { }
    forall q | q in feet' ensures FootOk(first, pgref, free, feet'[q]) { assert FootOk(first, pgref, free, feet[q]); }
    forall q, t | q in feet' && t in feet' && q != t ensures Apart(feet'[q], feet'[t]) { assert Apart(feet[q], feet[t]); }
    forall q, x | q in feet && x in feet[q].loose ensures InHand(feet', x) { assert q in feet' && x in feet'[q].loose; }
    FoundKeeps(first, pgref, pgref, free, free, feet, feet');
  }

  /** The same pages in the same hands, apart from what may be written. */
  ghost predicate SameHands(feet: Feet, feet': Feet) {
    && feet.Keys == feet'.Keys
    && forall p | p in feet :: feet[p].held == feet'[p].held && feet[p].loose == feet'[p].loose
  }

  /** Who has which pages decides the counts and the content of the free list. */
  lemma HandsDecide(first: nat, pgref: seq<nat>, free: seq<nat>, feet: Feet, pgref': seq<nat>, free': seq<nat>, feet': Feet)
    requires AllocInv(first, pgref, free, feet) && AllocInv(first, pgref', free', feet') && SameHands(feet, feet')
    ensures pgref == pgref' && Elements(free) == Elements(free')
  {
    forall k | 0 <= k < STOP ensures pgref[k] == pgref'[k] {
      if k >= first { assert Holders(feet, k) == Holders(feet', k); }
    }
    forall pn: nat ensures pn in free <==> pn in free' {
      FreeIff(first, pgref, free, feet, pn);
      FreeIff(first, pgref', free', feet', pn);
      assert InHand(feet, pn) <==> InHand(feet', pn);
    }
    assert forall pn :: pn in Elements(free) <==> pn in Elements(free');
  }

  lemma FreeIff(first: nat, pgref: seq<nat>, free: seq<nat>, feet: Feet, pn: nat)
    requires AllocInv(first, pgref, free, feet)
    ensures pn in free <==> InRange(first, pn) && pgref[pn] == 0 && !InHand(feet, pn)
  {
    if InRange(first, pn) { assert Found(pgref, free, feet, pn); }
  }
}
