/** walk, mappages, uvmunmap and freewalk as methods on the tables. */
module PageTableCode {
  import opened Counting
  import opened PageTable

  /** Table u is t, or hangs below it. */
  predicate IsUnder(sh: Shape, u: nat, t: nat) {
    u == t || (u in sh.up && (sh.up[u].table == t || (sh.up[u].table in sh.up && sh.up[sh.up[u].table].table == t)))
  }

  /** The tables of the subtree at t. */
  ghost function Under(sh: Shape, t: nat): set<nat> { set u | u in sh.level && IsUnder(sh, u, t) }

  /** The index in t through which table u hangs below it. */
  function Via(sh: Shape, u: nat, t: nat): nat {
    if u !in sh.up then 0
    else if sh.up[u].table == t || sh.up[u].table !in sh.up then sh.up[u].index
    else sh.up[sh.up[u].table].index
  }

  /** The tables below t through entries before i. */
  ghost function UnderBefore(sh: Shape, t: nat, i: nat): set<nat> {
    set u | u in sh.level && u != t && IsUnder(sh, u, t) && Via(sh, u, t) < i
  }

  lemma UnderAll(tables: Tables, sh: Shape, t: nat)
    requires Tree(tables, sh) && t in tables
    ensures UnderBefore(sh, t, 0) == {} && UnderBefore(sh, t, ENTRIES) + {t} == Under(sh, t)
  {
    forall u | u in Under(sh, t) ensures u in UnderBefore(sh, t, ENTRIES) + {t} {
      if u != t {
        assert HangsAt(tables, sh, u, sh.up[u]);
        if sh.up[u].table in sh.up { assert HangsAt(tables, sh, sh.up[u].table, sh.up[sh.up[u].table]); }
      }
    }
  }

  /** One more entry of t: the subtree of the table it points to, if any. */
  lemma UnderNext(tables: Tables, sh: Shape, t: nat, i: nat)
    requires Tree(tables, sh) && t in tables && i < ENTRIES
    ensures tables[t][i].v && sh.level[t] > 0 ==>
      && tables[t][i].ppn in tables && sh.level[tables[t][i].ppn] == sh.level[t] - 1 && tables[t][i].ppn != t
      && UnderBefore(sh, t, i + 1) == UnderBefore(sh, t, i) + Under(sh, tables[t][i].ppn)
      && UnderBefore(sh, t, i) !! Under(sh, tables[t][i].ppn) && t !in Under(sh, tables[t][i].ppn)
    ensures !tables[t][i].v || sh.level[t] == 0 ==> UnderBefore(sh, t, i + 1) == UnderBefore(sh, t, i)
    ensures UnderBefore(sh, t, i + 1) <= Under(sh, t)
  {
    assert EntryOk(tables, sh, t, i);
    forall u | u in sh.level && u != t && IsUnder(sh, u, t) && Via(sh, u, t) == i
      ensures tables[t][i].v && sh.level[t] > 0 && IsUnder(sh, u, tables[t][i].ppn)
    {
      assert HangsAt(tables, sh, u, sh.up[u]);
      if sh.up[u].table != t { assert HangsAt(tables, sh, sh.up[u].table, sh.up[sh.up[u].table]); }
    }
    if tables[t][i].v && sh.level[t] > 0 {
      var c := tables[t][i].ppn;
      assert HangsAt(tables, sh, c, sh.up[c]);
      forall u | u in Under(sh, c) ensures u != t && IsUnder(sh, u, t) && Via(sh, u, t) == i {
        if u != c {
          assert HangsAt(tables, sh, u, sh.up[u]);
        }
      }
    }
  }

  /** No level 0 table has a valid entry. */
  ghost predicate NoLeaves(tables: Tables, sh: Shape) {
    forall t, i: nat | t in tables && t in sh.level && sh.level[t] == 0 && i < ENTRIES :: !tables[t][i].v
  }

  /** When no page is mapped there are no leaves. */
  lemma EmptyMapNoLeaves(tables: Tables, sh: Shape)
    requires Tree(tables, sh) && forall a: nat | a < VPNS :: !Get(tables, sh.root, a).v
    ensures NoLeaves(tables, sh)
  {
    forall t, i: nat | t in tables && t in sh.level && sh.level[t] == 0 && i < ENTRIES ensures !tables[t][i].v {
      assert HangsAt(tables, sh, t, sh.up[t]);
      var t1 := sh.up[t].table;
      assert t1 in sh.up && HangsAt(tables, sh, t1, sh.up[t1]);
      var i1, i2 := sh.up[t].index, sh.up[t1].index;
      OnlyRoot(tables, sh, sh.up[t1].table);
      assert i2 < ENTRIES / 2;
      var a := (i2 * ENTRIES + i1) * ENTRIES + i;
      PxOf(i2, i1, i);
      assert OnPath(tables, sh, a, t, 0);
      PathIsLast(tables, sh, a, t);
      assert Get(tables, sh.root, a) == tables[t][i];
    }
  }

  lemma OnlyRoot(tables: Tables, sh: Shape, t: nat)
    requires Tree(tables, sh) && t in tables && sh.level[t] == 2
    ensures t == sh.root
  {
    forall u | u in sh.up ensures sh.level[u] < 2 { assert HangsAt(tables, sh, u, sh.up[u]); }
  }

  lemma PxOf(i2: nat, i1: nat, i0: nat)
    requires i2 < ENTRIES / 2 && i1 < ENTRIES && i0 < ENTRIES
    ensures var a := (i2 * ENTRIES + i1) * ENTRIES + i0;
      a < VPNS && Px(0, a) == i0 && Px(1, a) == i1 && Px(2, a) == i2
  {
    var a := (i2 * ENTRIES + i1) * ENTRIES + i0;
    assert a / ENTRIES == i2 * ENTRIES + i1;
    assert a / (ENTRIES * ENTRIES) == i2;
  }

  class AddressSpace {
    const root: nat
    var tables: Tables
    var pool: seq<nat>   // what kalloc would return, in order
    ghost var sh: Shape

    ghost predicate Valid()
      reads this
    {
      && Tree(tables, sh) && sh.root == root
      && Distinct(pool) && (forall k | 0 <= k < |pool| :: pool[k] !in tables)
    }

    /** Table pages and free pages together. */
    ghost function Pages(): set<nat>
      reads this
    {
      tables.Keys + Elements(pool)
    }

    /** uvmcreate */
    constructor (page: nat, free: seq<nat>)
      requires Distinct(free) && page !in free
      ensures Valid() && root == page && pool == free && Pages() == {page} + Elements(free)
      ensures forall a: nat | a < VPNS :: Get(tables, root, a) == Clear
    {
      root := page;
      tables := map[page := EmptyTable()];
      pool := free;
      sh := Shape(page, map[page := 2], map[]);
    }

    /** One level of walk with alloc: a new, zeroed table. */
    method AddTable(t: nat, i: nat, ghost level: nat) returns (ok: bool)
      requires Valid() && t in tables && i < ENTRIES && sh.level[t] == level && 0 < level && !tables[t][i].v && (t == root ==> i < ENTRIES / 2)
      modifies this
      ensures Valid() && ok == (old(pool) != []) && Pages() == old(Pages()) && SameMap(old(tables), tables, root)
      ensures ok ==> t in tables && tables[t][i].v && tables[t][i].ppn !in old(tables) && sh == WithPlace(old(sh), t, i, tables[t][i].ppn) && |pool| == |old(pool)| - 1
      ensures !ok ==> tables == old(tables) && pool == old(pool) && sh == old(sh)
    {
      hide Tree, SameMap;
      ok := pool != [];
      if ok {
        var u := pool[0];
        TreeTables(tables, sh);
        TableLinked(tables, sh, t, i, u);
        pool := pool[1..];
        tables := WithTable(tables, t, i, u);
        sh := WithPlace(sh, t, i, u);
        assert Elements(old(pool)) == Elements(pool) + {u};
      } else {
        SameMapRefl(tables, root);
      }
    }

    /** walk: the level 0 table for vpn. Without alloc it only looks; with alloc it fails only
        when no page is free, and no mapping changes in any case. */
    method Walk(vpn: nat, alloc: bool) returns (f: Found)
      requires Valid() && vpn < VPNS
      modifies this
      ensures Valid() && Pages() == old(Pages()) && SameMap(old(tables), tables, root)
      ensures f.Here? ==> OnPath(tables, sh, vpn, f.t, 0) && f.t in tables
      ensures !alloc ==> f == LastTable(tables, root, vpn) && tables == old(tables) && pool == old(pool) && sh == old(sh)
      ensures alloc && f.Missing? ==> pool == []
    {
      hide Tree, SameMap;
      var t, level := root, 2;
      RootOnPath(tables, sh, vpn);
      SameMapRefl(tables, root);
      while level > 0
        invariant 0 <= level <= 2 && Valid() && Pages() == old(Pages()) && SameMap(old(tables), tables, root)
        invariant OnPath(tables, sh, vpn, t, level)
        invariant !alloc ==> tables == old(tables) && pool == old(pool) && sh == old(sh)
        invariant !alloc ==> LastTable(tables, root, vpn) == Rest(tables, t, level, vpn)
      {
        var i := Px(level, vpn);
        if !tables[t][i].v {
          if !alloc {
            return Missing;
          }
          ghost var before, sh0 := tables, sh;
          RootIndex(vpn);
          TreeTables(before, sh0);
          var ok := AddTable(t, i, level);
          SameMapTrans(old(tables), before, tables, root);
          if !ok {
            return Missing;
          }
          StillOnPath(before, sh0, tables, sh, vpn, t, level, i);
        }
        DownOnPath(tables, sh, vpn, t, level);
        t := tables[t][i].ppn;
        level := level - 1;
      }
      f := Here(t);
    }

    /** mappages: n consecutive pages at vpn become mapped to n consecutive pages at ppn; or only
        the first `done` of them, when no page is free for a table. A page that is mapped already
        would be a panic. */
    method Mappages(vpn: nat, n: nat, ppn: nat, perm: nat) returns (ok: bool, ghost done: nat)
      requires Valid() && 0 < n && vpn + n <= VPNS
      requires forall a: nat | vpn <= a < vpn + n :: !Get(tables, root, a).v
      modifies this
      ensures Valid() && Pages() == old(Pages())
      ensures done <= n && ok == (done == n) && (!ok ==> pool == [])
      ensures forall a: nat | a < VPNS :: Get(tables, root, a) ==
                if vpn <= a < vpn + done then Entry(true, true, perm, ppn + (a - vpn)) else Get(old(tables), root, a)
    {
      hide Tree, Get;
      ghost var tables0 := tables;
      var a, last, pa := vpn, vpn + n - 1, ppn;
      while true
        invariant vpn <= a <= last && pa == ppn + (a - vpn) && Valid() && Pages() == old(Pages())
        invariant forall b: nat | b < VPNS :: Get(tables, root, b) ==
                    if vpn <= b < a then Entry(true, true, perm, ppn + (b - vpn)) else Get(tables0, root, b)
        decreases last - a
      {
        var f := Walk(a, true);
        if f.Missing? {
          return false, a - vpn;
        }
        TreeTables(tables, sh);
        LeafPut(tables, sh, a, f.t, Entry(true, true, perm, pa));
        tables := PutEntry(tables, f.t, Px(0, a), Entry(true, true, perm, pa));
        if a == last {
          break;
        }
        a := a + 1;
        pa := pa + 1;
      }
      return true, n;
    }

    /** uvmunmap: the pages are not mapped any more, nothing else changes, and `freed` are the
        pages they named, for kfree. A page that is not mapped would be a panic; that an entry
        found by walk is a leaf is certain. */
    method Uvmunmap(vpn: nat, n: nat) returns (freed: seq<nat>)
      requires Valid() && vpn + n <= VPNS
      requires forall a: nat | vpn <= a < vpn + n :: Get(tables, root, a).v
      modifies this
      ensures Valid() && Pages() == old(Pages()) && pool == old(pool)
      ensures forall a: nat | a < VPNS :: Get(tables, root, a) == if vpn <= a < vpn + n then Clear else Get(old(tables), root, a)
      ensures |freed| == n && forall k: nat | k < n :: freed[k] == Get(old(tables), root, vpn + k).ppn
    {
      hide Tree, Get;
      ghost var tables0 := tables;
      var a := vpn;
      freed := [];
      while a < vpn + n
        invariant vpn <= a <= vpn + n && Valid() && Pages() == old(Pages()) && pool == old(pool)
        invariant forall b: nat | b < VPNS :: Get(tables, root, b) == if vpn <= b < a then Clear else Get(tables0, root, b)
        invariant |freed| == a - vpn && forall k: nat | k < a - vpn :: freed[k] == Get(tables0, root, vpn + k).ppn
      {
        var f := Walk(a, false);
        FoundEntry(tables, sh, a);
        var e := tables[f.t][Px(0, a)];
        freed := freed + [e.ppn];
        LeafPut(tables, sh, a, f.t, Clear);
        TreeTables(tables, sh);
        tables := PutEntry(tables, f.t, Px(0, a), Clear);
        a := a + 1;
      }
    }

    /** freewalk on the subtree at t: its tables go to the free list, each once, and no other
        table changes. `whole` and sh are the tree before the first call. */
    method Freewalk(t: nat, ghost whole: Tables, ghost level: nat)
      requires Tree(whole, sh) && t in whole && sh.level[t] == level && NoLeaves(whole, sh)
      requires forall u | u in Under(sh, t) :: u in tables && u in whole && tables[u] == whole[u]
      requires Distinct(pool) && forall k | 0 <= k < |pool| :: pool[k] !in tables
      modifies this`tables, this`pool
      ensures tables == old(tables) - Under(sh, t)
      ensures Distinct(pool) && Elements(pool) == Elements(old(pool)) + Under(sh, t) && forall k | 0 <= k < |pool| :: pool[k] !in tables
      decreases level
    {
      hide Tree, NoLeaves, Under, UnderBefore;
      UnderAll(whole, sh, t);
      TreeTables(whole, sh);
      InUnder(sh, t);
      assert tables - {} == tables;
      var i := 0;
      while i < ENTRIES
        invariant 0 <= i <= ENTRIES
        invariant t in tables && tables == (old(tables) - UnderBefore(sh, t, i))[t := tables[t]]
        invariant forall j: nat | i <= j < ENTRIES :: tables[t][j] == whole[t][j]
        invariant Distinct(pool) && Elements(pool) == Elements(old(pool)) + UnderBefore(sh, t, i) && forall k | 0 <= k < |pool| :: pool[k] !in tables
      {
        UnderNext(whole, sh, t, i);
        if IsBranch(tables[t][i]) {
          ghost var c, now := tables[t][i].ppn, tables;
          BranchAbove(whole, sh, t, i);
          SubtreeUntouched(whole, sh, old(tables), tables, t, i, c);
          Freewalk(tables[t][i].ppn, whole, level - 1);
          tables := tables[t := tables[t][i := Clear]];
        } else {
          NotALeaf(whole, sh, t, i);
        }
        i := i + 1;
      }
      assert tables - {t} == old(tables) - Under(sh, t);
      tables := tables - {t};
      pool := [t] + pool;
    }

    /** uvmfree of an address space whose mappings are exactly the pages below n: their pages
        come back for kfree, and every table page is free, each once. */
    method Uvmfree(n: nat) returns (freed: seq<nat>)
      requires Valid() && n <= VPNS && forall a: nat | a < VPNS :: Get(tables, root, a).v <==> a < n
      modifies this
      ensures tables == map[] && Distinct(pool) && Elements(pool) == old(Pages())
      ensures |freed| == n && forall a: nat | a < n :: freed[a] == Get(old(tables), root, a).ppn
    {
      hide Tree, Get, Under;
      ghost var tables0 := tables;
      freed := Uvmunmap(0, n);
      forall a: nat | a < n ensures freed[a] == Get(tables0, root, a).ppn { assert freed[a] == Get(tables0, root, 0 + a).ppn; }
      EmptyMapNoLeaves(tables, sh);
      UnderRoot(tables, sh);
      TreeTables(tables, sh);
      Freewalk(root, tables, 2);
      assert tables == map[];
    }
  }

  lemma UnderRoot(tables: Tables, sh: Shape)
    requires Tree(tables, sh)
    ensures Under(sh, sh.root) == tables.Keys
  {
    forall u | u in tables ensures IsUnder(sh, u, sh.root) {
      if u in sh.up {
        assert HangsAt(tables, sh, u, sh.up[u]);
        var v := sh.up[u].table;
        if v in sh.up {
          assert HangsAt(tables, sh, v, sh.up[v]);
          OnlyRoot(tables, sh, sh.up[v].table);
        }
      }
    }
  }

  /** What is left of the way down. */
  function Rest(tables: Tables, t: nat, level: nat, vpn: nat): Found
    requires level <= 2
  {
    if level == 0 then Here(t) else if level == 1 then Down(tables, Here(t), Px(1, vpn)) else LastTable(tables, t, vpn)
  }

  lemma RootIndex(vpn: nat)
    requires vpn < VPNS
    ensures Px(2, vpn) < ENTRIES / 2
  {
  }

  lemma TreeTables(tables: Tables, sh: Shape)
    requires Tree(tables, sh)
    ensures tables.Keys == sh.level.Keys && sh.root in tables && sh.level[sh.root] == 2
  {
  }

  lemma SameMapRefl(tables: Tables, root: nat)
    ensures SameMap(tables, tables, root)
  {
  }

  lemma SameMapTrans(a: Tables, b: Tables, c: Tables, root: nat)
    requires SameMap(a, b, root) && SameMap(b, c, root)
    ensures SameMap(a, c, root)
  {
    hide Get;
  }

  lemma StillOnPath(before: Tables, sh0: Shape, tables: Tables, sh: Shape, vpn: nat, t: nat, level: nat, i: nat)
    requires Tree(before, sh0) && OnPath(before, sh0, vpn, t, level) && 0 < level && t in tables && i < ENTRIES
    requires tables[t][i].ppn !in sh0.level && sh == WithPlace(sh0, t, i, tables[t][i].ppn)
    ensures OnPath(tables, sh, vpn, t, level)
  {
  }

  lemma FoundEntry(tables: Tables, sh: Shape, a: nat)
    requires Tree(tables, sh) && a < VPNS && Get(tables, sh.root, a).v
    ensures var f := LastTable(tables, sh.root, a);
      && f.Here? && f.t in tables && OnPath(tables, sh, a, f.t, 0) && tables[f.t][Px(0, a)] == Get(tables, sh.root, a)
      && tables[f.t][Px(0, a)].rwx
  {
    var f := LastTable(tables, sh.root, a);
    PathIsLast(tables, sh, a, f.t);
    assert EntryOk(tables, sh, f.t, Px(0, a));
  }

  lemma InUnder(sh: Shape, t: nat)
    requires t in sh.level
    ensures t in Under(sh, t)
  {
  }

  lemma BranchAbove(tables: Tables, sh: Shape, t: nat, i: nat)
    requires Tree(tables, sh) && t in tables && i < ENTRIES && IsBranch(tables[t][i])
    ensures sh.level[t] > 0
  {
    assert EntryOk(tables, sh, t, i);
  }

  /** Neither above level 0, where there are no leaves, nor at level 0, where none is left. */
  lemma NotALeaf(tables: Tables, sh: Shape, t: nat, i: nat)
    requires Tree(tables, sh) && NoLeaves(tables, sh) && t in tables && i < ENTRIES && !IsBranch(tables[t][i])
    ensures !tables[t][i].v
  {
    assert EntryOk(tables, sh, t, i);
  }

  lemma SubtreeUntouched(whole: Tables, sh: Shape, start: Tables, tables: Tables, t: nat, i: nat, c: nat)
    requires forall u | u in Under(sh, t) :: u in start && u in whole && start[u] == whole[u]
    requires t in tables && tables == (start - UnderBefore(sh, t, i))[t := tables[t]]
    requires UnderBefore(sh, t, i) !! Under(sh, c) && t !in Under(sh, c) && UnderBefore(sh, t, i) + Under(sh, c) <= Under(sh, t)
    ensures forall u | u in Under(sh, c) :: u in tables && u in whole && tables[u] == whole[u]
  {
    hide Under, UnderBefore;
  }
}
