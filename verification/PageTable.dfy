/** The three-level Sv39 page tables of kernel/vm.c (walk, mappages, uvmunmap, freewalk). A
    table is a page of 512 entries; the tables of one address space form a tree. */
module PageTable {

  const ENTRIES: nat := 512
  const VPNS: nat := 0x400_0000  // MAXVA / PGSIZE

  /** A page table entry: PTE_V, whether any of PTE_R, PTE_W, PTE_X is set, all flags besides
      PTE_V, and the physical page number. */
  datatype Entry = Entry(v: bool, rwx: bool, perm: nat, ppn: nat)

  const Clear := Entry(false, false, 0, 0)

  type Table = s: seq<Entry> | |s| == ENTRIES witness seq(ENTRIES, _ => Clear)

  type Tables = map<nat, Table>

  /** memset(pagetable, 0, PGSIZE) */
  function EmptyTable(): Table { seq(ENTRIES, _ => Clear) }

  /** A pointer to the next level. */
  predicate IsBranch(e: Entry) { e.v && !e.rwx }

  /** PX(level, va) of page number vpn. */
  function Px(level: nat, vpn: nat): (i: nat)
    requires level <= 2
    ensures i < ENTRIES
  {
    if level == 0 then vpn % ENTRIES else if level == 1 then vpn / ENTRIES % ENTRIES else vpn / (ENTRIES * ENTRIES) % ENTRIES
  }

  /** The indices are the nine-bit digits of the page number, the root's the highest. */
  lemma PxDigits(vpn: nat)
    requires vpn < VPNS
    ensures vpn == Px(2, vpn) * (ENTRIES * ENTRIES) + Px(1, vpn) * ENTRIES + Px(0, vpn)
    ensures Px(2, vpn) < ENTRIES / 2
  {
    assert vpn / (ENTRIES * ENTRIES) == vpn / ENTRIES / ENTRIES;
  }

  /** The three indices determine the page number. */
  lemma PxInjective(a: nat, b: nat)
    requires a < VPNS && b < VPNS && Px(1, a) == Px(1, b) && Px(2, a) == Px(2, b)
    ensures a / ENTRIES == b / ENTRIES
    ensures Px(0, a) == Px(0, b) ==> a == b
  {
    PxDigits(a);
    PxDigits(b);
  }

  // ---------------------------------------------------------------------------
  // The tree
  // ---------------------------------------------------------------------------

  /** The table and index that point to a table. */
  datatype Place = Place(table: nat, index: nat)

  /** `level` gives the level of each table, `up` the one entry that points to it. */
  datatype Shape = Shape(root: nat, level: map<nat, nat>, up: map<nat, Place>)

  /** Each table but the root hangs from exactly one entry, one level up. */
  ghost predicate Hangs(tables: Tables, sh: Shape) {
    && tables.Keys == sh.level.Keys && sh.up.Keys == tables.Keys - {sh.root}
    && sh.root in tables && sh.level[sh.root] == 2
    && (forall t | t in sh.level :: sh.level[t] <= 2)
    && forall t | t in sh.up :: HangsAt(tables, sh, t, sh.up[t])
  }

  predicate HangsAt(tables: Tables, sh: Shape, t: nat, at: Place)
    requires t in sh.level
  {
    && at.table in tables && at.table in sh.level && at.index < ENTRIES
    && sh.level[at.table] == sh.level[t] + 1
    && IsBranch(tables[at.table][at.index]) && tables[at.table][at.index].ppn == t
  }

  /** A valid entry above level 0 points to a table that hangs from it; at level 0 it is a leaf. */
  ghost predicate EntryOk(tables: Tables, sh: Shape, t: nat, i: nat)
    requires t in tables && i < ENTRIES
  {
    tables[t][i].v && t in sh.level ==>
      if sh.level[t] == 0 then tables[t][i].rwx
      else !tables[t][i].rwx && tables[t][i].ppn in sh.up && sh.up[tables[t][i].ppn] == Place(t, i)
  }

  /** va < MAXVA uses only the lower half of the root. */
  ghost predicate Low(tables: Tables, root: nat) {
    root in tables && forall i: nat | ENTRIES / 2 <= i < ENTRIES :: !tables[root][i].v
  }

  ghost predicate Tree(tables: Tables, sh: Shape) {
    && Hangs(tables, sh) && Low(tables, sh.root)
    && forall t, i: nat | t in tables && i < ENTRIES :: EntryOk(tables, sh, t, i)
  }

  // ---------------------------------------------------------------------------
  // What the tree means: a partial map from page numbers
  // ---------------------------------------------------------------------------

  datatype Found = Missing | Here(t: nat)

  /** The table one level down. */
  function Down(tables: Tables, f: Found, i: nat): Found
    requires i < ENTRIES
  {
    if f.Here? && f.t in tables && tables[f.t][i].v then Here(tables[f.t][i].ppn) else Missing
  }

  /** The level 0 table for vpn. */
  function LastTable(tables: Tables, root: nat, vpn: nat): Found {
    Down(tables, Down(tables, Here(root), Px(2, vpn)), Px(1, vpn))
  }

  /** The entry for vpn; Clear where there is none. */
  function Get(tables: Tables, root: nat, vpn: nat): Entry {
    var f := LastTable(tables, root, vpn);
    if f.Here? && f.t in tables then tables[f.t][Px(0, vpn)] else Clear
  }

  /** The table walk is at, on its way to vpn. */
  ghost predicate OnPath(tables: Tables, sh: Shape, vpn: nat, t: nat, level: nat) {
    && t in tables && t in sh.level && sh.level[t] == level <= 2
    && (level == 2 ==> t == sh.root)
    && (level == 1 ==> t in sh.up && sh.up[t] == Place(sh.root, Px(2, vpn)))
    && (level == 0 ==> t in sh.up && sh.up[t].index == Px(1, vpn) && sh.up[t].table in sh.up
                       && sh.up[sh.up[t].table] == Place(sh.root, Px(2, vpn)))
  }

  lemma RootOnPath(tables: Tables, sh: Shape, vpn: nat)
    requires Tree(tables, sh)
    ensures OnPath(tables, sh, vpn, sh.root, 2)
  {
  }

  /** Following a valid entry stays on the path. */
  lemma DownOnPath(tables: Tables, sh: Shape, vpn: nat, t: nat, level: nat)
    requires Tree(tables, sh) && 0 < level && OnPath(tables, sh, vpn, t, level) && tables[t][Px(level, vpn)].v
    ensures OnPath(tables, sh, vpn, tables[t][Px(level, vpn)].ppn, level - 1)
  {
    assert EntryOk(tables, sh, t, Px(level, vpn));
    var u := tables[t][Px(level, vpn)].ppn;
    assert HangsAt(tables, sh, u, sh.up[u]);
  }

  /** The path ends at the level 0 table that the entries lead to. */
  lemma PathIsLast(tables: Tables, sh: Shape, vpn: nat, t: nat)
    requires Tree(tables, sh)
    ensures OnPath(tables, sh, vpn, t, 0) <==> LastTable(tables, sh.root, vpn) == Here(t)
  {
    if OnPath(tables, sh, vpn, t, 0) {
      assert HangsAt(tables, sh, t, sh.up[t]) && HangsAt(tables, sh, sh.up[t].table, sh.up[sh.up[t].table]);
    }
    if LastTable(tables, sh.root, vpn) == Here(t) {
      RootOnPath(tables, sh, vpn);
      DownOnPath(tables, sh, vpn, sh.root, 2);
      DownOnPath(tables, sh, vpn, tables[sh.root][Px(2, vpn)].ppn, 1);
    }
  }

  /** Two page numbers never share an entry. */
  lemma OwnEntry(tables: Tables, sh: Shape, a: nat, b: nat, t: nat)
    requires Tree(tables, sh) && a < VPNS && b < VPNS
    requires OnPath(tables, sh, a, t, 0) && OnPath(tables, sh, b, t, 0) && Px(0, a) == Px(0, b)
    ensures a == b
  {
    PxInjective(a, b);
  }

  // ---------------------------------------------------------------------------
  // Changes
  // ---------------------------------------------------------------------------

  function PutEntry(tables: Tables, t: nat, i: nat, e: Entry): Tables
    requires t in tables && i < ENTRIES
  {
    tables[t := tables[t][i := e]]
  }

  /** The same mapping for every page. */
  ghost predicate SameMap(tables: Tables, tables': Tables, root: nat) {
    forall a: nat | a < VPNS :: Get(tables', root, a) == Get(tables, root, a)
  }

  /** Setting a level 0 entry changes the mapping of one page. */
  lemma LeafPut(tables: Tables, sh: Shape, vpn: nat, t: nat, e: Entry)
    requires Tree(tables, sh) && vpn < VPNS && OnPath(tables, sh, vpn, t, 0) && (e.v ==> e.rwx)
    ensures Tree(PutEntry(tables, t, Px(0, vpn), e), sh)
    ensures forall a: nat | a < VPNS :: Get(PutEntry(tables, t, Px(0, vpn), e), sh.root, a) == if a == vpn then e else Get(tables, sh.root, a)
  {
    var tables' := PutEntry(tables, t, Px(0, vpn), e);
    LeafPutTree(tables, sh, t, Px(0, vpn), e);
    forall a: nat | a < VPNS ensures Get(tables', sh.root, a) == if a == vpn then e else Get(tables, sh.root, a) {
      LeafPutPath(tables, sh, t, Px(0, vpn), e, a);
      PathIsLast(tables, sh, vpn, t);
      PathIsLast(tables, sh, a, t);
      if LastTable(tables, sh.root, a) == Here(t) && Px(0, a) == Px(0, vpn) { OwnEntry(tables, sh, a, vpn, t); }
    }
  }

  lemma LeafPutTree(tables: Tables, sh: Shape, t: nat, i: nat, e: Entry)
    requires Tree(tables, sh) && t in tables && i < ENTRIES && sh.level[t] == 0 && (e.v ==> e.rwx)
    ensures Tree(PutEntry(tables, t, i, e), sh)
  {
    var tables' := PutEntry(tables, t, i, e);
    forall u | u in sh.up ensures HangsAt(tables', sh, u, sh.up[u]) { assert HangsAt(tables, sh, u, sh.up[u]); }
    forall u, j: nat | u in tables' && j < ENTRIES ensures EntryOk(tables', sh, u, j) { assert EntryOk(tables, sh, u, j); }
  }

  lemma LeafPutPath(tables: Tables, sh: Shape, t: nat, i: nat, e: Entry, a: nat)
    requires Tree(tables, sh) && t in tables && i < ENTRIES && sh.level[t] == 0
    ensures LastTable(PutEntry(tables, t, i, e), sh.root, a) == LastTable(tables, sh.root, a)
  {
    RootOnPath(tables, sh, a);
    if tables[sh.root][Px(2, a)].v { DownOnPath(tables, sh, a, sh.root, 2); }
  }

  /** The tables with an empty one, u, hanging from entry i of t. */
  function WithTable(tables: Tables, t: nat, i: nat, u: nat): Tables
    requires t in tables && i < ENTRIES
  {
    PutEntry(tables, t, i, Entry(true, false, 0, u))[u := EmptyTable()]
  }

  function WithPlace(sh: Shape, t: nat, i: nat, u: nat): Shape
    requires t in sh.level && sh.level[t] > 0
  {
    Shape(sh.root, sh.level[u := sh.level[t] - 1], sh.up[u := Place(t, i)])
  }

  /** A new table maps nothing. */
  lemma TableLinked(tables: Tables, sh: Shape, t: nat, i: nat, u: nat)
    requires Tree(tables, sh) && t in tables && i < ENTRIES && sh.level[t] > 0 && !tables[t][i].v && u !in tables
    requires t == sh.root ==> i < ENTRIES / 2
    ensures Tree(WithTable(tables, t, i, u), WithPlace(sh, t, i, u))
    ensures SameMap(tables, WithTable(tables, t, i, u), sh.root)
  {
    var tables', sh' := WithTable(tables, t, i, u), WithPlace(sh, t, i, u);
    forall x | x in sh'.up ensures HangsAt(tables', sh', x, sh'.up[x]) { if x != u { assert HangsAt(tables, sh, x, sh.up[x]); } }
    forall x, j: nat | x in tables' && j < ENTRIES ensures EntryOk(tables', sh', x, j) { if x != u { assert EntryOk(tables, sh, x, j); } }
    LinkedMap(tables, sh, t, i, u);
  }

  lemma LinkedMap(tables: Tables, sh: Shape, t: nat, i: nat, u: nat)
    requires Tree(tables, sh) && t in tables && i < ENTRIES && sh.level[t] > 0 && !tables[t][i].v && u !in tables
    ensures SameMap(tables, WithTable(tables, t, i, u), sh.root)
  {
    var tables' := WithTable(tables, t, i, u);
    forall a: nat | a < VPNS ensures Get(tables', sh.root, a) == Get(tables, sh.root, a) {
      RootOnPath(tables, sh, a);
      if tables[sh.root][Px(2, a)].v {
        DownOnPath(tables, sh, a, sh.root, 2);
        var t1 := tables[sh.root][Px(2, a)].ppn;
        if tables[t1][Px(1, a)].v { DownOnPath(tables, sh, a, t1, 1); }
      }
    }
  }
}
