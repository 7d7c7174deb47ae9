/** copyout, copyin and copyinstr of kernel/vm.c: the kernel's access to user memory, by bytes. */
module CowCopy {
  import opened CowMemory
  import opened CowProof
  import opened CowSteps
  import opened CowTheorems
  import opened CowCode

  const MAXVA: nat := 0x40_0000_0000

  predicate Holds(m: map<nat, UserPage>, va: nat) { va / PGSIZE in m }

  function ByteAt(m: map<nat, UserPage>, va: nat): int
    requires Holds(m, va)
  {
    m[va / PGSIZE].data[va % PGSIZE]
  }

  /** after is before with `bytes` at [dst, dst + |bytes|), and no other byte or right changed. */
  ghost predicate Spliced(before: map<nat, UserPage>, after: map<nat, UserPage>, dst: nat, bytes: seq<int>) {
    && before.Keys == after.Keys && (forall v | v in before && v in after :: after[v].rights == before[v].rights)
    && (forall va: nat | dst <= va < dst + |bytes| :: Holds(before, va))
    && forall va: nat | Holds(before, va) && Holds(after, va) ::
         ByteAt(after, va) == if dst <= va < dst + |bytes| then bytes[va - dst] else ByteAt(before, va)
  }

  /** memmove into part of a page. */
  function PageWith(page: Page, off: nat, bytes: seq<int>): Page
    requires off + |bytes| <= PGSIZE
  {
    page[..off] + bytes + page[off + |bytes|..]
  }

  function WithBytes(m: map<nat, UserPage>, v: nat, off: nat, bytes: seq<int>): map<nat, UserPage>
    requires v in m && off + |bytes| <= PGSIZE
  {
    m[v := m[v].(data := PageWith(m[v].data, off, bytes))]
  }

  lemma SpliceNothing(m: map<nat, UserPage>, dst: nat)
    ensures Spliced(m, m, dst, [])
  {
  }

  lemma SplicePage(before: map<nat, UserPage>, m: map<nat, UserPage>, dst: nat, bytes: seq<int>, more: seq<int>)
    requires Spliced(before, m, dst, bytes)
    requires var va := dst + |bytes|;
      va / PGSIZE in m && va % PGSIZE + |more| <= PGSIZE
    ensures var va := dst + |bytes|;
      Spliced(before, WithBytes(m, va / PGSIZE, va % PGSIZE, more), dst, bytes + more)
  {
    var at := dst + |bytes|;
    var v: nat, off: nat := at / PGSIZE, at % PGSIZE;
    var after := WithBytes(m, v, off, more);
    assert at == v * PGSIZE + off;
    forall va: nat | Holds(before, va) && Holds(after, va)
      ensures ByteAt(after, va) == if dst <= va < dst + |bytes + more| then (bytes + more)[va - dst] else ByteAt(before, va)
    {
      assert ByteAt(m, va) == if dst <= va < dst + |bytes| then bytes[va - dst] else ByteAt(before, va);
      if va / PGSIZE == v {
        assert va == v * PGSIZE + va % PGSIZE;
        PageByte(m[v].data, off, more, va % PGSIZE);
      }
    }
    forall va: nat | dst <= va < dst + |bytes + more| ensures Holds(before, va) {
      if va >= at { assert v * PGSIZE <= va < v * PGSIZE + PGSIZE; }
    }
  }

  lemma PageByte(page: Page, off: nat, bytes: seq<int>, k: nat)
    requires off + |bytes| <= PGSIZE && k < PGSIZE
    ensures PageWith(page, off, bytes)[k] == if off <= k < off + |bytes| then bytes[k - off] else page[k]
  {
  }

  /** Why copyout stops at user page v. */
  predicate Blocked(q: Proc, free: seq<nat>, v: nat) {
    v * PGSIZE >= MAXVA || v !in q.pt || !q.pt[v].u || (!q.pt[v].w && (!q.pt[v].cow || free == []))
  }

  /** walkaddr finds the page. */
  predicate Readable(q: Proc, v: nat) {
    v * PGSIZE < MAXVA && v in q.pt && q.pt[v].u
  }

  predicate ReadableAt(q: Proc, va: nat) { Readable(q, va / PGSIZE) }

  predicate WritableAt(q: Proc, va: nat) { Readable(q, va / PGSIZE) && q.pt[va / PGSIZE].w }

  /** The user may read, or write, the n bytes at va. */
  ghost predicate CanRead(q: Proc, va: nat, n: nat) { forall a: nat | va <= a < va + n :: ReadableAt(q, a) }

  ghost predicate CanWrite(q: Proc, va: nat, n: nat) { forall a: nat | va <= a < va + n :: WritableAt(q, a) }

  lemma CanReadMore(q: Proc, va: nat, n: nat, v: nat, off: nat, k: nat)
    requires CanRead(q, va, n) && Readable(q, v) && va + n == v * PGSIZE + off && off + k <= PGSIZE
    ensures CanRead(q, va, n + k)
  {
    forall a: nat | va <= a < va + n + k ensures ReadableAt(q, a) {
      if a >= va + n { assert v * PGSIZE <= a < v * PGSIZE + PGSIZE; }
    }
  }

  lemma CanWriteMore(q: Proc, va: nat, n: nat, v: nat, off: nat, k: nat)
    requires CanWrite(q, va, n) && Readable(q, v) && q.pt[v].w && va + n == v * PGSIZE + off && off + k <= PGSIZE
    ensures CanWrite(q, va, n + k)
  {
    forall a: nat | va <= a < va + n + k ensures WritableAt(q, a) {
      if a >= va + n { assert v * PGSIZE <= a < v * PGSIZE + PGSIZE; }
    }
  }

  /** CowHandler takes no right away. */
  lemma CanWriteStill(q: Proc, t: Proc, va: nat, n: nat, v: nat, r: nat)
    requires CanWrite(q, va, n) && v in q.pt && t.pt == q.pt[v := Owned(q.pt[v], r)]
    ensures CanWrite(t, va, n)
  {
    forall a: nat | va <= a < va + n ensures WritableAt(t, a) { assert WritableAt(q, a); }
  }

  /** The memmove of copyout to a page that the process may write. */
  method StorePage(m: Memory, p: Pid, v: nat, off: nat, bytes: seq<int>)
    requires m.Valid() && p in m.procs && m.procs[p].pc.User? && v in m.procs[p].pt && m.procs[p].pt[v].w && m.procs[p].pt[v].u
    requires off + |bytes| <= PGSIZE
    modifies m`steps, m`mem, m`spec
    ensures m.Valid() && p in old(m.spec) && v in old(m.spec)[p]
    ensures m.spec == old(m.spec)[p := WithBytes(old(m.spec)[p], v, off, bytes)]
  {
    hide Inv, Sees, Reached;
    PagesInRam(m.View(), p, v);
    UserView(m.View(), m.spec, p, v);
    var pn := m.procs[p].pt[v].pn;
    var page := PageWith(m.mem[pn], off, bytes);
    ghost var b := StepStore(m.View(), m.spec, p, v, page);
    Advance(m.origin, m.steps, m.View(), m.spec, Store(p, v, page), AfterStore(m.View(), p, v, page), b);
    m.steps := m.steps + [Store(p, v, page)];
    m.mem := m.mem[pn := page];
    m.spec := b;
  }

  lemma CanWriteNone(q: Proc, va: nat)
    ensures CanWrite(q, va, 0)
  {
  }

  /** copyout: the first `done` bytes of src are at dstva and no other byte of any process
      has changed; it stops early only at a page that cannot be written. */
  method Copyout(m: Memory, p: Pid, dstva: nat, src: seq<int>) returns (ok: bool, ghost done: nat)
    requires m.Valid() && p in m.procs && m.procs[p].pc.User?
    modifies m, m.pgref
    ensures m.Valid() && p in m.procs && m.procs[p].pc.User?
    ensures done <= |src| && ok == (done == |src|)
    ensures p in old(m.spec) && p in m.spec && m.spec == old(m.spec)[p := m.spec[p]]
    ensures Spliced(old(m.spec)[p], m.spec[p], dstva, src[..done])
    ensures CanWrite(m.procs[p], dstva, done)
    ensures !ok ==> Blocked(m.procs[p], m.free, (dstva + done) / PGSIZE)
  {
    hide Inv, Sees, Reached, Spliced, PageWith, CanWrite;
    CanWriteNone(m.procs[p], dstva);
    UserView(m.View(), m.spec, p, 0);
    SpliceNothing(m.spec[p], dstva);
    ghost var before := m.spec[p];
    var dst, i := dstva, 0;
    assert src[..0] == [];
    while i < |src|
      invariant m.Valid() && p in m.procs && m.procs[p].pc.User?
      invariant 0 <= i <= |src| && dst == dstva + i
      invariant p in m.spec && m.spec == old(m.spec)[p := m.spec[p]]
      invariant Spliced(before, m.spec[p], dstva, src[..i]) && CanWrite(m.procs[p], dstva, i)
    {
      var va0: nat := dst / PGSIZE * PGSIZE;
      var v: nat := va0 / PGSIZE;
      if va0 >= MAXVA || v !in m.procs[p].pt || !m.procs[p].pt[v].u {
        return false, i;
      }
      if !m.procs[p].pt[v].w {
        ghost var q, page := m.procs[p], if m.free == [] then 0 else m.free[0];
        var r := m.CowHandler(p, va0);
        if r < 0 {
          return false, i;
        }
        CanWriteStill(q, m.procs[p], dstva, i, v, page);
      }
      var n := PGSIZE - (dst - va0);
      if n > |src| - i {
        n := |src| - i;
      }
      ghost var now := m.spec[p];
      StorePage(m, p, v, dst - va0, src[i..i + n]);
      CanWriteMore(m.procs[p], dstva, i, v, dst - va0, n);
      SplicePage(before, now, dstva, src[..i], src[i..i + n]);
      assert src[..i] + src[i..i + n] == src[..i + n];
      i := i + n;
      dst := if i < |src| then va0 + PGSIZE else dst + n;
    }
    return true, i;
  }

  predicate MatchAt(m: map<nat, UserPage>, va: nat, b: int) { Holds(m, va) && ByteAt(m, va) == b }

  /** User memory holds the bytes at va. */
  ghost predicate Matches(m: map<nat, UserPage>, va: nat, bytes: seq<int>) {
    forall k | 0 <= k < |bytes| :: MatchAt(m, va + k, bytes[k])
  }

  lemma MatchesMore(m: map<nat, UserPage>, va: nat, bytes: seq<int>, v: nat, off: nat, n: nat)
    requires Matches(m, va, bytes) && v in m && va + |bytes| == v * PGSIZE + off && off + n <= PGSIZE
    ensures Matches(m, va, bytes + m[v].data[off..off + n])
  {
    var more := bytes + m[v].data[off..off + n];
    forall k | 0 <= k < |more| ensures MatchAt(m, va + k, more[k]) {
      if k < |bytes| {
        assert MatchAt(m, va + k, bytes[k]);
      } else {
        assert va + k == v * PGSIZE + (off + k - |bytes|);
        assert (va + k) / PGSIZE == v && (va + k) % PGSIZE == off + k - |bytes|;
      }
    }
  }

  /** copyin: dst is what user memory holds at srcva, all of it unless a page is not readable. */
  method Copyin(m: Memory, p: Pid, srcva: nat, len: nat) returns (ok: bool, dst: seq<int>)
    requires m.Valid() && p in m.procs && m.procs[p].pc.User?
    ensures p in m.spec && |dst| <= len && ok == (|dst| == len)
    ensures Matches(m.spec[p], srcva, dst) && CanRead(m.procs[p], srcva, |dst|)
    ensures !ok ==> !Readable(m.procs[p], (srcva + |dst|) / PGSIZE)
  {
    hide Inv, Sees, Reached;
    UserView(m.View(), m.spec, p, 0);
    dst := [];
    while |dst| < len
      invariant |dst| <= len
      invariant Matches(m.spec[p], srcva, dst) && CanRead(m.procs[p], srcva, |dst|)
    {
      var src := srcva + |dst|;
      var va0: nat := src / PGSIZE * PGSIZE;
      var v: nat := va0 / PGSIZE;
      if va0 >= MAXVA || v !in m.procs[p].pt || !m.procs[p].pt[v].u {
        return false, dst;
      }
      UserView(m.View(), m.spec, p, v);
      var off := src - va0;
      var n := PGSIZE - off;
      if n > len - |dst| {
        n := len - |dst|;
      }
      var page := m.mem[m.procs[p].pt[v].pn];
      MatchesMore(m.spec[p], srcva, dst, v, off, n);
      CanReadMore(m.procs[p], srcva, |dst|, v, off, n);
      dst := dst + page[off..off + n];
    }
    return true, dst;
  }

  /** What copyinstr has copied: user memory at srcva, without a zero before the last byte. */
  ghost predicate Prefix(m: map<nat, UserPage>, srcva: nat, dst: seq<int>) {
    && Matches(m, srcva, dst)
    && (forall k | 0 <= k < |dst| - 1 :: dst[k] != 0)
  }

  /** copyinstr succeeds exactly when there is a zero byte among the first max bytes with all
      bytes up to it readable, and then copies up to and including it. */
  method Copyinstr(m: Memory, p: Pid, srcva: nat, max: nat) returns (ok: bool, dst: seq<int>)
    requires m.Valid() && p in m.procs && m.procs[p].pc.User?
    ensures p in m.spec && |dst| <= max && Prefix(m.spec[p], srcva, dst) && CanRead(m.procs[p], srcva, |dst|)
    ensures ok == (|dst| > 0 && dst[|dst| - 1] == 0)
    ensures !ok ==> |dst| == max || !Readable(m.procs[p], (srcva + |dst|) / PGSIZE)
  {
    hide Inv, Sees, Reached;
    UserView(m.View(), m.spec, p, 0);
    dst := [];
    var gotNull := false;
    while !gotNull && |dst| < max
      invariant |dst| <= max && Prefix(m.spec[p], srcva, dst) && CanRead(m.procs[p], srcva, |dst|)
      invariant gotNull == (|dst| > 0 && dst[|dst| - 1] == 0)
      decreases max - |dst|, !gotNull
    {
      var src := srcva + |dst|;
      var va0: nat := src / PGSIZE * PGSIZE;
      var v: nat := va0 / PGSIZE;
      if va0 >= MAXVA || v !in m.procs[p].pt || !m.procs[p].pt[v].u {
        return false, dst;
      }
      UserView(m.View(), m.spec, p, v);
      var k := src - va0;
      var n := PGSIZE - k;
      if n > max - |dst| {
        n := max - |dst|;
      }
      var page := m.mem[m.procs[p].pt[v].pn];
      ghost var start := |dst|;
      while n > 0 && !gotNull
        invariant 0 <= n && start <= |dst| && |dst| + n <= max && 0 <= k && k + n <= PGSIZE && srcva + |dst| == va0 + k
        invariant Prefix(m.spec[p], srcva, dst) && CanRead(m.procs[p], srcva, |dst|)
        invariant gotNull == (|dst| > 0 && dst[|dst| - 1] == 0)
        invariant gotNull || n == 0 ==> start < |dst|
        decreases n
      {
        CanReadMore(m.procs[p], srcva, |dst|, v, k, 1);
        NextByte(m.spec[p], srcva, dst, v, k, page);
        gotNull := page[k] == 0;
        dst := dst + [page[k]];
        n := n - 1;
        k := k + 1;
      }
    }
    return gotNull, dst;
  }

  lemma NextByte(m: map<nat, UserPage>, srcva: nat, dst: seq<int>, v: nat, k: nat, page: Page)
    requires Prefix(m, srcva, dst) && (|dst| > 0 ==> dst[|dst| - 1] != 0)
    requires k < PGSIZE && srcva + |dst| == v * PGSIZE + k && v in m && m[v].data == page
    ensures Prefix(m, srcva, dst + [page[k]])
  {
    MatchesMore(m, srcva, dst, v, k, 1);
    assert m[v].data[k..k + 1] == [page[k]];
  }
}
