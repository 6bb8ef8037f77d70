/**
 Copy-on-write memory behaves like one private memory per process: every
 operation, and so every run, has on page contents exactly the effect it has
 in a model where fork copies the parent's memory eagerly.
 */
module CowRefinement {
  import opened Common
  import opened CowMemory
  import opened CowInvariant

  /** A private memory: the size in bytes and the contents of every page below it. */
  datatype Private = Private(sz: nat, mem: map<nat, Page>)

  type View = map<nat, Private>

  /** What process p reads in page v; a page not yet mapped reads as zeros. */
  ghost function Contents(s: State, p: nat, v: nat): Page
    requires p in s.procs
  {
    if v in s.procs[p].pt then Bytes(s, s.procs[p].pt[v].ppn) else Fill(0)
  }

  ghost function PrivateOf(s: State, p: nat): Private
    requires p in s.procs
  {
    Private(s.procs[p].sz, map v | 0 <= v < NPages(s.procs[p].sz) :: Contents(s, p, v))
  }

  ghost function ViewOf(s: State): View {
    map p | p in s.procs :: PrivateOf(s, p)
  }

  // ---------------------------------------------------------------------
  // The eager model

  /** Memory with the bytes src stored from address dst on. */
  ghost function Poke(m: Private, dst: nat, src: seq<Byte>): Private {
    Private(m.sz, map v | v in m.mem ::
      seq(PGSIZE, i requires 0 <= i < PGSIZE =>
        var addr := v * PGSIZE + i;
        if dst <= addr < dst + |src| then src[addr - dst] else m.mem[v][i]))
  }

  ghost predicate Covers(m: Private, addr: nat, len: nat) {
    forall x :: addr <= x < addr + len ==> PageOf(x) in m.mem
  }

  ghost function Peek(m: Private, addr: nat, len: nat): seq<Byte>
    requires Covers(m, addr, len)
  {
    seq(len, i requires 0 <= i < len => m.mem[PageOf(addr + i)][(addr + i) % PGSIZE])
  }

  /** A memory of another size: pages below both sizes stay, new pages are zero. */
  ghost function Resize(m: Private, sz: nat): Private {
    Private(sz, map v | 0 <= v < NPages(sz) :: if v in m.mem then m.mem[v] else Fill(0))
  }

  /** The effect of an operation with outcome r on private memories. */
  ghost predicate Eager(m: View, op: Op, r: Result, m': View) {
    match op
    case SpawnOp(p, _, _) =>
      if r.Done? then p !in m && m' == m[p := Private(0, map[])] else r.Failed? && m' == m
    case ForkOp(p, c, _, _, _) =>
      if r.Done? then p in m && c !in m && m' == m[c := m[p]] else r.Failed? && m' == m
    case FaultOp(_, _, _) => m' == m
    case StoreOp(p, va, b) =>
      if r.Done? then p in m && Covers(m[p], va, 1) && m' == m[p := Poke(m[p], va, [b])] else r.Failed? && m' == m
    case CopyOutOp(p, dst, src, _) =>
      if r.Wrote? then p in m && r.n <= |src| && Covers(m[p], dst, r.n) && m' == m[p := Poke(m[p], dst, src[..r.n])]
      else r.Failed? && m' == m
    case CopyInOp(p, srcva, len, _) =>
      && m' == m
      && (if r.Read? then p in m && |r.bytes| <= len && Covers(m[p], srcva, |r.bytes|) && r.bytes == Peek(m[p], srcva, |r.bytes|)
          else r.Failed?)
    case GrowOp(p, n, _, _) =>
      if r.Done? then p in m && m' == m[p := Resize(m[p], m[p].sz + n)] else r.Failed? && m' == m
    case GrowLazyOp(p, n) =>
      if r.Done? then p in m && m' == m[p := Resize(m[p], m[p].sz + n)] else r.Failed? && m' == m
    case ShrinkOp(p, n) =>
      if r.Done? then p in m && m' == (if n > m[p].sz then m else m[p := Resize(m[p], m[p].sz - n)]) else r.Failed? && m' == m
    case ExitOp(p) =>
      if r.Done? then p in m && m' == m - {p} else r.Failed? && m' == m
  }

  // ---------------------------------------------------------------------
  // Contents under the primitive updates

  ghost predicate SameSizes(s: State, s': State) {
    && s'.procs.Keys == s.procs.Keys
    && forall q :: q in s.procs ==> s'.procs[q].sz == s.procs[q].sz
  }

  /** The page tables of all processes but p are as before, up to permissions. */
  ghost predicate SameKeys(s: State, s': State, p: nat)
  {
    forall q :: q in s.procs && q in s'.procs && q != p ==> s'.procs[q].pt.Keys == s.procs[q].pt.Keys
  }

  /** Nothing anyone reads has changed. */
  ghost predicate Same(s: State, s': State) {
    && SameSizes(s, s')
    && forall q, u: nat :: q in s.procs ==> Contents(s', q, u) == Contents(s, q, u)
  }

  /** Only page v of process p reads differently, as page. */
  ghost predicate Only(s: State, s': State, p: nat, v: nat, page: Page)
    requires p in s.procs
  {
    && SameSizes(s, s')
    && Contents(s', p, v) == page
    && forall q, u: nat :: q in s.procs && (q, u) != (p, v) ==> Contents(s', q, u) == Contents(s, q, u)
  }

  lemma AddTablesSame(s: State, p: nat, t: set<nat>)
    requires Inv(s) && p in s.procs
    ensures Same(s, AddTables(s, p, t))
    ensures forall q :: q in s.procs ==> AddTables(s, p, t).procs[q].pt == s.procs[q].pt
  {
    hide Counted;
    var s' := AddTables(s, p, t);
    forall q, u: nat | q in s.procs ensures Contents(s', q, u) == Contents(s, q, u) {
      if u in s.procs[q].pt { LeafHolds(s, q, u); }
    }
  }

  lemma MapFreshOnly(s: State, p: nat, v: nat, pte: Pte, page: Page)
    requires Inv(s) && p in s.procs && v !in s.procs[p].pt && pte.ppn in s.free
    ensures Only(s, MapFresh(s, p, v, pte, page), p, v, page)
  {
    hide Counted;
    var s' := MapFresh(s, p, v, pte, page);
    forall q, u: nat | q in s.procs && (q, u) != (p, v) ensures Contents(s', q, u) == Contents(s, q, u) {
      if u in s.procs[q].pt { LeafHolds(s, q, u); }
    }
  }

  lemma UnmapOneOnly(s: State, p: nat, v: nat)
    requires Inv(s) && p in s.procs
    ensures Only(s, UnmapOne(s, p, v), p, v, Fill(0))
  {
    hide Counted;
    if v in s.procs[p].pt {
      LeafHolds(s, p, v);
      forall q, u | q in s.procs && u in s.procs[q].pt && (q, u) != (p, v) && s.procs[q].pt[u].ppn == s.procs[p].pt[v].ppn
        ensures Count(s, s.procs[p].pt[v].ppn) >= 2 { LeafAlone(s, p, v, q, u); }
      UnmapLeafOnly(s, p, v);
    }
  }

  lemma UnmapLeafOnly(s: State, p: nat, v: nat)
    requires p in s.procs && v in s.procs[p].pt
    requires forall q, u :: q in s.procs && u in s.procs[q].pt && (q, u) != (p, v) && s.procs[q].pt[u].ppn == s.procs[p].pt[v].ppn
               ==> Count(s, s.procs[p].pt[v].ppn) >= 2
    ensures Only(s, UnmapOne(s, p, v), p, v, Fill(0))
  {
  }

  lemma MapSharedOnly(s: State, p: nat, c: nat, v: nat, pte: Pte)
    requires Inv(s) && p in s.procs && v in s.procs[p].pt && c in s.procs && v !in s.procs[c].pt
    requires pte == s.procs[p].pt[v] && !pte.w
    ensures Only(s, MapShared(s, c, v, pte), c, v, Contents(s, p, v))
  {
    hide Counted;
  }

  lemma SetFlagsSame(s: State, p: nat, v: nat, pte: Pte)
    requires p in s.procs && v in s.procs[p].pt && pte.ppn == s.procs[p].pt[v].ppn
    ensures Same(s, SetPt(s, p, s.procs[p].pt[v := pte]))
  {
  }

  lemma CopyLeafSame(s: State, p: nat, v: nat, pte: Pte)
    requires Inv(s) && p in s.procs && v in s.procs[p].pt && pte.ppn in s.free
    requires Count(s, s.procs[p].pt[v].ppn) >= 2
    ensures Same(s, CopyLeaf(s, p, v, pte, Bytes(s, s.procs[p].pt[v].ppn)))
  {
    hide Counted;
    forall q, u | q in s.procs && u in s.procs[q].pt ensures s.procs[q].pt[u].ppn != pte.ppn { LeafHolds(s, q, u); }
    CopyLeafContents(s, p, v, pte);
  }

  lemma CopyLeafContents(s: State, p: nat, v: nat, pte: Pte)
    requires p in s.procs && v in s.procs[p].pt && Count(s, s.procs[p].pt[v].ppn) >= 2
    requires forall q, u :: q in s.procs && u in s.procs[q].pt ==> s.procs[q].pt[u].ppn != pte.ppn
    ensures Same(s, CopyLeaf(s, p, v, pte, Bytes(s, s.procs[p].pt[v].ppn)))
  {
  }

  /** A write to a writable page is seen by its one holder only. */
  lemma WriteOnly(s: State, p: nat, v: nat, page: Page)
    requires Inv(s) && p in s.procs && v in s.procs[p].pt && s.procs[p].pt[v].w
    ensures Only(s, SetBytes(s, s.procs[p].pt[v].ppn, page), p, v, page)
    ensures Inv(SetBytes(s, s.procs[p].pt[v].ppn, page))
  {
    hide Counted;
    var a := s.procs[p].pt[v].ppn;
    var s' := SetBytes(s, a, page);
    forall q, u: nat | q in s.procs && (q, u) != (p, v) ensures Contents(s', q, u) == Contents(s, q, u) {
      if u in s.procs[q].pt && s.procs[q].pt[u].ppn == a { LeafAlone(s, p, v, q, u); }
    }
    LeafHolds(s, p, v);
    SetBytesInv(s, a, page);
  }

  // ---------------------------------------------------------------------
  // uvmunmap

  ghost predicate Cleared(s: State, s': State, p: nat, v: nat, n: nat)
    requires p in s.procs
  {
    && SameSizes(s, s')
    && SameKeys(s, s', p)
    && (forall u :: u in s'.procs[p].pt <==> u in s.procs[p].pt && !(v <= u < v + n))
    && (forall q, u: nat :: q in s.procs && !(q == p && v <= u < v + n) ==> Contents(s', q, u) == Contents(s, q, u))
  }

  lemma {:induction false} UvmUnmapEffect(s: State, p: nat, v: nat, n: nat)
    requires Inv(s) && p in s.procs
    ensures Inv(UvmUnmap(s, p, v, n))
    ensures Cleared(s, UvmUnmap(s, p, v, n), p, v, n)
    decreases n
  {
    hide Inv, Only;
    if n > 0 {
      var s1 := UnmapOne(s, p, v);
      UnmapOneInv(s, p, v);
      UnmapOneOnly(s, p, v);
      UvmUnmapEffect(s1, p, v + 1, n - 1);
      ClearedStep(s, s1, UvmUnmap(s1, p, v + 1, n - 1), p, v, n);
    }
  }

  lemma ClearedStep(s: State, s1: State, s': State, p: nat, v: nat, n: nat)
    requires p in s.procs && n > 0 && s1 == UnmapOne(s, p, v) && Only(s, s1, p, v, Fill(0))
    requires Cleared(s1, s', p, v + 1, n - 1)
    ensures Cleared(s, s', p, v, n)
  {
    hide Contents;
    forall u ensures u in s'.procs[p].pt <==> u in s.procs[p].pt && !(v <= u < v + n) {
      assert u in s1.procs[p].pt <==> u in s.procs[p].pt && u != v;
    }
  }

  // ---------------------------------------------------------------------
  // Allocating a zeroed page

  /** The operation with the allocations in the order in which they keep the invariant. */
  lemma MapNewShape(s: State, p: nat, v: nat, w: bool, c: Choice)
    requires p in s.procs && v !in s.procs[p].pt && s.pages.Keys == s.ref.Keys && s.free <= s.ref.Keys
    requires c.mem.Some? && c.mem.value in s.free && s.ref[c.mem.value] == 0
    ensures var a := c.mem.value;
            var s1 := AddTables(s, p, c.tables - {a});
            MapNew(s, p, v, w, c) == if c.ok then (MapFresh(s1, p, v, Pte(a, w, false, true), Fill(0)), Some(a))
                                     else (SetBytes(s1, a, Fill(1)), None)
  {
    hide Counted;
    var a := c.mem.value;
    var s1 := AddTables(s, p, c.tables - {a});
    var s2 := SetBytes(Kalloc(s, c.mem).0, a, Fill(0));
    var s3 := AddTables(s2, p, c.tables);
    var added := (c.tables - {a}) * s.free;
    assert added == c.tables * s2.free;
    assert s3.ref == s1.ref[a := 1];
    assert s3.free == s1.free - {a};
    assert s3.pages == s1.pages[a := Fill(0)];
    assert s3.procs == s1.procs;
    if c.ok {
      assert MapNew(s, p, v, w, c).0 == MapFresh(s1, p, v, Pte(a, w, false, true), Fill(0));
    } else {
      var s4 := Kfree(s3, a);
      assert s4.ref == s1.ref;
      assert s4.free == s1.free;
      assert s4.pages == s1.pages[a := Fill(1)];
    }
  }

  /** A page appears below p's leaves or not; nobody reads anything new. */
  ghost predicate Added(s: State, s': State, p: nat, v: nat, ok: bool)
    requires p in s.procs
  {
    && Same(s, s')
    && SameKeys(s, s', p)
    && s'.procs[p].pt.Keys == s.procs[p].pt.Keys + (if ok then {v} else {})
  }

  lemma MapNewEffect(s: State, p: nat, v: nat, w: bool, c: Choice)
    requires Inv(s) && p in s.procs && v !in s.procs[p].pt
    ensures Inv(MapNew(s, p, v, w, c).0)
    ensures Added(s, MapNew(s, p, v, w, c).0, p, v, MapNew(s, p, v, w, c).1.Some?)
    ensures MapNew(s, p, v, w, c).1.Some? ==> MapNew(s, p, v, w, c).0.procs[p].pt[v] == Pte(MapNew(s, p, v, w, c).1.value, w, false, true)
  {
    if c.mem.Some? && c.mem.value in s.free {
      var a := c.mem.value;
      var s1 := AddTables(s, p, c.tables - {a});
      MapNewShape(s, p, v, w, c);
      AddTablesInv(s, p, c.tables - {a});
      AddTablesSame(s, p, c.tables - {a});
      MapNewDone(s, s1, p, v, Pte(a, w, false, true), c.ok);
    }
  }

  lemma MapNewDone(s: State, s1: State, p: nat, v: nat, pte: Pte, ok: bool)
    requires Inv(s1) && p in s.procs && v !in s.procs[p].pt && pte.ppn in s1.free && Same(s, s1)
    requires forall q :: q in s.procs ==> s1.procs[q].pt == s.procs[q].pt
    ensures var s' := if ok then MapFresh(s1, p, v, pte, Fill(0)) else SetBytes(s1, pte.ppn, Fill(1));
            Inv(s') && Added(s, s', p, v, ok)
  {
    hide Inv, Added, Only, Contents;
    InvPages(s1, pte.ppn);
    if ok {
      MapFreshInv(s1, p, v, pte, Fill(0));
      MapFreshOnly(s1, p, v, pte, Fill(0));
      MapFreshAdded(s, s1, p, v, pte);
    } else {
      SetBytesInv(s1, pte.ppn, Fill(1));
      SetFreeBytesSame(s1, pte.ppn, Fill(1));
      SetBytesAdded(s, s1, p, v, pte);
    }
  }

  lemma InvPages(s: State, a: nat)
    requires Inv(s) && a in s.free
    ensures a in s.pages
  {
    hide Counted;
  }

  lemma MapFreshAdded(s: State, s1: State, p: nat, v: nat, pte: Pte)
    requires p in s.procs && v !in s.procs[p].pt && Same(s, s1) && (forall q :: q in s.procs ==> s1.procs[q].pt == s.procs[q].pt)
    requires Only(s1, MapFresh(s1, p, v, pte, Fill(0)), p, v, Fill(0))
    ensures Added(s, MapFresh(s1, p, v, pte, Fill(0)), p, v, true)
  {
    assert Contents(s, p, v) == Fill(0);
  }

  lemma SetBytesAdded(s: State, s1: State, p: nat, v: nat, pte: Pte)
    requires p in s.procs && v !in s.procs[p].pt && Same(s, s1) && (forall q :: q in s.procs ==> s1.procs[q].pt == s.procs[q].pt)
    requires Same(s1, SetBytes(s1, pte.ppn, Fill(1)))
    ensures Added(s, SetBytes(s1, pte.ppn, Fill(1)), p, v, false)
  {
    hide Contents;
  }

  lemma SetFreeBytesSame(s: State, a: nat, page: Page)
    requires Inv(s) && a in s.free
    ensures Same(s, SetBytes(s, a, page))
  {
    hide Counted;
    var s' := SetBytes(s, a, page);
    forall q, u: nat | q in s.procs ensures Contents(s', q, u) == Contents(s, q, u) {
      if u in s.procs[q].pt { LeafHolds(s, q, u); }
    }
  }

  // ---------------------------------------------------------------------
  // uvmalloc

  /** From page v on the process has no leaf, and the pages first..v were allocated zeroed. */
  ghost predicate Growing(s: State, p: nat, first: nat, v: nat)
    requires p in s.procs
  {
    && (forall u :: u in s.procs[p].pt ==> u < v)
    && (forall u: nat :: first <= u < v ==> Contents(s, p, u) == Fill(0))
  }

  /** Growing changed nothing anyone reads; on failure the new leaves are gone again. */
  ghost predicate Grown(s: State, s': State, ok: bool, p: nat, first: nat, v: nat, end: nat)
    requires p in s.procs
  {
    && Same(s, s')
    && SameKeys(s, s', p)
    && (forall u :: u in s'.procs[p].pt ==> u < if ok then Max(v, end) else first)
  }

  lemma {:induction false} UvmAllocEffect(s: State, p: nat, first: nat, v: nat, end: nat, w: bool, cs: Choices)
    requires Inv(s) && p in s.procs && first <= v && Growing(s, p, first, v)
    ensures Inv(UvmAlloc(s, p, first, v, end, w, cs).0)
    ensures Grown(s, UvmAlloc(s, p, first, v, end, w, cs).0, UvmAlloc(s, p, first, v, end, w, cs).1, p, first, v, end)
    decreases end - v
  {
    hide Inv, Growing, Grown, Added, Cleared, MapNew, UvmUnmap;
    GrownRefl(s, p, first, v, end);
    if v < end {
      var (s1, mem) := MapNew(s, p, v, w, At(cs, 0));
      MapNewEffect(s, p, v, w, At(cs, 0));
      if mem.None? {
        UvmUnmapEffect(s1, p, first, v - first);
        GrowFailed(s, s1, UvmUnmap(s1, p, first, v - first), p, first, v, end);
        assert UvmAlloc(s, p, first, v, end, w, cs) == (UvmUnmap(s1, p, first, v - first), false);
      } else {
        GrowingStep(s, s1, p, first, v);
        UvmAllocEffect(s1, p, first, v + 1, end, w, Rest(cs));
        GrowNext(s, s1, UvmAlloc(s1, p, first, v + 1, end, w, Rest(cs)).0, UvmAlloc(s1, p, first, v + 1, end, w, Rest(cs)).1,
                 p, first, v, end);
        assert UvmAlloc(s, p, first, v, end, w, cs) == UvmAlloc(s1, p, first, v + 1, end, w, Rest(cs));
      }
    }
  }

  lemma GrownRefl(s: State, p: nat, first: nat, v: nat, end: nat)
    requires p in s.procs && Growing(s, p, first, v)
    ensures Grown(s, s, true, p, first, v, end) && v !in s.procs[p].pt
  {
  }

  lemma GrowingStep(s: State, s1: State, p: nat, first: nat, v: nat)
    requires p in s.procs && first <= v && Growing(s, p, first, v) && Added(s, s1, p, v, true)
    ensures Growing(s1, p, first, v + 1)
  {
  }

  lemma GrowFailed(s: State, s1: State, s': State, p: nat, first: nat, v: nat, end: nat)
    requires p in s.procs && first <= v && Growing(s, p, first, v) && Added(s, s1, p, v, false)
    requires Cleared(s1, s', p, first, v - first)
    ensures Grown(s, s', false, p, first, v, end)
  {
    UnmapZeros(s1, s', p, first, v);
  }

  lemma GrowNext(s: State, s1: State, s': State, ok: bool, p: nat, first: nat, v: nat, end: nat)
    requires p in s.procs && first <= v < end && Added(s, s1, p, v, true) && Grown(s1, s', ok, p, first, v + 1, end)
    ensures Grown(s, s', ok, p, first, v, end)
  {
  }

  lemma UnmapZeros(s: State, s': State, p: nat, first: nat, v: nat)
    requires p in s.procs && first <= v && Growing(s, p, first, v) && Cleared(s, s', p, first, v - first)
    ensures Same(s, s')
  {
    forall q, u: nat | q in s.procs ensures Contents(s', q, u) == Contents(s, q, u) {
    }
  }

  // ---------------------------------------------------------------------
  // uvmcopy

  /** One page shared, or nothing changed for anyone. */
  ghost predicate Shared(s: State, s': State, p: nat, c: nat, v: nat, ok: bool)
    requires p in s.procs && c in s.procs
  {
    && SameKeys(s, s', c)
    && (if ok then Only(s, s', c, v, Contents(s, p, v)) && (forall u :: u in s'.procs[c].pt ==> u in s.procs[c].pt || u == v)
        else Same(s, s') && s'.procs[c].pt.Keys == s.procs[c].pt.Keys)
  }

  lemma ShareOneEffect(s: State, p: nat, c: nat, v: nat, ch: Choice)
    requires Inv(s) && p in s.procs && c in s.procs && p != c && v !in s.procs[c].pt
    ensures Inv(ShareOne(s, p, c, v, ch).0)
    ensures Shared(s, ShareOne(s, p, c, v, ch).0, p, c, v, ShareOne(s, p, c, v, ch).1)
  {
    if v in s.procs[p].pt {
      hide Inv, Same, SameKeys, Only, Contents, AddTables;
      var pte := s.procs[p].pt[v];
      var shared := if pte.w then pte.(w := false, cow := true) else pte;
      var s1 := SetPt(s, p, s.procs[p].pt[v := shared]);
      SetFlagsInv(s, p, v, shared);
      SetFlagsSame(s, p, v, shared);
      var s2 := AddTables(s1, c, ch.tables);
      AddTablesInv(s1, c, ch.tables);
      AddTablesSame(s1, c, ch.tables);
      if ch.ok {
        MapSharedInv(s2, p, c, v, shared);
        MapSharedOnly(s2, p, c, v, shared);
        ShareDone(s, s1, s2, MapShared(s2, c, v, shared), p, c, v, shared);
        assert ShareOne(s, p, c, v, ch) == (MapShared(s2, c, v, shared), true);
      } else {
        ShareFailed(s, s1, s2, p, c, v, shared);
        assert ShareOne(s, p, c, v, ch) == (s2, false);
      }
    }
  }

  lemma ShareFailed(s: State, s1: State, s2: State, p: nat, c: nat, v: nat, pte: Pte)
    requires p in s.procs && c in s.procs && p != c && v in s.procs[p].pt
    requires s1 == SetPt(s, p, s.procs[p].pt[v := pte]) && Same(s, s1) && Same(s1, s2)
    requires forall q :: q in s1.procs ==> s2.procs[q].pt == s1.procs[q].pt
    ensures Shared(s, s2, p, c, v, false)
  {
  }

  lemma ShareDone(s: State, s1: State, s2: State, s3: State, p: nat, c: nat, v: nat, pte: Pte)
    requires p in s.procs && c in s.procs && p != c && v in s.procs[p].pt
    requires s1 == SetPt(s, p, s.procs[p].pt[v := pte]) && Same(s, s1) && Same(s1, s2)
    requires forall q :: q in s1.procs ==> s2.procs[q].pt == s1.procs[q].pt
    requires s3 == MapShared(s2, c, v, pte) && Only(s2, s3, c, v, Contents(s2, p, v))
    ensures Shared(s, s3, p, c, v, true)
  {
    hide Contents;
  }

  /** The child's pages from v to end read like the parent's, or the child has none left. */
  ghost predicate Copied(s: State, s': State, ok: bool, p: nat, c: nat, v: nat, end: nat)
    requires p in s.procs && c in s.procs
  {
    && SameSizes(s, s')
    && SameKeys(s, s', c)
    && (forall q, u: nat :: q in s.procs && q != c ==> Contents(s', q, u) == Contents(s, q, u))
    && (if ok then
          && (forall u: nat :: u < end ==> Contents(s', c, u) == Contents(s, if v <= u then p else c, u))
          && (forall u :: u in s'.procs[c].pt ==> u < Max(v, end))
        else s'.procs[c].pt == map[])
  }

  lemma {:induction false} UvmCopyEffect(s: State, p: nat, c: nat, v: nat, end: nat, cs: Choices)
    requires Inv(s) && p in s.procs && c in s.procs && p != c
    requires forall u :: u in s.procs[c].pt ==> u < v
    ensures Inv(UvmCopy(s, p, c, v, end, cs).0)
    ensures Copied(s, UvmCopy(s, p, c, v, end, cs).0, UvmCopy(s, p, c, v, end, cs).1, p, c, v, end)
    decreases end - v
  {
    hide Inv, Shared, Copied, Cleared, ShareOne, UvmUnmap, Same, SameKeys, Contents;
    if v < end {
      var s1 := ShareOne(s, p, c, v, At(cs, 0)).0;
      ShareOneEffect(s, p, c, v, At(cs, 0));
      if ShareOne(s, p, c, v, At(cs, 0)).1 {
        SharedKeys(s, s1, p, c, v);
        var r := UvmCopy(s1, p, c, v + 1, end, Rest(cs));
        UvmCopyEffect(s1, p, c, v + 1, end, Rest(cs));
        CopyNext(s, s1, r.0, r.1, p, c, v, end);
        assert UvmCopy(s, p, c, v, end, cs) == r;
      } else {
        UvmUnmapEffect(s1, c, 0, v);
        CopyFailed(s, s1, UvmUnmap(s1, c, 0, v), p, c, v, end);
        assert UvmCopy(s, p, c, v, end, cs) == (UvmUnmap(s1, c, 0, v), false);
      }
    } else {
      CopyNone(s, p, c, v, end);
    }
  }

  lemma CopyNone(s: State, p: nat, c: nat, v: nat, end: nat)
    requires p in s.procs && c in s.procs && v >= end && forall u :: u in s.procs[c].pt ==> u < v
    ensures Copied(s, s, true, p, c, v, end)
  {
  }

  lemma SharedKeys(s: State, s1: State, p: nat, c: nat, v: nat)
    requires p in s.procs && c in s.procs && Shared(s, s1, p, c, v, true) && forall u :: u in s.procs[c].pt ==> u < v
    ensures forall u :: u in s1.procs[c].pt ==> u < v + 1
  {
  }

  lemma CopyNext(s: State, s1: State, s': State, ok: bool, p: nat, c: nat, v: nat, end: nat)
    requires p in s.procs && c in s.procs && p != c && v < end
    requires Shared(s, s1, p, c, v, true) && Copied(s1, s', ok, p, c, v + 1, end)
    ensures Copied(s, s', ok, p, c, v, end)
  {
    hide Contents;
  }

  lemma CopyFailed(s: State, s1: State, s': State, p: nat, c: nat, v: nat, end: nat)
    requires p in s.procs && c in s.procs && p != c && (forall u :: u in s.procs[c].pt ==> u < v)
    requires Shared(s, s1, p, c, v, false) && Cleared(s1, s', c, 0, v)
    ensures Copied(s, s', false, p, c, v, end)
  {
    hide Contents;
    forall u ensures u !in s'.procs[c].pt {
      assert u in s1.procs[c].pt ==> u in s.procs[c].pt;
    }
  }

  // ---------------------------------------------------------------------
  // freeproc and fork

  /** Process p is gone and nobody else reads anything new. */
  ghost predicate Gone(s: State, s': State, p: nat) {
    && s'.procs.Keys == s.procs.Keys - {p}
    && SameKeys(s, s', p)
    && (forall q :: q in s.procs && q != p ==> s'.procs[q].sz == s.procs[q].sz)
    && (forall q, u: nat :: q in s.procs && q != p ==> Contents(s', q, u) == Contents(s, q, u))
  }

  lemma FreeProcEffect(s: State, p: nat)
    requires Inv(s) && p in s.procs && Below(s.procs[p])
    ensures Inv(FreeProc(s, p)) && Gone(s, FreeProc(s, p), p)
  {
    hide Inv, Cleared, UvmUnmap, FreeTables, Below, Gone;
    var n := NPages(s.procs[p].sz);
    var s1 := UvmUnmap(s, p, 0, n);
    UvmUnmapEffect(s, p, 0, n);
    ClearedAll(s, s1, p);
    FreeTablesInv(s1, p);
    var s2 := FreeTables(s1, p);
    DropProcInv(s2, p);
    FreeTablesContents(s1, p);
    GoneDone(s, s1, s2, p);
  }

  lemma ClearedAll(s: State, s1: State, p: nat)
    requires p in s.procs && Below(s.procs[p]) && Cleared(s, s1, p, 0, NPages(s.procs[p].sz))
    ensures s1.procs[p].pt == map[]
  {
    forall u ensures u !in s1.procs[p].pt { }
  }

  lemma FreeTablesContents(s: State, p: nat)
    requires Inv(s) && p in s.procs && s.procs[p].pt == map[]
    ensures forall q, u: nat :: q in s.procs ==> q in FreeTables(s, p).procs && Contents(FreeTables(s, p), q, u) == Contents(s, q, u)
  {
    hide Counted;
    var s' := FreeTables(s, p);
    FreeTablesInv(s, p);
    forall q, u: nat | q in s.procs ensures q in s'.procs && Contents(s', q, u) == Contents(s, q, u) {
      if u in s.procs[q].pt { LeafNoTree(s, q, u, p); }
    }
  }

  lemma GoneDone(s: State, s1: State, s2: State, p: nat)
    requires p in s.procs && Cleared(s, s1, p, 0, NPages(s.procs[p].sz))
    requires s2.procs == s1.procs[p := s1.procs[p].(tables := {})]
    requires forall q, u: nat :: q in s1.procs ==> q in s2.procs && Contents(s2, q, u) == Contents(s1, q, u)
    ensures Gone(s, s2.(procs := s2.procs - {p}), p)
  {
    var s' := s2.(procs := s2.procs - {p});
    forall q, u: nat | q in s.procs && q != p ensures Contents(s', q, u) == Contents(s, q, u) {
      assert Contents(s', q, u) == Contents(s2, q, u);
    }
  }
}
