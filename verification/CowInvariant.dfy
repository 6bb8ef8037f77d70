/**
 The reference-count invariant of copy-on-write memory: a page's count is
 the number of its holders, it is free exactly when the count is zero, and a
 writable mapping is the only one.
 */
module CowInvariant {
  import opened Common
  import opened CowMemory

  /** The leaf PTEs that map page a. */
  ghost function Leaves(procs: map<nat, Proc>, a: nat): set<(nat, nat)> {
    set p, v | p in procs && v in procs[p].pt && procs[p].pt[v].ppn == a :: (p, v)
  }

  /** The processes whose page-table tree (or trapframe) is stored in page a. */
  ghost function Trees(procs: map<nat, Proc>, a: nat): set<nat> {
    set p | p in procs && a in procs[p].tables
  }

  ghost predicate Typed(s: State) {
    && !s.panicked
    && s.pages.Keys == s.ref.Keys
    && s.free <= s.ref.Keys
    && (forall p, v :: p in s.procs && v in s.procs[p].pt ==> s.procs[p].pt[v].ppn in s.ref)
    && (forall p :: p in s.procs ==> s.procs[p].tables <= s.ref.Keys)
  }

  /** Every count is exact. */
  ghost predicate Counted(s: State) {
    forall a :: a in s.ref ==> s.ref[a] == |Leaves(s.procs, a)| + |Trees(s.procs, a)|
  }

  ghost predicate FreeIffZero(s: State) {
    forall a :: a in s.ref ==> (a in s.free <==> s.ref[a] == 0)
  }

  /** A writable page has one holder, and so has a page-table page. */
  ghost predicate Exclusive(s: State) {
    && (forall p, v :: p in s.procs && v in s.procs[p].pt && s.procs[p].pt[v].w ==> Count(s, s.procs[p].pt[v].ppn) == 1)
    && (forall p, a :: p in s.procs && a in s.procs[p].tables ==> Count(s, a) == 1)
  }

  ghost predicate Shape(s: State) {
    Typed(s) && FreeIffZero(s) && Exclusive(s)
  }

  ghost predicate Inv(s: State) {
    Shape(s) && Counted(s)
  }

  /** No leaf lies at or beyond the size of its process. */
  ghost predicate Below(pr: Proc) {
    forall v :: v in pr.pt ==> v < NPages(pr.sz)
  }

  ghost predicate Bounded(s: State) {
    forall p :: p in s.procs ==> Below(s.procs[p])
  }

  // ---------------------------------------------------------------------
  // Holders under updates

  function One(b: bool): nat { if b then 1 else 0 }

  lemma AddLeafSet(procs: map<nat, Proc>, p: nat, v: nat, pte: Pte, a: nat)
    requires p in procs && v !in procs[p].pt
    ensures var procs' := procs[p := procs[p].(pt := procs[p].pt[v := pte])];
            Leaves(procs', a) == Leaves(procs, a) + (if pte.ppn == a then {(p, v)} else {})
            && Trees(procs', a) == Trees(procs, a)
    ensures (p, v) !in Leaves(procs, a)
  {
  }

  lemma AddLeaf(procs: map<nat, Proc>, p: nat, v: nat, pte: Pte, a: nat)
    requires p in procs && v !in procs[p].pt
    ensures var procs' := procs[p := procs[p].(pt := procs[p].pt[v := pte])];
            |Leaves(procs', a)| == |Leaves(procs, a)| + One(pte.ppn == a)
            && |Trees(procs', a)| == |Trees(procs, a)|
  {
    AddLeafSet(procs, p, v, pte, a);
  }

  lemma DropLeafSet(procs: map<nat, Proc>, p: nat, v: nat, a: nat)
    requires p in procs && v in procs[p].pt
    ensures var procs' := procs[p := procs[p].(pt := procs[p].pt - {v})];
            Leaves(procs', a) == Leaves(procs, a) - {(p, v)}
            && Trees(procs', a) == Trees(procs, a)
    ensures (p, v) in Leaves(procs, a) <==> procs[p].pt[v].ppn == a
  {
  }

  lemma DropLeaf(procs: map<nat, Proc>, p: nat, v: nat, a: nat)
    requires p in procs && v in procs[p].pt
    ensures var procs' := procs[p := procs[p].(pt := procs[p].pt - {v})];
            |Leaves(procs', a)| == |Leaves(procs, a)| - One(procs[p].pt[v].ppn == a)
            && |Trees(procs', a)| == |Trees(procs, a)|
  {
    DropLeafSet(procs, p, v, a);
  }

  lemma SetLeafSet(procs: map<nat, Proc>, p: nat, v: nat, pte: Pte, a: nat)
    requires p in procs && v in procs[p].pt
    ensures var procs' := procs[p := procs[p].(pt := procs[p].pt[v := pte])];
            Leaves(procs', a) == Leaves(procs, a) - {(p, v)} + (if pte.ppn == a then {(p, v)} else {})
            && Trees(procs', a) == Trees(procs, a)
    ensures (p, v) in Leaves(procs, a) <==> procs[p].pt[v].ppn == a
  {
  }

  lemma SetLeaf(procs: map<nat, Proc>, p: nat, v: nat, pte: Pte, a: nat)
    requires p in procs && v in procs[p].pt
    ensures var procs' := procs[p := procs[p].(pt := procs[p].pt[v := pte])];
            |Leaves(procs', a)| == |Leaves(procs, a)| - One(procs[p].pt[v].ppn == a) + One(pte.ppn == a)
            && |Trees(procs', a)| == |Trees(procs, a)|
  {
    SetLeafSet(procs, p, v, pte, a);
  }

  lemma SetTablesSet(procs: map<nat, Proc>, p: nat, t: set<nat>, a: nat)
    requires p in procs
    ensures var procs' := procs[p := procs[p].(tables := t)];
            Leaves(procs', a) == Leaves(procs, a)
            && Trees(procs', a) == Trees(procs, a) - {p} + (if a in t then {p} else {})
    ensures p in Trees(procs, a) <==> a in procs[p].tables
  {
  }

  lemma SetTables(procs: map<nat, Proc>, p: nat, t: set<nat>, a: nat)
    requires p in procs
    ensures var procs' := procs[p := procs[p].(tables := t)];
            |Leaves(procs', a)| == |Leaves(procs, a)|
            && |Trees(procs', a)| == |Trees(procs, a)| - One(a in procs[p].tables) + One(a in t)
    ensures a in procs[p].tables ==> |Trees(procs, a)| >= 1
  {
    SetTablesSet(procs, p, t, a);
  }

  lemma SameHolders(procs: map<nat, Proc>, procs': map<nat, Proc>, a: nat)
    requires forall p :: p in procs && p in procs' ==> procs[p].pt == procs'[p].pt && procs[p].tables == procs'[p].tables
    requires forall p :: p in procs && p !in procs' ==> procs[p].pt == map[] && procs[p].tables == {}
    requires forall p :: p in procs' && p !in procs ==> procs'[p].pt == map[] && procs'[p].tables == {}
    ensures Leaves(procs', a) == Leaves(procs, a) && Trees(procs', a) == Trees(procs, a)
  {
  }

  lemma SameCounted(s: State, s': State)
    requires Counted(s) && s'.ref == s.ref
    requires forall p :: p in s.procs && p in s'.procs ==> s.procs[p].pt == s'.procs[p].pt && s.procs[p].tables == s'.procs[p].tables
    requires forall p :: p in s.procs && p !in s'.procs ==> s.procs[p].pt == map[] && s.procs[p].tables == {}
    requires forall p :: p in s'.procs && p !in s.procs ==> s'.procs[p].pt == map[] && s'.procs[p].tables == {}
    ensures Counted(s')
  {
    forall b | b in s'.ref
      ensures s'.ref[b] == |Leaves(s'.procs, b)| + |Trees(s'.procs, b)|
    {
      SameHolders(s.procs, s'.procs, b);
    }
  }

  // ---------------------------------------------------------------------
  // Every primitive update keeps the invariant

  lemma LeafHolds(s: State, p: nat, v: nat)
    requires Inv(s) && p in s.procs && v in s.procs[p].pt
    ensures var a := s.procs[p].pt[v].ppn;
            a in s.ref && s.ref[a] >= 1 && a !in s.free && (p, v) in Leaves(s.procs, a)
  {
    assert (p, v) in Leaves(s.procs, s.procs[p].pt[v].ppn);
  }

  lemma TableHolds(s: State, p: nat, a: nat)
    requires Shape(s) && p in s.procs && a in s.procs[p].tables
    ensures a in s.ref && s.ref[a] == 1 && a !in s.free
  {
    assert Count(s, a) == 1;
  }

  /** A fresh page mapped where nothing was: lazy allocation and uvmalloc. */
  function MapFresh(s: State, p: nat, v: nat, pte: Pte, page: Page): State
    requires p in s.procs
  {
    SetPt(SetBytes(s.(free := s.free - {pte.ppn}, ref := s.ref[pte.ppn := 1]), pte.ppn, page), p, s.procs[p].pt[v := pte])
  }

  lemma MapFreshShape(s: State, p: nat, v: nat, pte: Pte, page: Page)
    requires Shape(s) && p in s.procs && v !in s.procs[p].pt && pte.ppn in s.free
    requires forall q, u :: q in s.procs && u in s.procs[q].pt ==> s.procs[q].pt[u].ppn != pte.ppn
    ensures Shape(MapFresh(s, p, v, pte, page))
  {
    var s' := MapFresh(s, p, v, pte, page);
    forall q, b | q in s'.procs && b in s'.procs[q].tables ensures Count(s', b) == 1 {
      assert b in s.procs[q].tables;
      assert Count(s, b) == 1;
    }
  }

  lemma MapFreshCounted(s: State, p: nat, v: nat, pte: Pte, page: Page)
    requires Counted(s) && p in s.procs && v !in s.procs[p].pt && pte.ppn in s.ref && s.ref[pte.ppn] == 0
    ensures Counted(MapFresh(s, p, v, pte, page))
  {
    var s' := MapFresh(s, p, v, pte, page);
    forall b | b in s'.ref
      ensures s'.ref[b] == |Leaves(s'.procs, b)| + |Trees(s'.procs, b)|
    {
      AddLeaf(s.procs, p, v, pte, b);
    }
  }

  lemma MapFreshInv(s: State, p: nat, v: nat, pte: Pte, page: Page)
    requires Inv(s) && p in s.procs && v !in s.procs[p].pt && pte.ppn in s.free
    ensures Inv(MapFresh(s, p, v, pte, page))
  {
    hide Counted;
    forall q, u | q in s.procs && u in s.procs[q].pt ensures s.procs[q].pt[u].ppn != pte.ppn { LeafHolds(s, q, u); }
    MapFreshShape(s, p, v, pte, page);
    MapFreshCounted(s, p, v, pte, page);
  }

  lemma AddTablesShape(s: State, p: nat, t: set<nat>)
    requires Shape(s) && p in s.procs
    requires forall q, u :: q in s.procs && u in s.procs[q].pt ==> s.procs[q].pt[u].ppn !in s.free
    ensures Shape(AddTables(s, p, t))
  {
    var s' := AddTables(s, p, t);
    forall q, b | q in s'.procs && b in s'.procs[q].tables ensures Count(s', b) == 1 {
      if b in s.procs[q].tables { TableHolds(s, q, b); }
    }
    forall q, u | q in s'.procs && u in s'.procs[q].pt ensures s'.procs[q].pt[u] == s.procs[q].pt[u] {}
  }

  lemma AddTablesCounted(s: State, p: nat, t: set<nat>)
    requires Counted(s) && FreeIffZero(s) && p in s.procs && s.free <= s.ref.Keys
    ensures Counted(AddTables(s, p, t))
  {
    var s' := AddTables(s, p, t);
    forall b | b in s'.ref
      ensures s'.ref[b] == |Leaves(s'.procs, b)| + |Trees(s'.procs, b)|
    {
      SetTables(s.procs, p, s.procs[p].tables + t * s.free, b);
    }
  }

  lemma AddTablesInv(s: State, p: nat, t: set<nat>)
    requires Inv(s) && p in s.procs
    ensures Inv(AddTables(s, p, t))
  {
    hide Counted;
    forall q, u | q in s.procs && u in s.procs[q].pt ensures s.procs[q].pt[u].ppn !in s.free { LeafHolds(s, q, u); }
    AddTablesShape(s, p, t);
    AddTablesCounted(s, p, t);
  }

  lemma UnmapOneShape(s: State, p: nat, v: nat)
    requires Shape(s) && p in s.procs && v in s.procs[p].pt
    requires Count(s, s.procs[p].pt[v].ppn) >= 1
    requires forall q, u :: q in s.procs && u in s.procs[q].pt && (q, u) != (p, v) && s.procs[q].pt[u].ppn == s.procs[p].pt[v].ppn
               ==> Count(s, s.procs[p].pt[v].ppn) >= 2 && !s.procs[q].pt[u].w
    requires forall q :: q in s.procs ==> s.procs[p].pt[v].ppn !in s.procs[q].tables
    ensures Shape(UnmapOne(s, p, v))
  {
    var s' := UnmapOne(s, p, v);
    forall q, b | q in s'.procs && b in s'.procs[q].tables ensures Count(s', b) == 1 {
      assert b in s.procs[q].tables;
      TableHolds(s, q, b);
    }
    forall q, u | q in s'.procs && u in s'.procs[q].pt ensures s'.procs[q].pt[u] == s.procs[q].pt[u] && (q, u) != (p, v) {}
  }

  lemma UnmapOneCounted(s: State, p: nat, v: nat)
    requires Counted(s) && p in s.procs && v in s.procs[p].pt
    requires Count(s, s.procs[p].pt[v].ppn) >= 1
    ensures Counted(UnmapOne(s, p, v))
  {
    var s' := UnmapOne(s, p, v);
    forall b | b in s'.ref
      ensures s'.ref[b] == |Leaves(s'.procs, b)| + |Trees(s'.procs, b)|
    {
      DropLeaf(s.procs, p, v, b);
    }
  }

  /** A page mapped by a leaf is no page-table page, and a second leaf means a count of at least two. */
  lemma LeafAlone(s: State, p: nat, v: nat, q: nat, u: nat)
    requires Inv(s) && p in s.procs && v in s.procs[p].pt
    requires q in s.procs && u in s.procs[q].pt && (q, u) != (p, v)
    requires s.procs[q].pt[u].ppn == s.procs[p].pt[v].ppn
    ensures Count(s, s.procs[p].pt[v].ppn) >= 2 && !s.procs[q].pt[u].w
  {
    hide Leaves, Trees;
    var a := s.procs[p].pt[v].ppn;
    LeavesPair(s.procs, p, v, q, u);
    assert a in s.ref && s.ref[a] == |Leaves(s.procs, a)| + |Trees(s.procs, a)|;
  }

  lemma LeavesPair(procs: map<nat, Proc>, p: nat, v: nat, q: nat, u: nat)
    requires p in procs && v in procs[p].pt && q in procs && u in procs[q].pt && (q, u) != (p, v)
    requires procs[q].pt[u].ppn == procs[p].pt[v].ppn
    ensures |Leaves(procs, procs[p].pt[v].ppn)| >= 2
  {
    Subset({(p, v), (q, u)}, Leaves(procs, procs[p].pt[v].ppn));
  }

  lemma LeafNoTree(s: State, p: nat, v: nat, q: nat)
    requires Inv(s) && p in s.procs && v in s.procs[p].pt && q in s.procs
    ensures s.procs[p].pt[v].ppn !in s.procs[q].tables
  {
    var a := s.procs[p].pt[v].ppn;
    LeafHolds(s, p, v);
    assert |Leaves(s.procs, a)| >= 1;
    assert a in s.procs[q].tables ==> q in Trees(s.procs, a) && |Trees(s.procs, a)| >= 1;
    assert a in s.procs[q].tables ==> Count(s, a) == 1;
  }

  lemma {:induction false} Subset<T>(a: set<T>, b: set<T>)
    requires a <= b
    ensures |a| <= |b|
  {
    if a != {} {
      var x :| x in a;
      Subset(a - {x}, b - {x});
    }
  }

  lemma UnmapOneInv(s: State, p: nat, v: nat)
    requires Inv(s) && p in s.procs
    ensures Inv(UnmapOne(s, p, v))
  {
    hide Shape, Counted;
    if v in s.procs[p].pt {
      var a := s.procs[p].pt[v].ppn;
      LeafHolds(s, p, v);
      forall q, u | q in s.procs && u in s.procs[q].pt && (q, u) != (p, v) && s.procs[q].pt[u].ppn == a
        ensures Count(s, a) >= 2 && !s.procs[q].pt[u].w { LeafAlone(s, p, v, q, u); }
      forall q | q in s.procs ensures a !in s.procs[q].tables { LeafNoTree(s, p, v, q); }
      UnmapOneShape(s, p, v);
      UnmapOneCounted(s, p, v);
    }
  }

  // ---------------------------------------------------------------------
  // Sharing, copying and promoting

  /** uvmcopy's first half: the parent's PTE loses PTE_W. */
  lemma SetFlagsInv(s: State, p: nat, v: nat, pte: Pte)
    requires Inv(s) && p in s.procs && v in s.procs[p].pt && pte.ppn == s.procs[p].pt[v].ppn
    requires pte.w ==> Count(s, pte.ppn) == 1
    ensures Inv(SetPt(s, p, s.procs[p].pt[v := pte]))
  {
    hide Shape, Counted;
    SetFlagsShape(s, p, v, pte);
    SetFlagsCounted(s, p, v, pte);
  }

  lemma SetFlagsCounted(s: State, p: nat, v: nat, pte: Pte)
    requires Counted(s) && p in s.procs && v in s.procs[p].pt && pte.ppn == s.procs[p].pt[v].ppn
    ensures Counted(SetPt(s, p, s.procs[p].pt[v := pte]))
  {
    var s' := SetPt(s, p, s.procs[p].pt[v := pte]);
    forall b | b in s'.ref
      ensures s'.ref[b] == |Leaves(s'.procs, b)| + |Trees(s'.procs, b)|
    {
      SetLeaf(s.procs, p, v, pte, b);
    }
  }

  lemma SetFlagsShape(s: State, p: nat, v: nat, pte: Pte)
    requires Shape(s) && p in s.procs && v in s.procs[p].pt && pte.ppn == s.procs[p].pt[v].ppn
    requires pte.w ==> Count(s, pte.ppn) == 1
    ensures Shape(SetPt(s, p, s.procs[p].pt[v := pte]))
  {
    var s' := SetPt(s, p, s.procs[p].pt[v := pte]);
    forall q, b | q in s'.procs && b in s'.procs[q].tables ensures Count(s', b) == 1 {
      assert b in s.procs[q].tables;
      TableHolds(s, q, b);
    }
  }

  /** uvmcopy's second half: the child maps the page and the count goes up. */
  function MapShared(s: State, c: nat, v: nat, pte: Pte): State
    requires c in s.procs
  {
    Incref(SetPt(s, c, s.procs[c].pt[v := pte]), pte.ppn)
  }

  lemma MapSharedShape(s: State, c: nat, v: nat, pte: Pte)
    requires Shape(s) && c in s.procs && v !in s.procs[c].pt && Count(s, pte.ppn) >= 1 && !pte.w
    requires forall q, u :: q in s.procs && u in s.procs[q].pt && s.procs[q].pt[u].ppn == pte.ppn ==> !s.procs[q].pt[u].w
    requires forall q :: q in s.procs ==> pte.ppn !in s.procs[q].tables
    ensures Shape(MapShared(s, c, v, pte))
  {
    var s' := MapShared(s, c, v, pte);
    forall q, b | q in s'.procs && b in s'.procs[q].tables ensures Count(s', b) == 1 {
      assert b in s.procs[q].tables;
      TableHolds(s, q, b);
    }
  }

  lemma MapSharedInv(s: State, p: nat, c: nat, v: nat, pte: Pte)
    requires Inv(s) && p in s.procs && v in s.procs[p].pt && c in s.procs && v !in s.procs[c].pt
    requires pte == s.procs[p].pt[v] && !pte.w
    ensures Inv(MapShared(s, c, v, pte))
  {
    hide Shape, Counted;
    LeafHolds(s, p, v);
    forall q, u | q in s.procs && u in s.procs[q].pt && s.procs[q].pt[u].ppn == pte.ppn
      ensures !s.procs[q].pt[u].w { if (q, u) != (p, v) { LeafAlone(s, p, v, q, u); } }
    forall q | q in s.procs ensures pte.ppn !in s.procs[q].tables { LeafNoTree(s, p, v, q); }
    MapSharedShape(s, c, v, pte);
    MapSharedCounted(s, c, v, pte);
  }

  lemma MapSharedCounted(s: State, c: nat, v: nat, pte: Pte)
    requires Counted(s) && c in s.procs && v !in s.procs[c].pt && pte.ppn in s.ref
    ensures Counted(MapShared(s, c, v, pte))
  {
    var s' := MapShared(s, c, v, pte);
    forall b | b in s'.ref
      ensures s'.ref[b] == |Leaves(s'.procs, b)| + |Trees(s'.procs, b)|
    {
      AddLeaf(s.procs, c, v, pte, b);
    }
  }

  /** The copying branch of vmfault: a leaf moves from a shared page to a fresh copy. */
  function CopyLeaf(s: State, p: nat, v: nat, pte: Pte, page: Page): State
    requires p in s.procs && v in s.procs[p].pt
  {
    Decref(SetPt(SetBytes(s.(free := s.free - {pte.ppn}, ref := s.ref[pte.ppn := 1]), pte.ppn, page),
                 p, s.procs[p].pt[v := pte]),
           s.procs[p].pt[v].ppn)
  }

  lemma CopyLeafShape(s: State, p: nat, v: nat, pte: Pte, page: Page)
    requires Shape(s) && p in s.procs && v in s.procs[p].pt && pte.ppn in s.free
    requires Count(s, s.procs[p].pt[v].ppn) >= 2
    requires forall q, u :: q in s.procs && u in s.procs[q].pt ==> s.procs[q].pt[u].ppn != pte.ppn
    ensures Shape(CopyLeaf(s, p, v, pte, page))
  {
    var s' := CopyLeaf(s, p, v, pte, page);
    forall q, b | q in s'.procs && b in s'.procs[q].tables ensures Count(s', b) == 1 {
      assert b in s.procs[q].tables;
      TableHolds(s, q, b);
    }
    forall q, u | q in s'.procs && u in s'.procs[q].pt && s'.procs[q].pt[u].w
      ensures Count(s', s'.procs[q].pt[u].ppn) == 1
    {
      if (q, u) != (p, v) { assert s'.procs[q].pt[u] == s.procs[q].pt[u]; }
    }
  }

  lemma CopyLeafCounted(s: State, p: nat, v: nat, pte: Pte, page: Page)
    requires Counted(s) && p in s.procs && v in s.procs[p].pt && pte.ppn in s.ref && s.ref[pte.ppn] == 0
    requires Count(s, s.procs[p].pt[v].ppn) >= 2
    ensures Counted(CopyLeaf(s, p, v, pte, page))
  {
    var s' := CopyLeaf(s, p, v, pte, page);
    forall b | b in s'.ref
      ensures s'.ref[b] == |Leaves(s'.procs, b)| + |Trees(s'.procs, b)|
    {
      SetLeaf(s.procs, p, v, pte, b);
    }
  }

  lemma CopyLeafInv(s: State, p: nat, v: nat, pte: Pte, page: Page)
    requires Inv(s) && p in s.procs && v in s.procs[p].pt && pte.ppn in s.free
    requires Count(s, s.procs[p].pt[v].ppn) >= 2
    ensures Inv(CopyLeaf(s, p, v, pte, page))
  {
    hide Counted;
    forall q, u | q in s.procs && u in s.procs[q].pt ensures s.procs[q].pt[u].ppn != pte.ppn { LeafHolds(s, q, u); }
    CopyLeafShape(s, p, v, pte, page);
    CopyLeafCounted(s, p, v, pte, page);
  }

  // ---------------------------------------------------------------------
  // Processes come and go

  lemma NewProcInv(s: State, c: nat, t: set<nat>)
    requires Inv(s) && c !in s.procs
    ensures Inv(NewProc(s, c, t))
  {
    hide Shape, Counted;
    var s1 := s.(procs := s.procs[c := Proc(0, map[], {})]);
    SameCounted(s, s1);
    NewProcShape(s, c);
    AddTablesInv(s1, c, t);
  }

  lemma NewProcShape(s: State, c: nat)
    requires Shape(s) && c !in s.procs
    ensures Shape(s.(procs := s.procs[c := Proc(0, map[], {})]))
  {
    var s' := s.(procs := s.procs[c := Proc(0, map[], {})]);
    forall q, b | q in s'.procs && b in s'.procs[q].tables ensures Count(s', b) == 1 {
      assert b in s.procs[q].tables;
      TableHolds(s, q, b);
    }
  }

  lemma SetSzInv(s: State, p: nat, sz: nat)
    requires Inv(s) && p in s.procs
    ensures Inv(SetSz(s, p, sz))
  {
    hide Shape, Counted;
    var s' := SetSz(s, p, sz);
    SameCounted(s, s');
    SetSzShape(s, p, sz);
  }

  lemma SetSzShape(s: State, p: nat, sz: nat)
    requires Shape(s) && p in s.procs
    ensures Shape(SetSz(s, p, sz))
  {
    var s' := SetSz(s, p, sz);
    forall q, b | q in s'.procs && b in s'.procs[q].tables ensures Count(s', b) == 1 {
      assert b in s.procs[q].tables;
      TableHolds(s, q, b);
    }
  }

  lemma FreeTablesInv(s: State, p: nat)
    requires Inv(s) && p in s.procs && s.procs[p].pt == map[]
    ensures Inv(FreeTables(s, p))
    ensures FreeTables(s, p).procs == s.procs[p := s.procs[p].(tables := {})]
  {
    hide Shape, Counted;
    forall a | a in s.procs[p].tables ensures Count(s, a) == 1 { TableHolds(s, p, a); }
    forall q, u | q in s.procs && u in s.procs[q].pt ensures s.procs[q].pt[u].ppn !in s.procs[p].tables { LeafNoTree(s, q, u, p); }
    forall q, a | q in s.procs && a in s.procs[q].tables && q != p ensures a !in s.procs[p].tables { TreeAlone(s, p, q, a); }
    FreeTablesShape(s, p);
    FreeTablesCounted(s, p);
  }

  lemma TreesPair(procs: map<nat, Proc>, p: nat, q: nat, a: nat)
    requires p in procs && q in procs && p != q && a in procs[q].tables
    ensures a in procs[p].tables ==> |Trees(procs, a)| >= 2
  {
    if a in procs[p].tables {
      Subset({p, q}, Trees(procs, a));
    }
  }

  lemma TreeAlone(s: State, p: nat, q: nat, a: nat)
    requires Inv(s) && p in s.procs && q in s.procs && p != q && a in s.procs[q].tables
    ensures a !in s.procs[p].tables
  {
    TableHolds(s, q, a);
    assert a in s.ref && |Trees(s.procs, a)| <= 1;
    TreesPair(s.procs, p, q, a);
  }

  lemma FreeTablesShape(s: State, p: nat)
    requires Shape(s) && p in s.procs && s.procs[p].pt == map[]
    requires forall a :: a in s.procs[p].tables ==> Count(s, a) == 1
    requires forall q, u :: q in s.procs && u in s.procs[q].pt ==> s.procs[q].pt[u].ppn !in s.procs[p].tables
    requires forall q, a :: q in s.procs && a in s.procs[q].tables && q != p ==> a !in s.procs[p].tables
    ensures Shape(FreeTables(s, p))
    ensures FreeTables(s, p).procs == s.procs[p := s.procs[p].(tables := {})]
  {
    var s' := FreeTables(s, p);
    forall q, b | q in s'.procs && b in s'.procs[q].tables ensures Count(s', b) == 1 {
      assert b in s.procs[q].tables;
      TableHolds(s, q, b);
    }
  }

  lemma FreeTablesCounted(s: State, p: nat)
    requires Counted(s) && p in s.procs && s.procs[p].pt == map[]
    requires forall a :: a in s.procs[p].tables ==> Count(s, a) == 1
    ensures Counted(FreeTables(s, p))
  {
    var s' := FreeTables(s, p);
    forall b | b in s'.ref
      ensures s'.ref[b] == |Leaves(s'.procs, b)| + |Trees(s'.procs, b)|
    {
      SetTables(s.procs, p, {}, b);
    }
  }

  lemma DropProcInv(s: State, p: nat)
    requires Inv(s) && p in s.procs && s.procs[p].pt == map[] && s.procs[p].tables == {}
    ensures Inv(s.(procs := s.procs - {p}))
  {
    hide Shape, Counted;
    var s' := s.(procs := s.procs - {p});
    SameCounted(s, s');
    DropProcShape(s, p);
  }

  lemma DropProcShape(s: State, p: nat)
    requires Shape(s) && p in s.procs
    ensures Shape(s.(procs := s.procs - {p}))
  {
    var s' := s.(procs := s.procs - {p});
    forall q, b | q in s'.procs && b in s'.procs[q].tables ensures Count(s', b) == 1 {
      TableHolds(s, q, b);
    }
  }

  lemma SetBytesInv(s: State, a: nat, page: Page)
    requires Inv(s) && a in s.pages
    ensures Inv(SetBytes(s, a, page))
  {
    hide Shape, Counted;
    var s' := SetBytes(s, a, page);
    SetBytesShape(s, a, page);
    SameCounted(s, s');
  }

  lemma SetBytesShape(s: State, a: nat, page: Page)
    requires Shape(s) && a in s.pages
    ensures Shape(SetBytes(s, a, page))
  {
    var s' := SetBytes(s, a, page);
    forall q, b | q in s'.procs && b in s'.procs[q].tables ensures Count(s', b) == 1 {
      TableHolds(s, q, b);
    }
    forall q, u | q in s'.procs && u in s'.procs[q].pt && s'.procs[q].pt[u].w
      ensures Count(s', s'.procs[q].pt[u].ppn) == 1
    {
      assert Count(s, s.procs[q].pt[u].ppn) == 1;
    }
  }
}
