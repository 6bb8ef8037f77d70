/**
 Three-level page tables (Sv39, section 4.4 of the RISC-V Privileged
 Architecture, version 20211203) as kernel/vm.c builds them, as values: PTE
 words, the index split, and what it means for page-table pages to form a
 tree. `dir` names the pages of a tree by the indices that lead to them.
 */
module Sv39 {
  import opened Common

  const ENTRIES: nat := 512
  /** One beyond the highest virtual address, 1 << 38. */
  const MAXVA: nat := 0x40_0000_0000

  // ---------------------------------------------------------------------
  // PTE words: PA2PTE(pa) | flags is ppn * 1024 + flags

  function Make(ppn: nat, flags: nat): nat { ppn * 1024 + flags }

  function Ppn(pte: nat): nat { pte / 1024 }

  function Flags(pte: nat): nat { pte % 1024 }

  /** PTE_V. */
  predicate V(pte: nat) { pte % 2 == 1 }

  /** None of PTE_R, PTE_W, PTE_X. */
  predicate NoRwx(flags: nat) { (flags / 2) % 8 == 0 }

  /** PA2PTE, PTE2PA and PTE_FLAGS are inverse to each other. */
  lemma MakeParts(ppn: nat, flags: nat)
    requires flags < 1024
    ensures Ppn(Make(ppn, flags)) == ppn && Flags(Make(ppn, flags)) == flags
    ensures V(Make(ppn, flags)) <==> flags % 2 == 1
    ensures NoRwx(Make(ppn, flags)) <==> NoRwx(flags)
  {
    hide Make, Ppn, Flags, V, NoRwx;
    MakeSplit(ppn, flags);
    MakeValid(ppn, flags);
    MakeHalf(ppn, flags);
  }

  lemma MakeSplit(ppn: nat, flags: nat)
    requires flags < 1024
    ensures Ppn(Make(ppn, flags)) == ppn && Flags(Make(ppn, flags)) == flags
  {
  }

  /** An even number more changes no parity and half as much the half. */
  lemma EvenMore(x: int, r: int)
    ensures (2 * x + r) % 2 == r % 2 && (2 * x + r) / 2 == x + r / 2
  {
  }

  lemma EightMore(x: int, h: int)
    ensures (8 * x + h) % 8 == h % 8
  {
  }

  lemma MakeValid(ppn: nat, flags: nat)
    ensures V(Make(ppn, flags)) <==> flags % 2 == 1
  {
    var x := 512 * ppn;
    EvenMore(x, flags);
    assert Make(ppn, flags) == 2 * x + flags;
  }

  lemma MakeHalf(ppn: nat, flags: nat)
    ensures NoRwx(Make(ppn, flags)) <==> NoRwx(flags)
  {
    var x, h := 64 * ppn, flags / 2;
    EvenMore(8 * x, flags);
    assert Make(ppn, flags) == 2 * (8 * x) + flags;
    EightMore(x, h);
  }

  // ---------------------------------------------------------------------
  // The index split

  function Shift(level: nat): nat
    requires level <= 2
  {
    if level == 0 then 4096 else if level == 1 then 0x20_0000 else 0x4000_0000
  }

  /** PX(level, va). */
  function Px(level: nat, va: nat): (i: nat)
    requires level <= 2
    ensures i < ENTRIES
  {
    (va / Shift(level)) % ENTRIES
  }

  /** The three indices determine the page. */
  lemma IndexInjective(va: nat, va': nat)
    requires va < MAXVA && va' < MAXVA
    requires Px(2, va) == Px(2, va') && Px(1, va) == Px(1, va') && Px(0, va) == Px(0, va')
    ensures va / PGSIZE == va' / PGSIZE
  {
    IndexSplit(va);
    IndexSplit(va');
  }

  lemma IndexSplit(va: nat)
    requires va < MAXVA
    ensures va / PGSIZE == Px(2, va) * 262144 + Px(1, va) * 512 + Px(0, va)
  {
    var n := va / 4096;
    assert va / 0x20_0000 == n / 512;
    assert va / 0x4000_0000 == n / 262144 && n / 262144 < 256;
    assert n / 512 == (n / 262144) * 512 + (n / 512) % 512 by {
      assert (n / 512) / 512 == n / 262144;
    }
  }

  // ---------------------------------------------------------------------
  // Trees

  type Tables = map<nat, seq<nat>>
  type Dir = map<seq<nat>, nat>

  function Below(dir: Dir, q: seq<nat>, page: nat): Dir { dir[q := page] }

  function Entry(t: Tables, page: nat, i: nat): nat {
    if page in t && i < |t[page]| then t[page][i] else 0
  }

  /** walk(pagetable, va, 0): the page that holds the leaf entry, from a page at the given level; 0 is the null pointer. */
  function WalkFrom(t: Tables, page: nat, level: nat, va: nat): nat
    requires level <= 2
    decreases level
  {
    if level == 0 then page
    else
      var e := Entry(t, page, Px(level, va));
      if V(e) then WalkFrom(t, Ppn(e), level - 1, va) else 0
  }

  /** The leaf PTE of va, or 0 if there is none. */
  function LeafAt(t: Tables, root: nat, va: nat): nat {
    var page := WalkFrom(t, root, 2, va);
    var e := Entry(t, page, Px(0, va));
    if page != 0 && V(e) then e else 0
  }

  /** Below MAXVA the top index stays below 256. */
  function Fanout(k: nat): nat { if k == 0 then 256 else ENTRIES }

  /** The pages of dir form a tree below root, each reached in one way, with leaves only at the bottom. */
  ghost predicate Tree(t: Tables, root: nat, dir: Dir) {
    && [] in dir && dir[[]] == root
    && (forall p :: p in dir ==> |p| <= 2 && dir[p] > 0 && dir[p] in t && |t[dir[p]]| == ENTRIES)
    && (forall p, k :: p in dir && 0 <= k < |p| ==> p[k] < Fanout(k))
    && (forall p, q :: p in dir && q in dir && dir[p] == dir[q] ==> p == q)
    && (forall p :: p in dir && |p| > 0 ==> p[..|p| - 1] in dir)
    && (forall p, i :: p in dir && |p| < 2 && 0 <= i < ENTRIES ==> Inner(t, dir, p, i))
    && (forall p, i :: p in dir && |p| == 2 && 0 <= i < ENTRIES ==> Bottom(t, dir, p, i))
  }

  /** An inner entry is valid exactly when there is a page below it, and points to it. */
  ghost predicate Inner(t: Tables, dir: Dir, p: seq<nat>, i: nat)
    requires p in dir
  {
    var e := Entry(t, dir[p], i);
    (V(e) <==> p + [i] in dir) && (V(e) ==> NoRwx(e) && Ppn(e) == dir[p + [i]])
  }

  ghost predicate Bottom(t: Tables, dir: Dir, p: seq<nat>, i: nat)
    requires p in dir
  {
    V(Entry(t, dir[p], i)) ==> !NoRwx(Entry(t, dir[p], i))
  }

  /** The path of va to its bottom page. */
  function Path(va: nat): seq<nat> { [Px(2, va), Px(1, va)] }

  /** In a tree the walk follows dir. */
  lemma WalkTree(t: Tables, root: nat, dir: Dir, va: nat)
    requires Tree(t, root, dir)
    ensures WalkFrom(t, root, 2, va) == if Path(va) in dir then dir[Path(va)] else 0
  {
    var i, j := Px(2, va), Px(1, va);
    assert [] + [i] == [i] && [i] + [j] == [i, j] && [i, j][..|[i, j]| - 1] == [i];
    assert Inner(t, dir, [], i);
    if [i] in dir {
      assert Inner(t, dir, [i], j);
      assert WalkFrom(t, root, 2, va) == WalkFrom(t, dir[[i]], 1, va);
      assert [i, j] in dir ==> WalkFrom(t, dir[[i]], 1, va) == WalkFrom(t, dir[[i, j]], 0, va);
    } else {
      assert |[i, j]| == 2;
    }
  }

  /** Only the pages of a tree matter to it. */
  lemma Frame(t: Tables, t': Tables, root: nat, dir: Dir)
    requires Tree(t, root, dir)
    requires forall a :: a in dir.Values ==> a in t' && t'[a] == t[a]
    ensures Tree(t', root, dir)
    ensures forall va: nat :: LeafAt(t', root, va) == LeafAt(t, root, va)
  {
    forall p | p in dir ensures dir[p] in dir.Values && t'[dir[p]] == t[dir[p]] {}
    forall p, i: nat | p in dir ensures Entry(t', dir[p], i) == Entry(t, dir[p], i) {}
    FrameTree(t, t', root, dir);
    forall va: nat ensures LeafAt(t', root, va) == LeafAt(t, root, va) {
      WalkTree(t, root, dir, va);
      WalkTree(t', root, dir, va);
    }
  }

  lemma FrameTree(t: Tables, t': Tables, root: nat, dir: Dir)
    requires Tree(t, root, dir)
    requires forall p :: p in dir ==> dir[p] in t' && t'[dir[p]] == t[dir[p]]
    ensures Tree(t', root, dir)
  {
    forall p, i | p in dir && |p| < 2 && 0 <= i < ENTRIES ensures Inner(t', dir, p, i) { assert Inner(t, dir, p, i); }
    forall p, i | p in dir && |p| == 2 && 0 <= i < ENTRIES ensures Bottom(t', dir, p, i) { assert Bottom(t, dir, p, i); }
  }

  // ---------------------------------------------------------------------
  // A new page-table page

  function Zeros(): seq<nat> { seq(ENTRIES, _ => 0) }

  function AddPage(t: Tables, parent: nat, i: nat, page: nat): Tables
    requires parent in t && i < |t[parent]|
  {
    var row: seq<nat> := t[parent][i := Make(page, 1)];
    t[page := Zeros()][parent := row]
  }

  lemma AddPageTree(t: Tables, root: nat, dir: Dir, p: seq<nat>, i: nat, page: nat)
    requires Tree(t, root, dir) && p in dir && |p| < 2 && i < Fanout(|p|) && p + [i] !in dir && page > 0 && page !in dir.Values
    ensures Tree(AddPage(t, dir[p], i, page), root, Below(dir, p + [i], page))
  {
    hide Inner, Bottom;
    var t', dir' := AddPage(t, dir[p], i, page), Below(dir, p + [i], page);
    var added := p + [i];
    assert added[..|added| - 1] == p;
    AddPageEntries(t, root, dir, p, i, page);
    forall q | q in dir' ensures |q| <= 2 && dir'[q] > 0 && dir'[q] in t' && |t'[dir'[q]]| == ENTRIES {}
    forall q, r | q in dir' && r in dir' && dir'[q] == dir'[r] ensures q == r {
      assert q in dir ==> dir[q] in dir.Values;
      assert r in dir ==> dir[r] in dir.Values;
    }
    forall q, k | q in dir' && 0 <= k < |q| ensures q[k] < Fanout(k) {}
  }

  lemma AddPageEntries(t: Tables, root: nat, dir: Dir, p: seq<nat>, i: nat, page: nat)
    requires Tree(t, root, dir) && p in dir && |p| < 2 && i < Fanout(|p|) && p + [i] !in dir && page > 0 && page !in dir.Values
    ensures var t', dir' := AddPage(t, dir[p], i, page), Below(dir, p + [i], page);
            && (forall q, j :: q in dir' && |q| < 2 && 0 <= j < ENTRIES ==> Inner(t', dir', q, j))
            && (forall q, j :: q in dir' && |q| == 2 && 0 <= j < ENTRIES ==> Bottom(t', dir', q, j))
  {
    hide Inner, Bottom, AddPage;
    var t', dir' := AddPage(t, dir[p], i, page), Below(dir, p + [i], page);
    assert forall q :: q in dir ==> dir[q] in dir.Values;
    forall q, j | q in dir' && |q| < 2 && 0 <= j < ENTRIES ensures Inner(t', dir', q, j) {
      assert q in dir ==> Inner(t, dir, q, j);
      assert (q + [j])[..|q + [j]| - 1] == q;
      AddPageInner(t, dir, p, i, page, q, j);
    }
    forall q, j | q in dir' && |q| == 2 && 0 <= j < ENTRIES ensures Bottom(t', dir', q, j) {
      assert q in dir ==> Bottom(t, dir, q, j);
      AddPageBottomAt(t, dir, p, i, page, q, j);
    }
  }

  lemma AddPageBottomAt(t: Tables, dir: Dir, p: seq<nat>, i: nat, page: nat, q: seq<nat>, j: nat)
    requires p in dir && dir[p] in t && |t[dir[p]]| == ENTRIES && i < ENTRIES && j < ENTRIES && |p| < 2 && |q| == 2
    requires dir[p] != page && q in Below(dir, p + [i], page) && (q in dir ==> Bottom(t, dir, q, j) && dir[q] != page && dir[q] != dir[p])
    requires p + [i] !in dir
    ensures Bottom(AddPage(t, dir[p], i, page), Below(dir, p + [i], page), q, j)
  {
    hide Make, NoRwx;
  }

  /** The entry for a page-table page: PTE_V and nothing else. */
  lemma TableEntry(page: nat)
    ensures V(Make(page, 1)) && NoRwx(Make(page, 1)) && Ppn(Make(page, 1)) == page
  {
    hide Make, Ppn;
    MakeParts(page, 1);
  }

  lemma AddPageInner(t: Tables, dir: Dir, p: seq<nat>, i: nat, page: nat, q: seq<nat>, j: nat)
    requires p in dir && dir[p] in t && |t[dir[p]]| == ENTRIES && i < ENTRIES && j < ENTRIES && page > 0
    requires dir[p] != page && p + [i] !in dir && (q + [j] in dir ==> q in dir)
    requires q in Below(dir, p + [i], page)
    requires q in dir ==> Inner(t, dir, q, j) && dir[q] != page && (dir[q] == dir[p] ==> q == p)
    ensures Inner(AddPage(t, dir[p], i, page), Below(dir, p + [i], page), q, j)
  {
    hide Make, Ppn, NoRwx;
    var t', dir' := AddPage(t, dir[p], i, page), Below(dir, p + [i], page);
    var added := p + [i];
    TableEntry(page);
    if q == added {
      assert Entry(t', page, j) == 0;
    } else if q + [j] == added {
      assert (q + [j])[..|q|] == q && (p + [i])[..|p|] == p;
      assert q == p && j == i;
    } else if q == p {
      assert j != i;
    }
  }

  /** Adding a page-table page changes no lookup. */
  lemma AddPageLeaf(t: Tables, root: nat, dir: Dir, p: seq<nat>, i: nat, page: nat, va: nat)
    requires Tree(t, root, dir) && p in dir && |p| < 2 && i < Fanout(|p|) && p + [i] !in dir && page > 0 && page !in dir.Values
    ensures LeafAt(AddPage(t, dir[p], i, page), root, va) == LeafAt(t, root, va)
  {
    hide WalkFrom, Entry;
    var t', dir' := AddPage(t, dir[p], i, page), Below(dir, p + [i], page);
    AddPageTree(t, root, dir, p, i, page);
    WalkTree(t, root, dir, va);
    WalkTree(t', root, dir', va);
    AddPageBottom(t, root, dir, p, i, page, va);
  }

  lemma AddPageBottom(t: Tables, root: nat, dir: Dir, p: seq<nat>, i: nat, page: nat, va: nat)
    requires Tree(t, root, dir) && p in dir && |p| < 2 && i < Fanout(|p|) && p + [i] !in dir && page > 0 && page !in dir.Values
    ensures var t' := AddPage(t, dir[p], i, page);
            if Path(va) in dir then Entry(t', dir[Path(va)], Px(0, va)) == Entry(t, dir[Path(va)], Px(0, va))
            else Path(va) == p + [i] ==> Entry(t', page, Px(0, va)) == 0
  {
    assert forall r :: r in dir ==> dir[r] in dir.Values;
    assert |Path(va)| == 2;
  }

  // ---------------------------------------------------------------------
  // Setting a leaf

  function SetEntry(t: Tables, page: nat, i: nat, pte: nat): Tables
    requires page in t && i < |t[page]|
  {
    var row: seq<nat> := t[page][i := pte];
    t[page := row]
  }

  lemma SetEntryTree(t: Tables, root: nat, dir: Dir, p: seq<nat>, i: nat, pte: nat)
    requires Tree(t, root, dir) && p in dir && |p| == 2 && i < ENTRIES && (V(pte) ==> !NoRwx(pte))
    ensures Tree(SetEntry(t, dir[p], i, pte), root, dir)
  {
    var t' := SetEntry(t, dir[p], i, pte);
    forall q, j | q in dir && |q| < 2 && 0 <= j < ENTRIES ensures Inner(t', dir, q, j) { assert Inner(t, dir, q, j); }
    forall q, j | q in dir && |q| == 2 && 0 <= j < ENTRIES ensures Bottom(t', dir, q, j) { assert Bottom(t, dir, q, j); }
  }

  lemma SetEntryBottom(t: Tables, root: nat, dir: Dir, p: seq<nat>, i: nat, pte: nat, q: seq<nat>, j: nat)
    requires Tree(t, root, dir) && p in dir && i < ENTRIES && j < ENTRIES
    ensures q in dir ==> dir[q] > 0 && Entry(SetEntry(t, dir[p], i, pte), dir[q], j) == if q == p && j == i then pte else Entry(t, dir[q], j)
  {
  }

  /** Setting the leaf of one page changes that lookup and no other. */
  lemma SetEntryLeaf(t: Tables, root: nat, dir: Dir, va: nat, pte: nat, va': nat)
    requires Tree(t, root, dir) && va < MAXVA && va' < MAXVA && Path(va) in dir && (V(pte) ==> !NoRwx(pte))
    ensures LeafAt(SetEntry(t, dir[Path(va)], Px(0, va), pte), root, va') ==
            if va' / PGSIZE == va / PGSIZE then (if V(pte) then pte else 0) else LeafAt(t, root, va')
  {
    hide WalkFrom, Entry, Inner, Bottom;
    var t' := SetEntry(t, dir[Path(va)], Px(0, va), pte);
    SetEntryTree(t, root, dir, Path(va), Px(0, va), pte);
    WalkTree(t, root, dir, va');
    WalkTree(t', root, dir, va');
    SetEntryBottom(t, root, dir, Path(va), Px(0, va), pte, Path(va'), Px(0, va'));
    if Path(va') == Path(va) && Px(0, va') == Px(0, va) {
      assert Px(2, va) == Path(va)[0] == Path(va')[0] == Px(2, va') && Px(1, va) == Path(va)[1] == Path(va')[1] == Px(1, va');
      IndexInjective(va, va');
    }
    if va' / PGSIZE == va / PGSIZE {
      IndexSame(va, va');
    }
  }

  lemma IndexSame(va: nat, va': nat)
    requires va / PGSIZE == va' / PGSIZE
    ensures Px(2, va) == Px(2, va') && Px(1, va) == Px(1, va') && Px(0, va) == Px(0, va')
  {
    assert va / 0x20_0000 == (va / 4096) / 512 && va / 0x4000_0000 == (va / 4096) / 262144;
    assert va' / 0x20_0000 == (va' / 4096) / 512 && va' / 0x4000_0000 == (va' / 4096) / 262144;
  }
}
