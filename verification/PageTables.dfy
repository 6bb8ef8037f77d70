/**
 walk, mappages, uvmunmap, uvmcreate and freewalk of kernel/vm.c on the
 page-table pages of all processes, which come from the allocator of
 PageAllocator and go back to it. The theorem is that every page table is
 a map from page number to PTE: a walk changes no lookup, mapping and
 unmapping change exactly the lookups they name, in that page table only, and
 freewalk gives back every page of the tree once.
 */
module PageTables {
  import opened Common
  import opened Sv39
  import opened PageAllocator

  type Trees = map<nat, Dir>

  /** All page tables are trees, no page is in two of them, and no page of one is free. */
  ghost predicate Forest(t: Tables, free: set<nat>, trees: Trees) {
    && free !! t.Keys && 0 !in free
    && (forall r :: r in trees ==> Tree(t, r, trees[r]))
    && (forall r, q :: r in trees && q in trees && r != q ==> trees[r].Values !! trees[q].Values)
  }

  /** Page tables other than root read as before. */
  ghost predicate OthersSame(t: Tables, t': Tables, trees: Trees, root: nat) {
    forall r, va: nat :: r in trees && r != root ==> LeafAt(t', r, va) == LeafAt(t, r, va)
  }

  ghost predicate SelfSame(t: Tables, t': Tables, root: nat) {
    forall va: nat :: LeafAt(t', root, va) == LeafAt(t, root, va)
  }

  lemma TreePages(t: Tables, r: nat, dir: Dir)
    requires Tree(t, r, dir)
    ensures dir.Values <= t.Keys && r in dir.Values
  {
  }

  /** Changes confined to one tree and to pages of none leave the others alone. */
  lemma OthersKept(t: Tables, t': Tables, free: set<nat>, trees: Trees, root: nat)
    requires Forest(t, free, trees)
    requires forall r, a :: r in trees && r != root && a in trees[r].Values ==> a in t && a in t' && t'[a] == t[a]
    ensures forall r :: r in trees && r != root ==> Tree(t', r, trees[r])
    ensures OthersSame(t, t', trees, root)
  {
    forall r | r in trees && r != root
      ensures Tree(t', r, trees[r]) && (forall va: nat :: LeafAt(t', r, va) == LeafAt(t, r, va))
    {
      Frame(t, t', r, trees[r]);
    }
  }

  lemma AddPageForest(t: Tables, free: set<nat>, trees: Trees, root: nat, p: seq<nat>, i: nat, page: nat)
    requires Forest(t, free, trees) && root in trees && p in trees[root] && |p| < 2 && i < Fanout(|p|) && p + [i] !in trees[root]
    requires page in free && trees[root][p] in t && i < |t[trees[root][p]]|
    ensures var dir := trees[root];
            var t', dir' := AddPage(t, dir[p], i, page), Below(dir, p + [i], page);
            Forest(t', free - {page}, trees[root := dir']) && OthersSame(t, t', trees, root) && SelfSame(t, t', root)
  {
    hide Tree, LeafAt;
    var dir := trees[root];
    var t', dir' := AddPage(t, dir[p], i, page), Below(dir, p + [i], page);
    TreePages(t, root, dir);
    AddPageTree(t, root, dir, p, i, page);
    forall va: nat ensures LeafAt(t', root, va) == LeafAt(t, root, va) { AddPageLeaf(t, root, dir, p, i, page, va); }
    forall r, a | r in trees && r != root && a in trees[r].Values ensures a in t && a in t' && t'[a] == t[a] {
      TreePages(t, r, trees[r]);
    }
    OthersKept(t, t', free, trees, root);
    forall r | r in trees && r != root ensures page !in trees[r].Values { TreePages(t, r, trees[r]); }
    forall r | r in trees && r != root ensures trees[r].Values !! dir'.Values {
      assert dir'.Values <= dir.Values + {page};
    }
  }

  lemma SetEntryForest(t: Tables, free: set<nat>, trees: Trees, root: nat, va: nat, pte: nat)
    requires Forest(t, free, trees) && root in trees && va < MAXVA && Path(va) in trees[root] && (V(pte) ==> !NoRwx(pte))
    requires trees[root][Path(va)] in t && |t[trees[root][Path(va)]]| == ENTRIES
    ensures var t' := SetEntry(t, trees[root][Path(va)], Px(0, va), pte);
            Forest(t', free, trees) && OthersSame(t, t', trees, root)
  {
    hide Tree, LeafAt;
    var dir := trees[root];
    var t' := SetEntry(t, dir[Path(va)], Px(0, va), pte);
    TreePages(t, root, dir);
    SetEntryTree(t, root, dir, Path(va), Px(0, va), pte);
    forall r, a | r in trees && r != root && a in trees[r].Values ensures a in t && a in t' && t'[a] == t[a] {
      TreePages(t, r, trees[r]);
      assert dir[Path(va)] in dir.Values;
    }
    OthersKept(t, t', free, trees, root);
  }

  lemma TreeAt(t: Tables, free: set<nat>, trees: Trees, root: nat, p: seq<nat>)
    requires Forest(t, free, trees) && root in trees && p in trees[root]
    ensures trees[root][p] in t && |t[trees[root][p]]| == ENTRIES && trees[root][p] > 0
  {
    assert Tree(t, root, trees[root]);
  }

  lemma TreeRoot(t: Tables, free: set<nat>, trees: Trees, root: nat)
    requires Forest(t, free, trees) && root in trees
    ensures [] in trees[root] && trees[root][[]] == root
  {
    assert Tree(t, root, trees[root]);
  }

  lemma TreeInner(t: Tables, free: set<nat>, trees: Trees, root: nat, p: seq<nat>, i: nat)
    requires Forest(t, free, trees) && root in trees && p in trees[root] && |p| < 2 && i < ENTRIES
    ensures V(Entry(t, trees[root][p], i)) <==> p + [i] in trees[root]
    ensures V(Entry(t, trees[root][p], i)) ==> Ppn(Entry(t, trees[root][p], i)) == trees[root][p + [i]]
  {
    assert Tree(t, root, trees[root]);
    assert Inner(t, trees[root], p, i);
  }

  lemma SameTrans(t: Tables, t1: Tables, t2: Tables, trees: Trees, trees1: Trees, root: nat)
    requires OthersSame(t, t1, trees, root) && OthersSame(t1, t2, trees1, root) && trees1.Keys == trees.Keys
    ensures OthersSame(t, t2, trees, root)
    ensures SelfSame(t, t1, root) && SelfSame(t1, t2, root) ==> SelfSame(t, t2, root)
  {
    hide LeafAt;
  }

  /** TRAMPOLINE and TRAPFRAME, the two highest pages. */
  const TRAMPOLINE: nat := MAXVA - PGSIZE
  const TRAPFRAME: nat := TRAMPOLINE - PGSIZE

  datatype Result = Done | OutOfMemory | Remapped | LeafMet

  /** Page-table pages are managed pages with one reference each. */
  ghost predicate Backed(ref: seq<int>, end: nat, t: Tables) {
    |ref| == PHYSPAGE && end > 0 && forall a :: a in t ==> end <= a < PHYSPAGE && ref[a] == 1
  }

  /** From ref to ref' exactly the pages of a set of free ones were taken. */
  ghost predicate TookPages(ref: seq<int>, ref': seq<int>, end: nat, pages: set<nat>) {
    && |ref'| == |ref| && pages <= Avail(ref, end)
    && (forall p :: 0 <= p < |ref| ==> ref'[p] == if p in pages then 1 else ref[p])
  }

  /** Page table root has the pages more; all others have the pages they had. */
  ghost predicate TreeGrown(trees: Trees, trees': Trees, root: nat, pages: set<nat>) {
    && root in trees && trees'.Keys == trees.Keys
    && (forall r :: r in trees && r != root ==> trees'[r] == trees[r])
    && trees'[root].Values == trees[root].Values + pages
  }

  lemma TookMore(ref: seq<int>, ref1: seq<int>, ref2: seq<int>, end: nat, a: set<nat>, b: set<nat>)
    requires TookPages(ref, ref1, end, a) && TookPages(ref1, ref2, end, b)
    ensures TookPages(ref, ref2, end, a + b) && Avail(ref2, end) == Avail(ref, end) - (a + b)
  {
  }

  lemma TookNone(ref: seq<int>, end: nat)
    ensures TookPages(ref, ref, end, {})
  {
  }

  lemma TookOne(ref: seq<int>, end: nat, p: nat)
    requires p in Avail(ref, end)
    ensures TookPages(ref, ref[p := 1], end, {p}) && Avail(ref[p := 1], end) == Avail(ref, end) - {p}
  {
  }

  lemma GrownMore(trees: Trees, trees1: Trees, trees2: Trees, root: nat, a: set<nat>, b: set<nat>)
    requires TreeGrown(trees, trees1, root, a) && TreeGrown(trees1, trees2, root, b)
    ensures TreeGrown(trees, trees2, root, a + b)
  {
  }

  lemma GrownOne(trees: Trees, root: nat, q: seq<nat>, page: nat)
    requires root in trees && q !in trees[root]
    ensures TreeGrown(trees, trees[root := Below(trees[root], q, page)], root, {page})
  {
    var dir, dir' := trees[root], Below(trees[root], q, page);
    forall a | a in dir.Values ensures a in dir'.Values {
      var p :| p in dir && dir[p] == a;
      assert dir'[p] == a;
    }
    assert dir'[q] == page;
  }

  lemma BackedMore(ref: seq<int>, ref': seq<int>, end: nat, t: Tables, page: nat, row: seq<nat>)
    requires Backed(ref, end, t) && page in Avail(ref, end) && ref' == ref[page := 1]
    ensures Backed(ref', end, t[page := row])
  {
  }

  /** How many table pages a page table lacks on the way to the leaf entry of va. */
  function Missing(dir: Dir, va: nat): (n: nat)
    ensures n <= 2
  {
    if Path(va)[..1] !in dir then 2 else if Path(va) !in dir then 1 else 0
  }

  /** A table page hung in on the way leaves one less to be added. */
  lemma MissingLess(t: Tables, free: set<nat>, trees: Trees, root: nat, va: nat, level: nat, child: nat)
    requires Forest(t, free, trees) && root in trees && 1 <= level <= 2
    requires Path(va)[..2 - level] in trees[root] && Path(va)[..3 - level] !in trees[root]
    ensures Missing(trees[root], va) == level && Missing(Below(trees[root], Path(va)[..3 - level], child), va) == level - 1
  {
    assert Tree(t, root, trees[root]);
    assert Path(va)[..2] == Path(va) && Path(va)[..|Path(va)| - 1] == Path(va)[..1];
  }

  lemma MissingNone(t: Tables, free: set<nat>, trees: Trees, root: nat, va: nat)
    requires Forest(t, free, trees) && root in trees && Path(va) in trees[root]
    ensures Missing(trees[root], va) == 0
  {
    assert Tree(t, root, trees[root]);
    assert Path(va)[..|Path(va)| - 1] == Path(va)[..1];
  }

  lemma ExtendMissing(t: Tables, free: set<nat>, trees: Trees, root: nat, va: nat, level: nat, p: seq<nat>, i: nat, child: nat)
    requires Forest(t, free, trees) && root in trees && 1 <= level <= 2 && p == Path(va)[..2 - level] && i == Px(level, va)
    requires p in trees[root] && p + [i] !in trees[root]
    ensures Missing(trees[root], va) == Missing(Below(trees[root], p + [i], child), va) + 1
  {
    hide Forest, Missing, Px;
    assert p + [i] == Path(va)[..3 - level];
    MissingLess(t, free, trees, root, va, level, child);
  }

  /** How many pages are free. */
  ghost function Left(ref: seq<int>, end: nat): nat { |Avail(ref, end)| }

  lemma NoneLeft(ref: seq<int>, end: nat)
    ensures Left(ref, end) == 0 <==> Avail(ref, end) == {}
  {
    hide Avail;
  }

  lemma OneTaken(ref: seq<int>, end: nat, a: nat)
    requires a in Avail(ref, end)
    ensures Left(ref, end) == Left(ref[a := 1], end) + 1
  {
    assert Avail(ref[a := 1], end) == Avail(ref, end) - {a};
  }

  class Mmu {
    const kmem: Kmem
    var tables: Tables
    ghost var trees: Trees

    /** The free pages. */
    ghost function Free(): set<nat>
      reads kmem, kmem.refCount
    {
      Avail(kmem.refCount[..], kmem.end)
    }

    /** The allocator is at rest, and every page-table page is one of its pages in use. */
    ghost predicate Ready()
      reads this, kmem, kmem.refCount
    {
      kmem.Quiet() && Backed(kmem.refCount[..], kmem.end, tables)
    }

    ghost predicate Valid()
      reads this, kmem, kmem.refCount
    {
      Ready() && Forest(tables, Free(), trees)
    }

    constructor (allocator: Kmem)
      requires allocator.Quiet()
      ensures kmem == allocator && tables == map[] && trees == map[] && Valid()
    {
      kmem := allocator;
      tables, trees := map[], map[];
      new;
      KmemRange(kmem);
    }

    function Lookup(root: nat, va: nat): nat
      reads this
    {
      LeafAt(tables, root, va)
    }

    /** walk: the page that holds the leaf entry of va, or 0; `added` are the pages it took for the tree. */
    method Walk(root: nat, va: nat, alloc: bool) returns (page: nat, ghost added: set<nat>)
      requires Valid() && root in trees && va < MAXVA
      modifies if alloc then {this, kmem, kmem.refCount} else {}
      ensures Valid() && TreeGrown(old(trees), trees, root, added) && tables.Keys == old(tables.Keys) + added
      ensures TookPages(old(kmem.refCount[..]), kmem.refCount[..], kmem.end, added)
      ensures SelfSame(old(tables), tables, root) && OthersSame(old(tables), tables, old(trees), root)
      ensures page == WalkFrom(tables, root, 2, va)
      ensures page != 0 ==> Path(va) in trees[root] && page == trees[root][Path(va)]
      ensures alloc && page == 0 ==> Free() == {}
      ensures alloc ==> (page == 0 <==> Left(old(kmem.refCount[..]), kmem.end) < Missing(old(trees[root]), va))
      ensures alloc && page != 0 ==> Left(old(kmem.refCount[..]), kmem.end) == Left(kmem.refCount[..], kmem.end) + Missing(old(trees[root]), va)
    {
      hide Forest, LeafAt, OthersSame, SelfSame, Backed, TookPages, TreeGrown, Avail, Kmem.Quiet, Missing, Left;
      SameRefl(tables, trees, root);
      TreeRoot(tables, Free(), trees, root);
      TookNone(kmem.refCount[..], kmem.end);
      GrownNone(trees, root);
      page, added := root, {};
      var level := 2;
      ghost var p: seq<nat> := [];
      while level > 0
        invariant 0 <= level <= 2
        invariant Valid() && TreeGrown(old(trees), trees, root, added) && tables.Keys == old(tables.Keys) + added
        invariant TookPages(old(kmem.refCount[..]), kmem.refCount[..], kmem.end, added)
        invariant SelfSame(old(tables), tables, root) && OthersSame(old(tables), tables, old(trees), root)
        invariant root in trees && |p| == 2 - level && p == Path(va)[..2 - level] && p in trees[root] && page == trees[root][p]
        invariant WalkFrom(tables, root, 2, va) == WalkFrom(tables, page, level, va)
        invariant Left(old(kmem.refCount[..]), kmem.end) - Left(kmem.refCount[..], kmem.end) == Missing(old(trees[root]), va) - Missing(trees[root], va)
      {
        var i := Px(level, va);
        ghost var q := p + [i];
        assert q == Path(va)[..3 - level];
        TreeAt(tables, Free(), trees, root, p);
        TreeInner(tables, Free(), trees, root, p, i);
        var e := tables[page][i];
        if V(e) {
          page := Ppn(e);
        } else {
          if !alloc {
            return 0, added;
          }
          var child;
          ExtendMissing(tables, Free(), trees, root, va, level, p, i, 0);
          child, added := Extend(root, page, p, i, va, level, old(tables), old(trees), old(kmem.refCount[..]), added);
          if child == 0 {
            NoneLeft(kmem.refCount[..], kmem.end);
            return 0, added;
          }
          page := child;
        }
        p := q;
        level := level - 1;
      }
      assert p == Path(va);
      TreeAt(tables, Free(), trees, root, p);
      MissingNone(tables, Free(), trees, root, va);
    }

    /** walk past a missing entry: a zeroed page is hung in, unless there is none; t0, trees0 and ref0 are what walk began with. */
    method Extend(root: nat, page: nat, ghost p: seq<nat>, i: nat, ghost va: nat, ghost level: nat,
                  ghost t0: Tables, ghost trees0: Trees, ghost ref0: seq<int>, ghost before: set<nat>)
      returns (child: nat, ghost added: set<nat>)
      requires Valid() && root in trees && 1 <= level <= 2 && |p| == 2 - level && p == Path(va)[..2 - level] && i == Px(level, va)
      requires p in trees[root] && page == trees[root][p] && p + [i] !in trees[root] && va < MAXVA
      requires page in tables && |tables[page]| == ENTRIES
      requires TreeGrown(trees0, trees, root, before) && tables.Keys == t0.Keys + before
      requires TookPages(ref0, kmem.refCount[..], kmem.end, before)
      requires SelfSame(t0, tables, root) && OthersSame(t0, tables, trees0, root)
      modifies this, kmem, kmem.refCount
      ensures Valid() && TreeGrown(trees0, trees, root, added) && tables.Keys == t0.Keys + added
      ensures TookPages(ref0, kmem.refCount[..], kmem.end, added)
      ensures SelfSame(t0, tables, root) && OthersSame(t0, tables, trees0, root)
      ensures child == 0 ==> Free() == {} && tables == old(tables) && trees == old(trees) && kmem.refCount[..] == old(kmem.refCount[..])
      ensures child != 0 ==> root in trees && Missing(old(trees[root]), va) == Missing(trees[root], va) + 1
      ensures child != 0 ==> Left(old(kmem.refCount[..]), kmem.end) == Left(kmem.refCount[..], kmem.end) + 1
      ensures child != 0 ==> root in trees && p + [i] in trees[root] && child == trees[root][p + [i]]
      ensures child != 0 ==> WalkFrom(tables, root, 2, va) == WalkFrom(tables, child, level - 1, va)
    {
      hide Forest, LeafAt, OthersSame, SelfSame, Backed, TookPages, TreeGrown, Avail, WalkFrom, AddPage, Kmem.Quiet, Missing, Left, Path, Px;
      ghost var free, ref := Free(), kmem.refCount[..];
      child := kmem.Kalloc();
      if child == 0 {
        return 0, before;
      }
      TookOne(ref, kmem.end, child);
      OneTaken(ref, kmem.end, child);
      TookMore(ref0, ref, kmem.refCount[..], kmem.end, before, {child});
      ExtendMissing(tables, free, trees, root, va, level, p, i, child);
      ExtendForest(t0, tables, free, trees0, trees, root, p, i, child, va, level, before);
      ExtendBacked(ref, kmem.end, tables, page, i, child);
      var row: seq<nat> := tables[page][i := Make(child, 1)];
      tables := tables[child := Zeros()][page := row];
      trees := trees[root := Below(trees[root], p + [i], child)];
      added := before + {child};
    }

    /** uvmcreate: an empty page table, or 0. */
    method Create() returns (root: nat)
      requires Valid()
      modifies this, kmem, kmem.refCount
      ensures Valid() && (root == 0 <==> old(Free()) == {})
      ensures root == 0 ==> tables == old(tables) && trees == old(trees) && kmem.refCount[..] == old(kmem.refCount[..])
      ensures root != 0 ==> root in old(Free()) && kmem.refCount[..] == old(kmem.refCount[..])[root := 1]
      ensures root != 0 ==> tables.Keys == old(tables.Keys) + {root} && trees == old(trees)[root := Below(map[], [], root)]
      ensures root != 0 ==> OthersSame(old(tables), tables, old(trees), root) && forall va: nat :: LeafAt(tables, root, va) == 0
    {
      hide Forest, LeafAt, OthersSame, Backed, Avail, Kmem.Quiet;
      ghost var free, ref := Free(), kmem.refCount[..];
      root := kmem.Kalloc();
      if root == 0 {
        return;
      }
      TookOne(ref, kmem.end, root);
      CreateForest(tables, free, trees, root);
      BackedMore(ref, kmem.refCount[..], kmem.end, tables, root, Zeros());
      tables := tables[root := Zeros()];
      trees := trees[root := Below(map[], [], root)];
    }

    /** One turn of mappages: page va is mapped to frame ppn; added are the pages taken for the tree. */
    method MapPage(root: nat, va: nat, ppn: nat, perm: nat) returns (o: Result, ghost added: set<nat>)
      requires Valid() && root in trees && va < MAXVA && perm < 1024 && !NoRwx(perm)
      modifies this, kmem, kmem.refCount
      ensures Valid() && TreeGrown(old(trees), trees, root, added) && tables.Keys == old(tables.Keys) + added
      ensures TookPages(old(kmem.refCount[..]), kmem.refCount[..], kmem.end, added)
      ensures OthersSame(old(tables), tables, old(trees), root)
      ensures o.Done? || o.OutOfMemory? || o.Remapped?
      ensures if o.Done? then Mapped(old(tables), tables, root, va / PGSIZE, 1, ppn, perm) else SelfSame(old(tables), tables, root)
      ensures o.OutOfMemory? ==> Free() == {}
      ensures o.OutOfMemory? <==> Left(old(kmem.refCount[..]), kmem.end) < Missing(old(trees[root]), va)
      ensures !o.OutOfMemory? ==> Left(old(kmem.refCount[..]), kmem.end) == Left(kmem.refCount[..], kmem.end) + Missing(old(trees[root]), va)
      ensures o.Remapped? <==> !o.OutOfMemory? && old(Lookup(root, va)) != 0
    {
      hide Forest, LeafAt, OthersSame, Mapped, Make, WalkFrom, Backed, TookPages, TreeGrown, Avail, SelfSame, Kmem.Quiet, Missing, Left;
      var page;
      page, added := Walk(root, va, true);
      GrownKeys(old(trees), trees, root, added);
      SelfSameAt(old(tables), tables, root, va);
      if page == 0 {
        return OutOfMemory, added;
      }
      TreeAt(tables, Free(), trees, root, Path(va));
      var e := tables[page][Px(0, va)];
      LeafIs(tables, Free(), trees, root, va);
      VNotZero(e);
      if V(e) {
        return Remapped, added;
      }
      ghost var t1 := tables;
      var row: seq<nat> := tables[page][Px(0, va) := Make(ppn, WithV(perm))];
      SetLeafForest(old(tables), t1, Free(), old(trees), trees, root, va, ppn, perm);
      BackedSame(kmem.refCount[..], kmem.end, tables, page, row);
      tables := tables[page := row];
      return Done, added;
    }

    /** mappages over n pages from va on; done is the number mapped before it stopped, added the pages taken for the tree. */
    method MapPages(root: nat, va: nat, n: nat, ppn: nat, perm: nat) returns (o: Result, ghost done: nat, ghost added: set<nat>)
      requires Valid() && root in trees && va % PGSIZE == 0 && n > 0 && va + n * PGSIZE <= MAXVA
      requires perm < 1024 && !NoRwx(perm)
      modifies this, kmem, kmem.refCount
      ensures Valid() && TreeGrown(old(trees), trees, root, added) && tables.Keys == old(tables.Keys) + added
      ensures TookPages(old(kmem.refCount[..]), kmem.refCount[..], kmem.end, added)
      ensures OthersSame(old(tables), tables, old(trees), root)
      ensures done <= n && Mapped(old(tables), tables, root, va / PGSIZE, done, ppn, perm)
      ensures o.Done? || o.OutOfMemory? || o.Remapped?
      ensures o.Done? <==> done == n
      ensures o.OutOfMemory? ==> Free() == {}
      ensures o.Remapped? ==> done < n && old(Lookup(root, va + done * PGSIZE)) != 0
    {
      hide Forest, LeafAt, OthersSame, Mapped, SelfSame, Backed, TookPages, TreeGrown, Avail, Kmem.Quiet, Missing, Left;
      SameRefl(tables, trees, root);
      MappedNone(tables, root, va / PGSIZE, ppn, perm);
      TookNone(kmem.refCount[..], kmem.end);
      GrownNone(trees, root);
      done, added := 0, {};
      var a, pa, k := va, ppn, 0;
      while k < n
        invariant k <= n && done == k && a == va + k * PGSIZE && pa == ppn + k
        invariant Valid() && TreeGrown(old(trees), trees, root, added) && tables.Keys == old(tables.Keys) + added
        invariant TookPages(old(kmem.refCount[..]), kmem.refCount[..], kmem.end, added)
        invariant OthersSame(old(tables), tables, old(trees), root)
        invariant Mapped(old(tables), tables, root, va / PGSIZE, k, ppn, perm)
      {
        ghost var t0, trees0, ref0, before := tables, trees, kmem.refCount[..], added;
        GrownKeys(old(trees), trees, root, added);
        MappedAt(old(tables), tables, root, va, k, ppn, perm);
        var r, more := MapPage(root, a, pa, perm);
        SameTrans(old(tables), t0, tables, old(trees), trees0, root);
        TookMore(old(kmem.refCount[..]), ref0, kmem.refCount[..], kmem.end, before, more);
        GrownMore(old(trees), trees0, trees, root, before, more);
        added := before + more;
        if r != Done {
          MappedSame(old(tables), t0, tables, root, va / PGSIZE, k, ppn, perm);
          return r, k, added;
        }
        MappedMore(old(tables), t0, tables, root, va, k, ppn, perm);
        a, pa, k := a + PGSIZE, pa + 1, k + 1;
        done := k;
      }
      return Done, n, added;
    }

    /** The leaf entry that walk finds is overwritten with another valid one. */
    method SetLeaf(root: nat, va: nat, e: nat)
      requires Valid() && root in trees && va < MAXVA && Lookup(root, va) != 0 && V(e) && !NoRwx(e)
      modifies this`tables
      ensures Valid() && OthersSame(old(tables), tables, trees, root) && tables.Keys == old(tables.Keys)
      ensures LeafSet(old(tables), tables, root, va / PGSIZE, e)
    {
      hide Forest, LeafAt, OthersSame, Backed, TookPages, TreeGrown, Avail, WalkFrom, Kmem.Quiet;
      var page, none := Walk(root, va, false);
      LeafIs(tables, Free(), trees, root, va);
      TreeAt(tables, Free(), trees, root, Path(va));
      SetEntryForest(tables, Free(), trees, root, va, e);
      ghost var t1 := SetEntry(tables, page, Px(0, va), e);
      forall va': nat | va' < MAXVA ensures LeafAt(t1, root, va') == if va' / PGSIZE == va / PGSIZE then e else LeafAt(tables, root, va') {
        ForestTree(tables, Free(), trees, root);
        SetEntryLeaf(tables, root, trees[root], va, e, va');
      }
      var row: seq<nat> := tables[page][Px(0, va) := e];
      BackedSame(kmem.refCount[..], kmem.end, tables, page, row);
      tables := tables[page := row];
    }

    /** uvmunmap over n pages from va on, as far as the page table goes. */
    method Unmap(root: nat, va: nat, n: nat)
      requires Valid() && root in trees && va % PGSIZE == 0 && va + n * PGSIZE <= MAXVA
      modifies this`tables
      ensures Valid() && OthersSame(old(tables), tables, trees, root) && tables.Keys == old(tables.Keys)
      ensures Unmapped(old(tables), tables, root, va / PGSIZE, n)
    {
      hide Forest, LeafAt, OthersSame, Backed, TookPages, TreeGrown, Avail, Kmem.Quiet;
      SameRefl(tables, trees, root);
      UnmappedNone(tables, root, va / PGSIZE);
      var a, k := va, 0;
      while k < n
        invariant k <= n && a == va + k * PGSIZE
        invariant Valid() && tables.Keys == old(tables.Keys)
        invariant OthersSame(old(tables), tables, trees, root)
        invariant Unmapped(old(tables), tables, root, va / PGSIZE, k)
      {
        var page, none := Walk(root, a, false);
        LeafIs(tables, Free(), trees, root, a);
        if page != 0 {
          TreeAt(tables, Free(), trees, root, Path(a));
          if V(tables[page][Px(0, a)]) {
            SetEntryForest(tables, Free(), trees, root, a, 0);
            SameTrans(old(tables), tables, SetEntry(tables, page, Px(0, a), 0), trees, trees, root);
            UnmappedNext(old(tables), tables, Free(), trees, root, va, k);
            var row: seq<nat> := tables[page][Px(0, a) := 0];
            BackedSame(kmem.refCount[..], kmem.end, tables, page, row);
            tables := tables[page := row];
          } else {
            UnmappedSkip(old(tables), tables, root, va, k);
          }
        } else {
          UnmappedSkip(old(tables), tables, root, va, k);
        }
        a, k := a + PGSIZE, k + 1;
      }
    }

    /** freewalk from the page at prefix p: it panics exactly if a leaf is left, and otherwise gives back every page below p once. */
    method FreeWalk(page: nat, ghost dir: Dir, ghost p: seq<nat>) returns (o: Result)
      requires Ready() && DirOk(dir) && SubTree(tables, dir, p) && page == dir[p]
      modifies this`tables, kmem, kmem.refCount
      ensures o.Done? <==> NoLeaves(old(tables), dir, p)
      ensures o.Done? ==> Ready() && tables == old(tables) - Sub(dir, p) && GaveBack(old(kmem.refCount[..]), kmem.refCount[..], Sub(dir, p))
      decreases 2 - |p|
    {
      hide SubTree, Sub, SubUpTo, DirOk, NoLeaves, Backed, GaveBack, FreedTo, Kmem.Quiet, Ppn, NoRwx;
      ghost var t0, ref0 := tables, kmem.refCount[..];
      SubTreeTop(t0, dir, p);
      FreedNone(t0, ref0, dir, p);
      var i := 0;
      while i < ENTRIES
        invariant 0 <= i <= ENTRIES && Ready() && page in tables && |tables[page]| == ENTRIES
        invariant FreedTo(t0, tables, ref0, kmem.refCount[..], dir, p, i)
      {
        var e := tables[page][i];
        FreedEntry(t0, tables, ref0, kmem.refCount[..], dir, p, i);
        if V(e) && NoRwx(e) {
          ghost var t1, ref1 := tables, kmem.refCount[..];
          o := FreeWalk(Ppn(e), dir, p + [i]);
          FreedWhether(t0, t1, ref0, ref1, dir, p, i);
          if o != Done { return LeafMet; }
          FreedBelow(t0, t1, tables, ref0, ref1, kmem.refCount[..], dir, p, i);
          var row: seq<nat> := tables[page][i := 0];
          BackedSame(kmem.refCount[..], kmem.end, tables, page, row);
          tables := tables[page := row];
        } else if V(e) {
          LeafLeft(t0, dir, p, i);
          return LeafMet;
        } else {
          FreedSkip(t0, tables, ref0, kmem.refCount[..], dir, p, i);
        }
        i := i + 1;
      }
      ghost var t1, ref1 := tables, kmem.refCount[..];
      BackedAt(ref1, kmem.end, tables, page);
      var freed := kmem.Kfree(page);
      BackedLess(ref1, kmem.refCount[..], kmem.end, tables, page);
      tables := tables - {page};
      FreedAll(t0, t1, ref0, ref1, dir, p);
      return Done;
    }

    /**
     proc_pagetable: a page table that maps trampoline and trapframe and nothing
     else, or 0 with everything that was allocated for it given back.
     */
    method NewPagetable(trampoline: nat, trapframe: nat) returns (root: nat)
      requires Valid()
      modifies this, kmem, kmem.refCount
      ensures Valid()
      ensures root == 0 ==> trees == old(trees) && kmem.refCount[..] == old(kmem.refCount[..]) && tables.Keys == old(tables.Keys)
      ensures root == 0 ==> OthersSame(old(tables), tables, old(trees), 0)
      ensures root != 0 ==> root !in old(trees) && root in trees && trees == old(trees)[root := trees[root]]
      ensures root != 0 ==> TookPages(old(kmem.refCount[..]), kmem.refCount[..], kmem.end, trees[root].Values)
      ensures root != 0 ==> tables.Keys == old(tables.Keys) + trees[root].Values && OthersSame(old(tables), tables, old(trees), root)
      ensures root != 0 ==> TwoLeaves(tables, root, trampoline, trapframe)
      ensures if root == 0 then Left(old(kmem.refCount[..]), kmem.end) < 5
              else Left(old(kmem.refCount[..]), kmem.end) <= Left(kmem.refCount[..], kmem.end) + 5
    {
      hide Forest, LeafAt, OthersSame, SelfSame, Backed, TookPages, TreeGrown, Avail, Mapped, Unmapped, GaveBack, Kmem.Quiet, TwoLeaves, Make, Missing, Left;
      ghost var t0, trees0, ref0, free0 := tables, trees, kmem.refCount[..], Free();
      SameRefl(tables, trees, 0);
      root := Create();
      NoneLeft(ref0, kmem.end);
      if root == 0 {
        return;
      }
      OneTaken(ref0, kmem.end, root);
      ghost var t1, trees1, ref1 := tables, trees, kmem.refCount[..];
      RootNew(t0, free0, trees0, root);
      TookOne(ref0, kmem.end, root);
      FirstPage(trees0, root);
      assert Began(t0, t1, trees0, trees1, root, {root}, ref0, ref1, kmem.end);
      var o, a := MapPage(root, TRAMPOLINE, trampoline, 10);
      ghost var t2 := tables;
      TookApart(ref1, kmem.refCount[..], kmem.end, a, t1);
      BeganMore(t0, t1, t2, trees0, trees1, trees, root, {root}, a, ref0, ref1, kmem.refCount[..], kmem.end);
      if o != Done {
        FirstFails(t1, t2, root);
        FreeNew(root, t0, trees0, ref0, {root} + a);
        return 0;
      }
      o, a := TrapframeToo(root, trampoline, trapframe, t0, t1, trees0, ref0, {root} + a);
      if o != Done {
        return 0;
      }
    }

    /** The second half of proc_pagetable. */
    method TrapframeToo(root: nat, trampoline: nat, trapframe: nat, ghost t0: Tables, ghost t1: Tables, ghost trees0: Trees, ghost ref0: seq<int>, ghost pages: set<nat>)
      returns (o: Result, ghost all: set<nat>)
      requires Valid() && Began(t0, tables, trees0, trees, root, pages, ref0, kmem.refCount[..], kmem.end)
      requires (forall va: nat :: LeafAt(t1, root, va) == 0) && Mapped(t1, tables, root, TRAMPOLINE / PGSIZE, 1, trampoline, 10)
      modifies this, kmem, kmem.refCount
      ensures Valid()
      ensures o.Done? ==> Began(t0, tables, trees0, trees, root, all, ref0, kmem.refCount[..], kmem.end) && TwoLeaves(tables, root, trampoline, trapframe)
      ensures !o.Done? ==> trees == trees0 && kmem.refCount[..] == ref0 && tables.Keys == t0.Keys && OthersSame(t0, tables, trees0, 0)
      ensures if o.Done? then Left(old(kmem.refCount[..]), kmem.end) <= Left(kmem.refCount[..], kmem.end) + 2
              else Left(old(kmem.refCount[..]), kmem.end) < 2
    {
      hide Forest, LeafAt, OthersSame, SelfSame, Backed, TookPages, TreeGrown, Avail, Mapped, Unmapped, GaveBack, Kmem.Quiet, TwoLeaves, Make, Missing, Left, Began;
      ghost var t2, trees2, ref2 := tables, trees, kmem.refCount[..];
      BeganRoot(t0, t2, trees0, trees2, root, pages, ref0, ref2, kmem.end);
      ghost var a;
      NoTrapframe(t1, t2, root, trampoline);
      o, a := MapPage(root, TRAPFRAME, trapframe, 6);
      ghost var t3 := tables;
      all := pages + a;
      TookApart(ref2, kmem.refCount[..], kmem.end, a, t2);
      BeganMore(t0, t2, t3, trees0, trees2, trees, root, pages, a, ref0, ref2, kmem.refCount[..], kmem.end);
      BeganRoot(t0, t3, trees0, trees, root, all, ref0, kmem.refCount[..], kmem.end);
      if o == Done {
        BothMapped(t1, t2, t3, root, trampoline, trapframe);
        return;
      }
      Unmap(root, TRAMPOLINE, 1);
      NoneMapped(t1, t2, t3, tables, root, trampoline);
      BeganSame(t0, t3, tables, trees0, trees, root, all, ref0, kmem.refCount[..], kmem.end);
      FreeNew(root, t0, trees0, ref0, all);
    }

    /** uvmfree of a page table that was not there at first: everything is as it was. */
    method FreeNew(root: nat, ghost t0: Tables, ghost trees0: Trees, ghost ref0: seq<int>, ghost pages: set<nat>)
      requires Valid() && Began(t0, tables, trees0, trees, root, pages, ref0, kmem.refCount[..], kmem.end)
      requires forall va: nat :: va < MAXVA ==> LeafAt(tables, root, va) == 0
      modifies this, kmem, kmem.refCount
      ensures Valid() && trees == trees0 && kmem.refCount[..] == ref0 && tables.Keys == t0.Keys && OthersSame(t0, tables, trees0, 0)
    {
      hide Forest, LeafAt, OthersSame, Backed, TookPages, Avail, GaveBack, Kmem.Quiet, Began;
      ghost var t2, trees2, ref2 := tables, trees, kmem.refCount[..];
      BeganRoot(t0, t2, trees0, trees2, root, pages, ref0, ref2, kmem.end);
      var o := FreeTree(root);
      Undone(t0, t2, tables, trees0, trees2, root, pages, ref0, ref2, kmem.refCount[..], kmem.end);
    }

    /** uvmfree past its unmapping: a page table without leaves is given back. */
    method FreeTree(root: nat) returns (o: Result)
      requires Valid() && root in trees && forall va: nat :: va < MAXVA ==> LeafAt(tables, root, va) == 0
      modifies this, kmem, kmem.refCount
      ensures o.Done? && Valid() && trees == old(trees) - {root}
      ensures GaveBack(old(kmem.refCount[..]), kmem.refCount[..], old(trees[root].Values))
      ensures tables.Keys == old(tables.Keys) - old(trees[root].Values) && OthersSame(old(tables), tables, old(trees), root)
    {
      hide Forest, LeafAt, OthersSame, Sub, DirOk, SubTree, NoLeaves, Backed, Avail, GaveBack, Kmem.Quiet;
      ghost var t0, free0, ref0 := tables, Free(), kmem.refCount[..];
      ForestSub(tables, free0, trees, root);
      NoLookups(tables, free0, trees, root);
      ForestKeys(tables, free0, trees, root);
      BackedAll(ref0, kmem.end, tables, trees[root].Values);
      o := FreeWalk(root, trees[root], []);
      GaveAvail(ref0, kmem.refCount[..], kmem.end, trees[root].Values);
      assert Free() == free0 + trees[root].Values;
      FreedForest(t0, Free(), free0, trees, root);
      trees := trees - {root};
    }

    /**
     proc_freepagetable: once trampoline, trapframe and the n user pages are
     unmapped no leaf is left, so freewalk succeeds and the whole tree is free.
     */
    method FreePagetable(root: nat, n: nat) returns (o: Result)
      requires Valid() && root in trees && n * PGSIZE <= TRAPFRAME
      requires OnlyLeaves(tables, root, n)
      modifies this, kmem, kmem.refCount
      ensures o.Done? && Valid() && trees == old(trees) - {root}
      ensures GaveBack(old(kmem.refCount[..]), kmem.refCount[..], old(trees[root].Values))
      ensures tables.Keys == old(tables.Keys) - old(trees[root].Values) && OthersSame(old(tables), tables, old(trees), root)
    {
      hide Forest, LeafAt, OthersSame, Unmapped, OnlyLeaves, Backed, Avail, GaveBack, Kmem.Quiet;
      ghost var t0 := tables;
      Unmap(root, TRAMPOLINE, 1);
      ghost var t1 := tables;
      Unmap(root, TRAPFRAME, 1);
      ghost var t2 := tables;
      SameTrans(t0, t1, t2, trees, trees, root);
      Unmap(root, 0, n);
      ghost var t3 := tables;
      SameTrans(t0, t2, t3, trees, trees, root);
      AllUnmapped(t0, t1, t2, t3, root, n);
      o := FreeTree(root);
      SameTrans(t0, t3, tables, old(trees), old(trees), root);
    }
  }

  /** The leaf of va is written after walk: it is mapped, and nothing else changes. */
  lemma SetLeafForest(t0: Tables, t1: Tables, free: set<nat>, trees0: Trees, trees: Trees, root: nat, va: nat, ppn: nat, perm: nat)
    requires Forest(t1, free, trees) && root in trees && va < MAXVA && Path(va) in trees[root] && perm < 1024 && !NoRwx(perm)
    requires trees[root][Path(va)] in t1 && |t1[trees[root][Path(va)]]| == ENTRIES
    requires SelfSame(t0, t1, root) && OthersSame(t0, t1, trees0, root) && trees.Keys == trees0.Keys
    ensures var t2 := SetEntry(t1, trees[root][Path(va)], Px(0, va), Make(ppn, WithV(perm)));
            Forest(t2, free, trees) && OthersSame(t0, t2, trees0, root) && Mapped(t0, t2, root, va / PGSIZE, 1, ppn, perm)
  {
    hide LeafAt, Forest, OthersSame;
    var e := Make(ppn, WithV(perm));
    WithVFlags(ppn, perm);
    SetEntryForest(t1, free, trees, root, va, e);
    var t2 := SetEntry(t1, trees[root][Path(va)], Px(0, va), e);
    SameTrans(t0, t1, t2, trees0, trees, root);
    forall va': nat | va' < MAXVA
      ensures LeafAt(t2, root, va') == if va' / PGSIZE == va / PGSIZE then e else LeafAt(t0, root, va')
    {
      ForestTree(t1, free, trees, root);
      SetEntryLeaf(t1, root, trees[root], va, e, va');
    }
  }

  lemma ForestTree(t: Tables, free: set<nat>, trees: Trees, root: nat)
    requires Forest(t, free, trees) && root in trees
    ensures Tree(t, root, trees[root])
  {
  }

  lemma SelfSameAt(t: Tables, t': Tables, root: nat, va: nat)
    requires SelfSame(t, t', root)
    ensures LeafAt(t', root, va) == LeafAt(t, root, va)
  {
  }

  lemma VNotZero(e: nat)
    ensures V(e) ==> e != 0
  {
  }

  lemma MappedMore(t: Tables, t1: Tables, t2: Tables, root: nat, va: nat, k: nat, ppn: nat, perm: nat)
    requires va % PGSIZE == 0 && Mapped(t, t1, root, va / PGSIZE, k, ppn, perm) && Mapped(t1, t2, root, (va + k * PGSIZE) / PGSIZE, 1, ppn + k, perm)
    ensures Mapped(t, t2, root, va / PGSIZE, k + 1, ppn, perm)
  {
    hide LeafAt, Make;
    assert (va + k * PGSIZE) / PGSIZE == va / PGSIZE + k;
  }

  /** A zeroed page hung in below prefix p of one page table. */
  lemma ExtendForest(t0: Tables, t: Tables, free: set<nat>, trees0: Trees, trees: Trees, root: nat, p: seq<nat>, i: nat, child: nat, va: nat, level: nat, before: set<nat>)
    requires Forest(t, free, trees) && root in trees && p in trees[root] && p + [i] !in trees[root] && child in free
    requires va < MAXVA && 1 <= level <= 2 && |p| == 2 - level && p == Path(va)[..2 - level] && i == Px(level, va)
    requires trees[root][p] in t && |t[trees[root][p]]| == ENTRIES
    requires TreeGrown(trees0, trees, root, before) && SelfSame(t0, t, root) && OthersSame(t0, t, trees0, root)
    ensures var t', trees' := AddPage(t, trees[root][p], i, child), trees[root := Below(trees[root], p + [i], child)];
            && Forest(t', free - {child}, trees') && TreeGrown(trees0, trees', root, before + {child})
            && SelfSame(t0, t', root) && OthersSame(t0, t', trees0, root)
            && WalkFrom(t', root, 2, va) == WalkFrom(t', child, level - 1, va)
  {
    hide Forest, LeafAt, OthersSame, SelfSame, TreeGrown, AddPage, WalkFrom;
    var t', trees' := AddPage(t, trees[root][p], i, child), trees[root := Below(trees[root], p + [i], child)];
    GrownKeys(trees0, trees, root, before);
    PathBound(va, level);
    AddPageForest(t, free, trees, root, p, i, child);
    SameTrans(t0, t, t', trees0, trees, root);
    GrownOne(trees, root, p + [i], child);
    GrownMore(trees0, trees, trees', root, before, {child});
    WalkFresh(t', free - {child}, trees', root, p, i, child, va, level);
  }

  lemma ExtendBacked(ref: seq<int>, end: nat, t: Tables, page: nat, i: nat, child: nat)
    requires Backed(ref, end, t) && page in t && i < |t[page]| && child in Avail(ref, end)
    ensures Backed(ref[child := 1], end, AddPage(t, page, i, child))
    ensures AddPage(t, page, i, child) == t[child := Zeros()][page := t[page][i := Make(child, 1)]]
    ensures AddPage(t, page, i, child).Keys == t.Keys + {child}
  {
  }

  // ---------------------------------------------------------------------
  // proc_pagetable

  /** The leaves of a new process. */
  ghost predicate TwoLeaves(t: Tables, root: nat, trampoline: nat, trapframe: nat) {
    forall va: nat :: va < MAXVA ==>
      LeafAt(t, root, va) == if va / PGSIZE == TRAMPOLINE / PGSIZE then Make(trampoline, 11)
                             else if va / PGSIZE == TRAPFRAME / PGSIZE then Make(trapframe, 7) else 0
  }

  /** There is one page table more, of the given pages, which were free; all others read as before. */
  ghost predicate Began(t0: Tables, t: Tables, trees0: Trees, trees: Trees, root: nat, pages: set<nat>, ref0: seq<int>, ref: seq<int>, end: nat) {
    && root != 0 && root !in trees0 && root in trees && trees == trees0[root := trees[root]] && trees[root].Values == pages
    && TookPages(ref0, ref, end, pages) && t.Keys == t0.Keys + pages && t0.Keys !! pages && OthersSame(t0, t, trees0, root)
  }

  lemma NoTrapframe(t1: Tables, t2: Tables, root: nat, trampoline: nat)
    requires (forall va: nat :: LeafAt(t1, root, va) == 0) && Mapped(t1, t2, root, TRAMPOLINE / PGSIZE, 1, trampoline, 10)
    ensures LeafAt(t2, root, TRAPFRAME) == 0
  {
    hide LeafAt, Make;
  }

  lemma BeganRoot(t0: Tables, t: Tables, trees0: Trees, trees: Trees, root: nat, pages: set<nat>, ref0: seq<int>, ref: seq<int>, end: nat)
    requires Began(t0, t, trees0, trees, root, pages, ref0, ref, end)
    ensures root != 0 && root !in trees0 && root in trees && trees == trees0[root := trees[root]] && trees[root].Values == pages
    ensures TookPages(ref0, ref, end, pages) && t.Keys == t0.Keys + pages && OthersSame(t0, t, trees0, root)
  {
  }

  lemma RootNew(t: Tables, free: set<nat>, trees: Trees, root: nat)
    requires Forest(t, free, trees) && root in free
    ensures root !in trees && root !in t
  {
    forall r | r in trees ensures r != root { TreePages(t, r, trees[r]); }
  }

  lemma FirstPage(trees: Trees, root: nat)
    ensures trees[root := Below(map[], [], root)][root].Values == {root}
  {
    assert Below(map[], [], root)[[]] == root;
  }

  lemma OthersFewer(t: Tables, t': Tables, trees: Trees, trees1: Trees, root: nat)
    requires OthersSame(t, t', trees1, root) && trees.Keys <= trees1.Keys
    ensures OthersSame(t, t', trees, root)
  {
    hide LeafAt;
  }

  lemma BeganMore(t0: Tables, t1: Tables, t2: Tables, trees0: Trees, trees1: Trees, trees2: Trees, root: nat, pages: set<nat>, a: set<nat>,
                  ref0: seq<int>, ref1: seq<int>, ref2: seq<int>, end: nat)
    requires Began(t0, t1, trees0, trees1, root, pages, ref0, ref1, end)
    requires TreeGrown(trees1, trees2, root, a) && TookPages(ref1, ref2, end, a) && t2.Keys == t1.Keys + a && OthersSame(t1, t2, trees1, root)
    requires a !! t1.Keys
    ensures Began(t0, t2, trees0, trees2, root, pages + a, ref0, ref2, end)
  {
    hide LeafAt, OthersSame, TookPages;
    TookMore(ref0, ref1, ref2, end, pages, a);
    OthersFewer(t1, t2, trees0, trees1, root);
    SameTrans(t0, t1, t2, trees0, trees0, root);
    assert trees2 == trees0[root := trees2[root]];
  }

  lemma TookApart(ref: seq<int>, ref': seq<int>, end: nat, a: set<nat>, t: Tables)
    requires Backed(ref, end, t) && TookPages(ref, ref', end, a)
    ensures a !! t.Keys
  {
  }

  lemma BeganSame(t0: Tables, t1: Tables, t2: Tables, trees0: Trees, trees1: Trees, root: nat, pages: set<nat>, ref0: seq<int>, ref1: seq<int>, end: nat)
    requires Began(t0, t1, trees0, trees1, root, pages, ref0, ref1, end) && t2.Keys == t1.Keys && OthersSame(t1, t2, trees1, root)
    ensures Began(t0, t2, trees0, trees1, root, pages, ref0, ref1, end)
  {
    hide LeafAt, OthersSame, TookPages;
    OthersFewer(t1, t2, trees0, trees1, root);
    SameTrans(t0, t1, t2, trees0, trees0, root);
  }

  /** With the page table given back, every count is as it was. */
  lemma Undone(t0: Tables, t2: Tables, t3: Tables, trees0: Trees, trees2: Trees, root: nat, pages: set<nat>, ref0: seq<int>, ref2: seq<int>, ref3: seq<int>, end: nat)
    requires Began(t0, t2, trees0, trees2, root, pages, ref0, ref2, end)
    requires GaveBack(ref2, ref3, pages) && t3.Keys == t2.Keys - pages && OthersSame(t2, t3, trees2, root)
    ensures trees2 - {root} == trees0 && ref3 == ref0 && t3.Keys == t0.Keys && OthersSame(t0, t3, trees0, 0)
  {
    hide LeafAt;
    forall p | 0 <= p < |ref0| ensures ref3[p] == ref0[p] {}
    assert OthersSame(t0, t3, trees0, root);
  }

  lemma FirstFails(t1: Tables, t2: Tables, root: nat)
    requires (forall va: nat :: LeafAt(t1, root, va) == 0) && SelfSame(t1, t2, root)
    ensures forall va: nat :: LeafAt(t2, root, va) == 0
  {
    hide LeafAt;
  }

  lemma BothMapped(t1: Tables, t2: Tables, t3: Tables, root: nat, trampoline: nat, trapframe: nat)
    requires (forall va: nat :: LeafAt(t1, root, va) == 0) && Mapped(t1, t2, root, TRAMPOLINE / PGSIZE, 1, trampoline, 10)
    requires Mapped(t2, t3, root, TRAPFRAME / PGSIZE, 1, trapframe, 6)
    ensures TwoLeaves(t3, root, trampoline, trapframe)
  {
    hide LeafAt, Make;
  }

  lemma NoneMapped(t1: Tables, t2: Tables, t3: Tables, t4: Tables, root: nat, trampoline: nat)
    requires (forall va: nat :: LeafAt(t1, root, va) == 0) && Mapped(t1, t2, root, TRAMPOLINE / PGSIZE, 1, trampoline, 10)
    requires SelfSame(t2, t3, root) && Unmapped(t3, t4, root, TRAMPOLINE / PGSIZE, 1)
    ensures forall va: nat :: va < MAXVA ==> LeafAt(t4, root, va) == 0
  {
    hide LeafAt, Make;
  }

  lemma KmemRange(kmem: Kmem)
    requires kmem.Quiet()
    ensures |kmem.refCount[..]| == PHYSPAGE && kmem.end > 0
  {
  }

  lemma GrownNone(trees: Trees, root: nat)
    requires root in trees
    ensures TreeGrown(trees, trees, root, {})
  {
  }

  lemma GrownKeys(trees: Trees, trees': Trees, root: nat, pages: set<nat>)
    requires TreeGrown(trees, trees', root, pages)
    ensures trees'.Keys == trees.Keys && root in trees && root in trees'
  {
  }

  lemma PathBound(va: nat, level: nat)
    requires va < MAXVA && 1 <= level <= 2
    ensures Px(level, va) < Fanout(2 - level)
  {
    if level == 2 { assert va / 0x4000_0000 < 256; }
  }

  lemma BackedSame(ref: seq<int>, end: nat, t: Tables, page: nat, row: seq<nat>)
    requires Backed(ref, end, t) && page in t
    ensures Backed(ref, end, t[page := row]) && t[page := row].Keys == t.Keys
  {
  }

  lemma BackedAt(ref: seq<int>, end: nat, t: Tables, page: nat)
    requires Backed(ref, end, t) && page in t
    ensures end <= page < PHYSPAGE && |ref| == PHYSPAGE && ref[page] == 1
  {
  }

  lemma BackedAll(ref: seq<int>, end: nat, t: Tables, pages: set<nat>)
    requires Backed(ref, end, t) && pages <= t.Keys
    ensures |ref| == PHYSPAGE && forall a :: a in pages ==> end <= a < PHYSPAGE
  {
  }

  lemma BackedLess(ref: seq<int>, ref': seq<int>, end: nat, t: Tables, page: nat)
    requires Backed(ref, end, t) && page in t && ref' == ref[page := 0]
    ensures Backed(ref', end, t - {page})
  {
  }

  /** Counts after the pages, each with one reference, were given back. */
  ghost predicate GaveBack(ref: seq<int>, ref': seq<int>, pages: set<nat>) {
    |ref'| == |ref| && forall p :: 0 <= p < |ref| ==> ref'[p] == if p in pages then 0 else ref[p]
  }

  lemma GaveNone(ref: seq<int>)
    ensures GaveBack(ref, ref, {})
  {
  }

  lemma GaveOne(ref: seq<int>, p: nat)
    requires p < |ref|
    ensures GaveBack(ref, ref[p := 0], {p})
  {
  }

  lemma GaveMore(ref: seq<int>, ref1: seq<int>, ref2: seq<int>, a: set<nat>, b: set<nat>)
    requires GaveBack(ref, ref1, a) && GaveBack(ref1, ref2, b)
    ensures GaveBack(ref, ref2, a + b)
  {
  }

  lemma GaveAvail(ref: seq<int>, ref': seq<int>, end: nat, pages: set<nat>)
    requires GaveBack(ref, ref', pages) && |ref| == PHYSPAGE && forall a :: a in pages ==> end <= a < PHYSPAGE
    ensures Avail(ref', end) == Avail(ref, end) + pages
  {
  }

  /** After a page was added at prefix p, the walk goes through it. */
  lemma WalkFresh(t: Tables, free: set<nat>, trees: Trees, root: nat, p: seq<nat>, i: nat, child: nat, va: nat, level: nat)
    requires Forest(t, free, trees) && root in trees && 1 <= level <= 2 && |p| == 2 - level && p == Path(va)[..2 - level]
    requires i == Px(level, va) && p in trees[root] && p + [i] in trees[root] && trees[root][p + [i]] == child
    ensures WalkFrom(t, root, 2, va) == WalkFrom(t, child, level - 1, va)
  {
    hide Forest;
    TreeRoot(t, free, trees, root);
    TreeInner(t, free, trees, root, p, i);
    if level == 1 {
      var j := Px(2, va);
      assert p == [j] && [] + [j] == [j];
      TreeInner(t, free, trees, root, [], j);
    }
  }

  lemma SameRefl(t: Tables, trees: Trees, root: nat)
    ensures OthersSame(t, t, trees, root) && SelfSame(t, t, root)
  {
  }

  lemma CreateForest(t: Tables, free: set<nat>, trees: Trees, root: nat)
    requires Forest(t, free, trees) && root in free
    ensures var t' := t[root := Zeros()];
            Forest(t', free - {root}, trees[root := Below(map[], [], root)]) && OthersSame(t, t', trees, root)
            && forall va: nat :: LeafAt(t', root, va) == 0
  {
    hide LeafAt, Tree;
    var t' := t[root := Zeros()];
    var dir: Dir := Below(map[], [], root);
    forall r, a | r in trees && r != root && a in trees[r].Values ensures a in t && a in t' && t'[a] == t[a] {
      TreePages(t, r, trees[r]);
    }
    forall r | r in trees ensures root !in trees[r].Values && r != root { TreePages(t, r, trees[r]); }
    OthersKept(t, t', free, trees, root);
    EmptyTree(t', root);
    assert dir.Values == {root};
    forall va: nat ensures LeafAt(t', root, va) == 0 { NoLeaf(t', root, dir, va); }
  }

  lemma EmptyTree(t: Tables, root: nat)
    requires root > 0 && root in t && t[root] == Zeros()
    ensures Tree(t, root, Below(map[], [], root))
  {
    var dir: Dir := Below(map[], [], root);
    forall i: nat | i < ENTRIES ensures Inner(t, dir, [], i) { assert |[] + [i]| == 1; }
  }

  lemma NoLeaf(t: Tables, root: nat, dir: Dir, va: nat)
    requires Tree(t, root, dir) && Path(va) !in dir
    ensures LeafAt(t, root, va) == 0
  {
    WalkTree(t, root, dir, va);
  }

  /** perm | PTE_V. */
  function WithV(perm: nat): nat { if perm % 2 == 1 then perm else perm + 1 }

  lemma WithVFlags(ppn: nat, perm: nat)
    requires perm < 1024 && !NoRwx(perm)
    ensures V(Make(ppn, WithV(perm))) && !NoRwx(Make(ppn, WithV(perm)))
  {
    hide NoRwx, Make;
    NoRwxWithV(perm);
    MakeParts(ppn, WithV(perm));
  }

  lemma NoRwxWithV(perm: nat)
    ensures NoRwx(WithV(perm)) <==> NoRwx(perm)
  {
    assert WithV(perm) / 2 == perm / 2;
  }

  /** The k pages from page v on are mapped to consecutive frames from ppn on; other lookups are as before. */
  ghost predicate Mapped(t: Tables, t': Tables, root: nat, v: nat, k: nat, ppn: nat, perm: nat) {
    forall va: nat :: va < MAXVA ==>
      LeafAt(t', root, va) == if v <= va / PGSIZE < v + k then Make(ppn + va / PGSIZE - v, WithV(perm)) else LeafAt(t, root, va)
  }

  ghost predicate Unmapped(t: Tables, t': Tables, root: nat, v: nat, k: nat) {
    forall va: nat :: va < MAXVA ==> LeafAt(t', root, va) == if v <= va / PGSIZE < v + k then 0 else LeafAt(t, root, va)
  }

  /** The leaf of page v is e; other lookups are as before. */
  ghost predicate LeafSet(t: Tables, t': Tables, root: nat, v: nat, e: nat) {
    forall va: nat :: va < MAXVA ==> LeafAt(t', root, va) == if va / PGSIZE == v then e else LeafAt(t, root, va)
  }

  lemma MappedNone(t: Tables, root: nat, v: nat, ppn: nat, perm: nat)
    ensures Mapped(t, t, root, v, 0, ppn, perm)
  {
  }

  lemma UnmappedNone(t: Tables, root: nat, v: nat)
    ensures Unmapped(t, t, root, v, 0)
  {
  }

  lemma MappedSame(t: Tables, t1: Tables, t2: Tables, root: nat, v: nat, k: nat, ppn: nat, perm: nat)
    requires Mapped(t, t1, root, v, k, ppn, perm) && SelfSame(t1, t2, root)
    ensures Mapped(t, t2, root, v, k, ppn, perm)
  {
    hide LeafAt;
  }

  lemma MappedAt(t: Tables, t1: Tables, root: nat, va: nat, k: nat, ppn: nat, perm: nat)
    requires Mapped(t, t1, root, va / PGSIZE, k, ppn, perm) && va % PGSIZE == 0 && va + k * PGSIZE < MAXVA
    ensures LeafAt(t1, root, va + k * PGSIZE) == LeafAt(t, root, va + k * PGSIZE)
  {
    hide LeafAt;
    assert (va + k * PGSIZE) / PGSIZE == va / PGSIZE + k;
  }

  lemma UnmappedNext(t: Tables, t1: Tables, free: set<nat>, trees: Trees, root: nat, va: nat, k: nat)
    requires Forest(t1, free, trees) && root in trees && va % PGSIZE == 0 && va + k * PGSIZE < MAXVA
    requires Path(va + k * PGSIZE) in trees[root]
    requires trees[root][Path(va + k * PGSIZE)] in t1 && |t1[trees[root][Path(va + k * PGSIZE)]]| == ENTRIES
    requires Unmapped(t, t1, root, va / PGSIZE, k)
    ensures var a := va + k * PGSIZE;
            Unmapped(t, SetEntry(t1, trees[root][Path(a)], Px(0, a), 0), root, va / PGSIZE, k + 1)
  {
    hide LeafAt, Tree;
    var a := va + k * PGSIZE;
    assert a / PGSIZE == va / PGSIZE + k;
    var t2 := SetEntry(t1, trees[root][Path(a)], Px(0, a), 0);
    forall va': nat | va' < MAXVA
      ensures LeafAt(t2, root, va') == if va / PGSIZE <= va' / PGSIZE < va / PGSIZE + k + 1 then 0 else LeafAt(t, root, va')
    {
      SetEntryLeaf(t1, root, trees[root], a, 0, va');
    }
  }

  lemma UnmappedSkip(t: Tables, t1: Tables, root: nat, va: nat, k: nat)
    requires va % PGSIZE == 0 && va + k * PGSIZE < MAXVA && LeafAt(t1, root, va + k * PGSIZE) == 0
    requires Unmapped(t, t1, root, va / PGSIZE, k)
    ensures Unmapped(t, t1, root, va / PGSIZE, k + 1)
  {
    hide LeafAt;
    var a := va + k * PGSIZE;
    assert a / PGSIZE == va / PGSIZE + k;
    forall va': nat | va' < MAXVA
      ensures LeafAt(t1, root, va') == if va / PGSIZE <= va' / PGSIZE < va / PGSIZE + k + 1 then 0 else LeafAt(t, root, va')
    {
      if va' / PGSIZE == a / PGSIZE { LeafSame(t1, root, a, va'); }
    }
  }

  lemma LeafSame(t: Tables, root: nat, va: nat, va': nat)
    requires va / PGSIZE == va' / PGSIZE
    ensures LeafAt(t, root, va) == LeafAt(t, root, va')
  {
    IndexSame(va, va');
    WalkSame(t, root, 2, va, va');
  }

  lemma {:induction false} WalkSame(t: Tables, page: nat, level: nat, va: nat, va': nat)
    requires level <= 2 && Px(2, va) == Px(2, va') && Px(1, va) == Px(1, va')
    ensures WalkFrom(t, page, level, va) == WalkFrom(t, page, level, va')
    decreases level
  {
    if level > 0 && V(Entry(t, page, Px(level, va))) {
      WalkSame(t, Ppn(Entry(t, page, Px(level, va))), level - 1, va, va');
    }
  }

  lemma LeafIs(t: Tables, free: set<nat>, trees: Trees, root: nat, va: nat)
    requires Forest(t, free, trees) && root in trees
    ensures var page := WalkFrom(t, root, 2, va);
            LeafAt(t, root, va) == if page != 0 && V(Entry(t, page, Px(0, va))) then Entry(t, page, Px(0, va)) else 0
  {
  }

  // ---------------------------------------------------------------------
  // freewalk

  ghost predicate DirOk(dir: Dir) {
    && (forall p :: p in dir ==> |p| <= 2 && dir[p] > 0)
    && (forall p, k :: p in dir && 0 <= k < |p| ==> p[k] < Fanout(k))
    && (forall p, q :: p in dir && q in dir && dir[p] == dir[q] ==> p == q)
    && (forall p :: p in dir && |p| > 0 ==> p[..|p| - 1] in dir)
  }

  /** The part of a tree at and below prefix p. */
  ghost predicate SubTree(t: Tables, dir: Dir, p: seq<nat>) {
    && p in dir
    && (forall q :: q in dir && p <= q ==> dir[q] in t && |t[dir[q]]| == ENTRIES)
    && (forall q, i :: q in dir && p <= q && |q| < 2 && 0 <= i < ENTRIES ==> Inner(t, dir, q, i))
    && (forall q, i :: q in dir && p <= q && |q| == 2 && 0 <= i < ENTRIES ==> Bottom(t, dir, q, i))
  }

  /** The pages at and below prefix p. */
  ghost function Sub(dir: Dir, p: seq<nat>): set<nat> { set q | q in dir && p <= q :: dir[q] }

  /** The pages below the first i entries of the page at p. */
  ghost function SubUpTo(dir: Dir, p: seq<nat>, i: nat): set<nat> { set q | q in dir && p < q && q[|p|] < i :: dir[q] }

  ghost predicate NoLeaves(t: Tables, dir: Dir, p: seq<nat>) {
    forall q, k: nat :: q in dir && p <= q && |q| == 2 && k < ENTRIES ==> !V(Entry(t, dir[q], k))
  }

  /** No leaf among the first i entries at p and below them. */
  ghost predicate NoLeavesUpTo(t: Tables, dir: Dir, p: seq<nat>, i: nat) {
    && (forall q, k: nat :: q in dir && p < q && q[|p|] < i && |q| == 2 && k < ENTRIES ==> !V(Entry(t, dir[q], k)))
    && (|p| == 2 && p in dir ==> forall k: nat :: k < i && k < ENTRIES ==> !V(Entry(t, dir[p], k)))
  }

  lemma SubTreeTop(t: Tables, dir: Dir, p: seq<nat>)
    requires DirOk(dir) && SubTree(t, dir, p)
    ensures p in dir && |p| <= 2 && dir[p] in t && |t[dir[p]]| == ENTRIES
  {
  }

  lemma UpToNone(t: Tables, dir: Dir, p: seq<nat>)
    ensures SubUpTo(dir, p, 0) == {} && NoLeavesUpTo(t, dir, p, 0)
  {
  }

  lemma SubTreeEntry(t: Tables, dir: Dir, p: seq<nat>, i: nat)
    requires DirOk(dir) && SubTree(t, dir, p) && i < ENTRIES
    ensures p in dir && dir[p] in t && |t[dir[p]]| == ENTRIES
    ensures var e := t[dir[p]][i];
            && (|p| < 2 ==> (V(e) <==> p + [i] in dir) && (V(e) ==> NoRwx(e) && Ppn(e) == dir[p + [i]]))
            && (|p| == 2 && V(e) ==> !NoRwx(e))
    ensures |p| <= 2
  {
    if |p| < 2 { assert Inner(t, dir, p, i); } else { assert Bottom(t, dir, p, i); }
  }

  lemma SubTreeKept(t0: Tables, t1: Tables, dir: Dir, p: seq<nat>, i: nat)
    requires DirOk(dir) && SubTree(t0, dir, p) && p + [i] in dir && t1.Keys == t0.Keys - SubUpTo(dir, p, i)
    requires forall a :: a in t1 && a != dir[p] ==> t1[a] == t0[a]
    ensures SubTree(t1, dir, p + [i])
    ensures forall q :: q in dir && p + [i] <= q ==> dir[q] in t1 && t1[dir[q]] == t0[dir[q]]
  {
    forall q | q in dir && p + [i] <= q
      ensures p <= q && dir[q] in t0 && dir[q] in t1 && dir[q] != dir[p] && t1[dir[q]] == t0[dir[q]]
    {
      assert q[|p|] == i && p <= q && p < q;
      NotUpTo(dir, p, i, q);
    }
    forall q, j | q in dir && p + [i] <= q && |q| < 2 && 0 <= j < ENTRIES ensures Inner(t1, dir, q, j) { assert Inner(t0, dir, q, j); }
    forall q, j | q in dir && p + [i] <= q && |q| == 2 && 0 <= j < ENTRIES ensures Bottom(t1, dir, q, j) { assert Bottom(t0, dir, q, j); }
  }

  lemma NotUpTo(dir: Dir, p: seq<nat>, i: nat, q: seq<nat>)
    requires DirOk(dir) && q in dir && p < q && q[|p|] >= i
    ensures dir[q] !in SubUpTo(dir, p, i)
  {
  }

  /** One more entry: the pages below p + [i] join the pages done. */
  lemma UpToNext(t: Tables, dir: Dir, p: seq<nat>, i: nat)
    requires DirOk(dir) && |p| < 2
    ensures SubUpTo(dir, p, i + 1) == SubUpTo(dir, p, i) + Sub(dir, p + [i])
    ensures NoLeavesUpTo(t, dir, p, i) && NoLeaves(t, dir, p + [i]) ==> NoLeavesUpTo(t, dir, p, i + 1)
  {
    forall q | q in dir && p < q && q[|p|] == i ensures p + [i] <= q {}
    forall q | q in dir && p + [i] <= q ensures p < q && q[|p|] == i {}
  }

  lemma UpToSkip(t: Tables, dir: Dir, p: seq<nat>, i: nat)
    requires DirOk(dir) && p in dir && |p| <= 2 && i < ENTRIES && (|p| < 2 ==> p + [i] !in dir) && (|p| == 2 ==> !V(Entry(t, dir[p], i)))
    ensures SubUpTo(dir, p, i + 1) == SubUpTo(dir, p, i)
    ensures NoLeavesUpTo(t, dir, p, i) ==> NoLeavesUpTo(t, dir, p, i + 1)
  {
    forall q | q in dir && p < q ensures q[|p|] != i { PrefixIn(dir, p, q); }
  }

  lemma PrefixIn(dir: Dir, p: seq<nat>, q: seq<nat>)
    requires DirOk(dir) && q in dir && p < q
    ensures p + [q[|p|]] in dir
  {
    if |q| == |p| + 1 {
      assert q == p + [q[|p|]];
    } else {
      assert |p| == 0 && |q| == 2;
      assert q[..|q| - 1] == p + [q[|p|]];
    }
  }

  lemma UpToAll(t: Tables, dir: Dir, p: seq<nat>)
    requires DirOk(dir) && p in dir && |p| <= 2
    ensures Sub(dir, p) == SubUpTo(dir, p, ENTRIES) + {dir[p]}
    ensures NoLeavesUpTo(t, dir, p, ENTRIES) ==> NoLeaves(t, dir, p)
  {
    forall q | q in dir && p <= q ensures q == p || (p < q && q[|p|] < ENTRIES) {}
  }

  lemma SubBelow(dir: Dir, p: seq<nat>, i: nat)
    requires DirOk(dir) && p in dir
    ensures dir[p] !in Sub(dir, p + [i])
  {
  }

  lemma NoLeavesSame(t0: Tables, t1: Tables, dir: Dir, p: seq<nat>, top: seq<nat>, i: nat)
    requires p == top + [i] && forall q :: q in dir && p <= q ==> dir[q] in t0 && dir[q] in t1 && t1[dir[q]] == t0[dir[q]]
    ensures NoLeaves(t0, dir, p) <==> NoLeaves(t1, dir, p)
    ensures !NoLeaves(t0, dir, p) ==> !NoLeaves(t0, dir, top)
  {
    forall q, k: nat | q in dir && p <= q ensures Entry(t0, dir[q], k) == Entry(t1, dir[q], k) && top <= q {}
  }

  /** freewalk has gone through the entries before i of the page at prefix p. */
  ghost predicate FreedTo(t0: Tables, t: Tables, ref0: seq<int>, ref: seq<int>, dir: Dir, p: seq<nat>, i: nat) {
    && p in dir && t.Keys == t0.Keys - SubUpTo(dir, p, i) && GaveBack(ref0, ref, SubUpTo(dir, p, i)) && NoLeavesUpTo(t0, dir, p, i)
    && dir[p] in t && dir[p] in t0 && |t[dir[p]]| == |t0[dir[p]]| == ENTRIES
    && (forall k :: i <= k < ENTRIES ==> t[dir[p]][k] == t0[dir[p]][k])
    && (forall a :: a in t && a != dir[p] ==> a in t0 && t[a] == t0[a])
  }

  lemma FreedNone(t: Tables, ref: seq<int>, dir: Dir, p: seq<nat>)
    requires p in dir && dir[p] in t && |t[dir[p]]| == ENTRIES
    ensures FreedTo(t, t, ref, ref, dir, p, 0)
  {
    hide GaveBack, SubUpTo, NoLeavesUpTo;
    UpToNone(t, dir, p);
    GaveNone(ref);
  }

  lemma FreedEntry(t0: Tables, t: Tables, ref0: seq<int>, ref: seq<int>, dir: Dir, p: seq<nat>, i: nat)
    requires DirOk(dir) && SubTree(t0, dir, p) && FreedTo(t0, t, ref0, ref, dir, p, i) && i < ENTRIES
    ensures p in dir && |p| <= 2 && dir[p] in t && |t[dir[p]]| == ENTRIES && Entry(t0, dir[p], i) == t[dir[p]][i]
    ensures var e := t[dir[p]][i];
            && (V(e) && NoRwx(e) ==> |p| < 2 && p + [i] in dir && dir[p + [i]] == Ppn(e) && SubTree(t, dir, p + [i]))
            && (V(e) && !NoRwx(e) ==> |p| == 2)
            && (!V(e) ==> (|p| < 2 ==> p + [i] !in dir))
  {
    hide GaveBack, SubUpTo, NoLeavesUpTo, SubTree, DirOk, Ppn, NoRwx;
    SubTreeEntry(t0, dir, p, i);
    var e := t[dir[p]][i];
    if V(e) && NoRwx(e) { SubTreeKept(t0, t, dir, p, i); }
  }

  lemma FreedWhether(t0: Tables, t: Tables, ref0: seq<int>, ref: seq<int>, dir: Dir, p: seq<nat>, i: nat)
    requires DirOk(dir) && SubTree(t0, dir, p) && FreedTo(t0, t, ref0, ref, dir, p, i) && i < ENTRIES && p + [i] in dir
    ensures NoLeaves(t0, dir, p + [i]) <==> NoLeaves(t, dir, p + [i])
    ensures !NoLeaves(t, dir, p + [i]) ==> !NoLeaves(t0, dir, p)
  {
    hide GaveBack, SubUpTo, NoLeavesUpTo, SubTree, DirOk, NoLeaves;
    SubTreeKept(t0, t, dir, p, i);
    NoLeavesSame(t0, t, dir, p + [i], p, i);
  }

  lemma FreedBelow(t0: Tables, t1: Tables, t2: Tables, ref0: seq<int>, ref1: seq<int>, ref2: seq<int>, dir: Dir, p: seq<nat>, i: nat)
    requires DirOk(dir) && FreedTo(t0, t1, ref0, ref1, dir, p, i) && i < ENTRIES && |p| < 2 && p + [i] in dir && NoLeaves(t0, dir, p + [i])
    requires t2 == t1 - Sub(dir, p + [i]) && GaveBack(ref1, ref2, Sub(dir, p + [i]))
    ensures dir[p] in t2 && |t2[dir[p]]| == ENTRIES
    ensures FreedTo(t0, t2[dir[p] := t2[dir[p]][i := 0]], ref0, ref2, dir, p, i + 1)
  {
    hide GaveBack, Sub, SubUpTo, NoLeavesUpTo, DirOk, NoLeaves;
    SubBelow(dir, p, i);
    UpToNext(t0, dir, p, i);
    GaveMore(ref0, ref1, ref2, SubUpTo(dir, p, i), Sub(dir, p + [i]));
  }

  lemma FreedSkip(t0: Tables, t: Tables, ref0: seq<int>, ref: seq<int>, dir: Dir, p: seq<nat>, i: nat)
    requires DirOk(dir) && FreedTo(t0, t, ref0, ref, dir, p, i) && i < ENTRIES && |p| <= 2 && (|p| < 2 ==> p + [i] !in dir) && !V(Entry(t0, dir[p], i))
    ensures FreedTo(t0, t, ref0, ref, dir, p, i + 1)
  {
    hide GaveBack, SubUpTo, NoLeavesUpTo, DirOk;
    UpToSkip(t0, dir, p, i);
  }

  lemma FreedAll(t0: Tables, t: Tables, ref0: seq<int>, ref: seq<int>, dir: Dir, p: seq<nat>)
    requires DirOk(dir) && |p| <= 2 && FreedTo(t0, t, ref0, ref, dir, p, ENTRIES) && dir[p] < |ref|
    ensures NoLeaves(t0, dir, p) && t - {dir[p]} == t0 - Sub(dir, p) && GaveBack(ref0, ref[dir[p] := 0], Sub(dir, p))
  {
    hide GaveBack, Sub, SubUpTo, NoLeavesUpTo, DirOk, NoLeaves;
    UpToAll(t0, dir, p);
    GaveOne(ref, dir[p]);
    GaveMore(ref0, ref, ref[dir[p] := 0], SubUpTo(dir, p, ENTRIES), {dir[p]});
  }

  lemma LeafLeft(t: Tables, dir: Dir, p: seq<nat>, i: nat)
    requires p in dir && |p| == 2 && i < ENTRIES && V(Entry(t, dir[p], i))
    ensures !NoLeaves(t, dir, p)
  {
  }

  // ---------------------------------------------------------------------
  // proc_freepagetable

  /** The leaves of a process: its n user pages, the trapframe and the trampoline. */
  ghost predicate OnlyLeaves(t: Tables, root: nat, n: nat) {
    forall va: nat :: va < MAXVA && LeafAt(t, root, va) != 0 ==>
      va / PGSIZE < n || va / PGSIZE == TRAPFRAME / PGSIZE || va / PGSIZE == TRAMPOLINE / PGSIZE
  }

  lemma ForestSub(t: Tables, free: set<nat>, trees: Trees, root: nat)
    requires Forest(t, free, trees) && root in trees
    ensures DirOk(trees[root]) && SubTree(t, trees[root], []) && root == trees[root][[]]
    ensures Sub(trees[root], []) == trees[root].Values
  {
    var dir := trees[root];
    assert Tree(t, root, dir);
    forall q | q in dir ensures [] <= q {}
  }

  lemma AllUnmapped(t0: Tables, t1: Tables, t2: Tables, t3: Tables, root: nat, n: nat)
    requires OnlyLeaves(t0, root, n)
    requires Unmapped(t0, t1, root, TRAMPOLINE / PGSIZE, 1) && Unmapped(t1, t2, root, TRAPFRAME / PGSIZE, 1)
    requires Unmapped(t2, t3, root, 0, n)
    ensures forall va: nat :: va < MAXVA ==> LeafAt(t3, root, va) == 0
  {
    hide LeafAt;
    forall va: nat | va < MAXVA ensures LeafAt(t3, root, va) == 0 {
      assert LeafAt(t0, root, va) != 0 ==> va / PGSIZE < n || va / PGSIZE == TRAPFRAME / PGSIZE || va / PGSIZE == TRAMPOLINE / PGSIZE;
    }
  }

  lemma NoLookups(t: Tables, free: set<nat>, trees: Trees, root: nat)
    requires Forest(t, free, trees) && root in trees && forall va: nat :: va < MAXVA ==> LeafAt(t, root, va) == 0
    ensures NoLeaves(t, trees[root], [])
  {
    var dir := trees[root];
    forall q, k: nat | q in dir && [] <= q && |q| == 2 && k < ENTRIES ensures !V(Entry(t, dir[q], k)) {
      NoLookup(t, root, dir, q, k);
    }
  }

  lemma NoLookup(t: Tables, root: nat, dir: Dir, q: seq<nat>, k: nat)
    requires Tree(t, root, dir) && q in dir && |q| == 2 && k < ENTRIES && forall va: nat :: va < MAXVA ==> LeafAt(t, root, va) == 0
    ensures !V(Entry(t, dir[q], k))
  {
    hide LeafAt;
    assert q[0] < Fanout(0) && q[1] < Fanout(1);
    var va := Compose(q[0], q[1], k);
    WalkTree(t, root, dir, va);
    LeafDef(t, root, va);
    assert Path(va) == q;
  }

  /** The address with the given indices. */
  lemma Compose(i: nat, j: nat, k: nat) returns (va: nat)
    requires i < 256 && j < ENTRIES && k < ENTRIES
    ensures va < MAXVA && Px(2, va) == i && Px(1, va) == j && Px(0, va) == k
  {
    va := i * 0x4000_0000 + j * 0x20_0000 + k * 4096;
    assert va / 4096 == i * 262144 + j * 512 + k;
    assert va / 0x20_0000 == i * 512 + j;
    assert va / 0x4000_0000 == i;
  }

  lemma LeafDef(t: Tables, root: nat, va: nat)
    ensures var page := WalkFrom(t, root, 2, va); var e := Entry(t, page, Px(0, va));
            LeafAt(t, root, va) == if page != 0 && V(e) then e else 0
  {
  }

  lemma ForestKeys(t: Tables, free: set<nat>, trees: Trees, root: nat)
    requires Forest(t, free, trees) && root in trees
    ensures trees[root].Values <= t.Keys
  {
    TreePages(t, root, trees[root]);
  }

  lemma FreedForest(t: Tables, free': set<nat>, free: set<nat>, trees: Trees, root: nat)
    requires Forest(t, free, trees) && root in trees && free' == free + trees[root].Values
    ensures var t' := t - trees[root].Values;
            Forest(t', free', trees - {root}) && OthersSame(t, t', trees, root)
  {
    hide LeafAt, Tree;
    var t' := t - trees[root].Values;
    TreePages(t, root, trees[root]);
    TreePositive(t, root, trees[root]);
    forall r, a | r in trees && r != root && a in trees[r].Values ensures a in t && a in t' && t'[a] == t[a] {
      TreePages(t, r, trees[r]);
    }
    OthersKept(t, t', free, trees, root);
  }

  lemma TreePositive(t: Tables, root: nat, dir: Dir)
    requires Tree(t, root, dir)
    ensures 0 !in dir.Values
  {
  }
}
