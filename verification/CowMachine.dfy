/**
 kernel/vm.c over the page tables of PageTables and the page allocator of
 PageAllocator: uvmunmap, uvmalloc, uvmcopy, vmfault, copyout and copyin walk
 three-level trees, change page-table words, and allocate and free through the
 linked free list and the reference counts. Each method is one of the
 operations of CowMemory, for the choices that the allocator has made; these
 are ghost results.
 */
module CowMachine {
  import opened Common
  import opened CowMemory
  import opened CowConcrete
  import opened PageAllocator
  import opened PageTables
  import opened Sv39
  import CowInvariant
  import CowProgress
  import FreeList
  import CowRefinement
  import CowRuns

  class Machine {
    const mmu: Mmu
    const trampoline: nat
    var pages: map<nat, Page>
    var tasks: map<nat, Task>

    ghost function Held(): Raw
      reads this, mmu, mmu.kmem, mmu.kmem.refCount
    {
      Raw(mmu.tables, mmu.trees, mmu.kmem.refCount[..], mmu.kmem.end, pages, tasks)
    }

    /** The state on which copy-on-write fork is proved correct. */
    ghost function Now(): State
      reads this, mmu, mmu.kmem, mmu.kmem.refCount
    {
      Abs(Held())
    }

    /** The allocator is at rest, trees and counts fit together, and no operation is half done. */
    ghost predicate Sound()
      reads this, mmu, mmu.kmem, mmu.kmem.refCount
    {
      mmu.kmem.Quiet() && Fine(Held()) && Leaves(Held())
    }

    ghost predicate Valid()
      reads this, mmu, mmu.kmem, mmu.kmem.refCount
    {
      Sound() && CowInvariant.Inv(Now())
    }

    /** The number of free pages, and of the table pages that process p lacks for page v. */
    ghost function Spare(): nat
      reads mmu.kmem, mmu.kmem.refCount
    {
      Left(mmu.kmem.refCount[..], mmu.kmem.end)
    }

    ghost function Lack(p: nat, v: nat): (n: nat)
      reads this, mmu
      ensures n <= 2
    {
      if p in tasks && tasks[p].root in mmu.trees then Missing(mmu.trees[tasks[p].root], v * PGSIZE) else 0
    }

    /** kinit: all memory from page `first` on is free, and there is no process. */
    constructor (first: nat, code: nat)
      requires KERNPAGE <= first < PHYSPAGE
      ensures Valid() && tasks == map[] && fresh(mmu) && fresh(mmu.kmem) && fresh(mmu.kmem.refCount)
      ensures CowRuns.Valid(Now()) && CowRefinement.ViewOf(Now()) == map[]
    {
      var kmem := new Kmem(first);
      AllFree(kmem.refCount[..], kmem.Holes(), kmem.end);
      mmu := new Mmu(kmem);
      trampoline := code;
      pages, tasks := map[], map[];
      new;
      NoTasks(Held());
    }

    /** kfree of a user page. */
    method FreeUser(a: nat)
      requires Sound() && UserPage(Held(), a)
      modifies mmu.kmem, mmu.kmem.refCount
      ensures Sound() && Now() == Kfree(old(Now()), a)
    {
      hide Fine, Leaves, CowInvariant.Inv, Abs, Kmem.Quiet, Forest, Backed, Avail, LeafAt, OthersSame, Kfree, Counted, IsTable, RefOf;
      ghost var r0 := Held();
      UserRange(r0, a);
      AbsKfree(r0, a);
      var freed := mmu.kmem.Kfree(a);
      CountedIs(r0, a, Held());
      CountedLeaves(r0, Held());
    }

    /** One turn of uvmunmap with do_free. */
    method UnmapOne(p: nat, v: nat)
      requires Valid() && p in tasks && v < TRAPVPN
      modifies mmu, mmu.kmem, mmu.kmem.refCount
      ensures Valid() && Now() == CowMemory.UnmapOne(old(Now()), p, v)
    {
      hide Fine, Leaves, CowInvariant.Inv, Abs, Kmem.Quiet, Forest, Backed, Avail, LeafAt, OthersSame, Unmapped, Ppn, LeafStep, Kfree, Counted, IsTable, RefOf;
      ghost var r0 := Held();
      var root := tasks[p].root;
      FineTask(r0, p);
      MmuValid(mmu, r0);
      LeafIn(r0, p, v);
      CowInvariant.UnmapOneInv(Abs(r0), p, v);
      var e := mmu.Lookup(root, v * PGSIZE);
      if e != 0 {
        UserLeaf(r0, p, v);
        FreeUser(Ppn(e));
        ghost var r1 := Held();
        MmuValid(mmu, r1);
        mmu.Unmap(root, v * PGSIZE, 1);
        ghost var r2 := Held();
        UnmappedStep(r1, r2, p, v);
        AbsLeaf(r1, r2, p, v, 0);
        LeafLeaves(r1, r2, p, v, 0);
        KfreeProcs(Abs(r0), Ppn(e));
      }
    }

    /** uvmunmap with do_free: the loop. */
    method Unmap(p: nat, first: nat, n: nat)
      requires Valid() && p in tasks && first + n <= TRAPVPN
      modifies mmu, mmu.kmem, mmu.kmem.refCount
      ensures Valid() && Now() == UvmUnmap(old(Now()), p, first, n)
    {
      hide Sound, CowInvariant.Inv, CowMemory.UnmapOne, Abs;
      HasProc(Held(), p);
      var v := first;
      while v < first + n
        invariant first <= v <= first + n && Valid() && p in Now().procs
        invariant UvmUnmap(old(Now()), p, first, n) == UvmUnmap(Now(), p, v, first + n - v)
      {
        UnmapOne(p, v);
        HasProc(Held(), p);
        v := v + 1;
      }
    }

    /** kalloc, memset and mappages for page v of process p, undone if the walk fails: as in uvmalloc and vmfault. */
    method MapNew(p: nat, v: nat, w: bool) returns (mem: Option<nat>, ghost c: Choice)
      requires Valid() && p in tasks && v < TRAPVPN && p in Now().procs && v !in Now().procs[p].pt
      modifies this`pages, mmu, mmu.kmem, mmu.kmem.refCount
      ensures Valid() && (Now(), mem) == CowMemory.MapNew(old(Now()), p, v, w, c)
      ensures mem.None? <==> old(Spare()) < 1 + old(Lack(p, v))
      ensures if mem.None? then Spare() <= 1 else old(Spare()) == Spare() + 1 + old(Lack(p, v))
    {
      hide Fine, Leaves, CowInvariant.Inv, Abs, Kmem.Quiet, Forest, Backed, Avail, Take, CowMemory.MapNew, Fill, RefOf, Left, Missing;
      ghost var r0 := Held();
      var a := mmu.kmem.Kalloc();
      NoneLeft(r0.ref, r0.end);
      if a == 0 {
        c := Choice(None, {}, false);
        NoPage(Abs(r0), p, v, w, c);
        return None, c;
      }
      OneTaken(r0.ref, r0.end, a);
      AbsTake(r0, a, Fill(0));
      TakeLeaves(r0, a, Fill(0));
      pages := pages[a := Fill(0)];
      TakeStores(r0, a, Fill(0));
      var ok;
      ok, c := MapTaken(p, v, a, w, r0);
      return if ok then Some(a) else None, c;
    }

    /** mappages of a page a just taken and zeroed, which goes back if the walk fails; r0 is what it was before. */
    method MapTaken(p: nat, v: nat, a: nat, w: bool, ghost r0: Raw) returns (ok: bool, ghost c: Choice)
      requires mmu.kmem.Quiet() && a in Avail(r0.ref, r0.end) && Fine(r0) && Leaves(r0) && CowInvariant.Inv(Abs(r0))
      requires a < |r0.ref| && Held() == Take(r0, a, Fill(0)) && Leaves(Held())
      requires p in r0.tasks && v < TRAPVPN && p in Abs(r0).procs && v !in Abs(r0).procs[p].pt
      modifies mmu, mmu.kmem, mmu.kmem.refCount
      ensures Valid() && (Now(), if ok then Some(a) else None) == CowMemory.MapNew(Abs(r0), p, v, w, c)
      ensures ok <==> old(Spare()) >= old(Lack(p, v))
      ensures if ok then old(Spare()) == Spare() + old(Lack(p, v)) else Spare() <= 1
    {
      hide Fine, Leaves, CowInvariant.Inv, Abs, Kmem.Quiet, Forest, Backed, Avail, LeafAt, OthersSame, MapStep, Take, Counted, MapPage, Kalloc, Kfree, Fill, IsTable, RefOf, TookPages, TreeGrown, Mapped, SelfSame, WithV, PteOf, Left, Missing;
      ghost var r1 := Held();
      TakeStores(r0, a, Fill(0));
      AbsTake(r0, a, Fill(0));
      TakenProcs(r0, a);
      FineTask(r1, p);
      LeafIn(r1, p, v);
      LeafFound(r1, p, v);
      MmuValid(mmu, r1);
      UserBits(a, w);
      var o, added := mmu.MapPage(tasks[p].root, v * PGSIZE, a, UserPerm(w));
      ghost var r2 := Held();
      MappedStep(r1, r2, p, v, a, UserPerm(w), added, o);
      ok := o == PageTables.Done;
      c := Choice(Some(a), added, ok);
      AbsMap(r1, r2, p, v, Make(a, WithV(UserPerm(w))), added, ok, Some(a));
      MapLeaves(r1, r2, p, v, Make(a, WithV(UserPerm(w))), added, ok);
      CowRefinement.MapNewEffect(Abs(r0), p, v, w, c);
      NewPage(Abs(r0), p, v, w, c, Abs(r2));
      if !ok {
        StillUser(r0, r1, r2, p, a, added);
        NoneLeft(r2.ref, r2.end);
        FreeUser(a);
        GivenBack(r2, Held(), a);
      }
    }

    /** uvmalloc from page first to page end: the loop, with its undoing on failure. */
    method Alloc(p: nat, first: nat, end: nat, w: bool) returns (ok: bool, ghost cs: Choices)
      requires Valid() && p in tasks && end <= TRAPVPN && p in Now().procs && (forall u: nat :: first <= u < end ==> u !in Now().procs[p].pt)
      modifies this`pages, mmu, mmu.kmem, mmu.kmem.refCount
      ensures Valid() && (Now(), ok) == UvmAlloc(old(Now()), p, first, first, end, w, cs)
      ensures !ok ==> old(Spare()) < 3 * (end - first)
    {
      hide Sound, CowInvariant.Inv, CowMemory.MapNew, Abs, UvmUnmap, UvmAlloc, AllocLeft, Left, Missing;
      var v := first;
      cs := [];
      AllocBegins(Now(), p, first, end, w);
      while v < end
        invariant first <= v && (v <= end || v == first) && Valid() && p in Now().procs
        invariant forall u: nat :: v <= u < end ==> u !in Now().procs[p].pt
        invariant AllocSoFar(old(Now()), p, first, end, w, cs, Now(), v)
        invariant old(Spare()) <= Spare() + 3 * (v - first)
      {
        ghost var s := Now();
        var mem, c := MapNew(p, v, w);
        HasProc(Held(), p);
        NewKeys(s, p, v, w, c);
        if mem.None? {
          AllocFails(old(Now()), p, first, end, w, cs, s, v, c);
          Unmap(p, first, v - first);
          return false, cs + [c];
        }
        AllocGoesOn(old(Now()), p, first, end, w, cs, s, v, c);
        v, cs := v + 1, cs + [c];
      }
      AllocEnds(old(Now()), p, first, end, w, cs, Now(), v);
      return true, cs;
    }

    /** uvmcopy withdraws PTE_W from the leaf e of page v and sets PTE_COW, if it is writable; f are the flags left. */
    method Withdraw(p: nat, v: nat, e: nat) returns (f: nat)
      requires Valid() && p in tasks && v < TRAPVPN && e == Leaf(mmu.tables, tasks[p].root, v) != 0
      modifies mmu`tables
      ensures Sound() && mmu.tables.Keys == old(mmu.tables.Keys)
      ensures f < 1024 && !NoRwx(f) && WithV(f) == f && Readable(Make(Ppn(e), f)) && UserPage(Held(), Ppn(e))
      ensures p in old(Now()).procs && v in old(Now()).procs[p].pt
      ensures PteOf(Make(Ppn(e), f)) == SharedPte(old(Now()).procs[p].pt[v])
      ensures Now() == SetPt(old(Now()), p, old(Now()).procs[p].pt[v := PteOf(Make(Ppn(e), f))])
    {
      hide Fine, Leaves, CowInvariant.Inv, Abs, Kmem.Quiet, Forest, Backed, Avail, LeafAt, OthersSame, LeafStep, IsTable, RefOf, LeafSet, PteOf, Make, Ppn, Flags, Bit, SharedFlags, Readable, NoRwx;
      ghost var r0 := Held();
      FineTask(r0, p);
      LeafIn(r0, p, v);
      MmuValid(mmu, r0);
      LeafFound(r0, p, v);
      UserLeaf(r0, p, v);
      WriteBit(e);
      SharedBits(e);
      f := SharedFlags(Flags(e));
      if Bit(Flags(e), WRITE) {
        mmu.SetLeaf(tasks[p].root, v * PGSIZE, Make(Ppn(e), f));
      }
      ghost var r1 := Held();
      SharedStep(r0, r1, p, v, Make(Ppn(e), f));
      AbsLeaf(r0, r1, p, v, Make(Ppn(e), f));
      LeafLeaves(r0, r1, p, v, Make(Ppn(e), f));
      NotZero(Make(Ppn(e), f));
      UserKept(r0, r1, Ppn(e));
    }

    /** uvmcopy maps frame ppn in the child too and counts it. */
    method Attach(c: nat, v: nat, ppn: nat, f: nat) returns (ok: bool, ghost added: set<nat>)
      requires Sound() && c in tasks && v < TRAPVPN && c in Now().procs && v !in Now().procs[c].pt && UserPage(Held(), ppn)
      requires f < 1024 && !NoRwx(f) && WithV(f) == f && Readable(Make(ppn, f))
      modifies mmu, mmu.kmem, mmu.kmem.refCount
      ensures Sound()
      ensures var (s2, done) := CowMemory.MapPage(old(Now()), c, v, PteOf(Make(ppn, f)), Choice(None, added, ok));
              done == ok && Now() == if ok then Incref(s2, ppn) else s2
      ensures ok <==> old(Spare()) >= old(Lack(c, v))
      ensures ok ==> old(Spare()) == Spare() + old(Lack(c, v))
    {
      hide Fine, Leaves, CowInvariant.Inv, Abs, Kmem.Quiet, Forest, Backed, Avail, LeafAt, OthersSame, MapStep, Counted, CowMemory.MapPage, IsTable, RefOf, TookPages, TreeGrown, Mapped, SelfSame, LeafSet, PteOf, Make, Readable, NoRwx, UserPage, Left, Missing;
      ghost var r1 := Held();
      FineTask(r1, c);
      LeafIn(r1, c, v);
      LeafFound(r1, c, v);
      MmuValid(mmu, r1);
      var o;
      o, added := mmu.MapPage(tasks[c].root, v * PGSIZE, ppn, f);
      ghost var r2 := Held();
      MappedStep(r1, r2, c, v, ppn, f, added, o);
      ok := o == PageTables.Done;
      AbsMap(r1, r2, c, v, Make(ppn, f), added, ok, None);
      MapLeaves(r1, r2, c, v, Make(ppn, f), added, ok);
      if ok {
        MapStepTree(r1, r2, c, v, Make(ppn, f), added, ok);
        StaysUser(r1, r2, c, ppn, added);
        UserRange(r2, ppn);
        AbsIncref(r2, ppn);
        mmu.kmem.Incref(ppn);
        RecountIs(r2, ppn, r2.ref[ppn] + 1, Held());
        CountedLeaves(r2, Held());
        SameSpare(r2, Held());
      }
    }

    /** One turn of uvmcopy's loop. */
    method Share(p: nat, c: nat, v: nat) returns (ok: bool, ghost ch: Choice)
      requires Valid() && p in tasks && c in tasks && p != c && v < TRAPVPN && c in Now().procs && v !in Now().procs[c].pt
      modifies mmu, mmu.kmem, mmu.kmem.refCount
      ensures Valid() && p in old(Now()).procs && (Now(), ok) == ShareOne(old(Now()), p, c, v, ch)
      ensures ok <==> v !in old(Now()).procs[p].pt || old(Spare()) >= old(Lack(c, v))
      ensures ok ==> old(Spare()) <= Spare() + 2
    {
      hide Fine, Leaves, CowInvariant.Inv, Abs, Kmem.Quiet, Forest, Backed, Avail, LeafAt, OthersSame, CowMemory.MapPage, PteOf, Make, Ppn, Readable, NoRwx, ShareOne, UserPage, SharedPte, Left, Missing;
      ghost var s0 := Now();
      LeafIn(Held(), p, v);
      LeafIn(Held(), c, v);
      LeafFound(Held(), p, v);
      var e := mmu.Lookup(tasks[p].root, v * PGSIZE);
      if e == 0 {
        ch := Choice(None, {}, false);
        ShareNone(s0, p, c, v, ch);
        return true, ch;
      }
      var f := Withdraw(p, v, e);
      ghost var s1 := Now();
      OtherProc(s0, p, c, s0.procs[p].pt[v := PteOf(Make(Ppn(e), f))]);
      ghost var added;
      ok, added := Attach(c, v, Ppn(e), f);
      ch := Choice(None, added, ok);
      PpnOf(Make(Ppn(e), f), Ppn(e), f);
      ShareSome(s0, p, c, v, ch, Make(Ppn(e), f), CowMemory.MapPage(s1, c, v, PteOf(Make(Ppn(e), f)), ch).0);
      CowRefinement.ShareOneEffect(s0, p, c, v, ch);
    }

    /** uvmcopy: the loop, with its undoing on failure. */
    method Copy(p: nat, c: nat) returns (ok: bool, ghost cs: Choices)
      requires Valid() && p in tasks && c in tasks && p != c && c in Now().procs && Now().procs[c].pt == map[]
      modifies mmu, mmu.kmem, mmu.kmem.refCount
      ensures Valid() && p in old(Now()).procs && (Now(), ok) == UvmCopy(old(Now()), p, c, 0, NPages(tasks[p].sz), cs)
      ensures !ok ==> old(Spare()) < 2 * NPages(tasks[p].sz)
    {
      hide CowInvariant.Inv, ShareOne, Abs, UvmUnmap, UvmCopy, CopyLeft, Fine, Leaves, Kmem.Quiet, Left, Missing;
      FineTask(Held(), p);
      HasProc(Held(), p);
      var v, end := 0, NPages(tasks[p].sz);
      PagesBound(tasks[p].sz);
      cs := [];
      CopyBegins(Now(), p, c, end);
      while v < end
        invariant v <= end <= TRAPVPN && Valid() && p in Now().procs && c in Now().procs
        invariant forall u: nat :: v <= u ==> u !in Now().procs[c].pt
        invariant CopySoFar(old(Now()), p, c, end, cs, Now(), v)
        invariant old(Spare()) <= Spare() + 2 * v
      {
        ghost var s := Now();
        var done, ch := Share(p, c, v);
        HasProc(Held(), p);
        HasProc(Held(), c);
        SharedKeys(s, p, c, v, ch);
        if !done {
          CopyFails(old(Now()), p, c, end, cs, s, v, ch);
          Unmap(c, 0, v);
          return false, cs + [ch];
        }
        CopyGoesOn(old(Now()), p, c, end, cs, s, v, ch);
        v, cs := v + 1, cs + [ch];
      }
      CopyEnds(old(Now()), p, c, end, cs, Now(), v);
      return true, cs;
    }

    /** vmfault on a shared page: a private copy of page a, mapped in its place. */
    method CopyPage(p: nat, v: nat, a: nat) returns (mem: Option<nat>, ghost c: Choice)
      requires Valid() && p in tasks && v < TRAPVPN && Leaf(mmu.tables, tasks[p].root, v) != 0 && Ppn(Leaf(mmu.tables, tasks[p].root, v)) == a
      requires Count(Now(), a) > 1
      modifies this`pages, mmu, mmu.kmem, mmu.kmem.refCount
      ensures Sound() && p in old(Now()).procs && (Now(), mem) == CopiedPage(old(Now()), p, v, a, c)
      ensures mem.None? <==> old(Spare()) == 0
      ensures mem.None? ==> Spare() == 0
    {
      hide Fine, Leaves, CowInvariant.Inv, Abs, Kmem.Quiet, Forest, Backed, Avail, LeafAt, OthersSame, Take, Kalloc, Fill, IsTable, RefOf, Ppn, CopiedPage, Count, UserPage, Left;
      ghost var r0 := Held();
      UserLeaf(r0, p, v);
      LeafIn(r0, p, v);
      var b := mmu.kmem.Kalloc();
      NoneLeft(r0.ref, r0.end);
      if b == 0 {
        c := Choice(None, {}, false);
        CopiedNone(Abs(r0), p, v, a, c);
        return None, c;
      }
      var page := if a in pages then pages[a] else Fill(0);
      BytesAre(r0, a);
      AbsTake(r0, b, page);
      TakeLeaves(r0, b, page);
      TakeApart(r0, a, b, page);
      TakenProcs(r0, b);
      pages := pages[b := page];
      assert Held() == Take(r0, b, page) by { TakeStores(r0, b, page); }
      ghost var s1 := Now();
      Replace(p, v, a, b);
      mem, c := Some(b), Choice(Some(b), {}, false);
      CopiedSome(Abs(r0), p, v, a, c, page, SetPt(s1, p, s1.procs[p].pt[v := Pte(b, true, false, true)]));
    }

    /** vmfault puts the new page b in the place of page a, and decref of a. */
    method Replace(p: nat, v: nat, a: nat, b: nat)
      requires Sound() && p in tasks && v < TRAPVPN && Leaf(mmu.tables, tasks[p].root, v) != 0
      requires UserPage(Held(), a) && RefOf(Held(), a) > 1
      modifies mmu, mmu.kmem, mmu.kmem.refCount
      ensures Sound() && p in old(Now()).procs
      ensures Now() == Decref(SetPt(old(Now()), p, old(Now()).procs[p].pt[v := Pte(b, true, false, true)]), a)
    {
      hide Fine, Leaves, CowInvariant.Inv, Abs, Kmem.Quiet, Forest, Backed, Avail, LeafAt, OthersSame, LeafStep, Counted, IsTable, RefOf, LeafSet, PteOf, Make, Readable, NoRwx, Count, UserPage, Decref;
      ghost var r1 := Held();
      FineTask(r1, p);
      MmuValid(mmu, r1);
      FreshBits(b);
      mmu.SetLeaf(tasks[p].root, v * PGSIZE, Make(b, 23));
      ghost var r2 := Held();
      SharedStep(r1, r2, p, v, Make(b, 23));
      AbsLeaf(r1, r2, p, v, Make(b, 23));
      LeafLeaves(r1, r2, p, v, Make(b, 23));
      NotZero(Make(b, 23));
      UserKept(r1, r2, a);
      UserRange(r2, a);
      AbsDecref(r2, a);
      mmu.kmem.Decref(a);
      RecountIs(r2, a, r2.ref[a] - 1, Held());
      CountedLeaves(r2, Held());
    }

    /** vmfault. */
    method Fault(p: nat, va: nat) returns (mem: Option<nat>, ghost c: Choice)
      requires Valid() && p in tasks
      modifies this`pages, mmu, mmu.kmem, mmu.kmem.refCount
      ensures Valid() && p in old(Now()).procs && (Now(), mem) == VmFault(old(Now()), p, va, c)
      ensures mem.None? <==> Refused(old(Now()), p, va) || Starved(old(Now()), p, va, old(Spare()), old(Lack(p, va / PGSIZE)))
      ensures mem.None? ==> (Refused(old(Now()), p, va) && Now() == old(Now())) || Spare() <= 1
    {
      hide Fine, Leaves, CowInvariant.Inv, Abs, Kmem.Quiet, Forest, Backed, Avail, LeafAt, OthersSame, LeafStep, LeafSet, PteOf, Make, Ppn, Flags, OwnFlags, Readable, NoRwx, CopiedPage, Count, VmFault, CowMemory.MapNew, UserPage, Left, Missing;
      ghost var r0, s0 := Held(), Now();
      FineTask(r0, p);
      ProcIs(r0, p);
      c := Choice(None, {}, false);
      if va >= tasks[p].sz {
        FaultNone(s0, p, va, c);
        return None, c;
      }
      var v := va / PGSIZE;
      LeafIn(r0, p, v);
      var e := mmu.Lookup(tasks[p].root, v * PGSIZE);
      if e == 0 {
        mem, c := MapNew(p, v, true);
        FaultNew(s0, p, va, c);
        return;
      }
      LeafFound(r0, p, v);
      PteBits(e);
      if !Bit(Flags(e), COW) || Bit(Flags(e), WRITE) {
        FaultNone(s0, p, va, c);
        return None, c;
      }
      UserLeaf(r0, p, v);
      UserRange(r0, Ppn(e));
      if mmu.kmem.refCount[Ppn(e)] > 1 {
        mem, c := CopyPage(p, v, Ppn(e));
        FaultCopy(s0, p, va, c);
      } else {
        MmuValid(mmu, r0);
        OwnBits(e);
        mmu.SetLeaf(tasks[p].root, v * PGSIZE, Make(Ppn(e), OwnFlags(Flags(e))));
        ghost var r1 := Held();
        SharedStep(r0, r1, p, v, Make(Ppn(e), OwnFlags(Flags(e))));
        AbsLeaf(r0, r1, p, v, Make(Ppn(e), OwnFlags(Flags(e))));
        LeafLeaves(r0, r1, p, v, Make(Ppn(e), OwnFlags(Flags(e))));
        NotZero(Make(Ppn(e), OwnFlags(Flags(e))));
        FaultOwn(s0, p, va, c);
        mem := Some(Ppn(e));
      }
      FaultInv(s0, p, va, c);
    }

    /** walkaddr, or else vmfault: the page to copy to or from. */
    method Locate(p: nat, v: nat) returns (pa: Option<nat>, ghost c: Choice)
      requires Valid() && p in tasks
      modifies this`pages, mmu, mmu.kmem, mmu.kmem.refCount
      ensures Valid() && p in old(Now()).procs && (Now(), pa) == Resolve(old(Now()), p, v, c)
      ensures pa.Some? ==> v < TRAPVPN && Leaf(mmu.tables, tasks[p].root, v) != 0 && Ppn(Leaf(mmu.tables, tasks[p].root, v)) == pa.value
      ensures pa.None? ==> Barred(Now(), p, v) || Spare() <= 1
    {
      hide Fine, Leaves, CowInvariant.Inv, Abs, Kmem.Quiet, Forest, Backed, Avail, LeafAt, OthersSame, PteOf, Ppn, Flags, Bit, VmFault, Resolve, Left, Refused;
      ghost var s0 := Now();
      ProcIs(Held(), p);
      if v < MAXVPN {
        var e := mmu.Lookup(tasks[p].root, v * PGSIZE);
        PteBits(e);
        LeafUser(Held(), p, v);
        if e != 0 && Bit(Flags(e), USER) {
          c := Choice(None, {}, false);
          ResolveMapped(s0, p, v, c);
          return Some(Ppn(e)), c;
        }
      }
      ResolveFaults(Held(), p, v);
      pa, c := Fault(p, v * PGSIZE);
      ResolvedBy(s0, p, v, c);
      if pa.Some? { FaultedLeaf(s0, p, v, c, Held()); }
    }

    /** copyout: the loop. */
    method Put(p: nat, dstva: nat, src: seq<Byte>) returns (copied: nat, ok: bool, ghost cs: Choices)
      requires Valid() && p in tasks
      modifies this`pages, mmu, mmu.kmem, mmu.kmem.refCount
      ensures Valid() && p in old(Now()).procs && (Now(), copied, ok) == CopyOut(old(Now()), p, dstva, src, cs)
      ensures copied <= |src| && (ok <==> copied == |src|)
      ensures !ok ==> NoWay(Now(), p, (dstva + copied) / PGSIZE) || Spare() <= 1
    {
      hide Fine, Leaves, CowInvariant.Inv, Abs, Kmem.Quiet, Forest, Backed, Avail, LeafAt, OthersSame, CopyOut, Resolve, Splice, PutLeft, Ppn, PteOf, Flags, Bit, UserPage, Chunk, Left, Barred;
      ghost var s0 := Now();
      HasProc(Held(), p);
      var dst: nat := dstva;
      copied, cs := 0, [];
      PutBegins(s0, p, dstva, src);
      while copied < |src|
        invariant copied <= |src| && Valid()
        invariant PutSoFar(s0, p, dstva, src, cs, Now(), dst, copied)
        invariant copied < |src| ==> dst == dstva + copied
      {
        ghost var s := Now();
        HasProc(Held(), p);
        var v := dst / PGSIZE;
        if v >= MAXVPN {
          PutBeyond(s0, p, dstva, src, cs, s, dst, copied);
          return copied, false, cs;
        }
        var pa, c := Locate(p, v);
        if pa.None? {
          PutFails(s0, p, dstva, src, cs, s, dst, copied, c);
          return copied, false, cs + [c];
        }
        var e := mmu.Lookup(tasks[p].root, v * PGSIZE);
        LeafIn(Held(), p, v);
        PteBits(e);
        if !Bit(Flags(e), WRITE) {
          PutFails(s0, p, dstva, src, cs, s, dst, copied, c);
          return copied, false, cs + [c];
        }
        var n := Chunk(dst, |src| - copied);
        ChunkFits(dst, |src| - copied);
        CowProgress.NextPage(dst, |src| - copied);
        Fill1(p, v, pa.value, dst % PGSIZE, src[copied..copied + n]);
        PutGoesOn(s0, p, dstva, src, cs, s, dst, copied, c, Now());
        copied, dst, cs := copied + n, (v + 1) * PGSIZE, cs + [c];
      }
      PutEnds(s0, p, dstva, src, cs, Now(), dst, copied);
      return copied, true, cs;
    }

    /** memmove into the page of a user leaf. */
    method Fill1(p: nat, v: nat, a: nat, off: nat, bytes: seq<Byte>)
      requires Valid() && p in tasks && v < TRAPVPN && Leaf(mmu.tables, tasks[p].root, v) != 0 && Ppn(Leaf(mmu.tables, tasks[p].root, v)) == a
      requires off + |bytes| <= PGSIZE
      modifies this`pages
      ensures Valid() && Now() == SetBytes(old(Now()), a, Splice(Bytes(old(Now()), a), off, bytes))
    {
      hide Fine, Leaves, CowInvariant.Inv, Abs, Kmem.Quiet, Forest, Backed, Avail, LeafAt, OthersSame, Splice, Fill, UserPage, Ppn;
      ghost var r0 := Held();
      UserLeaf(r0, p, v);
      BytesAre(r0, a);
      var page := if a in pages then pages[a] else Fill(0);
      AbsStore(r0, a, Splice(page, off, bytes));
      CowInvariant.SetBytesInv(Abs(r0), a, Splice(page, off, bytes));
      pages := pages[a := Splice(page, off, bytes)];
      CountedLeaves(r0, Held());
    }

    /** copyin: the loop. */
    method Get(p: nat, srcva: nat, len: nat) returns (bytes: seq<Byte>, ok: bool, ghost cs: Choices)
      requires Valid() && p in tasks
      modifies this`pages, mmu, mmu.kmem, mmu.kmem.refCount
      ensures Valid() && p in old(Now()).procs && (Now(), bytes, ok) == CopyIn(old(Now()), p, srcva, len, cs)
      ensures |bytes| <= len && (ok <==> |bytes| == len)
      ensures !ok ==> Barred(Now(), p, (srcva + |bytes|) / PGSIZE) || Spare() <= 1
    {
      hide Fine, Leaves, CowInvariant.Inv, Abs, Kmem.Quiet, Forest, Backed, Avail, LeafAt, OthersSame, CopyIn, Resolve, GetLeft, Ppn, UserPage, Fill, Chunk, Left, Barred;
      ghost var s0 := Now();
      HasProc(Held(), p);
      var src: nat, left: nat := srcva, len;
      bytes, cs := [], [];
      GetBegins(s0, p, srcva, len);
      while left > 0
        invariant Valid()
        invariant GetSoFar(s0, p, srcva, len, cs, Now(), src, left, bytes)
        invariant |bytes| + left == len && (left > 0 ==> src == srcva + |bytes|)
      {
        ghost var s := Now();
        HasProc(Held(), p);
        var v := src / PGSIZE;
        var pa, c := Locate(p, v);
        if pa.None? {
          GetFails(s0, p, srcva, len, cs, s, src, left, bytes, c);
          return bytes, false, cs + [c];
        }
        UserLeaf(Held(), p, v);
        BytesAre(Held(), pa.value);
        var n, off := Chunk(src, left), src % PGSIZE;
        ChunkFits(src, left);
        CowProgress.NextPage(src, left);
        var page := if pa.value in pages then pages[pa.value] else Fill(0);
        GetGoesOn(s0, p, srcva, len, cs, s, src, left, bytes, c, pa.value);
        bytes := bytes + page[off..off + n];
        src, left, cs := (v + 1) * PGSIZE, left - n, cs + [c];
      }
      GetEnds(s0, p, srcva, len, cs, Now(), src, left, bytes);
      return bytes, true, cs;
    }

    /** A store instruction: the hardware lets it through to a writable user page. */
    method StoreByte(p: nat, va: nat, b: Byte) returns (ok: bool)
      requires Valid() && p in tasks
      modifies this`pages
      ensures Valid() && p in old(Now()).procs && (Now(), ok) == Store(old(Now()), p, va, b)
    {
      hide Fine, Leaves, CowInvariant.Inv, Abs, Kmem.Quiet, Forest, Backed, Avail, LeafAt, OthersSame, Ppn, PteOf, Flags, Bit, UserPage, Splice;
      ProcIs(Held(), p);
      var v := va / PGSIZE;
      if v >= TRAPVPN {
        NotUser(Held(), p, v);
        return false;
      }
      LeafIn(Held(), p, v);
      var e := mmu.Lookup(tasks[p].root, v * PGSIZE);
      PteBits(e);
      if e == 0 || !Bit(Flags(e), USER) || !Bit(Flags(e), WRITE) {
        return false;
      }
      OneByte(Bytes(Now(), Ppn(e)), va % PGSIZE, b);
      Fill1(p, v, Ppn(e), va % PGSIZE, [b]);
      return true;
    }

    /** allocproc: a trapframe page and a page table, or nothing. */
    method Spawn(c: nat) returns (ok: bool, ghost t: set<nat>)
      requires Valid() && c !in tasks
      modifies this`tasks, mmu, mmu.kmem, mmu.kmem.refCount
      ensures Valid() && if ok then c in tasks && tasks == old(tasks)[c := tasks[c]] && Now() == NewProc(old(Now()), c, t)
                         else tasks == old(tasks) && Now() == old(Now())
      ensures if ok then old(Spare()) <= Spare() + 6 else old(Spare()) < 6
    {
      hide Fine, Leaves, CowInvariant.Inv, Abs, Kmem.Quiet, Forest, Backed, Avail, LeafAt, OthersSame, SpawnStep, TablesOf, TookPages, TwoLeaves, NewProc, Left;
      ghost var r0 := Held();
      t := {};
      var trapframe := mmu.kmem.Kalloc();
      NoneLeft(r0.ref, r0.end);
      if trapframe == 0 {
        return false, t;
      }
      OneTaken(r0.ref, r0.end, trapframe);
      TrapframeTaken(r0, trapframe);
      ghost var r1 := Held();
      assert mmu.Valid();
      var root := mmu.NewPagetable(trampoline, trapframe);
      ghost var r2 := Held();
      if root == 0 {
        TrapframeBack(r0, r1, r2, trapframe);
        var freed := mmu.kmem.Kfree(trapframe);
        ghost var r3 := Held();
        SpawnUndone(r0, r1, r3, trapframe);
        return false, t;
      }
      var task := Task(root, trapframe, 0);
      tasks := tasks[c := task];
      SpawnDone(r0, r1, Held(), c, task, trampoline);
      AbsSpawn(r0, Held(), c, task);
      t := TablesOf(mmu.trees, task);
      HasProc(r0, c);
      CowInvariant.NewProcInv(Abs(r0), c, t);
      return true, t;
    }

    /**
     freeproc: user pages, page table and trapframe go back. (The source frees
     the trapframe first; nothing in between looks at it.)
     */
    method Exit(p: nat)
      requires Valid() && p in tasks && p in Now().procs && CowInvariant.Below(Now().procs[p])
      modifies this`tasks, mmu, mmu.kmem, mmu.kmem.refCount
      ensures Valid() && tasks == old(tasks) - {p} && Now() == FreeProc(old(Now()), p)
    {
      hide Fine, Leaves, CowInvariant.Inv, Abs, Kmem.Quiet, Forest, Backed, Avail, LeafAt, OthersSame, FreeTables, UvmUnmap, FreeProc, CowInvariant.Below;
      ghost var s0 := Now();
      FineTask(Held(), p);
      ProcIs(Held(), p);
      PagesBound(tasks[p].sz);
      CowRefinement.FreeProcEffect(s0, p);
      EmptyPt(s0, p);
      Unmap(p, 0, NPages(tasks[p].sz));
      FreeProcIs(s0, p, Now());
      Reap(p);
    }

    /** freeproc, once the user pages are unmapped. */
    method Reap(p: nat)
      requires Valid() && p in tasks && p in Now().procs && Now().procs[p].pt == map[]
      modifies this`tasks, mmu, mmu.kmem, mmu.kmem.refCount
      ensures Sound() && tasks == old(tasks) - {p}
      ensures var s1 := FreeTables(old(Now()), p); Now() == s1.(procs := s1.procs - {p})
    {
      hide Fine, Leaves, CowInvariant.Inv, Abs, Kmem.Quiet, Forest, Backed, Avail, LeafAt, OthersSame, Unmapped, GaveBack, ReapStep, TablesOf, FreeTables, PtOf;
      ghost var r1 := Held();
      FineTask(r1, p);
      ProcIs(r1, p);
      MmuValid(mmu, r1);
      var k := tasks[p];
      mmu.Unmap(k.root, TRAMPOLINE, 1);
      ghost var t2 := mmu.tables;
      mmu.Unmap(k.root, TRAPFRAME, 1);
      ghost var t3 := mmu.tables;
      SameTrans(r1.tables, t2, t3, r1.trees, r1.trees, k.root);
      NoLeafLeft(r1, t2, t3, p);
      var o := mmu.FreeTree(k.root);
      SameTrans(r1.tables, t3, mmu.tables, r1.trees, r1.trees, k.root);
      ghost var r4 := Held();
      TrapframeKept(r1, r4, p);
      var freed := mmu.kmem.Kfree(k.trapframe);
      tasks := tasks - {p};
      Reaped(r1, r4, Held(), p);
      AbsReap(r1, Held(), p);
      ReapLeaves(r1, Held(), p);
    }

    /** kfork, as far as memory is concerned. */
    method Fork(p: nat, c: nat) returns (ok: bool, ghost t: set<nat>, ghost made: bool, ghost cs: Choices)
      requires Valid() && p in tasks && c !in tasks && CowInvariant.Bounded(Now())
      modifies this`tasks, mmu, mmu.kmem, mmu.kmem.refCount
      ensures Valid() && p in old(Now()).procs && c !in old(Now()).procs && (Now(), ok) == CowMemory.Fork(old(Now()), p, c, t, made, cs)
      ensures tasks.Keys == if ok then old(tasks.Keys) + {c} else old(tasks.Keys)
      ensures !ok ==> old(Spare()) < 6 + 2 * NPages(old(tasks[p].sz))
    {
      hide Left, Missing, Fine, Leaves, CowInvariant.Inv, Abs, Kmem.Quiet, Forest, Backed, Avail, LeafAt, OthersSame, NewProc, UvmCopy, FreeProc, CowMemory.Fork, CowInvariant.Bounded, CowInvariant.Below;
      ghost var s0 := Now();
      HasProc(Held(), p);
      HasProc(Held(), c);
      ProcIs(Held(), p);
      cs := [];
      var spawned;
      spawned, t := Spawn(c);
      made := spawned;
      if !spawned {
        NoFork(s0, p, c);
        return false, {}, false, [];
      }
      ghost var s1 := Now();
      HasProc(Held(), c);
      NewProcIs(s0, p, c, t);
      ok, cs := Copy(p, c);
      ForkCopied(s0, p, c, t, cs);
      HasProc(Held(), c);
      if !ok {
        Exit(c);
        return;
      }
      FineTask(Held(), p);
      SetSize(c, tasks[p].sz);
    }

    /** p->sz. */
    method SetSize(p: nat, sz: nat)
      requires Valid() && p in tasks && sz <= TRAPVPN * PGSIZE
      modifies this`tasks
      ensures Valid() && tasks.Keys == old(tasks.Keys) && p in old(Now()).procs && Now() == SetSz(old(Now()), p, sz)
    {
      hide Fine, Leaves, CowInvariant.Inv, Abs, Kmem.Quiet, Forest, Backed, Avail, LeafAt, OthersSame;
      ghost var r0 := Held();
      ProcIs(r0, p);
      AbsSize(r0, p, sz);
      SetSzKeeps(Abs(r0), p, sz);
      tasks := tasks[p := tasks[p].(sz := sz)];
      CountedLeavesAt(r0, Held());
    }

    /** growproc with a positive n. */
    method Grow(p: nat, n: nat, w: bool) returns (ok: bool, ghost cs: Choices)
      requires Valid() && p in tasks && CowInvariant.Bounded(Now())
      modifies this`pages, this`tasks, mmu, mmu.kmem, mmu.kmem.refCount
      ensures Valid() && tasks.Keys == old(tasks.Keys) && p in old(Now()).procs && (Now(), ok) == CowMemory.Grow(old(Now()), p, n, w, cs)
      ensures !ok ==> var sz := old(tasks[p].sz); sz + n > TRAPVPN * PGSIZE || old(Spare()) < 3 * (NPages(sz + n) - NPages(sz))
    {
      hide Sound, CowInvariant.Inv, Abs, UvmAlloc, UvmUnmap, Left;
      ProcIs(Held(), p);
      var sz := tasks[p].sz;
      if sz + n > TRAPVPN * PGSIZE {
        return false, [];
      }
      assert CowInvariant.Below(Now().procs[p]);
      PagesBound(sz + n);
      ok, cs := Alloc(p, NPages(sz), NPages(sz + n), w);
      if ok { SetSize(p, sz + n); }
    }

    /** sbrk without allocation: the pages come with the faults. */
    method GrowLazy(p: nat, n: nat) returns (ok: bool)
      requires Valid() && p in tasks
      modifies this`tasks
      ensures Valid() && tasks.Keys == old(tasks.Keys) && p in old(Now()).procs
      ensures ok <==> old(Now()).procs[p].sz + n <= TRAPVPN * PGSIZE
      ensures Now() == if ok then SetSz(old(Now()), p, old(Now()).procs[p].sz + n) else old(Now())
    {
      hide Sound, CowInvariant.Inv, Abs;
      ProcIs(Held(), p);
      ok := tasks[p].sz + n <= TRAPVPN * PGSIZE;
      if ok { SetSize(p, tasks[p].sz + n); }
    }

    /** growproc with a negative n. */
    method Shrink(p: nat, n: nat)
      requires Valid() && p in tasks
      modifies this`tasks, mmu, mmu.kmem, mmu.kmem.refCount
      ensures Valid() && tasks.Keys == old(tasks.Keys) && p in old(Now()).procs && Now() == CowMemory.Shrink(old(Now()), p, n)
    {
      hide CowInvariant.Inv, Abs, UvmUnmap, Fine, Leaves, Kmem.Quiet;
      ProcIs(Held(), p);
      FineTask(Held(), p);
      var sz := tasks[p].sz;
      if n > sz {
        return;
      }
      PagesBound(sz);
      FewerPages(sz - n, sz);
      if NPages(sz - n) < NPages(sz) {
        Unmap(p, NPages(sz - n), NPages(sz) - NPages(sz - n));
      }
      SetSize(p, sz - n);
    }

    /** One call, and the operation of the model that it amounts to. */
    method Do(call: Call) returns (r: CowMemory.Result, ghost op: Op)
      requires Valid() && CowRuns.Valid(Now())
      modifies this`pages, this`tasks, mmu, mmu.kmem, mmu.kmem.refCount
      ensures Valid() && CowRuns.Valid(Now()) && (Now(), r) == Exec(old(Now()), op) && Asks(call, op)
      ensures Excused(old(Now()), call, r, Now())
    {
      hide Sound, Abs, Exec, Asks, CowRuns.Valid, Excused;
      ghost var s0 := Now();
      HasProc(Held(), call.pid);
      if call.SpawnCall? {
        r, op := DoSpawn(call.pid);
      } else if call.pid !in tasks {
        r, op := Failed, AnyOp(call);
        NoSuchProcess(s0, call);
      } else if call.ForkCall? {
        r, op := DoFork(call.pid, call.child);
      } else if call.FaultCall? || call.StoreCall? || call.CopyOutCall? || call.CopyInCall? {
        r, op := DoAccess(call);
      } else if call.GrowCall? || call.GrowLazyCall? {
        r, op := DoGrow(call);
      } else {
        r, op := DoShrink(call);
      }
      CowRuns.ExecRefines(s0, op);
    }

    method DoAccess(call: Call) returns (r: CowMemory.Result, ghost op: Op)
      requires Valid() && call.pid in tasks && (call.FaultCall? || call.StoreCall? || call.CopyOutCall? || call.CopyInCall?)
      modifies this`pages, mmu, mmu.kmem, mmu.kmem.refCount
      ensures Valid() && (Now(), r) == Exec(old(Now()), op) && Asks(call, op) && Excused(old(Now()), call, r, Now())
    {
      hide Sound, CowInvariant.Inv, Abs, VmFault, CopyOut, CopyIn, Left, Barred, NoWay, Refused;
      SpareIs(Held());
      if call.FaultCall? {
        var mem, c := Fault(call.pid, call.va);
        r, op := if mem.Some? then CowMemory.Done else Failed, FaultOp(call.pid, call.va, c);
      } else if call.StoreCall? {
        var ok := StoreByte(call.pid, call.va, call.b);
        r, op := if ok then CowMemory.Done else Failed, StoreOp(call.pid, call.va, call.b);
      } else if call.CopyOutCall? {
        var n, ok, cs := Put(call.pid, call.dst, call.src);
        r, op := Wrote(n), CopyOutOp(call.pid, call.dst, call.src, cs);
      } else {
        var bytes, ok, cs := Get(call.pid, call.srcva, call.len);
        r, op := CowMemory.Read(bytes), CopyInOp(call.pid, call.srcva, call.len, cs);
      }
      SpareIs(Held());
    }

    method DoGrow(call: Call) returns (r: CowMemory.Result, ghost op: Op)
      requires Valid() && CowRuns.Valid(Now()) && call.pid in tasks && (call.GrowCall? || call.GrowLazyCall?)
      modifies this`pages, this`tasks, mmu, mmu.kmem, mmu.kmem.refCount
      ensures Valid() && (Now(), r) == Exec(old(Now()), op) && Asks(call, op) && Excused(old(Now()), call, r, Now())
    {
      hide Sound, CowInvariant.Inv, Abs, CowMemory.Grow, CowInvariant.Bounded, Left, NPages;
      SpareIs(Held());
      ProcIs(Held(), call.pid);
      var ok;
      if call.GrowCall? {
        ghost var cs;
        ok, cs := Grow(call.pid, call.n, call.w);
        op := GrowOp(call.pid, call.n, call.w, cs);
      } else {
        ok := GrowLazy(call.pid, call.n);
        op := GrowLazyOp(call.pid, call.n);
      }
      r := if ok then CowMemory.Done else Failed;
    }

    method DoShrink(call: Call) returns (r: CowMemory.Result, ghost op: Op)
      requires Valid() && CowRuns.Valid(Now()) && call.pid in tasks && (call.ShrinkCall? || call.ExitCall?)
      modifies this`tasks, mmu, mmu.kmem, mmu.kmem.refCount
      ensures Valid() && (Now(), r) == Exec(old(Now()), op) && Asks(call, op) && Excused(old(Now()), call, r, Now())
    {
      hide Sound, CowInvariant.Inv, Abs, CowMemory.Shrink, FreeProc, CowInvariant.Bounded, CowInvariant.Below;
      HasProc(Held(), call.pid);
      r := CowMemory.Done;
      if call.ShrinkCall? {
        Shrink(call.pid, call.n);
        op := ShrinkOp(call.pid, call.n);
      } else {
        AllBelow(Now(), call.pid);
        Exit(call.pid);
        op := ExitOp(call.pid);
      }
    }

    method DoSpawn(p: nat) returns (r: CowMemory.Result, ghost op: Op)
      requires Valid()
      modifies this`tasks, mmu, mmu.kmem, mmu.kmem.refCount
      ensures Valid() && (Now(), r) == Exec(old(Now()), op) && Asks(SpawnCall(p), op) && Excused(old(Now()), SpawnCall(p), r, Now())
    {
      hide Sound, CowInvariant.Inv, Abs, FreeProc, NewProc, Left;
      SpareIs(Held());
      ghost var s0 := Now();
      HasProc(Held(), p);
      if p in tasks {
        return Failed, SpawnOp(p, {}, true);
      }
      var ok, t := Spawn(p);
      if !ok {
        SpawnNothing(s0, p);
        return Failed, SpawnOp(p, {}, false);
      }
      return CowMemory.Done, SpawnOp(p, t, true);
    }

    method DoFork(p: nat, c: nat) returns (r: CowMemory.Result, ghost op: Op)
      requires Valid() && CowRuns.Valid(Now()) && p in tasks
      modifies this`tasks, mmu, mmu.kmem, mmu.kmem.refCount
      ensures Valid() && (Now(), r) == Exec(old(Now()), op) && Asks(ForkCall(p, c), op) && Excused(old(Now()), ForkCall(p, c), r, Now())
    {
      hide Sound, CowInvariant.Inv, Abs, CowMemory.Fork, CowInvariant.Bounded, Left;
      SpareIs(Held());
      ProcIs(Held(), p);
      HasProc(Held(), c);
      if c in tasks {
        return Failed, ForkOp(p, c, {}, true, []);
      }
      var ok, t, made, cs := Fork(p, c);
      return if ok then CowMemory.Done else Failed, ForkOp(p, c, t, made, cs);
    }

    /**
     Any sequence of calls on page tables, free list and counts gives the
     results, and leaves the private memories, of a kernel in which fork copies
     all memory at once; and no call fails without a reason.
     */
    method RunAll(calls: seq<Call>) returns (rs: seq<CowMemory.Result>, ghost ops: seq<Op>)
      requires Valid() && CowRuns.Valid(Now())
      modifies this`pages, this`tasks, mmu, mmu.kmem, mmu.kmem.refCount
      ensures Valid() && CowRuns.Valid(Now()) && |rs| == |calls| == |ops| && (forall i :: 0 <= i < |calls| ==> Asks(calls[i], ops[i]))
      ensures CowRuns.EagerRun(CowRefinement.ViewOf(old(Now())), ops, rs, CowRefinement.ViewOf(Now()))
      ensures forall i: nat :: i < |calls| ==> ExcusedAt(old(Now()), ops, calls, rs, i)
    {
      hide Sound, Abs, Exec, CowRuns.Valid, CowRuns.EagerRun, CowRefinement.ViewOf, Asks, ExcusedAt;
      rs, ops := [], [];
      ghost var s0 := Now();
      assert CowRuns.Run(s0, []) == (s0, []);
      var i := 0;
      while i < |calls|
        invariant i <= |calls| && |rs| == |ops| == i && Valid() && CowRuns.Valid(Now())
        invariant forall k :: 0 <= k < i ==> Asks(calls[k], ops[k])
        invariant CowRuns.Run(s0, ops) == (Now(), rs)
        invariant forall k: nat :: k < i ==> ExcusedAt(s0, ops, calls, rs, k)
      {
        ghost var s1 := Now();
        var r, op := Do(calls[i]);
        RunOneMore(s0, ops, op, s1, rs);
        ghost var more, all := ops + [op], rs + [r];
        forall k: nat | k <= i ensures ExcusedAt(s0, more, calls, all, k) {
          if k < i { StillExcused(s0, ops, op, calls, rs, r, k); } else { NowExcused(s0, ops, op, calls, rs, r, s1, Now()); }
        }
        rs, ops, i := rs + [r], ops + [op], i + 1;
      }
      CowRuns.RunRefines(s0, ops);
    }
  }

  // ---------------------------------------------------------------------
  // When an operation may fail

  /** vmfault has nothing to do for va: it is not below the size, or its page is there and is no copy-on-write page. */
  predicate Refused(s: State, p: nat, va: nat) {
    p in s.procs
    && (va >= s.procs[p].sz || (va / PGSIZE in s.procs[p].pt && !(s.procs[p].pt[va / PGSIZE].cow && !s.procs[p].pt[va / PGSIZE].w)))
  }

  /** There are too few pages for the fault: for the page and its tables, or for the copy. */
  predicate Starved(s: State, p: nat, va: nat, spare: nat, lack: nat) {
    p in s.procs
    && if va / PGSIZE in s.procs[p].pt then Count(s, s.procs[p].pt[va / PGSIZE].ppn) > 1 && spare == 0 else spare < 1 + lack
  }

  /** The process has no page v, and a fault does not give it one. */
  predicate Barred(s: State, p: nat, v: nat) {
    p in s.procs && !(v < MAXVPN && v in s.procs[p].pt && s.procs[p].pt[v].u) && Refused(s, p, v * PGSIZE)
  }

  /** copyout cannot store in page v. */
  predicate NoWay(s: State, p: nat, v: nat) {
    v >= MAXVPN || Barred(s, p, v) || (p in s.procs && v in s.procs[p].pt && !s.procs[p].pt[v].w)
  }

  /** A call that took s to t with result r has succeeded, or there is a reason why not: a bad argument, or few free pages. */
  predicate Excused(s: State, call: Call, r: CowMemory.Result, t: State) {
    if call.SpawnCall? then r != Failed || call.pid in s.procs || |s.free| < 6
    else if call.pid !in s.procs then r == Failed
    else
      var p, x := call.pid, s.procs[call.pid];
      match call
      case SpawnCall(_) => true
      case ForkCall(_, c) => r != Failed || c in s.procs || |s.free| < 6 + 2 * NPages(x.sz)
      case FaultCall(_, va) => r != Failed || Refused(s, p, va) || |s.free| < 3
      case StoreCall(_, va, _) => r != Failed || va / PGSIZE !in x.pt || !x.pt[va / PGSIZE].u || !x.pt[va / PGSIZE].w
      case CopyOutCall(_, dst, src) => r.Wrote? && r.n <= |src| && (r.n < |src| ==> NoWay(t, p, (dst + r.n) / PGSIZE) || |t.free| <= 1)
      case CopyInCall(_, src, len) => r.Read? && |r.bytes| <= len && (|r.bytes| < len ==> Barred(t, p, (src + |r.bytes|) / PGSIZE) || |t.free| <= 1)
      case GrowCall(_, n, _) => r != Failed || x.sz + n > TRAPVPN * PGSIZE || |s.free| < 3 * (NPages(x.sz + n) - NPages(x.sz))
      case GrowLazyCall(_, n) => r != Failed || x.sz + n > TRAPVPN * PGSIZE
      case ShrinkCall(_, _) => r != Failed
      case ExitCall(_) => r != Failed
  }

  /** Call i of a run is excused. */
  predicate ExcusedAt(s: State, ops: seq<Op>, calls: seq<Call>, rs: seq<CowMemory.Result>, i: nat)
    requires i < |ops| && i < |calls| && i < |rs|
  {
    Excused(CowRuns.Run(s, ops[..i]).0, calls[i], rs[i], CowRuns.Run(s, ops[..i + 1]).0)
  }

  lemma StillExcused(s: State, ops: seq<Op>, op: Op, calls: seq<Call>, rs: seq<CowMemory.Result>, r: CowMemory.Result, i: nat)
    requires i < |ops| && i < |calls| && i < |rs| && ExcusedAt(s, ops, calls, rs, i)
    ensures ExcusedAt(s, ops + [op], calls, rs + [r], i)
  {
    hide Excused;
    assert (ops + [op])[..i] == ops[..i] && (ops + [op])[..i + 1] == ops[..i + 1];
  }

  lemma NowExcused(s: State, ops: seq<Op>, op: Op, calls: seq<Call>, rs: seq<CowMemory.Result>, r: CowMemory.Result, s1: State, s2: State)
    requires |ops| == |rs| < |calls| && CowRuns.Run(s, ops).0 == s1 && CowRuns.Run(s, ops + [op]).0 == s2 && Excused(s1, calls[|ops|], r, s2)
    ensures ExcusedAt(s, ops + [op], calls, rs + [r], |ops|)
  {
    hide Excused;
    assert (ops + [op])[..|ops|] == ops && (ops + [op])[..|ops| + 1] == ops + [op];
  }

  lemma SpareIs(r: Raw)
    ensures Left(r.ref, r.end) == |Abs(r).free|
  {
  }

  lemma SameSpare(r: Raw, r1: Raw)
    requires Abs(r1).free == Abs(r).free
    ensures Left(r1.ref, r1.end) == Left(r.ref, r.end)
  {
    hide Abs, Left;
    SpareIs(r);
    SpareIs(r1);
  }

  lemma GivenBack(r: Raw, r1: Raw, a: nat)
    requires Abs(r1) == Kfree(Abs(r), a)
    ensures Left(r.ref, r.end) <= Left(r1.ref, r1.end) <= Left(r.ref, r.end) + 1
  {
    hide Abs, Left;
    SpareIs(r);
    SpareIs(r1);
    var f := Abs(r).free;
    assert |f + {a}| <= |f| + 1 && (a in f ==> f + {a} == f);
  }

  /** A call, without what the allocator answers. */
  datatype Call =
    | SpawnCall(pid: nat)
    | ForkCall(pid: nat, child: nat)
    | FaultCall(pid: nat, va: nat)
    | StoreCall(pid: nat, va: nat, b: Byte)
    | CopyOutCall(pid: nat, dst: nat, src: seq<Byte>)
    | CopyInCall(pid: nat, srcva: nat, len: nat)
    | GrowCall(pid: nat, n: nat, w: bool)
    | GrowLazyCall(pid: nat, n: nat)
    | ShrinkCall(pid: nat, n: nat)
    | ExitCall(pid: nat)

  /** The operation is the one called for, with some answers of the allocator. */
  predicate Asks(call: Call, op: Op) {
    match call
    case SpawnCall(p) => op.SpawnOp? && op.pid == p
    case ForkCall(p, c) => op.ForkOp? && op.parent == p && op.child == c
    case FaultCall(p, va) => op.FaultOp? && op.pid == p && op.va == va
    case StoreCall(p, va, b) => op == StoreOp(p, va, b)
    case CopyOutCall(p, dst, src) => op.CopyOutOp? && op.pid == p && op.dst == dst && op.src == src
    case CopyInCall(p, srcva, len) => op.CopyInOp? && op.pid == p && op.srcva == srcva && op.len == len
    case GrowCall(p, n, w) => op.GrowOp? && op.pid == p && op.n == n && op.w == w
    case GrowLazyCall(p, n) => op == GrowLazyOp(p, n)
    case ShrinkCall(p, n) => op == ShrinkOp(p, n)
    case ExitCall(p) => op == ExitOp(p)
  }

  /** What a call amounts to whose process does not exist. */
  function AnyOp(call: Call): (op: Op)
    ensures Asks(call, op)
  {
    var none := Choice(None, {}, false);
    match call
    case SpawnCall(p) => SpawnOp(p, {}, true)
    case ForkCall(p, c) => ForkOp(p, c, {}, true, [])
    case FaultCall(p, va) => FaultOp(p, va, none)
    case StoreCall(p, va, b) => StoreOp(p, va, b)
    case CopyOutCall(p, dst, src) => CopyOutOp(p, dst, src, [])
    case CopyInCall(p, srcva, len) => CopyInOp(p, srcva, len, [])
    case GrowCall(p, n, w) => GrowOp(p, n, w, [])
    case GrowLazyCall(p, n) => GrowLazyOp(p, n)
    case ShrinkCall(p, n) => ShrinkOp(p, n)
    case ExitCall(p) => ExitOp(p)
  }

  lemma NoSuchProcess(s: State, call: Call)
    requires call.pid !in s.procs && !call.SpawnCall?
    ensures Exec(s, AnyOp(call)) == (s, Failed) && Excused(s, call, Failed, s)
  {
    hide CowMemory.Fork, VmFault, CopyOut, CopyIn, CowMemory.Grow, CowMemory.Shrink, FreeProc, NewProc, Store;
  }

  lemma {:induction false} RunOneMore(s: State, ops: seq<Op>, op: Op, s1: State, rs: seq<CowMemory.Result>)
    requires CowRuns.Run(s, ops) == (s1, rs)
    ensures CowRuns.Run(s, ops + [op]) == (Exec(s1, op).0, rs + [Exec(s1, op).1])
    decreases |ops|
  {
    hide Exec;
    if ops == [] {
      assert ops + [op] == [op] && [op][1..] == [] && rs == [];
      var next := Exec(s, op);
      assert CowRuns.Run(next.0, []) == (next.0, []);
      assert CowRuns.Run(s, [op]) == (next.0, [next.1] + []);
      assert [next.1] + [] == rs + [next.1];
    } else {
      var next := Exec(s, ops[0]);
      RunOneMore(next.0, ops[1..], op, s1, rs[1..]);
      assert (ops + [op])[1..] == ops[1..] + [op] && rs == [next.1] + rs[1..];
      assert [next.1] + (rs[1..] + [Exec(s1, op).1]) == rs + [Exec(s1, op).1];
    }
  }

  lemma FewerPages(a: nat, b: nat)
    requires a <= b
    ensures NPages(a) <= NPages(b)
  {
  }

  lemma AllBelow(s: State, p: nat)
    requires CowInvariant.Bounded(s) && p in s.procs
    ensures CowInvariant.Below(s.procs[p])
  {
  }

  lemma SpawnNothing(s: State, c: nat)
    requires c !in s.procs
    ensures FreeProc(NewProc(s, c, {}), c) == s
  {
    hide Fill;
    var s0 := s.(procs := s.procs[c := Proc(0, map[], {})]);
    NothingAdded(s0, c);
    assert UvmUnmap(s0, c, 0, 0) == s0;
    var s1 := FreeTables(s0, c);
    assert s1.ref == s.ref;
    assert s1.pages == s.pages;
    assert s1.free == s.free;
    assert s0.procs[c := s0.procs[c].(tables := {})] == s0.procs && s0.procs - {c} == s.procs;
  }

  // ---------------------------------------------------------------------
  // Processes

  /** The trapframe page is in use but belongs to no process yet. */
  lemma TrapframeTaken(r: Raw, a: nat)
    requires Fine(r) && a in Avail(r.ref, r.end)
    ensures a < |r.ref| && |r.ref| == PHYSPAGE && InMemory(a, r.end) && a !in r.tables && r.ref[a] == 0
    ensures Forest(r.tables, Avail(r.ref[a := 1], r.end), r.trees) && Backed(r.ref[a := 1], r.end, r.tables)
    ensures TookPages(r.ref, r.ref[a := 1], r.end, {a})
  {
    hide Tree;
    TookOne(r.ref, r.end, a);
    ForestFree(r.tables, Avail(r.ref, r.end), Avail(r.ref[a := 1], r.end), r.trees);
  }

  lemma TrapframeBack(r0: Raw, r1: Raw, r2: Raw, a: nat)
    requires |r0.ref| == PHYSPAGE && InMemory(a, r0.end) && r1.ref == r0.ref[a := 1] && r2.ref == r1.ref && r2.end == r0.end
    ensures r2.end <= a < PHYSPAGE && a < |r2.ref| && r2.ref[a] == 1
  {
  }

  lemma SpawnUndone(r0: Raw, r1: Raw, r3: Raw, a: nat)
    requires Fine(r0) && Leaves(r0) && a < |r0.ref| && r0.ref[a] == 0 && r1 == r0.(ref := r0.ref[a := 1])
    requires r3 == r0.(tables := r3.tables, ref := r3.ref) && r3.ref == r1.ref[a := 0] && r3.tables.Keys == r0.tables.Keys
    requires Forest(r3.tables, Avail(r1.ref, r1.end), r3.trees) && OthersSame(r0.tables, r3.tables, r0.trees, 0)
    ensures Fine(r3) && Leaves(r3) && Abs(r3) == Abs(r0)
  {
    hide Forest, Tree, OthersSame, Fine, Abs, PtOf, Leaves;
    assert r3.ref == r0.ref;
    FineForest(r0);
    FineZero(r0);
    ForestFree(r3.tables, Avail(r1.ref, r1.end), Avail(r3.ref, r3.end), r3.trees);
    forall p | p in r0.tasks ensures PtOf(r3.tables, r0.tasks[p].root) == PtOf(r0.tables, r0.tasks[p].root) {
      FineRoot(r0, p);
      PtOther(r0.tables, r3.tables, r0.trees, 0, r0.tasks[p].root);
    }
    forall p | p in r0.tasks ensures r0.tasks[p].root != 0 { FineRoot(r0, p); }
    AbsSame(r0, r3);
    OtherLeaves(r0, r3, 0);
  }

  lemma FineZero(r: Raw)
    requires Fine(r)
    ensures 0 !in Avail(r.ref, r.end)
  {
    hide Forest, Backed;
  }

  lemma FineRoot(r: Raw, p: nat)
    requires Fine(r) && p in r.tasks
    ensures r.tasks[p].root in r.trees && r.tasks[p].root != 0 && r.trees[r.tasks[p].root].Values <= r.tables.Keys
    ensures r.tasks[p].trapframe !in r.tables && InMemory(r.tasks[p].trapframe, r.end) && RefOf(r, r.tasks[p].trapframe) == 1
  {
    hide Backed, Tree;
    assert TaskOk(r, r.tasks[p]);
    TreePages(r.tables, r.tasks[p].root, r.trees[r.tasks[p].root]);
    TreePositive(r.tables, r.tasks[p].root, r.trees[r.tasks[p].root]);
  }

  /** Leaves of processes with other page tables. */
  lemma OtherLeaves(r: Raw, r1: Raw, root: nat)
    requires Fine(r) && Leaves(r) && OthersSame(r.tables, r1.tables, r.trees, root)
    requires forall p :: p in r1.tasks ==> p in r.tasks && r1.tasks[p].root == r.tasks[p].root && r.tasks[p].root != root
    ensures Leaves(r1)
  {
    hide LeafAt, Fine, LeafOk;
    forall q, u: nat | q in r1.tasks && u < MAXVPN ensures LeafOk(u, Leaf(r1.tables, r1.tasks[q].root, u)) {
      FineRoot(r, q);
      assert LeafOk(u, Leaf(r.tables, r.tasks[q].root, u));
    }
  }

  lemma SpawnDone(r0: Raw, r1: Raw, r2: Raw, c: nat, k: Task, trampoline: nat)
    requires Fine(r0) && Leaves(r0) && c !in r0.tasks && k.sz == 0 && k.trapframe in Avail(r0.ref, r0.end) && k.trapframe < |r0.ref|
    requires r1 == r0.(ref := r0.ref[k.trapframe := 1])
    requires r2 == r0.(tables := r2.tables, trees := r2.trees, ref := r2.ref, tasks := r0.tasks[c := k])
    requires Forest(r2.tables, Avail(r2.ref, r2.end), r2.trees) && Backed(r2.ref, r2.end, r2.tables)
    requires k.root != 0 && k.root !in r0.trees && k.root in r2.trees && r2.trees == r0.trees[k.root := r2.trees[k.root]]
    requires TookPages(r1.ref, r2.ref, r0.end, r2.trees[k.root].Values) && r2.tables.Keys == r0.tables.Keys + r2.trees[k.root].Values
    requires OthersSame(r0.tables, r2.tables, r0.trees, k.root) && TwoLeaves(r2.tables, k.root, trampoline, k.trapframe)
    ensures SpawnStep(r0, r2, c, k) && Leaves(r2)
  {
    hide Forest, LeafAt, OthersSame, Fine, Leaves, PtOf, TwoLeaves;
    TrapframeTaken(r0, k.trapframe);
    TookMore(r0.ref, r1.ref, r2.ref, r0.end, {k.trapframe}, r2.trees[k.root].Values);
    assert {k.trapframe} + r2.trees[k.root].Values == TablesOf(r2.trees, k);
    NewPt(r2.tables, k, trampoline);
    SpawnLeaves(r0, r2, c, k, trampoline);
  }

  lemma NewPt(t: Tables, k: Task, trampoline: nat)
    requires TwoLeaves(t, k.root, trampoline, k.trapframe)
    ensures PtOf(t, k.root) == map[]
  {
    hide LeafAt, Make;
    forall u: nat | u < TRAPVPN ensures Leaf(t, k.root, u) == 0 { assert u * PGSIZE < MAXVA && u * PGSIZE / PGSIZE == u; }
  }

  lemma SpawnLeaves(r0: Raw, r2: Raw, c: nat, k: Task, trampoline: nat)
    requires Fine(r0) && Leaves(r0) && c !in r0.tasks && r2.tasks == r0.tasks[c := k] && k.root !in r0.trees
    requires OthersSame(r0.tables, r2.tables, r0.trees, k.root) && TwoLeaves(r2.tables, k.root, trampoline, k.trapframe)
    ensures Leaves(r2)
  {
    hide LeafAt, Fine, Make, Bit;
    BitsOfMake(trampoline, 11);
    BitsOfMake(k.trapframe, 7);
    SystemBits();
    forall q, u: nat | q in r2.tasks && u < MAXVPN ensures LeafOk(u, Leaf(r2.tables, r2.tasks[q].root, u)) {
      assert u * PGSIZE < MAXVA && u * PGSIZE / PGSIZE == u;
      if q != c {
        FineRoot(r0, q);
        assert LeafOk(u, Leaf(r0.tables, r0.tasks[q].root, u));
      }
    }
  }

  lemma SystemBits()
    ensures !Bit(11, USER) && !Bit(7, USER)
  {
  }

  lemma EmptyPt(s: State, p: nat)
    requires CowInvariant.Inv(s) && p in s.procs && CowInvariant.Below(s.procs[p])
    ensures var s1 := UvmUnmap(s, p, 0, NPages(s.procs[p].sz)); p in s1.procs && s1.procs[p].pt == map[]
  {
    hide CowInvariant.Inv, CowInvariant.Below, CowRefinement.Cleared;
    CowRefinement.UvmUnmapEffect(s, p, 0, NPages(s.procs[p].sz));
    CowRefinement.ClearedAll(s, UvmUnmap(s, p, 0, NPages(s.procs[p].sz)), p);
  }

  lemma NoLeafLeft(r: Raw, t2: Tables, t3: Tables, p: nat)
    requires p in r.tasks && PtOf(r.tables, r.tasks[p].root) == map[]
    requires Unmapped(r.tables, t2, r.tasks[p].root, TRAMPOLINE / PGSIZE, 1) && Unmapped(t2, t3, r.tasks[p].root, TRAPFRAME / PGSIZE, 1)
    ensures forall va: nat :: va < MAXVA ==> LeafAt(t3, r.tasks[p].root, va) == 0
  {
    hide LeafAt, PteOf;
    var root := r.tasks[p].root;
    forall va: nat | va < MAXVA ensures LeafAt(t3, root, va) == 0 {
      var v := va / PGSIZE;
      if v < TRAPVPN {
        assert v !in PtOf(r.tables, root);
        assert Leaf(r.tables, root, v) == 0;
        assert v * PGSIZE / PGSIZE == v;
        LeafSame(r.tables, root, v * PGSIZE, va);
      }
    }
  }

  lemma TrapframeKept(r1: Raw, r4: Raw, p: nat)
    requires Fine(r1) && p in r1.tasks && r4.end == r1.end && r1.tasks[p].root in r1.trees && GaveBack(r1.ref, r4.ref, r1.trees[r1.tasks[p].root].Values)
    ensures var a := r1.tasks[p].trapframe; r4.end <= a < PHYSPAGE == |r4.ref| && r4.ref[a] == 1
  {
    hide Fine;
    FineSizes(r1);
    FineRoot(r1, p);
  }

  lemma Reaped(r1: Raw, r4: Raw, r5: Raw, p: nat)
    requires Fine(r1) && p in r1.tasks && PtOf(r1.tables, r1.tasks[p].root) == map[] && r1.tasks[p].root in r1.trees
    requires r4 == r1.(tables := r4.tables, trees := r4.trees, ref := r4.ref) && r4.trees == r1.trees - {r1.tasks[p].root}
    requires GaveBack(r1.ref, r4.ref, r1.trees[r1.tasks[p].root].Values) && r4.tables.Keys == r1.tables.Keys - r1.trees[r1.tasks[p].root].Values
    requires OthersSame(r1.tables, r4.tables, r1.trees, r1.tasks[p].root)
    requires Forest(r4.tables, Avail(r4.ref, r4.end), r4.trees) && Backed(r4.ref, r4.end, r4.tables)
    requires r1.tasks[p].trapframe < |r4.ref| && r5 == r4.(ref := r4.ref[r1.tasks[p].trapframe := 0], tasks := r1.tasks - {p})
    ensures ReapStep(r1, r5, p)
  {
    hide Fine, Forest, OthersSame, PtOf;
    var k := r1.tasks[p];
    FineRoot(r1, p);
    FineSizes(r1);
    GaveOne(r4.ref, k.trapframe);
    GaveMore(r1.ref, r4.ref, r5.ref, r1.trees[k.root].Values, {k.trapframe});
    AvailFreed(r4.ref, r4.end, k.trapframe);
    ForestFree(r4.tables, Avail(r4.ref, r4.end), Avail(r5.ref, r5.end), r4.trees);
    assert r4.tables.Keys == r1.tables.Keys - TablesOf(r1.trees, k);
  }

  lemma ReapLeaves(r1: Raw, r5: Raw, p: nat)
    requires Fine(r1) && Leaves(r1) && ReapStep(r1, r5, p)
    ensures Leaves(r5)
  {
    hide Forest, Backed, OthersSame, GaveBack, Leaves, PtOf;
    OtherLeaves(r1, r5, r1.tasks[p].root);
  }

  lemma FreeProcIs(s: State, p: nat, s1: State)
    requires p in s.procs && s1 == UvmUnmap(s, p, 0, NPages(s.procs[p].sz))
    ensures p in s1.procs && FreeProc(s, p) == FreeTables(s1, p).(procs := FreeTables(s1, p).procs - {p})
  {
    hide UvmUnmap, FreeTables;
  }

  /** An allocproc that fails is the model's with no page taken. */
  lemma NoFork(s: State, p: nat, c: nat)
    requires p in s.procs && c !in s.procs
    ensures CowMemory.Fork(s, p, c, {}, false, []) == (s, false)
  {
    hide FreeProc, NewProc;
    SpawnNothing(s, c);
  }

  lemma NewProcIs(s: State, p: nat, c: nat, t: set<nat>)
    requires p in s.procs && c !in s.procs
    ensures var s1 := NewProc(s, c, t); c in s1.procs && p in s1.procs && s1.procs[c].pt == map[] && s1.procs[c].sz == 0 && s1.procs[p] == s.procs[p]
  {
    hide Fill;
  }

  lemma ForkCopied(s: State, p: nat, c: nat, t: set<nat>, cs: Choices)
    requires CowInvariant.Inv(s) && p in s.procs && c !in s.procs
    ensures var s1 := NewProc(s, c, t);
            && p in s1.procs && c in s1.procs
            && var (s2, ok) := UvmCopy(s1, p, c, 0, NPages(s.procs[p].sz), cs);
            && c in s2.procs && (!ok ==> CowInvariant.Below(s2.procs[c]))
            && CowMemory.Fork(s, p, c, t, true, cs) == if ok then (SetSz(s2, c, s.procs[p].sz), true) else (FreeProc(s2, c), false)
  {
    hide CowInvariant.Inv, NewProc, UvmCopy, FreeProc, CowRefinement.Same, CowRefinement.SameKeys, CowRefinement.Contents;
    CowInvariant.NewProcInv(s, c, t);
    NewProcIs(s, p, c, t);
    CowRefinement.UvmCopyEffect(NewProc(s, c, t), p, c, 0, NPages(s.procs[p].sz), cs);
  }

  lemma SetSzKeeps(s: State, p: nat, sz: nat)
    requires CowInvariant.Inv(s) && p in s.procs
    ensures CowInvariant.Inv(SetSz(s, p, sz))
  {
    CowInvariant.SetSzInv(s, p, sz);
  }

  lemma CountedLeavesAt(r: Raw, r1: Raw)
    requires Leaves(r) && r1.tables == r.tables && r1.tasks.Keys == r.tasks.Keys && forall p :: p in r.tasks ==> r1.tasks[p].root == r.tasks[p].root
    ensures Leaves(r1)
  {
    hide LeafAt, LeafOk;
    forall q, u: nat | q in r1.tasks && u < MAXVPN ensures LeafOk(u, Leaf(r1.tables, r1.tasks[q].root, u)) {
      assert LeafOk(u, Leaf(r.tables, r.tasks[q].root, u));
    }
  }

  // ---------------------------------------------------------------------
  // copyout and copyin

  lemma LeafUser(r: Raw, p: nat, v: nat)
    requires Leaves(r) && p in r.tasks && v < MAXVPN && p in Abs(r).procs
    ensures var e := LeafAt(r.tables, r.tasks[p].root, v * PGSIZE);
            && e == Leaf(r.tables, r.tasks[p].root, v)
            && (e != 0 && PteOf(e).u ==> v < TRAPVPN)
            && (v < TRAPVPN ==> (v in Abs(r).procs[p].pt <==> e != 0) && (e != 0 ==> Abs(r).procs[p].pt[v] == PteOf(e)))
  {
    hide LeafAt, Abs, Readable;
    assert LeafOk(v, Leaf(r.tables, r.tasks[p].root, v));
    if v < TRAPVPN { LeafIn(r, p, v); }
  }

  lemma NotUser(r: Raw, p: nat, v: nat)
    requires p in r.tasks && v >= TRAPVPN
    ensures p in Abs(r).procs && v !in Abs(r).procs[p].pt
  {
    hide LeafAt, Shown, RefOf, Avail, TablesOf;
  }

  lemma ResolveMapped(s: State, p: nat, v: nat, c: Choice)
    requires p in s.procs && v < MAXVPN && v in s.procs[p].pt && s.procs[p].pt[v].u
    ensures Resolve(s, p, v, c) == (s, Some(s.procs[p].pt[v].ppn))
  {
  }

  /** Not mapped for the user. */
  lemma ResolveFaults(r: Raw, p: nat, v: nat)
    requires p in r.tasks && (v < TRAPVPN ==> var e := Leaf(r.tables, r.tasks[p].root, v); e == 0 || !PteOf(e).u)
    ensures p in Abs(r).procs && !(v in Abs(r).procs[p].pt && Abs(r).procs[p].pt[v].u)
  {
    hide PteOf, Abs;
    if v < TRAPVPN { LeafIn(r, p, v); } else { NotUser(r, p, v); }
  }

  lemma ResolvedBy(s: State, p: nat, v: nat, c: Choice)
    requires p in s.procs && !(v < MAXVPN && v in s.procs[p].pt && s.procs[p].pt[v].u)
    ensures Resolve(s, p, v, c) == VmFault(s, p, v * PGSIZE, c)
  {
    hide VmFault;
  }

  /** The page that vmfault returns is the one now mapped. */
  lemma FaultedLeaf(s: State, p: nat, v: nat, c: Choice, r: Raw)
    requires CowInvariant.Inv(s) && p in s.procs && p in r.tasks && Abs(r) == VmFault(s, p, v * PGSIZE, c).0 && VmFault(s, p, v * PGSIZE, c).1.Some?
    ensures v < TRAPVPN && Leaf(r.tables, r.tasks[p].root, v) != 0 && Ppn(Leaf(r.tables, r.tasks[p].root, v)) == VmFault(s, p, v * PGSIZE, c).1.value
  {
    hide VmFault, CowInvariant.Inv, Abs, Ppn, Leaf, CowRefinement.Same;
    assert v * PGSIZE / PGSIZE == v;
    CowRuns.VmFaultEffect(s, p, v * PGSIZE, c);
    if v >= TRAPVPN { NotUser(r, p, v); } else { LeafIn(r, p, v); }
  }

  lemma ChunkFits(dst: nat, len: nat)
    ensures Chunk(dst, len) <= len && dst % PGSIZE + Chunk(dst, len) <= PGSIZE && (len > 0 ==> Chunk(dst, len) > 0)
  {
  }

  lemma OneByte(page: Page, off: nat, b: Byte)
    requires off < PGSIZE
    ensures Splice(page, off, [b]) == page[off := b]
  {
  }

  ghost predicate PutLeft(s0: State, p: nat, dstva: nat, src: seq<Byte>, cs: Choices, s: State, dst: nat, copied: nat, rest: Choices) {
    && p in s0.procs && p in s.procs && copied <= |src|
    && var r := CopyOut(s, p, dst, src[copied..], rest);
    CopyOut(s0, p, dstva, src, cs + rest) == (r.0, copied + r.1, r.2)
  }

  ghost predicate PutSoFar(s0: State, p: nat, dstva: nat, src: seq<Byte>, cs: Choices, s: State, dst: nat, copied: nat) {
    forall rest: Choices :: PutLeft(s0, p, dstva, src, cs, s, dst, copied, rest)
  }

  lemma PutBegins(s: State, p: nat, dst: nat, src: seq<Byte>)
    requires p in s.procs
    ensures PutSoFar(s, p, dst, src, [], s, dst, 0)
  {
    hide CopyOut;
    forall rest: Choices ensures PutLeft(s, p, dst, src, [], s, dst, 0, rest) { assert [] + rest == rest && src[0..] == src; }
  }

  lemma PutBeyond(s0: State, p: nat, dstva: nat, src: seq<Byte>, cs: Choices, s: State, dst: nat, copied: nat)
    requires PutSoFar(s0, p, dstva, src, cs, s, dst, copied) && copied < |src| && dst / PGSIZE >= MAXVPN
    ensures p in s0.procs && CopyOut(s0, p, dstva, src, cs) == (s, copied, false)
  {
    hide Resolve, Splice;
    assert PutLeft(s0, p, dstva, src, cs, s, dst, copied, []);
    assert cs + [] == cs;
  }

  lemma PutFails(s0: State, p: nat, dstva: nat, src: seq<Byte>, cs: Choices, s: State, dst: nat, copied: nat, c: Choice)
    requires PutSoFar(s0, p, dstva, src, cs, s, dst, copied) && copied < |src| && dst / PGSIZE < MAXVPN && p in s.procs
    requires var (s1, pa) := Resolve(s, p, dst / PGSIZE, c); pa.None? || !s1.procs[p].pt[dst / PGSIZE].w
    ensures p in s0.procs && CopyOut(s0, p, dstva, src, cs + [c]) == (Resolve(s, p, dst / PGSIZE, c).0, copied, false)
  {
    hide Resolve, Splice;
    assert PutLeft(s0, p, dstva, src, cs, s, dst, copied, [c]);
  }

  lemma PutGoesOn(s0: State, p: nat, dstva: nat, src: seq<Byte>, cs: Choices, s: State, dst: nat, copied: nat, c: Choice, s2: State)
    requires PutSoFar(s0, p, dstva, src, cs, s, dst, copied) && copied < |src| && dst / PGSIZE < MAXVPN && p in s.procs
    requires Resolve(s, p, dst / PGSIZE, c).1.Some? && Resolve(s, p, dst / PGSIZE, c).0.procs[p].pt[dst / PGSIZE].w
    requires Chunk(dst, |src| - copied) <= |src| - copied && dst % PGSIZE + Chunk(dst, |src| - copied) <= PGSIZE
    requires var (s1, pa) := Resolve(s, p, dst / PGSIZE, c);
             s2 == SetBytes(s1, pa.value, Splice(Bytes(s1, pa.value), dst % PGSIZE, src[copied..copied + Chunk(dst, |src| - copied)]))
    ensures PutSoFar(s0, p, dstva, src, cs + [c], s2, (dst / PGSIZE + 1) * PGSIZE, copied + Chunk(dst, |src| - copied))
  {
    hide Resolve, Splice, Bytes, CopyOut, Chunk;
    var n := Chunk(dst, |src| - copied);
    var more, next, done := cs + [c], (dst / PGSIZE + 1) * PGSIZE, copied + n;
    forall rest: Choices ensures PutLeft(s0, p, dstva, src, more, s2, next, done, rest) {
      assert PutLeft(s0, p, dstva, src, cs, s, dst, copied, [c] + rest);
      assert cs + ([c] + rest) == more + rest && ([c] + rest)[1..] == rest;
      assert src[copied..][n..] == src[done..] && src[copied..][..n] == src[copied..done];
      var s1, pa := Resolve(s, p, dst / PGSIZE, c).0, Resolve(s, p, dst / PGSIZE, c).1;
      PutOne(s, p, dst, src[copied..], [c] + rest, s1, pa.value, s2, CopyOut(s2, p, next, src[done..], rest));
    }
  }

  /** One page of copyout. */
  lemma PutOne(s: State, p: nat, dst: nat, src: seq<Byte>, cs: Choices, s1: State, a: nat, s2: State, r: (State, nat, bool))
    requires p in s.procs && |src| > 0 && dst / PGSIZE < MAXVPN
    requires (s1, Some(a)) == Resolve(s, p, dst / PGSIZE, At(cs, 0))
    requires p in s1.procs && dst / PGSIZE in s1.procs[p].pt && s1.procs[p].pt[dst / PGSIZE].w
    requires s2 == SetBytes(s1, a, Splice(Bytes(s1, a), dst % PGSIZE, src[..Chunk(dst, |src|)]))
    requires r == CopyOut(s2, p, (dst / PGSIZE + 1) * PGSIZE, src[Chunk(dst, |src|)..], Rest(cs))
    ensures CopyOut(s, p, dst, src, cs) == (r.0, Chunk(dst, |src|) + r.1, r.2)
  {
    hide Resolve, Splice, Bytes;
  }

  lemma PutEnds(s0: State, p: nat, dstva: nat, src: seq<Byte>, cs: Choices, s: State, dst: nat, copied: nat)
    requires PutSoFar(s0, p, dstva, src, cs, s, dst, copied) && copied == |src|
    ensures p in s0.procs && CopyOut(s0, p, dstva, src, cs) == (s, copied, true)
  {
    hide Resolve, Splice;
    assert PutLeft(s0, p, dstva, src, cs, s, dst, copied, []);
    assert cs + [] == cs && src[copied..] == [];
  }

  ghost predicate GetLeft(s0: State, p: nat, srcva: nat, len: nat, cs: Choices, s: State, src: nat, left: nat, bytes: seq<Byte>, rest: Choices) {
    && p in s0.procs && p in s.procs
    && var r := CopyIn(s, p, src, left, rest);
    CopyIn(s0, p, srcva, len, cs + rest) == (r.0, bytes + r.1, r.2)
  }

  ghost predicate GetSoFar(s0: State, p: nat, srcva: nat, len: nat, cs: Choices, s: State, src: nat, left: nat, bytes: seq<Byte>) {
    forall rest: Choices :: GetLeft(s0, p, srcva, len, cs, s, src, left, bytes, rest)
  }

  lemma GetBegins(s: State, p: nat, src: nat, len: nat)
    requires p in s.procs
    ensures GetSoFar(s, p, src, len, [], s, src, len, [])
  {
    hide CopyIn;
    forall rest: Choices ensures GetLeft(s, p, src, len, [], s, src, len, [], rest) {
      assert [] + rest == rest && [] + CopyIn(s, p, src, len, rest).1 == CopyIn(s, p, src, len, rest).1;
    }
  }

  lemma GetFails(s0: State, p: nat, srcva: nat, len: nat, cs: Choices, s: State, src: nat, left: nat, bytes: seq<Byte>, c: Choice)
    requires GetSoFar(s0, p, srcva, len, cs, s, src, left, bytes) && left > 0 && p in s.procs && Resolve(s, p, src / PGSIZE, c).1.None?
    ensures p in s0.procs && CopyIn(s0, p, srcva, len, cs + [c]) == (Resolve(s, p, src / PGSIZE, c).0, bytes, false)
  {
    hide Resolve;
    assert GetLeft(s0, p, srcva, len, cs, s, src, left, bytes, [c]);
    assert bytes + [] == bytes;
  }

  lemma GetGoesOn(s0: State, p: nat, srcva: nat, len: nat, cs: Choices, s: State, src: nat, left: nat, bytes: seq<Byte>, c: Choice, a: nat)
    requires GetSoFar(s0, p, srcva, len, cs, s, src, left, bytes) && left > 0 && p in s.procs && Resolve(s, p, src / PGSIZE, c).1 == Some(a)
    requires Chunk(src, left) <= left && src % PGSIZE + Chunk(src, left) <= PGSIZE
    ensures var s1, n, off := Resolve(s, p, src / PGSIZE, c).0, Chunk(src, left), src % PGSIZE;
            GetSoFar(s0, p, srcva, len, cs + [c], s1, (src / PGSIZE + 1) * PGSIZE, left - n, bytes + Bytes(s1, a)[off..off + n])
  {
    hide Resolve, Bytes, CopyIn, Chunk;
    var s1, n, off := Resolve(s, p, src / PGSIZE, c).0, Chunk(src, left), src % PGSIZE;
    var more, next, less, got := cs + [c], (src / PGSIZE + 1) * PGSIZE, left - n, bytes + Bytes(s1, a)[off..off + n];
    forall rest: Choices ensures GetLeft(s0, p, srcva, len, more, s1, next, less, got, rest) {
      assert GetLeft(s0, p, srcva, len, cs, s, src, left, bytes, [c] + rest);
      assert cs + ([c] + rest) == more + rest;
      GetOne(s, p, src, left, c, rest, a, bytes);
    }
  }

  /** One page of copyin. */
  lemma GetOne(s: State, p: nat, src: nat, left: nat, c: Choice, rest: Choices, a: nat, bytes: seq<Byte>)
    requires p in s.procs && left > 0 && Resolve(s, p, src / PGSIZE, c).1 == Some(a)
    requires Chunk(src, left) <= left && src % PGSIZE + Chunk(src, left) <= PGSIZE
    ensures var s1, n, off := Resolve(s, p, src / PGSIZE, c).0, Chunk(src, left), src % PGSIZE;
            var part, r := Bytes(s1, a)[off..off + n], CopyIn(s1, p, (src / PGSIZE + 1) * PGSIZE, left - n, rest);
            CopyIn(s, p, src, left, [c] + rest) == (r.0, part + r.1, r.2) && bytes + (part + r.1) == bytes + part + r.1
  {
    hide Resolve, Bytes;
    assert At([c] + rest, 0) == c && Rest([c] + rest) == rest;
  }

  lemma GetEnds(s0: State, p: nat, srcva: nat, len: nat, cs: Choices, s: State, src: nat, left: nat, bytes: seq<Byte>)
    requires GetSoFar(s0, p, srcva, len, cs, s, src, left, bytes) && left == 0
    ensures p in s0.procs && CopyIn(s0, p, srcva, len, cs) == (s, bytes, true)
  {
    hide Resolve;
    assert GetLeft(s0, p, srcva, len, cs, s, src, left, bytes, []);
    assert cs + [] == cs && bytes + [] == bytes;
  }

  // ---------------------------------------------------------------------
  // Faults

  /** The copying branch of vmfault. */
  function CopiedPage(s: State, p: nat, v: nat, a: nat, c: Choice): (State, Option<nat>)
    requires p in s.procs
  {
    var (s1, mem) := Kalloc(s, c.mem);
    if mem.None? then (s1, None)
    else
      var s2 := SetBytes(s1, mem.value, Bytes(s1, a));
      (Decref(SetPt(s2, p, s2.procs[p].pt[v := Pte(mem.value, true, false, true)]), a), mem)
  }

  lemma CopiedNone(s: State, p: nat, v: nat, a: nat, c: Choice)
    requires p in s.procs && c.mem == None
    ensures CopiedPage(s, p, v, a, c) == (s, None)
  {
  }

  lemma CopiedSome(s: State, p: nat, v: nat, a: nat, c: Choice, page: Page, s2: State)
    requires p in s.procs && c.mem.Some? && Kalloc(s, c.mem).1 == c.mem && a in s.pages && s.pages[a] == page && a != c.mem.value
    requires s2 == SetPt(SetBytes(Kalloc(s, c.mem).0, c.mem.value, page), p, s.procs[p].pt[v := Pte(c.mem.value, true, false, true)])
    ensures CopiedPage(s, p, v, a, c) == (Decref(s2, a), c.mem)
  {
    hide Fill;
  }

  lemma BytesAre(r: Raw, a: nat)
    requires UserPage(r, a)
    ensures a in Abs(r).pages && Abs(r).pages[a] == if a in r.pages then r.pages[a] else Fill(0)
  {
    hide IsTable, Fill, ProcOf, Avail;
  }

  /** A page in use is not the one that kalloc returns, and stays in use. */
  lemma TakeApart(r: Raw, a: nat, b: nat, page: Page)
    requires Fine(r) && UserPage(r, a) && b in Avail(r.ref, r.end) && b < |r.ref|
    ensures a != b && UserPage(Take(r, b, page), a) && RefOf(Take(r, b, page), a) == RefOf(r, a)
  {
    hide Fine, IsTable;
    FineSizes(r);
    SameTables(r, Take(r, b, page));
  }

  lemma FreshBits(b: nat)
    ensures Readable(Make(b, 23)) && V(Make(b, 23)) && !NoRwx(Make(b, 23)) && PteOf(Make(b, 23)) == Pte(b, true, false, true)
  {
    hide Bit, Make, Ppn, Flags, V, NoRwx;
    BitsOfMake(b, 23);
    SomeBits();
  }

  lemma PteBits(e: nat)
    ensures Flags(e) < 1024 && PteOf(e) == Pte(Ppn(e), Bit(Flags(e), WRITE), Bit(Flags(e), COW), Bit(Flags(e), USER))
  {
    hide Make, Bit, Ppn, Flags;
    MakeOf(e);
    BitsOfMake(Ppn(e), Flags(e));
  }

  lemma AbsDecref(r: Raw, a: nat)
    requires Fine(r) && UserPage(r, a) && RefOf(r, a) > 1
    ensures a < |r.ref| && r.ref[a] > 1 && Fine(Counted(r, a, r.ref[a] - 1)) && Abs(Counted(r, a, r.ref[a] - 1)) == Decref(Abs(r), a)
  {
    hide Fine, Abs, IsTable;
    FineSizes(r);
    CountIs(r, a);
    AbsCount(r, a, r.ref[a] - 1);
  }

  lemma FaultNone(s: State, p: nat, va: nat, c: Choice)
    requires p in s.procs
    requires va >= s.procs[p].sz || (va / PGSIZE in s.procs[p].pt && !(s.procs[p].pt[va / PGSIZE].cow && !s.procs[p].pt[va / PGSIZE].w))
    ensures VmFault(s, p, va, c) == (s, None)
  {
  }

  lemma FaultNew(s: State, p: nat, va: nat, c: Choice)
    requires p in s.procs && va < s.procs[p].sz && va / PGSIZE !in s.procs[p].pt
    ensures VmFault(s, p, va, c) == CowMemory.MapNew(s, p, va / PGSIZE, true, c)
  {
  }

  lemma FaultCopy(s: State, p: nat, va: nat, c: Choice)
    requires p in s.procs && va < s.procs[p].sz && va / PGSIZE in s.procs[p].pt
    requires var pte := s.procs[p].pt[va / PGSIZE]; pte.cow && !pte.w && Count(s, pte.ppn) > 1
    ensures VmFault(s, p, va, c) == CopiedPage(s, p, va / PGSIZE, s.procs[p].pt[va / PGSIZE].ppn, c)
  {
  }

  lemma FaultOwn(s: State, p: nat, va: nat, c: Choice)
    requires p in s.procs && va < s.procs[p].sz && va / PGSIZE in s.procs[p].pt
    requires var pte := s.procs[p].pt[va / PGSIZE]; pte.cow && !pte.w && Count(s, pte.ppn) <= 1
    ensures var v, pte := va / PGSIZE, s.procs[p].pt[va / PGSIZE];
            VmFault(s, p, va, c) == (SetPt(s, p, s.procs[p].pt[v := pte.(w := true, cow := false)]), Some(pte.ppn))
  {
  }

  lemma FaultInv(s: State, p: nat, va: nat, c: Choice)
    requires CowInvariant.Inv(s) && p in s.procs
    ensures CowInvariant.Inv(VmFault(s, p, va, c).0)
  {
    CowRuns.VmFaultEffect(s, p, va, c);
  }

  // ---------------------------------------------------------------------
  // The loop of uvmalloc

  ghost predicate AllocLeft(s0: State, p: nat, first: nat, end: nat, w: bool, cs: Choices, s: State, v: nat, rest: Choices) {
    p in s0.procs && p in s.procs && first <= v && UvmAlloc(s0, p, first, first, end, w, cs + rest) == UvmAlloc(s, p, first, v, end, w, rest)
  }

  /** Whatever the allocator answers from here on. */
  ghost predicate AllocSoFar(s0: State, p: nat, first: nat, end: nat, w: bool, cs: Choices, s: State, v: nat) {
    forall rest: Choices :: AllocLeft(s0, p, first, end, w, cs, s, v, rest)
  }

  lemma AllocBegins(s: State, p: nat, first: nat, end: nat, w: bool)
    requires p in s.procs
    ensures AllocSoFar(s, p, first, end, w, [], s, first)
  {
    forall rest: Choices ensures AllocLeft(s, p, first, end, w, [], s, first, rest) { assert [] + rest == rest; }
  }

  lemma AllocFails(s0: State, p: nat, first: nat, end: nat, w: bool, cs: Choices, s: State, v: nat, c: Choice)
    requires AllocSoFar(s0, p, first, end, w, cs, s, v) && p in s.procs && v < end && CowMemory.MapNew(s, p, v, w, c).1.None?
    ensures p in s0.procs && first <= v && p in CowMemory.MapNew(s, p, v, w, c).0.procs
    ensures UvmAlloc(s0, p, first, first, end, w, cs + [c]) == (UvmUnmap(CowMemory.MapNew(s, p, v, w, c).0, p, first, v - first), false)
  {
    hide CowMemory.MapNew, UvmUnmap;
    assert AllocLeft(s0, p, first, end, w, cs, s, v, [c]);
  }

  lemma AllocGoesOn(s0: State, p: nat, first: nat, end: nat, w: bool, cs: Choices, s: State, v: nat, c: Choice)
    requires AllocSoFar(s0, p, first, end, w, cs, s, v) && p in s.procs && v < end && CowMemory.MapNew(s, p, v, w, c).1.Some?
    ensures AllocSoFar(s0, p, first, end, w, cs + [c], CowMemory.MapNew(s, p, v, w, c).0, v + 1)
  {
    hide CowMemory.MapNew, UvmUnmap;
    var s1, more, next := CowMemory.MapNew(s, p, v, w, c).0, cs + [c], v + 1;
    forall rest: Choices ensures AllocLeft(s0, p, first, end, w, more, s1, next, rest) {
      assert AllocLeft(s0, p, first, end, w, cs, s, v, [c] + rest);
      assert cs + ([c] + rest) == cs + [c] + rest && ([c] + rest)[1..] == rest;
    }
  }

  lemma AllocEnds(s0: State, p: nat, first: nat, end: nat, w: bool, cs: Choices, s: State, v: nat)
    requires AllocSoFar(s0, p, first, end, w, cs, s, v) && v >= end
    ensures p in s0.procs && UvmAlloc(s0, p, first, first, end, w, cs) == (s, true)
  {
    assert AllocLeft(s0, p, first, end, w, cs, s, v, []);
    assert cs + [] == cs;
  }

  lemma NewKeys(s: State, p: nat, v: nat, w: bool, c: Choice)
    requires p in s.procs
    ensures forall u :: u in CowMemory.MapNew(s, p, v, w, c).0.procs[p].pt ==> u == v || u in s.procs[p].pt
  {
    hide Fill;
  }

  // ---------------------------------------------------------------------
  // The loop of uvmcopy

  ghost predicate CopyLeft(s0: State, p: nat, c: nat, end: nat, cs: Choices, s: State, v: nat, rest: Choices) {
    && p in s0.procs && c in s0.procs && p in s.procs && c in s.procs && p != c
    && UvmCopy(s0, p, c, 0, end, cs + rest) == UvmCopy(s, p, c, v, end, rest)
  }

  ghost predicate CopySoFar(s0: State, p: nat, c: nat, end: nat, cs: Choices, s: State, v: nat) {
    forall rest: Choices :: CopyLeft(s0, p, c, end, cs, s, v, rest)
  }

  lemma CopyBegins(s: State, p: nat, c: nat, end: nat)
    requires p in s.procs && c in s.procs && p != c
    ensures CopySoFar(s, p, c, end, [], s, 0)
  {
    forall rest: Choices ensures CopyLeft(s, p, c, end, [], s, 0, rest) { assert [] + rest == rest; }
  }

  lemma CopyFails(s0: State, p: nat, c: nat, end: nat, cs: Choices, s: State, v: nat, ch: Choice)
    requires CopySoFar(s0, p, c, end, cs, s, v) && p in s.procs && c in s.procs && p != c && v < end && !ShareOne(s, p, c, v, ch).1
    ensures p in s0.procs && c in s0.procs
    ensures UvmCopy(s0, p, c, 0, end, cs + [ch]) == (UvmUnmap(ShareOne(s, p, c, v, ch).0, c, 0, v), false)
  {
    hide ShareOne, UvmUnmap;
    assert CopyLeft(s0, p, c, end, cs, s, v, [ch]);
  }

  lemma CopyGoesOn(s0: State, p: nat, c: nat, end: nat, cs: Choices, s: State, v: nat, ch: Choice)
    requires CopySoFar(s0, p, c, end, cs, s, v) && p in s.procs && c in s.procs && p != c && v < end && ShareOne(s, p, c, v, ch).1
    ensures CopySoFar(s0, p, c, end, cs + [ch], ShareOne(s, p, c, v, ch).0, v + 1)
  {
    hide ShareOne, UvmUnmap;
    var s1, more, next := ShareOne(s, p, c, v, ch).0, cs + [ch], v + 1;
    forall rest: Choices ensures CopyLeft(s0, p, c, end, more, s1, next, rest) {
      assert CopyLeft(s0, p, c, end, cs, s, v, [ch] + rest);
      assert cs + ([ch] + rest) == cs + [ch] + rest && ([ch] + rest)[1..] == rest;
    }
  }

  lemma CopyEnds(s0: State, p: nat, c: nat, end: nat, cs: Choices, s: State, v: nat)
    requires CopySoFar(s0, p, c, end, cs, s, v) && v >= end
    ensures p in s0.procs && c in s0.procs && p != c && UvmCopy(s0, p, c, 0, end, cs) == (s, true)
  {
    assert CopyLeft(s0, p, c, end, cs, s, v, []);
    assert cs + [] == cs;
  }

  lemma SharedKeys(s: State, p: nat, c: nat, v: nat, ch: Choice)
    requires p in s.procs && c in s.procs && p != c
    ensures forall u :: u in ShareOne(s, p, c, v, ch).0.procs[c].pt ==> u == v || u in s.procs[c].pt
  {
    hide Fill;
  }

  lemma PagesBound(sz: nat)
    ensures sz <= TRAPVPN * PGSIZE ==> NPages(sz) <= TRAPVPN
  {
  }

  // ---------------------------------------------------------------------
  // Sharing one page

  lemma ShareNone(s: State, p: nat, c: nat, v: nat, ch: Choice)
    requires p in s.procs && c in s.procs && p != c && v !in s.procs[p].pt
    ensures ShareOne(s, p, c, v, ch) == (s, true)
  {
  }

  /** The page table entry written by uvmcopy is the shared one of the model. */
  lemma ShareSome(s: State, p: nat, c: nat, v: nat, ch: Choice, e: nat, s2: State)
    requires p in s.procs && c in s.procs && p != c && v in s.procs[p].pt
    requires PteOf(e) == SharedPte(s.procs[p].pt[v])
    requires var s1 := SetPt(s, p, s.procs[p].pt[v := PteOf(e)]);
             c in s1.procs && (s2, ch.ok) == CowMemory.MapPage(s1, c, v, PteOf(e), ch)
    ensures ShareOne(s, p, c, v, ch) == if ch.ok then (Incref(s2, PteOf(e).ppn), true) else (s2, false)
  {
    hide CowMemory.MapPage, PteOf;
  }

  lemma LeafFound(r: Raw, p: nat, v: nat)
    requires Leaves(r) && p in r.tasks && v < TRAPVPN
    ensures Leaf(r.tables, r.tasks[p].root, v) == LeafAt(r.tables, r.tasks[p].root, v * PGSIZE)
    ensures Leaf(r.tables, r.tasks[p].root, v) != 0 ==> Readable(Leaf(r.tables, r.tasks[p].root, v))
  {
    hide LeafAt, Readable;
    assert LeafOk(v, Leaf(r.tables, r.tasks[p].root, v));
  }

  lemma WriteBit(e: nat)
    ensures Flags(e) < 1024 && PteOf(e).w == Bit(Flags(e), WRITE) && PteOf(e).ppn == Ppn(e)
  {
    hide Make, Bit, Ppn, Flags;
    MakeOf(e);
    BitsOfMake(Ppn(e), Flags(e));
  }

  /** A leaf is overwritten, or already is what would be written. */
  lemma SharedStep(r: Raw, r1: Raw, p: nat, v: nat, e: nat)
    requires Fine(r) && p in r.tasks && v < TRAPVPN && Readable(e) && r1 == r.(tables := r1.tables) && r1.tables.Keys == r.tables.Keys
    requires Forest(r1.tables, Avail(r1.ref, r1.end), r1.trees) && Backed(r1.ref, r1.end, r1.tables)
    requires || (r1.tables == r.tables && Leaf(r.tables, r.tasks[p].root, v) == e)
             || (OthersSame(r.tables, r1.tables, r.trees, r.tasks[p].root) && LeafSet(r.tables, r1.tables, r.tasks[p].root, v * PGSIZE / PGSIZE, e))
    ensures LeafStep(r, r1, p, v, e)
  {
    hide LeafAt, Forest, Backed, Fine, Readable;
    assert v * PGSIZE / PGSIZE == v;
    if r1.tables == r.tables && Leaf(r.tables, r.tasks[p].root, v) == e {
      forall va: nat | va < MAXVA ensures LeafAt(r1.tables, r.tasks[p].root, va) == if va / PGSIZE == v then e else LeafAt(r.tables, r.tasks[p].root, va) {
        if va / PGSIZE == v { LeafSame(r.tables, r.tasks[p].root, v * PGSIZE, va); }
      }
    }
  }

  lemma OtherProc(s: State, p: nat, c: nat, pt: map<nat, Pte>)
    requires p in s.procs && c in s.procs && p != c
    ensures SetPt(s, p, pt).procs[c] == s.procs[c] && SetPt(s, p, pt).procs.Keys == s.procs.Keys
  {
  }

  lemma StaysUser(r1: Raw, r2: Raw, c: nat, a: nat, added: set<nat>)
    requires Fine(r1) && UserPage(r1, a) && TreeStep(r1, r2, c, added)
    ensures UserPage(r2, a)
  {
    hide Fine, TreeStep, IsTable;
    StepIsTable(r1, r2, c, added);
    StepHas(r1, r2, c, added);
    FineSizes(r1);
  }

  lemma MapStepTree(r: Raw, r1: Raw, p: nat, v: nat, e: nat, added: set<nat>, ok: bool)
    requires MapStep(r, r1, p, v, e, added, ok)
    ensures TreeStep(r, r1, p, added)
  {
  }

  lemma UserKept(r: Raw, r1: Raw, a: nat)
    requires UserPage(r, a) && r1 == r.(tables := r1.tables)
    ensures UserPage(r1, a) && RefOf(r1, a) == RefOf(r, a)
  {
    hide IsTable;
    SameTables(r, r1);
  }

  lemma AbsIncref(r: Raw, a: nat)
    requires Fine(r) && UserPage(r, a)
    ensures a < |r.ref| && r.ref[a] > 0 && Fine(Counted(r, a, r.ref[a] + 1)) && Abs(Counted(r, a, r.ref[a] + 1)) == Incref(Abs(r), a)
  {
    hide Fine, Abs, IsTable;
    FineSizes(r);
    CountIs(r, a);
    AbsCount(r, a, r.ref[a] + 1);
  }

  lemma PpnOf(e: nat, ppn: nat, f: nat)
    requires f < 1024 && e == Make(ppn, f)
    ensures PteOf(e).ppn == ppn
  {
    hide Bit, Make, Ppn, Flags;
    BitsOfMake(ppn, f);
  }

  function SharedPte(pte: Pte): Pte { if pte.w then pte.(w := false, cow := true) else pte }

  lemma RecountIs(r: Raw, a: nat, n: nat, r1: Raw)
    requires a < |r.ref| && r1 == r.(ref := r.ref[a := n])
    ensures r1 == Counted(r, a, n)
  {
  }

  lemma HasProc(r: Raw, p: nat)
    ensures p in r.tasks <==> p in Abs(r).procs
  {
  }

  lemma NoPage(s: State, p: nat, v: nat, w: bool, c: Choice)
    requires p in s.procs && c.mem == None
    ensures CowMemory.MapNew(s, p, v, w, c) == (s, None)
  {
  }

  lemma NewPage(s: State, p: nat, v: nat, w: bool, c: Choice, s3: State)
    requires p in s.procs && c.mem.Some? && Kalloc(s, c.mem).1 == c.mem
    requires var s2 := SetBytes(Kalloc(s, c.mem).0, c.mem.value, Fill(0));
             p in s2.procs && (s3, c.ok) == CowMemory.MapPage(s2, p, v, Pte(c.mem.value, w, false, true), c)
    ensures CowMemory.MapNew(s, p, v, w, c) == if c.ok then (s3, c.mem) else (Kfree(s3, c.mem.value), None)
  {
    hide CowMemory.MapPage, Kfree, Fill;
  }

  lemma TakeStores(r: Raw, a: nat, page: Page)
    requires a < |r.ref|
    ensures Take(r, a, page) == r.(ref := r.ref[a := 1], pages := r.pages[a := page])
  {
  }

  lemma TakeLeaves(r: Raw, a: nat, page: Page)
    requires Leaves(r) && a < |r.ref|
    ensures Leaves(Take(r, a, page))
  {
  }

  lemma TakenProcs(r: Raw, a: nat)
    ensures Kalloc(Abs(r), Some(a)).0.procs == Abs(r).procs
  {
    hide Abs;
  }

  /** What MapPage of PageTables does to process p. */
  lemma MappedStep(r: Raw, r1: Raw, p: nat, v: nat, a: nat, perm: nat, added: set<nat>, o: PageTables.Result)
    requires Fine(r) && p in r.tasks && v < TRAPVPN && r1 == r.(tables := r1.tables, trees := r1.trees, ref := r1.ref)
    requires Forest(r1.tables, Avail(r1.ref, r1.end), r1.trees) && Backed(r1.ref, r1.end, r1.tables)
    requires TreeGrown(r.trees, r1.trees, r.tasks[p].root, added) && TookPages(r.ref, r1.ref, r.end, added)
    requires r1.tables.Keys == r.tables.Keys + added && OthersSame(r.tables, r1.tables, r.trees, r.tasks[p].root)
    requires Readable(Make(a, WithV(perm)))
    requires if o.Done? then Mapped(r.tables, r1.tables, r.tasks[p].root, v * PGSIZE / PGSIZE, 1, a, perm) else SelfSame(r.tables, r1.tables, r.tasks[p].root)
    ensures MapStep(r, r1, p, v, Make(a, WithV(perm)), added, o == PageTables.Done)
  {
    hide LeafAt, Forest, Backed, OthersSame, Fine, TreeGrown, TookPages, Make, WithV, Readable, SelfSame;
    assert v * PGSIZE / PGSIZE == v;
  }

  lemma StillUser(r0: Raw, r1: Raw, r2: Raw, p: nat, a: nat, added: set<nat>)
    requires Fine(r0) && a in Avail(r0.ref, r0.end) && a < |r0.ref| && r1 == r0.(ref := r0.ref[a := 1], pages := r1.pages)
    requires Fine(r1) && TreeStep(r1, r2, p, added)
    ensures UserPage(r2, a)
  {
    hide Fine, TreeStep, IsTable;
    StepIsTable(r1, r2, p, added);
    StepHas(r1, r2, p, added);
    assert !IsTable(r0, a) by { if IsTable(r0, a) { TableUsed(r0, a); } }
    SameTables(r0, r1);
    FineSizes(r1);
  }

  lemma AllFree(ref: seq<int>, h: seq<FreeList.Hole>, end: nat)
    requires Accounted(ref, h, {}, end) && h == [FreeList.Hole(end, PHYSPAGE - end)]
    ensures |ref| == PHYSPAGE && forall a :: 0 <= a < PHYSPAGE ==> ref[a] == 0
  {
    forall a: nat | a < PHYSPAGE ensures ref[a] == 0 { if a >= end { assert h[0].Has(a); } }
  }

  lemma NoTasks(r: Raw)
    requires r.tables == map[] && r.trees == map[] && r.tasks == map[] && |r.ref| == PHYSPAGE && 0 < r.end
    requires forall a :: 0 <= a < PHYSPAGE ==> r.ref[a] == 0
    ensures Fine(r) && Leaves(r) && CowRuns.Valid(Abs(r)) && CowRefinement.ViewOf(Abs(r)) == map[]
  {
    hide CowInvariant.Inv, CowInvariant.Bounded, CowRefinement.ViewOf;
    CowRuns.BootValid(Abs(r));
  }

  lemma FineTask(r: Raw, p: nat)
    requires Fine(r) && p in r.tasks
    ensures r.tasks[p].root in r.trees && r.tasks[p].sz <= TRAPVPN * PGSIZE
  {
    hide Forest, Backed;
    assert TaskOk(r, r.tasks[p]);
  }

  lemma MmuValid(mmu: Mmu, r: Raw)
    requires mmu.kmem.Quiet() && Fine(r)
    requires r.tables == mmu.tables && r.trees == mmu.trees && r.ref == mmu.kmem.refCount[..] && r.end == mmu.kmem.end
    ensures mmu.Valid()
  {
    hide Kmem.Quiet, Forest;
  }

  lemma UserRange(r: Raw, a: nat)
    requires Fine(r) && UserPage(r, a)
    ensures r.end <= a < PHYSPAGE == |r.ref| && r.ref[a] == RefOf(r, a) > 0
  {
    hide Fine;
    FineSizes(r);
  }

  lemma CountedIs(r: Raw, a: nat, r1: Raw)
    requires a < |r.ref| && r.ref[a] > 0 && r1 == r.(ref := r.ref[a := r.ref[a] - 1])
    ensures r1 == Counted(r, a, r.ref[a] - 1)
  {
  }

  lemma CountedLeaves(r: Raw, r1: Raw)
    requires Leaves(r) && r1.tables == r.tables && r1.tasks == r.tasks
    ensures Leaves(r1)
  {
  }

  lemma UnmappedStep(r: Raw, r1: Raw, p: nat, v: nat)
    requires Fine(r) && p in r.tasks && v < TRAPVPN && r1 == r.(tables := r1.tables) && r1.tables.Keys == r.tables.Keys
    requires Forest(r1.tables, Avail(r1.ref, r1.end), r1.trees) && Backed(r1.ref, r1.end, r1.tables)
    requires OthersSame(r.tables, r1.tables, r.trees, r.tasks[p].root) && Unmapped(r.tables, r1.tables, r.tasks[p].root, v * PGSIZE / PGSIZE, 1)
    ensures LeafStep(r, r1, p, v, 0)
  {
    hide LeafAt, Forest, Backed, OthersSame, Fine;
    assert v * PGSIZE / PGSIZE == v;
  }

  lemma KfreeProcs(s: State, a: nat)
    ensures Kfree(s, a).procs == s.procs
  {
  }
}
