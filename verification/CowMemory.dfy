/**
 Physical pages, reference counts and user page tables of kernel/vm.c and
 kernel/kalloc.c, and the operations that act on them.

 A page table is seen here as the map from virtual page number to leaf PTE
 that `Sv39` proves the three-level tree to be; the pages the tree itself
 occupies are the `tables` of a process. Which free page an allocation
 returns, which page-table pages a walk has to add, and when either fails is
 decided by a `Choice`; every theorem is for all choices.
 */
module CowMemory {
  import opened Common

  /** MAXVA / PGSIZE. */
  const MAXVPN: nat := 0x4000000
  /** TRAPFRAME / PGSIZE: user memory ends below it. */
  const TRAPVPN: nat := MAXVPN - 2

  type Page = p: seq<Byte> | |p| == PGSIZE witness seq(PGSIZE, _ => 0)

  function Fill(b: Byte): Page { seq(PGSIZE, _ => b) }

  function PageOf(addr: nat): nat { addr / PGSIZE }

  /** Number of pages a process of sz bytes has: PGROUNDUP(sz) / PGSIZE. */
  function NPages(sz: nat): nat { (sz + PGSIZE - 1) / PGSIZE }

  /** A valid leaf PTE: physical page and the PTE_W, PTE_COW, PTE_U bits. */
  datatype Pte = Pte(ppn: nat, w: bool, cow: bool, u: bool)

  datatype Proc = Proc(sz: nat, pt: map<nat, Pte>, tables: set<nat>)

  datatype State = State(
    pages: map<nat, Page>,
    ref: map<nat, nat>,
    free: set<nat>,
    procs: map<nat, Proc>,
    panicked: bool)

  /** What the allocator answers: a data page, page-table pages, and whether the walk succeeds. */
  datatype Choice = Choice(mem: Option<nat>, tables: set<nat>, ok: bool)

  type Choices = seq<Choice>

  function At(cs: Choices, i: nat): Choice {
    if i < |cs| then cs[i] else Choice(None, {}, false)
  }

  function Rest(cs: Choices): Choices {
    if |cs| == 0 then [] else cs[1..]
  }

  // ---------------------------------------------------------------------
  // Reference-counted pages

  function Count(s: State, a: nat): nat { if a in s.ref then s.ref[a] else 0 }

  function Bytes(s: State, a: nat): Page { if a in s.pages then s.pages[a] else Fill(0) }

  function SetBytes(s: State, a: nat, page: Page): State { s.(pages := s.pages[a := page]) }

  function Kalloc(s: State, c: Option<nat>): (State, Option<nat>) {
    if c.Some? && c.value in s.free then
      (s.(free := s.free - {c.value},
          ref := s.ref[c.value := 1],
          pages := s.pages[c.value := Fill(5)]), Some(c.value))
    else
      (s, None)
  }

  function Kfree(s: State, a: nat): State {
    if Count(s, a) == 0 then s.(panicked := true)
    else if s.ref[a] > 1 then s.(ref := s.ref[a := s.ref[a] - 1])
    else s.(ref := s.ref[a := 0], free := s.free + {a}, pages := s.pages[a := Fill(1)])
  }

  function Incref(s: State, a: nat): State {
    s.(ref := s.ref[a := Count(s, a) + 1])
  }

  function Decref(s: State, a: nat): State {
    if Count(s, a) == 0 then s.(panicked := true)
    else s.(ref := s.ref[a := s.ref[a] - 1])
  }

  // ---------------------------------------------------------------------
  // Page-table updates

  function SetPt(s: State, p: nat, pt: map<nat, Pte>): State
    requires p in s.procs
  {
    s.(procs := s.procs[p := s.procs[p].(pt := pt)])
  }

  function SetSz(s: State, p: nat, sz: nat): State
    requires p in s.procs
  {
    s.(procs := s.procs[p := s.procs[p].(sz := sz)])
  }

  /** The page-table pages that walk(…, 1) has to add on the way to a leaf. */
  function AddTables(s: State, p: nat, t: set<nat>): State
    requires p in s.procs
  {
    var added := t * s.free;
    s.(free := s.free - added,
       ref := map a | a in s.ref :: if a in added then 1 else s.ref[a],
       pages := map a | a in s.pages :: if a in added then Fill(0) else s.pages[a],
       procs := s.procs[p := s.procs[p].(tables := s.procs[p].tables + added)])
  }

  /** mappages for one page. */
  function MapPage(s: State, p: nat, v: nat, pte: Pte, c: Choice): (State, bool)
    requires p in s.procs
  {
    var s1 := AddTables(s, p, c.tables);
    if !c.ok then (s1, false)
    else if v in s1.procs[p].pt then (s1.(panicked := true), false)
    else (SetPt(s1, p, s1.procs[p].pt[v := pte]), true)
  }

  function UnmapOne(s: State, p: nat, v: nat): State
    requires p in s.procs
  {
    if v !in s.procs[p].pt then s
    else
      var s1 := Kfree(s, s.procs[p].pt[v].ppn);
      SetPt(s1, p, s1.procs[p].pt - {v})
  }

  /** uvmunmap(pagetable, va, npages, 1). */
  function UvmUnmap(s: State, p: nat, v: nat, n: nat): (r: State)
    requires p in s.procs
    ensures r.procs.Keys == s.procs.Keys
    decreases n
  {
    if n == 0 then s else UvmUnmap(UnmapOne(s, p, v), p, v + 1, n - 1)
  }

  function UvmDealloc(s: State, p: nat, oldsz: nat, newsz: nat): (r: State)
    requires p in s.procs
    ensures p in r.procs
  {
    if NPages(newsz) < NPages(oldsz)
    then UvmUnmap(s, p, NPages(newsz), NPages(oldsz) - NPages(newsz))
    else s
  }

  /** Allocate, zero and map one page, giving it back if the walk fails. */
  function MapNew(s: State, p: nat, v: nat, w: bool, c: Choice): (r: (State, Option<nat>))
    requires p in s.procs
    ensures r.0.procs.Keys == s.procs.Keys
    ensures r.1.Some? ==> v in r.0.procs[p].pt
  {
    var (s1, mem) := Kalloc(s, c.mem);
    if mem.None? then (s1, None)
    else
      var s2 := SetBytes(s1, mem.value, Fill(0));
      var (s3, ok) := MapPage(s2, p, v, Pte(mem.value, w, false, true), c);
      if !ok then (Kfree(s3, mem.value), None) else (s3, mem)
  }

  /** uvmalloc from page v up to page end; the second result is success. */
  function UvmAlloc(s: State, p: nat, first: nat, v: nat, end: nat, w: bool, cs: Choices): (r: (State, bool))
    requires p in s.procs && first <= v
    ensures p in r.0.procs
    decreases end - v
  {
    if v >= end then (s, true)
    else
      var (s1, mem) := MapNew(s, p, v, w, At(cs, 0));
      if mem.None? then (UvmUnmap(s1, p, first, v - first), false)
      else UvmAlloc(s1, p, first, v + 1, end, w, Rest(cs))
  }

  // ---------------------------------------------------------------------
  // Copy-on-write fork

  /** One iteration of the loop of uvmcopy. */
  function ShareOne(s: State, p: nat, c: nat, v: nat, ch: Choice): (r: (State, bool))
    requires p in s.procs && c in s.procs && p != c
    ensures p in r.0.procs && c in r.0.procs
  {
    if v !in s.procs[p].pt then (s, true)
    else
      var pte := s.procs[p].pt[v];
      var shared := if pte.w then pte.(w := false, cow := true) else pte;
      var s1 := SetPt(s, p, s.procs[p].pt[v := shared]);
      var (s2, ok) := MapPage(s1, c, v, shared, ch);
      if !ok then (s2, false) else (Incref(s2, pte.ppn), true)
  }

  /** uvmcopy from page v on; on failure what was shared so far is unmapped again. */
  function UvmCopy(s: State, p: nat, c: nat, v: nat, end: nat, cs: Choices): (r: (State, bool))
    requires p in s.procs && c in s.procs && p != c
    ensures p in r.0.procs && c in r.0.procs
    decreases end - v
  {
    if v >= end then (s, true)
    else
      var (s1, ok) := ShareOne(s, p, c, v, At(cs, 0));
      if !ok then (UvmUnmap(s1, c, 0, v), false)
      else UvmCopy(s1, p, c, v + 1, end, Rest(cs))
  }

  /** allocproc: a process without user memory; t are its trapframe and page-table pages. */
  function NewProc(s: State, c: nat, t: set<nat>): (r: State)
    ensures c in r.procs
  {
    AddTables(s.(procs := s.procs[c := Proc(0, map[], {})]), c, t)
  }

  /** freewalk and the trapframe: every page of the tree goes back, and no leaf may be left. */
  function FreeTables(s: State, p: nat): (r: State)
    requires p in s.procs
    ensures p in r.procs
  {
    var t := s.procs[p].tables;
    if s.procs[p].pt != map[] || (exists a :: a in t && Count(s, a) == 0)
    then s.(panicked := true)
    else
      s.(ref := map a | a in s.ref :: if a in t then s.ref[a] - 1 else s.ref[a],
         free := s.free + (set a | a in t && s.ref[a] == 1),
         pages := map a | a in s.pages :: if a in t && Count(s, a) == 1 then Fill(1) else s.pages[a],
         procs := s.procs[p := s.procs[p].(tables := {})])
  }

  /** freeproc. */
  function FreeProc(s: State, p: nat): State
    requires p in s.procs
  {
    var s1 := FreeTables(UvmUnmap(s, p, 0, NPages(s.procs[p].sz)), p);
    s1.(procs := s1.procs - {p})
  }

  /** kfork, as far as memory is concerned. */
  function Fork(s: State, p: nat, c: nat, t: set<nat>, ok: bool, cs: Choices): (State, bool)
    requires p in s.procs && c !in s.procs
  {
    var s1 := NewProc(s, c, t);
    if !ok then (FreeProc(s1, c), false)
    else
      var (s2, copied) := UvmCopy(s1, p, c, 0, NPages(s.procs[p].sz), cs);
      if !copied then (FreeProc(s2, c), false)
      else (SetSz(s2, c, s.procs[p].sz), true)
  }

  // ---------------------------------------------------------------------
  // Faults and copies

  /** vmfault for page v; None is the return value 0. */
  function VmFault(s: State, p: nat, va: nat, c: Choice): (r: (State, Option<nat>))
    requires p in s.procs
    ensures p in r.0.procs
    ensures r.1.Some? ==> va / PGSIZE in r.0.procs[p].pt
  {
    var v := va / PGSIZE;
    if va >= s.procs[p].sz then (s, None)
    else if v !in s.procs[p].pt then MapNew(s, p, v, true, c)
    else
      var pte := s.procs[p].pt[v];
      if pte.cow && !pte.w then
        if Count(s, pte.ppn) > 1 then
          var (s1, mem) := Kalloc(s, c.mem);
          if mem.None? then (s1, None)
          else
            var s2 := SetBytes(s1, mem.value, Bytes(s1, pte.ppn));
            var s3 := SetPt(s2, p, s2.procs[p].pt[v := Pte(mem.value, true, false, true)]);
            (Decref(s3, pte.ppn), mem)
        else
          (SetPt(s, p, s.procs[p].pt[v := pte.(w := true, cow := false)]), Some(pte.ppn))
      else (s, None)
  }

  function Splice(page: Page, off: nat, src: seq<Byte>): Page
    requires off + |src| <= PGSIZE
  {
    page[..off] + src + page[off + |src|..]
  }

  /** Bytes that fit from dst to the end of its page. */
  function Chunk(dst: nat, len: nat): nat {
    if PGSIZE - dst % PGSIZE > len then len else PGSIZE - dst % PGSIZE
  }

  /** walkaddr, or else vmfault: the page to copy to or from. */
  function Resolve(s: State, p: nat, v: nat, c: Choice): (r: (State, Option<nat>))
    requires p in s.procs
    ensures p in r.0.procs
    ensures r.1.Some? ==> v in r.0.procs[p].pt
  {
    if v < MAXVPN && v in s.procs[p].pt && s.procs[p].pt[v].u then (s, Some(s.procs[p].pt[v].ppn))
    else VmFault(s, p, v * PGSIZE, c)
  }

  /** copyout: the state, the bytes stored before it stopped, and whether it returned 0. */
  function CopyOut(s: State, p: nat, dst: nat, src: seq<Byte>, cs: Choices): (r: (State, nat, bool))
    requires p in s.procs
    decreases |src|
  {
    if |src| == 0 then (s, 0, true)
    else
      var v := dst / PGSIZE;
      if v >= MAXVPN then (s, 0, false)
      else
        var (s1, pa) := Resolve(s, p, v, At(cs, 0));
        if pa.None? then (s1, 0, false)
        else if !s1.procs[p].pt[v].w then (s1, 0, false)
        else
          var n := Chunk(dst, |src|);
          var s2 := SetBytes(s1, pa.value, Splice(Bytes(s1, pa.value), dst % PGSIZE, src[..n]));
          var (s3, k, ok) := CopyOut(s2, p, (v + 1) * PGSIZE, src[n..], Rest(cs));
          (s3, n + k, ok)
  }

  /** copyin: the state, the bytes read, and whether it returned 0. */
  function CopyIn(s: State, p: nat, srcva: nat, len: nat, cs: Choices): (r: (State, seq<Byte>, bool))
    requires p in s.procs
    decreases len
  {
    if len == 0 then (s, [], true)
    else
      var v := srcva / PGSIZE;
      var (s1, pa) := Resolve(s, p, v, At(cs, 0));
      if pa.None? then (s1, [], false)
      else
        var n := Chunk(srcva, len);
        var off := srcva % PGSIZE;
        var (s2, rest, ok) := CopyIn(s1, p, (v + 1) * PGSIZE, len - n, Rest(cs));
        (s2, Bytes(s1, pa.value)[off..off + n] + rest, ok)
  }

  /** A store instruction on a page the hardware lets the process write. */
  function Store(s: State, p: nat, va: nat, b: Byte): (State, bool)
    requires p in s.procs
  {
    var v := va / PGSIZE;
    if v in s.procs[p].pt && s.procs[p].pt[v].u && s.procs[p].pt[v].w then
      var a := s.procs[p].pt[v].ppn;
      (SetBytes(s, a, Bytes(s, a)[va % PGSIZE := b]), true)
    else (s, false)
  }

  // ---------------------------------------------------------------------
  // Runs

  datatype Op =
    | SpawnOp(pid: nat, tables: set<nat>, ok: bool)
    | ForkOp(parent: nat, child: nat, tables: set<nat>, ok: bool, cs: Choices)
    | FaultOp(pid: nat, va: nat, c: Choice)
    | StoreOp(pid: nat, va: nat, b: Byte)
    | CopyOutOp(pid: nat, dst: nat, src: seq<Byte>, cs: Choices)
    | CopyInOp(pid: nat, srcva: nat, len: nat, cs: Choices)
    | GrowOp(pid: nat, n: nat, w: bool, cs: Choices)
    | GrowLazyOp(pid: nat, n: nat)
    | ShrinkOp(pid: nat, n: nat)
    | ExitOp(pid: nat)

  datatype Result = Failed | Done | Wrote(n: nat) | Read(bytes: seq<Byte>)

  /** growproc with a positive n. */
  function Grow(s: State, p: nat, n: nat, w: bool, cs: Choices): (State, bool)
    requires p in s.procs
  {
    var sz := s.procs[p].sz;
    if sz + n > TRAPVPN * PGSIZE then (s, false)
    else
      var (s1, ok) := UvmAlloc(s, p, NPages(sz), NPages(sz), NPages(sz + n), w, cs);
      if ok then (SetSz(s1, p, sz + n), true) else (s1, false)
  }

  /** growproc with a negative n: a shrink below zero wraps around and changes nothing. */
  function Shrink(s: State, p: nat, n: nat): State
    requires p in s.procs
  {
    var sz := s.procs[p].sz;
    if n > sz then s else SetSz(UvmDealloc(s, p, sz, sz - n), p, sz - n)
  }

  function Exec(s: State, op: Op): (State, Result) {
    match op
    case SpawnOp(p, t, ok) =>
      if p in s.procs then (s, Failed) else if ok then (NewProc(s, p, t), Done) else (FreeProc(NewProc(s, p, t), p), Failed)
    case ForkOp(p, c, t, ok, cs) =>
      if p !in s.procs || c in s.procs then (s, Failed)
      else var (s1, r) := Fork(s, p, c, t, ok, cs); (s1, if r then Done else Failed)
    case FaultOp(p, va, c) =>
      if p !in s.procs then (s, Failed)
      else var (s1, r) := VmFault(s, p, va, c); (s1, if r.Some? then Done else Failed)
    case StoreOp(p, va, b) =>
      if p !in s.procs then (s, Failed)
      else var (s1, r) := Store(s, p, va, b); (s1, if r then Done else Failed)
    case CopyOutOp(p, dst, src, cs) =>
      if p !in s.procs then (s, Failed)
      else var (s1, k, _) := CopyOut(s, p, dst, src, cs); (s1, Wrote(k))
    case CopyInOp(p, srcva, len, cs) =>
      if p !in s.procs then (s, Failed)
      else var (s1, bytes, _) := CopyIn(s, p, srcva, len, cs); (s1, Read(bytes))
    case GrowOp(p, n, w, cs) =>
      if p !in s.procs then (s, Failed)
      else var (s1, r) := Grow(s, p, n, w, cs); (s1, if r then Done else Failed)
    case GrowLazyOp(p, n) =>
      if p !in s.procs || s.procs[p].sz + n > TRAPVPN * PGSIZE then (s, Failed)
      else (SetSz(s, p, s.procs[p].sz + n), Done)
    case ShrinkOp(p, n) =>
      if p !in s.procs then (s, Failed) else (Shrink(s, p, n), Done)
    case ExitOp(p) =>
      if p !in s.procs then (s, Failed) else (FreeProc(s, p), Done)
  }
}
