/**
 When the operations of copy-on-write memory succeed: the refinement in
 CowRuns says what they change, this says that they do not fail without need.
 */
module CowProgress {
  import opened Common
  import opened CowMemory

  /** The process may read page v, or write it, without a fault. */
  predicate Readable(s: State, p: nat, v: nat) { p in s.procs && v < MAXVPN && v in s.procs[p].pt && s.procs[p].pt[v].u }

  predicate Writable(s: State, p: nat, v: nat) { Readable(s, p, v) && s.procs[p].pt[v].w }

  /** Bytes beyond the first page start at its end. */
  lemma NextPage(va: nat, len: nat)
    requires len > 0
    ensures Chunk(va, len) <= len && 0 < Chunk(va, len) && va % PGSIZE + Chunk(va, len) <= PGSIZE
    ensures Chunk(va, len) < len ==> va + Chunk(va, len) == (va / PGSIZE + 1) * PGSIZE
  {
  }

  lemma ResolveMapped(s: State, p: nat, v: nat, c: Choice)
    requires Readable(s, p, v)
    ensures Resolve(s, p, v, c) == (s, Some(s.procs[p].pt[v].ppn))
  {
  }

  /** copyin from pages that are there reads everything and changes nothing. */
  lemma {:induction false} CopyInMapped(s: State, p: nat, srcva: nat, len: nat, cs: Choices)
    requires p in s.procs && forall a: nat :: srcva <= a < srcva + len ==> Readable(s, p, PageOf(a))
    ensures var r := CopyIn(s, p, srcva, len, cs); r.2 && r.0 == s && |r.1| == len
    decreases len
  {
    hide VmFault, Bytes, Chunk, Resolve;
    if len > 0 {
      NextPage(srcva, len);
      var n := Chunk(srcva, len);
      assert Readable(s, p, PageOf(srcva));
      ResolveMapped(s, p, PageOf(srcva), At(cs, 0));
      CopyInMapped(s, p, (srcva / PGSIZE + 1) * PGSIZE, len - n, Rest(cs));
    }
  }

  /** copyout to writable pages stores everything. */
  lemma {:induction false} CopyOutMapped(s: State, p: nat, dst: nat, src: seq<Byte>, cs: Choices)
    requires p in s.procs && forall a: nat :: dst <= a < dst + |src| ==> Writable(s, p, PageOf(a))
    ensures var r := CopyOut(s, p, dst, src, cs); r.2 && r.1 == |src|
    decreases |src|
  {
    hide VmFault, Bytes, Resolve;
    if |src| > 0 {
      NextPage(dst, |src|);
      var n, v := Chunk(dst, |src|), dst / PGSIZE;
      assert Writable(s, p, PageOf(dst));
      ResolveMapped(s, p, v, At(cs, 0));
      var pa := s.procs[p].pt[v].ppn;
      var s2 := SetBytes(s, pa, Splice(Bytes(s, pa), dst % PGSIZE, src[..n]));
      assert forall u: nat :: Writable(s2, p, u) <==> Writable(s, p, u);
      CopyOutMapped(s2, p, (v + 1) * PGSIZE, src[n..], Rest(cs));
    }
  }

  /** copyout to a page that is still shared returns -1 without copying it. */
  lemma CopyOutShared(s: State, p: nat, dst: nat, src: seq<Byte>, cs: Choices)
    requires |src| > 0 && Readable(s, p, PageOf(dst)) && !s.procs[p].pt[PageOf(dst)].w
    ensures CopyOut(s, p, dst, src, cs) == (s, 0, false)
  {
  }

  /** uvmcopy fails only if a page-table page of the child cannot be had. */
  lemma {:induction false} UvmCopySucceeds(s: State, p: nat, c: nat, v: nat, end: nat, cs: Choices)
    requires p in s.procs && c in s.procs && p != c && v <= end
    requires (forall u :: u in s.procs[c].pt ==> u < v) && forall i: nat :: i < end - v ==> At(cs, i).ok
    ensures UvmCopy(s, p, c, v, end, cs).1
    decreases end - v
  {
    if v < end {
      assert At(cs, 0).ok;
      var s1 := ShareOne(s, p, c, v, At(cs, 0)).0;
      forall i: nat | i < end - (v + 1) ensures At(Rest(cs), i).ok { assert At(Rest(cs), i) == At(cs, i + 1); }
      UvmCopySucceeds(s1, p, c, v + 1, end, Rest(cs));
    }
  }

  /** So does fork, apart from the new process's own pages. */
  lemma ForkSucceeds(s: State, p: nat, c: nat, t: set<nat>, cs: Choices)
    requires p in s.procs && c !in s.procs && forall i: nat :: i < NPages(s.procs[p].sz) ==> At(cs, i).ok
    ensures Fork(s, p, c, t, true, cs).1
  {
    UvmCopySucceeds(NewProc(s, c, t), p, c, 0, NPages(s.procs[p].sz), cs);
  }

  // ---------------------------------------------------------------------
  // Growth

  /** The process has page v, with PTE_W as asked for. */
  predicate Given(s: State, p: nat, v: nat, w: bool) { Readable(s, p, v) && s.procs[p].pt[v].w == w }

  lemma MapNewGives(s: State, p: nat, v: nat, w: bool, c: Choice, u: nat)
    requires p in s.procs && v < MAXVPN && MapNew(s, p, v, w, c).1.Some?
    ensures u == v || Given(s, p, u, w) ==> Given(MapNew(s, p, v, w, c).0, p, u, w)
  {
  }

  lemma {:induction false} UvmAllocGives(s: State, p: nat, first: nat, v: nat, end: nat, w: bool, cs: Choices, u: nat)
    requires p in s.procs && first <= v && end <= MAXVPN && UvmAlloc(s, p, first, v, end, w, cs).1
    requires v <= u < end || Given(s, p, u, w)
    ensures Given(UvmAlloc(s, p, first, v, end, w, cs).0, p, u, w)
    decreases end - v
  {
    hide MapNew, UvmUnmap, Given;
    if v < end {
      MapNewGives(s, p, v, w, At(cs, 0), u);
      UvmAllocGives(MapNew(s, p, v, w, At(cs, 0)).0, p, first, v + 1, end, w, Rest(cs), u);
    }
  }

  /** A store to a page that growproc has just added succeeds exactly if the page was asked for with PTE_W. */
  lemma GrowThenStore(s: State, p: nat, n: nat, w: bool, cs: Choices, va: nat, b: Byte)
    requires p in s.procs && Grow(s, p, n, w, cs).1 && NPages(s.procs[p].sz) * PGSIZE <= va < NPages(s.procs[p].sz + n) * PGSIZE
    ensures var t := Grow(s, p, n, w, cs).0; p in t.procs && t.procs[p].sz == s.procs[p].sz + n && (Store(t, p, va, b).1 <==> w)
  {
    hide UvmAlloc;
    var sz, v := s.procs[p].sz, va / PGSIZE;
    assert NPages(sz) <= v < NPages(sz + n) <= TRAPVPN;
    UvmAllocGives(s, p, NPages(sz), NPages(sz), NPages(sz + n), w, cs, v);
  }
}
