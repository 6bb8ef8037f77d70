/**
 The main theorems on copy-on-write memory: every operation keeps the
 reference-count invariant and has its eager effect on private memories, and
 so does every run.
 */
module CowRuns {
  import opened Common
  import opened CowMemory
  import opened CowInvariant
  import opened CowRefinement

  ghost predicate Valid(s: State) { Inv(s) && Bounded(s) }

  // ---------------------------------------------------------------------
  // fork

  ghost predicate Forked(s: State, s': State, p: nat, c: nat, ok: bool)
    requires p in s.procs && c !in s.procs
  {
    && s'.procs.Keys == s.procs.Keys + (if ok then {c} else {})
    && SameKeys(s, s', c)
    && (forall q :: q in s.procs ==> s'.procs[q].sz == s.procs[q].sz)
    && (forall q, u: nat :: q in s.procs ==> Contents(s', q, u) == Contents(s, q, u))
    && (ok ==>
          && s'.procs[c].sz == s.procs[p].sz
          && Below(s'.procs[c])
          && (forall u: nat :: u < NPages(s.procs[p].sz) ==> Contents(s', c, u) == Contents(s, p, u)))
  }

  lemma NewProcContents(s: State, c: nat, t: set<nat>)
    requires Inv(s) && c !in s.procs
    ensures var s1 := NewProc(s, c, t);
            && s1.procs.Keys == s.procs.Keys + {c}
            && s1.procs[c].pt == map[] && s1.procs[c].sz == 0
            && SameKeys(s, s1, c)
            && (forall q :: q in s.procs ==> s1.procs[q].sz == s.procs[q].sz)
            && (forall q, u: nat :: q in s.procs ==> Contents(s1, q, u) == Contents(s, q, u))
  {
    hide Counted;
    var s1 := NewProc(s, c, t);
    forall q, u: nat | q in s.procs ensures Contents(s1, q, u) == Contents(s, q, u) {
      if u in s.procs[q].pt { LeafHolds(s, q, u); }
    }
  }

  lemma ForkEffect(s: State, p: nat, c: nat, t: set<nat>, ok: bool, cs: Choices)
    requires Inv(s) && p in s.procs && c !in s.procs
    ensures Inv(Fork(s, p, c, t, ok, cs).0)
    ensures Forked(s, Fork(s, p, c, t, ok, cs).0, p, c, Fork(s, p, c, t, ok, cs).1)
  {
    hide Inv, Forked, NewProc, FreeProc, UvmCopy, Copied, Gone, Contents, SameKeys, SetSz;
    var s1 := NewProc(s, c, t);
    NewProcInv(s, c, t);
    NewProcContents(s, c, t);
    if !ok {
      SameKeysRefl(s1, c);
      FreeProcEffect(s1, c);
      ForkUndone(s, s1, s1, FreeProc(s1, c), p, c);
    } else {
      var n := NPages(s.procs[p].sz);
      var s2 := UvmCopy(s1, p, c, 0, n, cs).0;
      UvmCopyEffect(s1, p, c, 0, n, cs);
      CopiedKeys(s1, s2, UvmCopy(s1, p, c, 0, n, cs).1, p, c, n);
      if UvmCopy(s1, p, c, 0, n, cs).1 {
        SetSzInv(s2, c, s.procs[p].sz);
        ForkDone(s, s1, s2, p, c);
      } else {
        FreeProcEffect(s2, c);
        ForkUndone(s, s1, s2, FreeProc(s2, c), p, c);
      }
    }
  }

  lemma SameKeysRefl(s: State, p: nat)
    ensures SameKeys(s, s, p)
  {
  }

  lemma CopiedKeys(s1: State, s2: State, ok: bool, p: nat, c: nat, n: nat)
    requires p in s1.procs && c in s1.procs && p != c && Copied(s1, s2, ok, p, c, 0, n)
    ensures c in s2.procs && p in s2.procs && (!ok ==> s2.procs[c].pt == map[])
    ensures forall q :: q in s1.procs ==> q in s2.procs && s2.procs[q].sz == s1.procs[q].sz
    ensures s2.procs.Keys == s1.procs.Keys && SameKeys(s1, s2, c)
    ensures forall q, u: nat :: q in s1.procs && q != c ==> Contents(s2, q, u) == Contents(s1, q, u)
  {
    hide Contents;
  }

  lemma ForkUndone(s: State, s1: State, s2: State, s': State, p: nat, c: nat)
    requires p in s.procs && c !in s.procs
    requires s1.procs.Keys == s.procs.Keys + {c} && SameKeys(s, s1, c)
    requires forall q :: q in s.procs ==> s1.procs[q].sz == s.procs[q].sz
    requires forall q, u: nat :: q in s.procs ==> Contents(s1, q, u) == Contents(s, q, u)
    requires s2.procs.Keys == s1.procs.Keys && SameKeys(s1, s2, c)
    requires forall q :: q in s1.procs ==> q in s2.procs && s2.procs[q].sz == s1.procs[q].sz
    requires forall q, u: nat :: q in s1.procs && q != c ==> Contents(s2, q, u) == Contents(s1, q, u)
    requires Gone(s2, s', c)
    ensures Forked(s, s', p, c, false)
  {
    hide Contents;
    forall q, u: nat | q in s.procs ensures Contents(s', q, u) == Contents(s, q, u) {
      assert Contents(s2, q, u) == Contents(s1, q, u);
    }
    forall q | q in s.procs && q in s'.procs && q != c ensures s'.procs[q].pt.Keys == s.procs[q].pt.Keys {
      assert s2.procs[q].pt.Keys == s1.procs[q].pt.Keys;
    }
  }

  lemma ForkDone(s: State, s1: State, s2: State, p: nat, c: nat)
    requires p in s.procs && c !in s.procs
    requires s1.procs.Keys == s.procs.Keys + {c} && SameKeys(s, s1, c)
    requires forall q :: q in s.procs ==> s1.procs[q].sz == s.procs[q].sz
    requires forall q, u: nat :: q in s.procs ==> Contents(s1, q, u) == Contents(s, q, u)
    requires Copied(s1, s2, true, p, c, 0, NPages(s.procs[p].sz))
    ensures Forked(s, SetSz(s2, c, s.procs[p].sz), p, c, true)
  {
    var s' := SetSz(s2, c, s.procs[p].sz);
    forall q, u: nat | q in s.procs || q == c ensures Contents(s', q, u) == Contents(s2, q, u) {}
    ForkDoneContents(s, s1, s2, s', p, c);
  }

  lemma ForkDoneContents(s: State, s1: State, s2: State, s': State, p: nat, c: nat)
    requires p in s.procs && c !in s.procs
    requires s1.procs.Keys == s.procs.Keys + {c} && SameKeys(s, s1, c)
    requires forall q :: q in s.procs ==> s1.procs[q].sz == s.procs[q].sz
    requires forall q, u: nat :: q in s.procs ==> Contents(s1, q, u) == Contents(s, q, u)
    requires Copied(s1, s2, true, p, c, 0, NPages(s.procs[p].sz))
    requires s' == SetSz(s2, c, s.procs[p].sz)
    requires forall q, u: nat :: q in s.procs || q == c ==> Contents(s', q, u) == Contents(s2, q, u)
    ensures Forked(s, s', p, c, true)
  {
    hide Contents;
    forall q, u: nat | q in s.procs ensures Contents(s', q, u) == Contents(s, q, u) {
      assert Contents(s2, q, u) == Contents(s1, q, u);
    }
    forall u: nat | u < NPages(s.procs[p].sz) ensures Contents(s', c, u) == Contents(s, p, u) {
      assert Contents(s2, c, u) == Contents(s1, p, u);
    }
  }

  // ---------------------------------------------------------------------
  // vmfault

  /** A fault changes what nobody reads; it may add the leaf of the faulting page. */
  ghost predicate Faulted(s: State, s': State, p: nat, v: nat)
    requires p in s.procs
  {
    && Same(s, s')
    && SameKeys(s, s', p)
    && (forall u :: u in s'.procs[p].pt ==> u in s.procs[p].pt || u == v)
  }

  lemma VmFaultEffect(s: State, p: nat, va: nat, c: Choice)
    requires Inv(s) && p in s.procs
    ensures Inv(VmFault(s, p, va, c).0)
    ensures Faulted(s, VmFault(s, p, va, c).0, p, va / PGSIZE)
    ensures VmFault(s, p, va, c).1.Some? ==>
              va < s.procs[p].sz && VmFault(s, p, va, c).0.procs[p].pt[va / PGSIZE].ppn == VmFault(s, p, va, c).1.value
              && VmFault(s, p, va, c).0.procs[p].pt[va / PGSIZE].w
  {
    hide Inv, Same, SameKeys, MapNew;
    FaultedRefl(s, p, va / PGSIZE);
    var v := va / PGSIZE;
    if va < s.procs[p].sz {
      if v !in s.procs[p].pt {
        MapNewEffect(s, p, v, true, c);
        AddedFaulted(s, MapNew(s, p, v, true, c).0, p, v, MapNew(s, p, v, true, c).1.Some?);
      } else {
        var pte := s.procs[p].pt[v];
        if pte.cow && !pte.w {
          if Count(s, pte.ppn) > 1 {
            if c.mem.Some? && c.mem.value in s.free {
              var copy := Pte(c.mem.value, true, false, true);
              LeafHolds(s, p, v);
              CopyBranch(s, p, va, c);
              CopyLeafInv(s, p, v, copy, Bytes(s, pte.ppn));
              CopyLeafSame(s, p, v, copy);
              CopyFaulted(s, p, v, copy);
            }
          } else {
            LeafHolds(s, p, v);
            SetFlagsInv(s, p, v, pte.(w := true, cow := false));
            SetFlagsSame(s, p, v, pte.(w := true, cow := false));
            FlagsFaulted(s, p, v, pte.(w := true, cow := false));
          }
        }
      }
    }
  }

  lemma FaultedRefl(s: State, p: nat, v: nat)
    requires p in s.procs
    ensures Faulted(s, s, p, v)
  {
  }

  lemma AddedFaulted(s: State, s': State, p: nat, v: nat, ok: bool)
    requires p in s.procs && Added(s, s', p, v, ok)
    ensures Faulted(s, s', p, v)
  {
  }

  lemma FlagsFaulted(s: State, p: nat, v: nat, pte: Pte)
    requires p in s.procs && v in s.procs[p].pt && Same(s, SetPt(s, p, s.procs[p].pt[v := pte]))
    ensures Faulted(s, SetPt(s, p, s.procs[p].pt[v := pte]), p, v)
  {
  }

  lemma CopyFaulted(s: State, p: nat, v: nat, pte: Pte)
    requires p in s.procs && v in s.procs[p].pt && Same(s, CopyLeaf(s, p, v, pte, Bytes(s, s.procs[p].pt[v].ppn)))
    ensures Faulted(s, CopyLeaf(s, p, v, pte, Bytes(s, s.procs[p].pt[v].ppn)), p, v)
  {
  }

  lemma CopyBranch(s: State, p: nat, va: nat, c: Choice)
    requires p in s.procs && va / PGSIZE in s.procs[p].pt && va < s.procs[p].sz
    requires var pte := s.procs[p].pt[va / PGSIZE];
             pte.cow && !pte.w && Count(s, pte.ppn) > 1 && c.mem.Some? && c.mem.value in s.free && c.mem.value != pte.ppn
    ensures VmFault(s, p, va, c) ==
            (CopyLeaf(s, p, va / PGSIZE, Pte(c.mem.value, true, false, true), Bytes(s, s.procs[p].pt[va / PGSIZE].ppn)), c.mem)
  {
    var v := va / PGSIZE;
    var pte := s.procs[p].pt[v];
    var a := c.mem.value;
    var s1 := Kalloc(s, c.mem).0;
    assert Bytes(s1, pte.ppn) == Bytes(s, pte.ppn);
    assert s1.pages[a := Bytes(s, pte.ppn)] == s.pages[a := Bytes(s, pte.ppn)];
  }

  // ---------------------------------------------------------------------
  // copyout and copyin

  ghost function ByteOf(s: State, p: nat, addr: nat): Byte
    requires p in s.procs
  {
    Contents(s, p, addr / PGSIZE)[addr % PGSIZE]
  }

  /** The first k bytes of src are at dst, and nothing else reads differently. */
  ghost predicate Poked(s: State, s': State, p: nat, dst: nat, src: seq<Byte>, k: nat)
    requires p in s.procs
  {
    && k <= |src|
    && SameSizes(s, s')
    && SameKeys(s, s', p)
    && (forall u :: u in s'.procs[p].pt ==> u in s.procs[p].pt || u < NPages(s.procs[p].sz))
    && (forall q, u: nat :: q in s.procs && q != p ==> Contents(s', q, u) == Contents(s, q, u))
    && (forall addr: nat :: ByteOf(s', p, addr) == if dst <= addr < dst + k then src[addr - dst] else ByteOf(s, p, addr))
    && (forall addr: nat :: dst <= addr < dst + k ==> PageOf(addr) < NPages(s.procs[p].sz))
  }

  lemma PokedNone(s: State, s': State, p: nat, v: nat, dst: nat, src: seq<Byte>)
    requires p in s.procs && Faulted(s, s', p, v) && (v in s'.procs[p].pt && v !in s.procs[p].pt ==> v < NPages(s.procs[p].sz))
    ensures Poked(s, s', p, dst, src, 0)
  {
  }

  lemma ResolveEffect(s: State, p: nat, v: nat, c: Choice)
    requires Inv(s) && p in s.procs && Below(s.procs[p])
    ensures Inv(Resolve(s, p, v, c).0)
    ensures Faulted(s, Resolve(s, p, v, c).0, p, v)
    ensures Below(Resolve(s, p, v, c).0.procs[p])
    ensures Resolve(s, p, v, c).1.Some? ==>
              v in Resolve(s, p, v, c).0.procs[p].pt
              && Resolve(s, p, v, c).0.procs[p].pt[v].ppn == Resolve(s, p, v, c).1.value
              && v < NPages(s.procs[p].sz)
  {
    hide Inv, Faulted, VmFault;
    FaultedRefl(s, p, v);
    if !(v < MAXVPN && v in s.procs[p].pt && s.procs[p].pt[v].u) {
      VmFaultEffect(s, p, v * PGSIZE, c);
      FaultBelow(s, p, v, c);
    }
  }

  lemma FaultBelow(s: State, p: nat, v: nat, c: Choice)
    requires p in s.procs && Below(s.procs[p]) && Faulted(s, VmFault(s, p, v * PGSIZE, c).0, p, v)
    ensures Below(VmFault(s, p, v * PGSIZE, c).0.procs[p])
  {
    if v * PGSIZE < s.procs[p].sz {
      assert v < NPages(s.procs[p].sz);
    }
  }

  lemma {:induction false} CopyOutEffect(s: State, p: nat, dst: nat, src: seq<Byte>, cs: Choices)
    requires Inv(s) && p in s.procs && Below(s.procs[p])
    ensures Inv(CopyOut(s, p, dst, src, cs).0)
    ensures Poked(s, CopyOut(s, p, dst, src, cs).0, p, dst, src, CopyOut(s, p, dst, src, cs).1)
    ensures CopyOut(s, p, dst, src, cs).2 <==> CopyOut(s, p, dst, src, cs).1 == |src|
    decreases |src|
  {
    hide Inv, Faulted, Below, Poked, Only, Resolve, SetBytes, Bytes, Splice, Same;
    var v := dst / PGSIZE;
    FaultedRefl(s, p, v);
    PokedNone(s, s, p, v, dst, src);
    if |src| > 0 && v < MAXVPN {
      var s1 := Resolve(s, p, v, At(cs, 0)).0;
      ResolveEffect(s, p, v, At(cs, 0));
      ResolvedNone(s, s1, p, v, dst, src);
      if Resolve(s, p, v, At(cs, 0)).1.Some? && s1.procs[p].pt[v].w {
        var n := Chunk(dst, |src|);
        var a := s1.procs[p].pt[v].ppn;
        var page := Splice(Bytes(s1, a), dst % PGSIZE, src[..n]);
        var s2 := SetBytes(s1, a, page);
        WriteOnly(s1, p, v, page);
        WriteProcs(s1, a, page);
        CopyOutEffect(s2, p, (v + 1) * PGSIZE, src[n..], Rest(cs));
        var r := CopyOut(s2, p, (v + 1) * PGSIZE, src[n..], Rest(cs));
        PokeNext(s, s1, s2, r.0, p, dst, src, r.1);
        assert CopyOut(s, p, dst, src, cs) == (r.0, n + r.1, r.2);
      }
    }
  }

  lemma ResolvedNone(s: State, s1: State, p: nat, v: nat, dst: nat, src: seq<Byte>)
    requires p in s.procs && Faulted(s, s1, p, v) && Below(s1.procs[p])
    ensures Poked(s, s1, p, dst, src, 0) && s1.procs[p].sz == s.procs[p].sz
  {
    PokedNone(s, s1, p, v, dst, src);
  }

  lemma WriteProcs(s: State, a: nat, page: Page)
    ensures SetBytes(s, a, page).procs == s.procs
  {
  }

  lemma PokeNext(s: State, s1: State, s2: State, s3: State, p: nat, dst: nat, src: seq<Byte>, k: nat)
    requires p in s.procs && |src| > 0
    requires var v := dst / PGSIZE; var n := Chunk(dst, |src|);
             && Faulted(s, s1, p, v) && Below(s1.procs[p]) && v in s1.procs[p].pt && v < NPages(s.procs[p].sz)
             && s2.procs == s1.procs
             && Only(s1, s2, p, v, Splice(Bytes(s1, s1.procs[p].pt[v].ppn), dst % PGSIZE, src[..n]))
             && Poked(s2, s3, p, (v + 1) * PGSIZE, src[n..], k)
    ensures Poked(s, s3, p, dst, src, Chunk(dst, |src|) + k)
  {
    var v := dst / PGSIZE;
    var n := Chunk(dst, |src|);
    forall addr: nat
      ensures ByteOf(s3, p, addr) == if dst <= addr < dst + n + k then src[addr - dst] else ByteOf(s, p, addr)
      ensures dst <= addr < dst + n + k ==> PageOf(addr) < NPages(s.procs[p].sz)
    {
      PokeByte(s, s1, s2, s3, p, dst, src, k, addr);
    }
    PokeOthers(s, s1, s2, s3, p, dst, src, k);
  }

  lemma PokeByte(s: State, s1: State, s2: State, s3: State, p: nat, dst: nat, src: seq<Byte>, k: nat, addr: nat)
    requires p in s.procs && |src| > 0
    requires var v := dst / PGSIZE; var n := Chunk(dst, |src|);
             && Faulted(s, s1, p, v) && v in s1.procs[p].pt && v < NPages(s.procs[p].sz)
             && Only(s1, s2, p, v, Splice(Bytes(s1, s1.procs[p].pt[v].ppn), dst % PGSIZE, src[..n]))
             && Poked(s2, s3, p, (v + 1) * PGSIZE, src[n..], k)
    ensures var n := Chunk(dst, |src|);
            && (ByteOf(s3, p, addr) == if dst <= addr < dst + n + k then src[addr - dst] else ByteOf(s, p, addr))
            && (dst <= addr < dst + n + k ==> PageOf(addr) < NPages(s.procs[p].sz))
  {
    var v := dst / PGSIZE;
    var n := Chunk(dst, |src|);
    var off := dst % PGSIZE;
    assert dst == v * PGSIZE + off;
    assert ByteOf(s2, p, addr) == if dst <= addr < dst + n then src[addr - dst] else ByteOf(s, p, addr) by {
      if addr / PGSIZE == v {
        assert addr % PGSIZE == addr - v * PGSIZE;
      }
    }
    if k > 0 {
      assert n == PGSIZE - off;
    }
  }

  lemma PokeOthers(s: State, s1: State, s2: State, s3: State, p: nat, dst: nat, src: seq<Byte>, k: nat)
    requires p in s.procs && |src| > 0
    requires var v := dst / PGSIZE; var n := Chunk(dst, |src|);
             && Faulted(s, s1, p, v) && Below(s1.procs[p]) && v in s1.procs[p].pt
             && s2.procs == s1.procs
             && Only(s1, s2, p, v, Splice(Bytes(s1, s1.procs[p].pt[v].ppn), dst % PGSIZE, src[..n]))
             && Poked(s2, s3, p, (v + 1) * PGSIZE, src[n..], k)
    ensures Chunk(dst, |src|) + k <= |src| && SameSizes(s, s3) && SameKeys(s, s3, p)
    ensures forall u :: u in s3.procs[p].pt ==> u in s.procs[p].pt || u < NPages(s.procs[p].sz)
    ensures forall q, u: nat :: q in s.procs && q != p ==> Contents(s3, q, u) == Contents(s, q, u)
  {
    hide Contents, Splice, Bytes, ByteOf;
    forall q, u: nat | q in s.procs && q != p ensures Contents(s3, q, u) == Contents(s, q, u) {
      assert Contents(s2, q, u) == Contents(s1, q, u);
    }
  }

  /** What copyin returned is what the process reads there. */
  ghost predicate Peeked(s: State, s': State, p: nat, srcva: nat, bytes: seq<Byte>)
    requires p in s.procs
  {
    && Same(s, s')
    && SameKeys(s, s', p)
    && (forall u :: u in s'.procs[p].pt ==> u in s.procs[p].pt || u < NPages(s.procs[p].sz))
    && (forall i :: 0 <= i < |bytes| ==> ReadsByte(s, p, srcva + i, bytes[i]))
  }

  /** x is the byte at address a of process p, and a is below its size. */
  ghost predicate ReadsByte(s: State, p: nat, a: nat, x: Byte)
    requires p in s.procs
  {
    x == ByteOf(s, p, a) && PageOf(a) < NPages(s.procs[p].sz)
  }

  lemma {:induction false} CopyInEffect(s: State, p: nat, srcva: nat, len: nat, cs: Choices)
    requires Inv(s) && p in s.procs && Below(s.procs[p])
    ensures Inv(CopyIn(s, p, srcva, len, cs).0)
    ensures Peeked(s, CopyIn(s, p, srcva, len, cs).0, p, srcva, CopyIn(s, p, srcva, len, cs).1)
    ensures |CopyIn(s, p, srcva, len, cs).1| <= len
    ensures CopyIn(s, p, srcva, len, cs).2 <==> |CopyIn(s, p, srcva, len, cs).1| == len
    decreases len
  {
    hide Inv, Faulted, Below, Peeked, Resolve, Same, Bytes, CopyIn;
    var v := srcva / PGSIZE;
    FaultedRefl(s, p, v);
    PeekedNone(s, s, p, v, srcva);
    CopyInTurn(s, p, srcva, len, cs);
    if len > 0 {
      var s1 := Resolve(s, p, v, At(cs, 0)).0;
      ResolveEffect(s, p, v, At(cs, 0));
      PeekedNone(s, s1, p, v, srcva);
      if Resolve(s, p, v, At(cs, 0)).1.Some? {
        var n := Chunk(srcva, len);
        CopyInEffect(s1, p, (v + 1) * PGSIZE, len - n, Rest(cs));
        var r := CopyIn(s1, p, (v + 1) * PGSIZE, len - n, Rest(cs));
        PeekNext(s, s1, r.0, p, srcva, len, r.1);
      }
    }
  }

  /** One turn of copyin's loop. */
  lemma CopyInTurn(s: State, p: nat, srcva: nat, len: nat, cs: Choices)
    requires p in s.procs
    ensures len == 0 ==> CopyIn(s, p, srcva, len, cs) == (s, [], true)
    ensures len > 0 ==>
              var (s1, pa) := Resolve(s, p, srcva / PGSIZE, At(cs, 0));
              if pa.None? then CopyIn(s, p, srcva, len, cs) == (s1, [], false)
              else
                var n, off := Chunk(srcva, len), srcva % PGSIZE;
                var (s2, rest, ok) := CopyIn(s1, p, (srcva / PGSIZE + 1) * PGSIZE, len - n, Rest(cs));
                CopyIn(s, p, srcva, len, cs) == (s2, Bytes(s1, pa.value)[off..off + n] + rest, ok)
  {
    hide Resolve, Bytes;
  }

  lemma PeekedNone(s: State, s1: State, p: nat, v: nat, srcva: nat)
    requires p in s.procs && Faulted(s, s1, p, v) && Below(s1.procs[p])
    ensures Peeked(s, s1, p, srcva, []) && s1.procs[p].sz == s.procs[p].sz
  {
  }

  lemma PeekNext(s: State, s1: State, s2: State, p: nat, srcva: nat, len: nat, rest: seq<Byte>)
    requires p in s.procs && len > 0
    requires var v := srcva / PGSIZE; var n := Chunk(srcva, len);
             && Faulted(s, s1, p, v) && Below(s1.procs[p]) && v in s1.procs[p].pt && v < NPages(s.procs[p].sz)
             && Peeked(s1, s2, p, (v + 1) * PGSIZE, rest)
             && |rest| <= len - n
    ensures var n := Chunk(srcva, len); var off := srcva % PGSIZE;
            Peeked(s, s2, p, srcva, Bytes(s1, s1.procs[p].pt[srcva / PGSIZE].ppn)[off..off + n] + rest)
  {
    PeekSame(s, s1, s2, p, srcva, len, rest);
    PeekBytes(s, s1, s2, p, srcva, len, rest);
  }

  lemma PeekSame(s: State, s1: State, s2: State, p: nat, srcva: nat, len: nat, rest: seq<Byte>)
    requires p in s.procs && len > 0
    requires var v := srcva / PGSIZE;
             && Faulted(s, s1, p, v) && Below(s1.procs[p]) && v in s1.procs[p].pt && v < NPages(s.procs[p].sz)
             && Peeked(s1, s2, p, (v + 1) * PGSIZE, rest)
    ensures Same(s, s2) && SameKeys(s, s2, p)
    ensures forall u :: u in s2.procs[p].pt ==> u in s.procs[p].pt || u < NPages(s.procs[p].sz)
  {
    hide Contents, ByteOf;
  }

  lemma PeekBytes(s: State, s1: State, s2: State, p: nat, srcva: nat, len: nat, rest: seq<Byte>)
    requires p in s.procs && len > 0
    requires var v := srcva / PGSIZE; var n := Chunk(srcva, len);
             && Faulted(s, s1, p, v) && v in s1.procs[p].pt && v < NPages(s.procs[p].sz)
             && Peeked(s1, s2, p, (v + 1) * PGSIZE, rest)
             && |rest| <= len - n
    ensures var n := Chunk(srcva, len); var off := srcva % PGSIZE;
            var bytes := Bytes(s1, s1.procs[p].pt[srcva / PGSIZE].ppn)[off..off + n] + rest;
            forall i :: 0 <= i < |bytes| ==> ReadsByte(s, p, srcva + i, bytes[i])
  {
    hide Faulted, Peeked, ReadsByte, Bytes;
    FaultedProc(s, s1, p, srcva / PGSIZE);
    var n := Chunk(srcva, len);
    var off := srcva % PGSIZE;
    var bytes := Bytes(s1, s1.procs[p].pt[srcva / PGSIZE].ppn)[off..off + n] + rest;
    forall i | 0 <= i < |bytes| ensures ReadsByte(s, p, srcva + i, bytes[i]) {
      if i < n { PeekFirst(s, s1, p, srcva, len, i); } else { PeekRest(s, s1, s2, p, srcva, len, rest, i); }
    }
  }

  lemma FaultedProc(s: State, s1: State, p: nat, v: nat)
    requires p in s.procs && Faulted(s, s1, p, v)
    ensures p in s1.procs
  {
  }

  lemma PeekRest(s: State, s1: State, s2: State, p: nat, srcva: nat, len: nat, rest: seq<Byte>, i: nat)
    requires p in s.procs && len > 0 && Chunk(srcva, len) <= i < Chunk(srcva, len) + |rest|
    requires var v := srcva / PGSIZE;
             Faulted(s, s1, p, v) && Peeked(s1, s2, p, (v + 1) * PGSIZE, rest) && |rest| <= len - Chunk(srcva, len)
    ensures ReadsByte(s, p, srcva + i, rest[i - Chunk(srcva, len)])
  {
    var v, n := srcva / PGSIZE, Chunk(srcva, len);
    assert srcva == v * PGSIZE + srcva % PGSIZE && n == PGSIZE - srcva % PGSIZE;
    var a := (v + 1) * PGSIZE + (i - n);
    assert a == srcva + i;
    assert ReadsByte(s1, p, a, rest[i - n]);
    assert ByteOf(s1, p, a) == ByteOf(s, p, a);
  }

  lemma PeekFirst(s: State, s1: State, p: nat, srcva: nat, len: nat, i: nat)
    requires p in s.procs && i < Chunk(srcva, len)
    requires var v := srcva / PGSIZE; Faulted(s, s1, p, v) && v in s1.procs[p].pt && v < NPages(s.procs[p].sz)
    ensures ReadsByte(s, p, srcva + i, Bytes(s1, s1.procs[p].pt[srcva / PGSIZE].ppn)[srcva % PGSIZE + i])
  {
    var v, off := srcva / PGSIZE, srcva % PGSIZE;
    assert srcva == v * PGSIZE + off;
    assert (srcva + i) / PGSIZE == v && (srcva + i) % PGSIZE == off + i;
  }

  // ---------------------------------------------------------------------
  // Views

  lemma ViewSame(s: State, s': State)
    requires Same(s, s')
    ensures ViewOf(s') == ViewOf(s)
  {
    hide Contents;
    forall q | q in s.procs ensures PrivateOf(s', q) == PrivateOf(s, q) {
      assert PrivateOf(s', q).mem == PrivateOf(s, q).mem;
    }
  }

  lemma ViewForked(s: State, s': State, p: nat, c: nat, ok: bool)
    requires p in s.procs && c !in s.procs && Forked(s, s', p, c, ok)
    ensures ViewOf(s') == if ok then ViewOf(s)[c := ViewOf(s)[p]] else ViewOf(s)
  {
    hide Contents;
    forall q | q in s.procs ensures PrivateOf(s', q) == PrivateOf(s, q) {
      assert PrivateOf(s', q).mem == PrivateOf(s, q).mem;
    }
    if ok {
      assert PrivateOf(s', c).mem == PrivateOf(s, p).mem;
    }
  }

  lemma ViewGone(s: State, s': State, p: nat)
    requires Gone(s, s', p)
    ensures ViewOf(s') == ViewOf(s) - {p}
  {
    hide Contents;
    forall q | q in s'.procs ensures PrivateOf(s', q) == PrivateOf(s, q) {
      assert PrivateOf(s', q).mem == PrivateOf(s, q).mem;
    }
  }

  lemma ViewPoked(s: State, s': State, p: nat, dst: nat, src: seq<Byte>, k: nat)
    requires p in s.procs && Poked(s, s', p, dst, src, k)
    ensures Covers(ViewOf(s)[p], dst, k)
    ensures ViewOf(s') == ViewOf(s)[p := Poke(ViewOf(s)[p], dst, src[..k])]
  {
    var m := PrivateOf(s, p);
    forall q | q in s.procs && q != p ensures PrivateOf(s', q) == PrivateOf(s, q) {
      PokedOther(s, s', p, dst, src, k, q);
    }
    PokedSelf(s, s', p, dst, src, k);
    forall x | dst <= x < dst + k ensures PageOf(x) in m.mem {
      var addr: nat := x;
      assert PageOf(addr) < NPages(s.procs[p].sz);
    }
  }

  lemma PokedOther(s: State, s': State, p: nat, dst: nat, src: seq<Byte>, k: nat, q: nat)
    requires p in s.procs && Poked(s, s', p, dst, src, k) && q in s.procs && q != p
    ensures PrivateOf(s', q) == PrivateOf(s, q)
  {
    hide Contents, ByteOf;
    assert PrivateOf(s', q).mem == PrivateOf(s, q).mem;
  }

  lemma PokedSelf(s: State, s': State, p: nat, dst: nat, src: seq<Byte>, k: nat)
    requires p in s.procs && Poked(s, s', p, dst, src, k)
    ensures PrivateOf(s', p) == Poke(PrivateOf(s, p), dst, src[..k])
  {
    var m := Poke(PrivateOf(s, p), dst, src[..k]);
    forall v | 0 <= v < NPages(s.procs[p].sz) ensures Contents(s', p, v) == m.mem[v] {
      PokedPage(s, s', p, dst, src, k, v);
    }
    assert PrivateOf(s', p).mem == m.mem;
  }

  lemma PokedPage(s: State, s': State, p: nat, dst: nat, src: seq<Byte>, k: nat, v: nat)
    requires p in s.procs && Poked(s, s', p, dst, src, k) && v < NPages(s.procs[p].sz)
    ensures Contents(s', p, v) == Poke(PrivateOf(s, p), dst, src[..k]).mem[v]
  {
    var page := Poke(PrivateOf(s, p), dst, src[..k]).mem[v];
    forall i | 0 <= i < PGSIZE ensures Contents(s', p, v)[i] == page[i] {
      var addr := v * PGSIZE + i;
      assert addr / PGSIZE == v && addr % PGSIZE == i;
      assert ByteOf(s', p, addr) == Contents(s', p, v)[i];
    }
  }

  lemma ViewPeeked(s: State, s': State, p: nat, srcva: nat, bytes: seq<Byte>)
    requires p in s.procs && Peeked(s, s', p, srcva, bytes)
    ensures ViewOf(s') == ViewOf(s)
    ensures Covers(ViewOf(s)[p], srcva, |bytes|)
    ensures bytes == Peek(ViewOf(s)[p], srcva, |bytes|)
  {
    ViewSame(s, s');
    forall x | srcva <= x < srcva + |bytes| ensures PageOf(x) in PrivateOf(s, p).mem {
      var i := x - srcva;
      assert bytes[i] == ByteOf(s, p, srcva + i);
    }
  }

  /** The size of p changes; pages below both sizes read as before, pages added read as zeros. */
  lemma ViewResized(s: State, s': State, p: nat, sz: nat)
    requires p in s.procs && s'.procs.Keys == s.procs.Keys && s'.procs[p].sz == sz
    requires forall q :: q in s.procs && q != p ==> s'.procs[q].sz == s.procs[q].sz
    requires forall q, u: nat :: q in s.procs && q != p ==> Contents(s', q, u) == Contents(s, q, u)
    requires forall u: nat :: u < NPages(sz) && u < NPages(s.procs[p].sz) ==> Contents(s', p, u) == Contents(s, p, u)
    requires forall u: nat :: NPages(s.procs[p].sz) <= u < NPages(sz) ==> Contents(s', p, u) == Fill(0)
    ensures ViewOf(s') == ViewOf(s)[p := Resize(ViewOf(s)[p], sz)]
  {
    hide Contents;
    forall q | q in s.procs && q != p ensures PrivateOf(s', q) == PrivateOf(s, q) {
      assert PrivateOf(s', q).mem == PrivateOf(s, q).mem;
    }
    assert PrivateOf(s', p).mem == Resize(PrivateOf(s, p), sz).mem;
  }

  // ---------------------------------------------------------------------
  // Growing and shrinking

  lemma GrowEffect(s: State, p: nat, n: nat, w: bool, cs: Choices)
    requires Valid(s) && p in s.procs
    ensures var (s', ok) := Grow(s, p, n, w, cs);
            Valid(s') && ViewOf(s') == if ok then ViewOf(s)[p := Resize(ViewOf(s)[p], s.procs[p].sz + n)] else ViewOf(s)
  {
    hide Inv, Growing, Grown, UvmAlloc, Bounded, ViewOf;
    var sz := s.procs[p].sz;
    if sz + n <= TRAPVPN * PGSIZE {
      BelowGrowing(s, p);
      UvmAllocEffect(s, p, NPages(sz), NPages(sz), NPages(sz + n), w, cs);
      var r := UvmAlloc(s, p, NPages(sz), NPages(sz), NPages(sz + n), w, cs);
      if r.1 {
        SetSzInv(r.0, p, sz + n);
        GrownView(s, r.0, p, n);
      } else {
        GrownNot(s, r.0, p, n);
      }
    }
  }

  lemma BelowGrowing(s: State, p: nat)
    requires Bounded(s) && p in s.procs
    ensures Growing(s, p, NPages(s.procs[p].sz), NPages(s.procs[p].sz))
  {
    assert Below(s.procs[p]);
  }

  lemma GrownNot(s: State, s1: State, p: nat, n: nat)
    requires Bounded(s) && p in s.procs
    requires Grown(s, s1, false, p, NPages(s.procs[p].sz), NPages(s.procs[p].sz), NPages(s.procs[p].sz + n))
    ensures Bounded(s1) && ViewOf(s1) == ViewOf(s)
  {
    ViewSame(s, s1);
    forall q | q in s1.procs ensures Below(s1.procs[q]) { assert Below(s.procs[q]); }
  }

  lemma GrownView(s: State, s1: State, p: nat, n: nat)
    requires Bounded(s) && p in s.procs
    requires Grown(s, s1, true, p, NPages(s.procs[p].sz), NPages(s.procs[p].sz), NPages(s.procs[p].sz + n))
    ensures var s' := SetSz(s1, p, s.procs[p].sz + n);
            Bounded(s') && ViewOf(s') == ViewOf(s)[p := Resize(ViewOf(s)[p], s.procs[p].sz + n)]
  {
    hide Contents, Bounded, ViewOf;
    var sz := s.procs[p].sz;
    GrownContents(s, s1, p, n);
    GrownBounded(s, s1, p, n);
    ViewResized(s, SetSz(s1, p, sz + n), p, sz + n);
  }

  lemma GrownBounded(s: State, s1: State, p: nat, n: nat)
    requires Bounded(s) && p in s.procs
    requires Grown(s, s1, true, p, NPages(s.procs[p].sz), NPages(s.procs[p].sz), NPages(s.procs[p].sz + n))
    ensures Bounded(SetSz(s1, p, s.procs[p].sz + n))
  {
    hide Contents;
    var s' := SetSz(s1, p, s.procs[p].sz + n);
    forall q | q in s'.procs ensures Below(s'.procs[q]) { assert Below(s.procs[q]); }
  }

  lemma GrownContents(s: State, s1: State, p: nat, n: nat)
    requires Bounded(s) && p in s.procs && Same(s, s1)
    ensures var s' := SetSz(s1, p, s.procs[p].sz + n);
            (forall q, u: nat :: q in s.procs ==> Contents(s', q, u) == Contents(s, q, u))
            && (forall u: nat :: u >= NPages(s.procs[p].sz) ==> Contents(s', p, u) == Fill(0))
  {
    var s' := SetSz(s1, p, s.procs[p].sz + n);
    forall q, u: nat | q in s.procs ensures Contents(s', q, u) == Contents(s, q, u) {
      assert Contents(s', q, u) == Contents(s1, q, u);
    }
    assert Below(s.procs[p]);
  }

  lemma GrowLazyEffect(s: State, p: nat, n: nat)
    requires Valid(s) && p in s.procs
    ensures var s' := SetSz(s, p, s.procs[p].sz + n);
            Valid(s') && ViewOf(s') == ViewOf(s)[p := Resize(ViewOf(s)[p], s.procs[p].sz + n)]
  {
    hide Inv;
    SetSzInv(s, p, s.procs[p].sz + n);
    LazyView(s, p, n);
  }

  lemma LazyView(s: State, p: nat, n: nat)
    requires Bounded(s) && p in s.procs
    ensures var s' := SetSz(s, p, s.procs[p].sz + n);
            Bounded(s') && ViewOf(s') == ViewOf(s)[p := Resize(ViewOf(s)[p], s.procs[p].sz + n)]
  {
    var s' := SetSz(s, p, s.procs[p].sz + n);
    assert Below(s.procs[p]);
    forall q, u: nat | q in s.procs ensures Contents(s', q, u) == Contents(s, q, u) {}
    ViewResized(s, s', p, s.procs[p].sz + n);
    forall q | q in s'.procs ensures Below(s'.procs[q]) { assert Below(s.procs[q]); }
  }

  lemma ShrinkEffect(s: State, p: nat, n: nat)
    requires Valid(s) && p in s.procs
    ensures Valid(Shrink(s, p, n))
    ensures ViewOf(Shrink(s, p, n)) == if n > s.procs[p].sz then ViewOf(s) else ViewOf(s)[p := Resize(ViewOf(s)[p], s.procs[p].sz - n)]
  {
    hide Inv, Cleared, UvmUnmap, Bounded, ViewOf;
    var sz := s.procs[p].sz;
    if n <= sz {
      var first := NPages(sz - n);
      var s1 := UvmUnmap(s, p, first, NPages(sz) - first);
      UvmUnmapEffect(s, p, first, NPages(sz) - first);
      SetSzInv(s1, p, sz - n);
      assert UvmDealloc(s, p, sz, sz - n) == s1 by { UnmapNone(s, p, first); }
      ShrinkView(s, s1, p, n);
    }
  }

  lemma UnmapNone(s: State, p: nat, v: nat)
    requires p in s.procs
    ensures UvmUnmap(s, p, v, 0) == s
  {
  }

  lemma ShrinkView(s: State, s1: State, p: nat, n: nat)
    requires Bounded(s) && p in s.procs && n <= s.procs[p].sz
    requires var sz := s.procs[p].sz; Cleared(s, s1, p, NPages(sz - n), NPages(sz) - NPages(sz - n))
    ensures var s' := SetSz(s1, p, s.procs[p].sz - n);
            Bounded(s') && ViewOf(s') == ViewOf(s)[p := Resize(ViewOf(s)[p], s.procs[p].sz - n)]
  {
    hide Contents, Bounded, ViewOf;
    var sz := s.procs[p].sz;
    ShrinkContents(s, s1, p, n);
    ShrinkBounded(s, s1, p, n);
    ViewResized(s, SetSz(s1, p, sz - n), p, sz - n);
  }

  lemma ShrinkContents(s: State, s1: State, p: nat, n: nat)
    requires p in s.procs && n <= s.procs[p].sz
    requires var sz := s.procs[p].sz; Cleared(s, s1, p, NPages(sz - n), NPages(sz) - NPages(sz - n))
    ensures var s' := SetSz(s1, p, s.procs[p].sz - n);
            forall q, u: nat :: q in s.procs && (q != p || u < NPages(s.procs[p].sz - n)) ==> Contents(s', q, u) == Contents(s, q, u)
  {
    var s' := SetSz(s1, p, s.procs[p].sz - n);
    forall q, u: nat | q in s.procs && (q != p || u < NPages(s.procs[p].sz - n)) ensures Contents(s', q, u) == Contents(s, q, u) {
      assert Contents(s', q, u) == Contents(s1, q, u);
    }
  }

  lemma ShrinkBounded(s: State, s1: State, p: nat, n: nat)
    requires Bounded(s) && p in s.procs && n <= s.procs[p].sz
    requires var sz := s.procs[p].sz; Cleared(s, s1, p, NPages(sz - n), NPages(sz) - NPages(sz - n))
    ensures Bounded(SetSz(s1, p, s.procs[p].sz - n))
  {
    hide Contents;
    var s' := SetSz(s1, p, s.procs[p].sz - n);
    forall q | q in s'.procs ensures Below(s'.procs[q]) { assert Below(s.procs[q]); }
  }

  // ---------------------------------------------------------------------
  // One operation

  lemma StoreEffect(s: State, p: nat, va: nat, b: Byte)
    requires Inv(s) && Bounded(s) && p in s.procs && Store(s, p, va, b).1
    ensures Inv(Store(s, p, va, b).0) && Poked(s, Store(s, p, va, b).0, p, va, [b], 1)
  {
    var v := va / PGSIZE;
    var a := s.procs[p].pt[v].ppn;
    var page := Bytes(s, a)[va % PGSIZE := b];
    hide Inv;
    WriteOnly(s, p, v, page);
    StorePoked(s, p, va, b);
  }

  lemma StorePoked(s: State, p: nat, va: nat, b: Byte)
    requires Bounded(s) && p in s.procs && va / PGSIZE in s.procs[p].pt
    requires var a := s.procs[p].pt[va / PGSIZE].ppn; var page := Bytes(s, a)[va % PGSIZE := b];
             Only(s, SetBytes(s, a, page), p, va / PGSIZE, page)
    ensures var a := s.procs[p].pt[va / PGSIZE].ppn; var page := Bytes(s, a)[va % PGSIZE := b];
            Poked(s, SetBytes(s, a, page), p, va, [b], 1)
  {
    var v := va / PGSIZE;
    var a := s.procs[p].pt[v].ppn;
    var page := Bytes(s, a)[va % PGSIZE := b];
    var s' := SetBytes(s, a, page);
    assert Below(s.procs[p]);
    forall addr: nat ensures ByteOf(s', p, addr) == if va <= addr < va + 1 then [b][addr - va] else ByteOf(s, p, addr) {
      if addr / PGSIZE == v && addr % PGSIZE == va % PGSIZE { assert addr == va; }
    }
  }

  lemma FaultedBounded(s: State, s': State, p: nat, v: nat)
    requires Bounded(s) && p in s.procs && Faulted(s, s', p, v) && (v in s'.procs[p].pt ==> v < NPages(s.procs[p].sz))
    ensures Bounded(s')
  {
    forall q | q in s'.procs ensures Below(s'.procs[q]) { assert Below(s.procs[q]); }
  }

  lemma KeysBounded(s: State, s': State, p: nat)
    requires Bounded(s) && p in s.procs && SameSizes(s, s') && SameKeys(s, s', p)
    requires forall u :: u in s'.procs[p].pt ==> u in s.procs[p].pt || u < NPages(s.procs[p].sz)
    ensures Bounded(s')
  {
    forall q | q in s'.procs ensures Below(s'.procs[q]) { assert Below(s.procs[q]); }
  }

  lemma ForkedBounded(s: State, s': State, p: nat, c: nat, ok: bool)
    requires Bounded(s) && p in s.procs && c !in s.procs && Forked(s, s', p, c, ok)
    ensures Bounded(s')
  {
    hide Contents;
    forall q | q in s'.procs ensures Below(s'.procs[q]) { if q in s.procs { assert Below(s.procs[q]); } }
  }

  lemma GoneBounded(s: State, s': State, p: nat)
    requires Bounded(s) && Gone(s, s', p)
    ensures Bounded(s')
  {
    hide Contents;
    forall q | q in s'.procs ensures Below(s'.procs[q]) { assert Below(s.procs[q]); }
  }

  /**
   A fault is the way to a store: on a page that is not there yet or shared
   copy-on-write it fails only for want of a page, and once it has succeeded
   the store that faulted succeeds, unless the page is not a user page.
   */
  lemma FaultThenStore(s: State, p: nat, va: nat, b: Byte, c: Choice)
    requires Inv(s) && p in s.procs && va < s.procs[p].sz
    requires var v := va / PGSIZE; v in s.procs[p].pt ==> s.procs[p].pt[v].cow && !s.procs[p].pt[v].w && s.procs[p].pt[v].u
    ensures VmFault(s, p, va, c).1.Some? ==> Store(VmFault(s, p, va, c).0, p, va, b).1
    ensures VmFault(s, p, va, c).1 == None ==>
              (c.mem.Some? ==> c.mem.value !in s.free) || (va / PGSIZE !in s.procs[p].pt && !c.ok)
  {
    hide Counted;
    var v := va / PGSIZE;
    if v !in s.procs[p].pt && c.mem.Some? && c.mem.value in s.free && c.ok {
      assert v !in AddTables(SetBytes(Kalloc(s, c.mem).0, c.mem.value, Fill(0)), p, c.tables).procs[p].pt;
    }
  }

  /**
   Every operation keeps the invariant and changes private memories as in the
   eager model: a fault changes nothing, a store or copyout changes the one
   process, a failed fork changes nothing.
   */
  lemma ExecRefines(s: State, op: Op)
    requires Valid(s)
    ensures Valid(Exec(s, op).0)
    ensures Eager(ViewOf(s), op, Exec(s, op).1, ViewOf(Exec(s, op).0))
  {
    hide Inv, Bounded, ViewOf, Fork, VmFault, CopyOut, CopyIn, Grow, Shrink, FreeProc, NewProc, Store, Poke, Peek, Resize, Covers;
    ViewKeys(s);
    match op
    case SpawnOp(p, t, ok) =>
      if p !in s.procs {
        SpawnRefines(s, p, t);
        ExitRefines(NewProc(s, p, t), p);
      }
    case ForkOp(p, c, t, ok, cs) =>
      if p in s.procs && c !in s.procs { ForkRefines(s, p, c, t, ok, cs); }
    case FaultOp(p, va, c) =>
      if p in s.procs { FaultRefines(s, p, va, c); }
    case StoreOp(p, va, b) =>
      if p in s.procs { StoreRefines(s, p, va, b); }
    case CopyOutOp(p, dst, src, cs) =>
      if p in s.procs { CopyOutRefines(s, p, dst, src, cs); }
    case CopyInOp(p, srcva, len, cs) =>
      if p in s.procs { CopyInRefines(s, p, srcva, len, cs); }
    case GrowOp(p, n, w, cs) =>
      if p in s.procs { GrowEffect(s, p, n, w, cs); }
    case GrowLazyOp(p, n) =>
      if p in s.procs { GrowLazyEffect(s, p, n); }
    case ShrinkOp(p, n) =>
      if p in s.procs { ShrinkEffect(s, p, n); }
    case ExitOp(p) =>
      if p in s.procs { ExitRefines(s, p); }
  }

  lemma ViewKeys(s: State)
    ensures forall p :: p in s.procs <==> p in ViewOf(s)
    ensures forall p :: p in s.procs ==> ViewOf(s)[p].sz == s.procs[p].sz
  {
  }

  lemma SpawnRefines(s: State, c: nat, t: set<nat>)
    requires Valid(s) && c !in s.procs
    ensures Valid(NewProc(s, c, t)) && ViewOf(NewProc(s, c, t)) == ViewOf(s)[c := Private(0, map[])]
  {
    hide Inv, NewProc, Contents, Bounded, ViewOf;
    NewProcInv(s, c, t);
    NewProcContents(s, c, t);
    SpawnBounded(s, NewProc(s, c, t), c);
    SpawnView(s, NewProc(s, c, t), c);
  }

  lemma SpawnBounded(s: State, s1: State, c: nat)
    requires Bounded(s) && s1.procs.Keys == s.procs.Keys + {c} && s1.procs[c].pt == map[] && SameKeys(s, s1, c)
    requires forall q :: q in s.procs ==> s1.procs[q].sz == s.procs[q].sz
    ensures Bounded(s1)
  {
    forall q | q in s1.procs ensures Below(s1.procs[q]) { if q in s.procs { assert Below(s.procs[q]); } }
  }

  lemma SpawnView(s: State, s1: State, c: nat)
    requires c !in s.procs && s1.procs.Keys == s.procs.Keys + {c} && s1.procs[c].sz == 0
    requires forall q :: q in s.procs ==> s1.procs[q].sz == s.procs[q].sz
    requires forall q, u: nat :: q in s.procs ==> Contents(s1, q, u) == Contents(s, q, u)
    ensures ViewOf(s1) == ViewOf(s)[c := Private(0, map[])]
  {
    hide Contents;
    forall q | q in s.procs ensures PrivateOf(s1, q) == PrivateOf(s, q) {
      assert PrivateOf(s1, q).mem == PrivateOf(s, q).mem;
    }
    assert PrivateOf(s1, c).mem == map[];
  }

  lemma ForkRefines(s: State, p: nat, c: nat, t: set<nat>, ok: bool, cs: Choices)
    requires Valid(s) && p in s.procs && c !in s.procs
    ensures var (s', r) := Fork(s, p, c, t, ok, cs);
            Valid(s') && p in ViewOf(s) && ViewOf(s') == if r then ViewOf(s)[c := ViewOf(s)[p]] else ViewOf(s)
  {
    hide Inv, Bounded, ViewOf, Fork, Forked;
    ViewKeys(s);
    ForkEffect(s, p, c, t, ok, cs);
    ForkedBounded(s, Fork(s, p, c, t, ok, cs).0, p, c, Fork(s, p, c, t, ok, cs).1);
    ViewForked(s, Fork(s, p, c, t, ok, cs).0, p, c, Fork(s, p, c, t, ok, cs).1);
  }

  lemma FaultRefines(s: State, p: nat, va: nat, c: Choice)
    requires Valid(s) && p in s.procs
    ensures Valid(VmFault(s, p, va, c).0) && ViewOf(VmFault(s, p, va, c).0) == ViewOf(s)
  {
    hide Inv, Bounded, ViewOf, VmFault, Same;
    VmFaultEffect(s, p, va, c);
    FaultKeys(s, p, va, c);
    FaultedBounded(s, VmFault(s, p, va, c).0, p, va / PGSIZE);
    ViewSame(s, VmFault(s, p, va, c).0);
  }

  lemma FaultKeys(s: State, p: nat, va: nat, c: Choice)
    requires Bounded(s) && p in s.procs
    ensures va / PGSIZE in VmFault(s, p, va, c).0.procs[p].pt ==> va / PGSIZE < NPages(s.procs[p].sz)
  {
    assert Below(s.procs[p]);
  }

  lemma StoreRefines(s: State, p: nat, va: nat, b: Byte)
    requires Valid(s) && p in s.procs
    ensures var (s', r) := Store(s, p, va, b);
            Valid(s') && p in ViewOf(s)
            && (if r then Covers(ViewOf(s)[p], va, 1) && ViewOf(s') == ViewOf(s)[p := Poke(ViewOf(s)[p], va, [b])] else s' == s)
  {
    hide Inv, Bounded, ViewOf, Poked, Poke, Covers;
    ViewKeys(s);
    if Store(s, p, va, b).1 {
      StoreEffect(s, p, va, b);
      PokedBounded(s, Store(s, p, va, b).0, p, va, [b], 1);
      ViewPoked(s, Store(s, p, va, b).0, p, va, [b], 1);
      assert [b][..1] == [b];
    }
  }

  lemma PokedBounded(s: State, s': State, p: nat, dst: nat, src: seq<Byte>, k: nat)
    requires Bounded(s) && p in s.procs && Poked(s, s', p, dst, src, k)
    ensures Bounded(s') && k <= |src|
  {
    hide Contents, ByteOf, Bounded;
    KeysBounded(s, s', p);
  }

  lemma CopyOutRefines(s: State, p: nat, dst: nat, src: seq<Byte>, cs: Choices)
    requires Valid(s) && p in s.procs
    ensures var (s', k, ok) := CopyOut(s, p, dst, src, cs);
            && Valid(s') && p in ViewOf(s) && k <= |src| && Covers(ViewOf(s)[p], dst, k)
            && ViewOf(s') == ViewOf(s)[p := Poke(ViewOf(s)[p], dst, src[..k])]
  {
    hide Inv, Bounded, ViewOf, Poked, CopyOut, Poke, Covers;
    ViewKeys(s);
    BoundedBelow(s, p);
    CopyOutEffect(s, p, dst, src, cs);
    PokedBounded(s, CopyOut(s, p, dst, src, cs).0, p, dst, src, CopyOut(s, p, dst, src, cs).1);
    ViewPoked(s, CopyOut(s, p, dst, src, cs).0, p, dst, src, CopyOut(s, p, dst, src, cs).1);
  }

  lemma BoundedBelow(s: State, p: nat)
    requires Bounded(s) && p in s.procs
    ensures Below(s.procs[p])
  {
  }

  lemma CopyInRefines(s: State, p: nat, srcva: nat, len: nat, cs: Choices)
    requires Valid(s) && p in s.procs
    ensures var (s', bytes, ok) := CopyIn(s, p, srcva, len, cs);
            && Valid(s') && p in ViewOf(s) && |bytes| <= len && Covers(ViewOf(s)[p], srcva, |bytes|)
            && bytes == Peek(ViewOf(s)[p], srcva, |bytes|) && ViewOf(s') == ViewOf(s)
  {
    hide Inv, Bounded, ViewOf, Peeked, CopyIn, Peek, Covers;
    ViewKeys(s);
    BoundedBelow(s, p);
    CopyInEffect(s, p, srcva, len, cs);
    PeekedBounded(s, CopyIn(s, p, srcva, len, cs).0, p, srcva, CopyIn(s, p, srcva, len, cs).1);
    ViewPeeked(s, CopyIn(s, p, srcva, len, cs).0, p, srcva, CopyIn(s, p, srcva, len, cs).1);
  }

  lemma PeekedBounded(s: State, s': State, p: nat, srcva: nat, bytes: seq<Byte>)
    requires Bounded(s) && p in s.procs && Peeked(s, s', p, srcva, bytes)
    ensures Bounded(s')
  {
    hide Contents, ByteOf, Bounded;
    KeysBounded(s, s', p);
  }

  lemma ExitRefines(s: State, p: nat)
    requires Valid(s) && p in s.procs
    ensures Valid(FreeProc(s, p)) && p in ViewOf(s) && ViewOf(FreeProc(s, p)) == ViewOf(s) - {p}
  {
    hide Inv, Bounded, ViewOf, Gone, FreeProc;
    ViewKeys(s);
    BoundedBelow(s, p);
    FreeProcEffect(s, p);
    GoneBounded(s, FreeProc(s, p), p);
    ViewGone(s, FreeProc(s, p), p);
  }

  // ---------------------------------------------------------------------
  // Whole runs

  /** The state and the outcomes after a sequence of operations. */
  function Run(s: State, ops: seq<Op>): (State, seq<Result>)
    decreases |ops|
  {
    if |ops| == 0 then (s, [])
    else
      var (s1, r) := Exec(s, ops[0]);
      var (s2, rs) := Run(s1, ops[1..]);
      (s2, [r] + rs)
  }

  /** The same operations with the same outcomes on private memories. */
  ghost predicate EagerRun(m: View, ops: seq<Op>, rs: seq<Result>, m': View)
    requires |rs| == |ops|
    decreases |ops|
  {
    if |ops| == 0 then m' == m
    else exists m1 :: Eager(m, ops[0], rs[0], m1) && EagerRun(m1, ops[1..], rs[1..], m')
  }

  /** Every run refines the eager run; no count is ever off, no kfree or decref of a zero count, no remap, no leaf in freewalk. */
  lemma {:induction false} RunRefines(s: State, ops: seq<Op>)
    requires Valid(s)
    ensures Valid(Run(s, ops).0) && !Run(s, ops).0.panicked
    ensures |Run(s, ops).1| == |ops| && EagerRun(ViewOf(s), ops, Run(s, ops).1, ViewOf(Run(s, ops).0))
    decreases |ops|
  {
    if |ops| > 0 {
      hide Exec, Eager, Shape, Counted, Bounded, ViewOf;
      var s1 := Exec(s, ops[0]).0;
      ExecRefines(s, ops[0]);
      RunRefines(s1, ops[1..]);
      assert Run(s, ops).1[1..] == Run(s1, ops[1..]).1;
      assert Eager(ViewOf(s), ops[0], Run(s, ops).1[0], ViewOf(s1));
    } else {
      NotPanicked(s);
    }
  }

  lemma NotPanicked(s: State)
    requires Inv(s)
    ensures !s.panicked
  {
  }

  /** Memory at boot: every page free, no process. */
  ghost predicate Boot(s: State) {
    && !s.panicked && s.procs == map[]
    && s.pages.Keys == s.ref.Keys == s.free
    && forall a :: a in s.ref ==> s.ref[a] == 0
  }

  lemma BootValid(s: State)
    requires Boot(s)
    ensures Valid(s) && ViewOf(s) == map[]
  {
    forall a | a in s.ref ensures s.ref[a] == |Leaves(s.procs, a)| + |Trees(s.procs, a)| {
      assert Leaves(s.procs, a) == {} && Trees(s.procs, a) == {};
    }
  }
}
