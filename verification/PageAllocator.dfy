/**
 kernel/kalloc.c in its own form: a singly linked free list threaded through
 the free pages, an array of reference counts, and the search and coalescing
 loops over them. Page numbers stand for page addresses; 0 is the null
 pointer.

 kfree_contig drops counts in one critical section and links the run in a
 second one; the pages in between are the ghost set `limbo`. The invariant
 holds whenever kmem.lock is free, so it survives any interleaving.
 */
module PageAllocator {
  import opened FreeList

  /** KERNBASE / PGSIZE and PHYSTOP / PGSIZE. */
  const KERNPAGE: nat := 0x80000
  const PHYSPAGE: nat := 0x88000

  datatype Header = Header(next: nat, num: nat)

  datatype Outcome = Freed | Shared | Panicked

  function PtrAt(list: seq<nat>, i: nat): nat { if i < |list| then list[i] else 0 }

  /** The pointers from head on run through list and end in null. */
  ghost predicate Linked(list: seq<nat>, hdr: map<nat, Header>, head: nat) {
    && head == PtrAt(list, 0)
    && (forall i :: 0 <= i < |list| ==> list[i] > 0 && list[i] in hdr && hdr[list[i]].next == PtrAt(list, i + 1))
  }

  ghost function HolesOf(list: seq<nat>, hdr: map<nat, Header>): (h: seq<Hole>)
    requires forall i :: 0 <= i < |list| ==> list[i] in hdr
    ensures |h| == |list|
  {
    seq(|list|, i requires 0 <= i < |list| => Hole(list[i], hdr[list[i]].num))
  }

  /** Relinking around position k: list elements outside [i, j) keep their headers but the one before. */
  lemma Relink(list: seq<nat>, hdr: map<nat, Header>, head: nat, i: nat, j: nat, m: nat, num: nat,
               hdr': map<nat, Header>, head': nat)
    requires Linked(list, hdr, head) && i <= j <= |list| && m > 0
    requires m in hdr' && hdr'[m] == Header(PtrAt(list, j), num)
    requires head' == if i == 0 then m else head
    requires i > 0 ==> list[i - 1] in hdr' && hdr'[list[i - 1]] == Header(m, hdr[list[i - 1]].num)
    requires forall a :: (0 <= a < i - 1 || j <= a < |list|) ==> list[a] in hdr' && hdr'[list[a]] == hdr[list[a]]
    ensures var list' := list[..i] + [m] + list[j..];
            Linked(list', hdr', head')
            && HolesOf(list', hdr') == HolesOf(list, hdr)[..i] + [Hole(m, num)] + HolesOf(list, hdr)[j..]
  {
    var list' := list[..i] + [m] + list[j..];
    forall a | 0 <= a < |list'|
      ensures list'[a] > 0 && list'[a] in hdr' && hdr'[list'[a]].next == PtrAt(list', a + 1)
    {
      RelinkAt(list, hdr, head, i, j, m, num, hdr', a);
    }
    RelinkHoles(list, hdr, i, j, m, num, hdr');
  }

  lemma RelinkHoles(list: seq<nat>, hdr: map<nat, Header>, i: nat, j: nat, m: nat, num: nat, hdr': map<nat, Header>)
    requires i <= j <= |list| && (forall a :: 0 <= a < |list| ==> list[a] in hdr)
    requires m in hdr' && hdr'[m].num == num
    requires forall a :: (0 <= a < i || j <= a < |list|) ==> list[a] in hdr' && hdr'[list[a]].num == hdr[list[a]].num
    ensures var list' := list[..i] + [m] + list[j..];
            && (forall a :: 0 <= a < |list'| ==> list'[a] in hdr')
            && HolesOf(list', hdr') == HolesOf(list, hdr)[..i] + [Hole(m, num)] + HolesOf(list, hdr)[j..]
  {
    var list' := list[..i] + [m] + list[j..];
    var h, r := HolesOf(list, hdr), HolesOf(list, hdr)[..i] + [Hole(m, num)] + HolesOf(list, hdr)[j..];
    forall a | 0 <= a < |list'| ensures list'[a] in hdr' && Hole(list'[a], hdr'[list'[a]].num) == r[a] {
      if a > i { assert list'[a] == list[a - i - 1 + j] && r[a] == h[a - i - 1 + j]; }
    }
  }

  lemma RelinkAt(list: seq<nat>, hdr: map<nat, Header>, head: nat, i: nat, j: nat, m: nat, num: nat,
                 hdr': map<nat, Header>, a: nat)
    requires Linked(list, hdr, head) && i <= j <= |list| && m > 0
    requires m in hdr' && hdr'[m] == Header(PtrAt(list, j), num)
    requires i > 0 ==> list[i - 1] in hdr' && hdr'[list[i - 1]] == Header(m, hdr[list[i - 1]].num)
    requires forall a :: (0 <= a < i - 1 || j <= a < |list|) ==> list[a] in hdr' && hdr'[list[a]] == hdr[list[a]]
    requires a < |list[..i] + [m] + list[j..]|
    ensures var list' := list[..i] + [m] + list[j..];
            list'[a] > 0 && list'[a] in hdr' && hdr'[list'[a]].next == PtrAt(list', a + 1)
  {
    var list' := list[..i] + [m] + list[j..];
    if a < i {
      assert list'[a] == list[a];
      if a < i - 1 { assert list'[a + 1] == list[a + 1]; } else { assert list'[a + 1] == m; }
    } else if a == i {
      if j < |list| { assert list'[a + 1] == list[j]; }
    } else {
      var c := a - i - 1 + j;
      assert list'[a] == list[c];
      if c + 1 < |list| { assert list'[a + 1] == list[c + 1]; }
    }
  }

  lemma OrderedDistinct(list: seq<nat>, hdr: map<nat, Header>)
    requires forall i :: 0 <= i < |list| ==> list[i] in hdr
    requires Ordered(HolesOf(list, hdr))
    ensures forall i, j :: 0 <= i < j < |list| ==> list[i] < list[j]
  {
    var h := HolesOf(list, hdr);
    forall i, j | 0 <= i < j < |list| ensures list[i] < list[j] {
      assert h[i].End() < h[j].start;
    }
  }

  /** A run none of which is free belongs before the first hole at or after it. */
  lemma RunFits(list: seq<nat>, hdr: map<nat, Header>, k: nat, b: nat, n: nat)
    requires forall i :: 0 <= i < |list| ==> list[i] in hdr
    requires Ordered(HolesOf(list, hdr)) && k <= |list| && n > 0
    requires forall p :: b <= p < b + n ==> !Free(HolesOf(list, hdr), p)
    requires forall i :: 0 <= i < k ==> list[i] < b
    requires k < |list| ==> list[k] >= b
    ensures Fits(HolesOf(list, hdr), k, b, n)
    ensures forall i :: 0 <= i < |list| ==> list[i] != b
  {
    var h := HolesOf(list, hdr);
    OrderedDistinct(list, hdr);
    forall i | 0 <= i < |list| ensures list[i] != b {
      assert h[i].Has(list[i]);
      assert Free(h, list[i]);
    }
    forall i | 0 <= i < k ensures h[i].End() <= b {
      assert h[i].Has(b) ==> Free(h, b);
    }
    forall i | k <= i < |h| ensures b + n <= h[i].start {
      assert h[i].Has(h[i].start);
      assert Free(h, h[i].start);
      assert list[k] <= list[i];
    }
  }

  // ---------------------------------------------------------------------
  // The pointer surgery of kfree_contig

  function PrevOf(list: seq<nat>, k: nat): nat
    requires k <= |list|
  {
    if k == 0 then 0 else list[k - 1]
  }

  /** The headers after linking block b of n pages between prev and curr and coalescing. */
  function Surgery(hdr: map<nat, Header>, prev: nat, curr: nat, b: nat, n: nat): map<nat, Header>
    requires (prev != 0 ==> prev in hdr && prev != b) && (curr != 0 ==> curr in hdr && curr != b)
  {
    var h1 := hdr[b := Header(curr, n)];
    var h2 := if prev != 0 then h1[prev := h1[prev].(next := b)] else h1;
    var h3 := if curr != 0 && b + n == curr then h2[b := Header(h2[curr].next, n + h2[curr].num)] else h2;
    if prev != 0 && prev + h3[prev].num == b then h3[prev := Header(h3[b].next, h3[prev].num + h3[b].num)] else h3
  }

  ghost predicate Increasing(list: seq<nat>) {
    forall i, j :: 0 <= i < j < |list| ==> list[i] < list[j]
  }

  lemma SurgeryBlock(hdr: map<nat, Header>, prev: nat, curr: nat, b: nat, n: nat)
    requires (prev != 0 ==> prev in hdr && prev != b) && (curr != 0 ==> curr in hdr && curr != b) && (prev != 0 ==> prev != curr)
    requires b > 0
    ensures var hdr' := Surgery(hdr, prev, curr, b, n);
            var left := prev != 0 && prev + hdr[prev].num == b;
            var right := curr != 0 && b + n == curr;
            var next := if right then hdr[curr].next else curr;
            var num := n + if right then hdr[curr].num else 0;
            && (left ==> prev in hdr' && hdr'[prev] == Header(next, hdr[prev].num + num))
            && (!left ==> b in hdr' && hdr'[b] == Header(next, num) && (prev != 0 ==> prev in hdr' && hdr'[prev] == Header(b, hdr[prev].num)))
  {
  }

  lemma SurgeryElsewhere(hdr: map<nat, Header>, prev: nat, curr: nat, b: nat, n: nat, x: nat)
    requires (prev != 0 ==> prev in hdr && prev != b) && (curr != 0 ==> curr in hdr && curr != b)
    requires x in hdr && x != b && x != prev
    ensures x in Surgery(hdr, prev, curr, b, n) && Surgery(hdr, prev, curr, b, n)[x] == hdr[x]
  {
  }

  /** The list positions [i, j) that one block m now replaces. */
  lemma SurgeryLinks(list: seq<nat>, hdr: map<nat, Header>, head: nat, k: nat, b: nat, n: nat)
    returns (i: nat, j: nat, m: nat)
    requires Linked(list, hdr, head) && Increasing(list) && k <= |list| && b > 0 && n > 0
    requires forall a :: 0 <= a < |list| ==> list[a] != b
    ensures i <= j <= |list| && m > 0
    ensures Linked(list[..i] + [m] + list[j..], Surgery(hdr, PrevOf(list, k), PtrAt(list, k), b, n), if k == 0 then b else head)
    ensures HolesOf(list[..i] + [m] + list[j..], Surgery(hdr, PrevOf(list, k), PtrAt(list, k), b, n)) == Insert(HolesOf(list, hdr), k, b, n)
  {
    hide Linked, Surgery, Insert, HolesOf;
    LinkedAt(list, hdr, head);
    var prev, curr := PrevOf(list, k), PtrAt(list, k);
    var left := prev != 0 && prev + hdr[prev].num == b;
    var right := curr != 0 && b + n == curr;
    if left && right {
      i, j, m := k - 1, k + 1, prev;
      SurgeryRelink(list, hdr, head, k, b, n, i, j, m, hdr[prev].num + n + hdr[curr].num);
    } else if left {
      i, j, m := k - 1, k, prev;
      SurgeryRelink(list, hdr, head, k, b, n, i, j, m, hdr[prev].num + n);
    } else if right {
      i, j, m := k, k + 1, b;
      SurgeryRelink(list, hdr, head, k, b, n, i, j, m, n + hdr[curr].num);
    } else {
      i, j, m := k, k, b;
      SurgeryRelink(list, hdr, head, k, b, n, i, j, m, n);
    }
  }

  lemma SurgeryRelink(list: seq<nat>, hdr: map<nat, Header>, head: nat, k: nat, b: nat, n: nat, i: nat, j: nat, m: nat, num: nat)
    requires Linked(list, hdr, head) && Increasing(list) && k <= |list| && b > 0 && n > 0
    requires forall a :: 0 <= a < |list| ==> list[a] != b
    requires var prev, curr := PrevOf(list, k), PtrAt(list, k);
             var left := prev != 0 && prev + hdr[prev].num == b;
             var right := curr != 0 && b + n == curr;
             && i == (if left then k - 1 else k) && j == (if right then k + 1 else k) && m == (if left then prev else b)
             && num == (if left then hdr[prev].num else 0) + n + (if right then hdr[curr].num else 0)
    ensures i <= j <= |list| && m > 0
    ensures Linked(list[..i] + [m] + list[j..], Surgery(hdr, PrevOf(list, k), PtrAt(list, k), b, n), if k == 0 then b else head)
    ensures HolesOf(list[..i] + [m] + list[j..], Surgery(hdr, PrevOf(list, k), PtrAt(list, k), b, n)) == Insert(HolesOf(list, hdr), k, b, n)
  {
    hide Linked, Surgery, Insert, HolesOf;
    LinkedAt(list, hdr, head);
    if k < |list| { LinkedNext(list, hdr, head, k); }
    if i > 0 { LinkedNext(list, hdr, head, i - 1); }
    var prev, curr := PrevOf(list, k), PtrAt(list, k);
    var hdr' := Surgery(hdr, prev, curr, b, n);
    SurgeryBlock(hdr, prev, curr, b, n);
    forall a | 0 <= a < i - 1 || j <= a < |list| ensures list[a] in hdr' && hdr'[list[a]] == hdr[list[a]] {
      SurgeryElsewhere(hdr, prev, curr, b, n, list[a]);
    }
    if m != b && i > 0 { SurgeryElsewhere(hdr, prev, curr, b, n, list[i - 1]); }
    Relink(list, hdr, head, i, j, m, num, hdr', if k == 0 then b else head);
    InsertIs(list, hdr, k, b, n, i, j, m, num);
  }

  lemma LinkedAt(list: seq<nat>, hdr: map<nat, Header>, head: nat)
    requires Linked(list, hdr, head)
    ensures forall i :: 0 <= i < |list| ==> list[i] > 0 && list[i] in hdr
    ensures head == PtrAt(list, 0)
  {
  }

  lemma LinkedNext(list: seq<nat>, hdr: map<nat, Header>, head: nat, i: nat)
    requires Linked(list, hdr, head) && i < |list|
    ensures list[i] in hdr && hdr[list[i]].next == PtrAt(list, i + 1)
  {
  }

  lemma InsertIs(list: seq<nat>, hdr: map<nat, Header>, k: nat, b: nat, n: nat, i: nat, j: nat, m: nat, num: nat)
    requires (forall a :: 0 <= a < |list| ==> list[a] > 0 && list[a] in hdr) && k <= |list|
    requires var prev, curr := PrevOf(list, k), PtrAt(list, k);
             var left := prev != 0 && prev + hdr[prev].num == b;
             var right := curr != 0 && b + n == curr;
             && i == (if left then k - 1 else k) && j == (if right then k + 1 else k) && m == (if left then prev else b)
             && num == (if left then hdr[prev].num else 0) + n + (if right then hdr[curr].num else 0)
    ensures i <= j <= |list| && HolesOf(list, hdr)[..i] + [Hole(m, num)] + HolesOf(list, hdr)[j..] == Insert(HolesOf(list, hdr), k, b, n)
  {
    var h := HolesOf(list, hdr);
    if k > 0 { assert h[k - 1] == Hole(list[k - 1], hdr[list[k - 1]].num); }
    if k < |list| { assert h[k] == Hole(list[k], hdr[list[k]].num); }
  }

  predicate InRun(p: int, b: nat, n: int) { b <= p < b + n }

  ghost function RunPages(b: nat, n: nat): set<nat> { set p: nat | b <= p < b + n && InRun(p, b, n) }

  /** A managed page is on the list, or on its way to it, exactly when its count is zero; below end there are no counts. */
  ghost predicate Accounted(ref: seq<int>, h: seq<Hole>, limbo: set<nat>, end: nat) {
    && KERNPAGE <= end < PHYSPAGE && |ref| == PHYSPAGE
    && (forall p :: 0 <= p < PHYSPAGE ==> ref[p] >= 0)
    && (forall p :: 0 <= p < end ==> ref[p] == 0)
    && (forall p: nat :: Free(h, p) ==> end <= p < PHYSPAGE)
    && (forall p :: p in limbo ==> end <= p < PHYSPAGE && !Free(h, p))
    && (forall p: nat :: end <= p < PHYSPAGE ==> (ref[p] == 0 <==> Free(h, p) || p in limbo))
  }

  /** Counts after every page of the run lost one reference. */
  ghost predicate Dropped(ref: seq<int>, ref': seq<int>, b: nat, n: int) {
    |ref'| == |ref| && forall p :: 0 <= p < |ref| ==> ref'[p] == ref[p] - if InRun(p, b, n) then 1 else 0
  }

  lemma DropToZero(ref: seq<int>, ref': seq<int>, h: seq<Hole>, limbo: set<nat>, end: nat, b: nat, n: nat)
    requires Accounted(ref, h, limbo, end) && Dropped(ref, ref', b, n) && end <= b && b + n <= PHYSPAGE
    requires forall p :: InRun(p, b, n) ==> ref[p] == 1
    ensures Accounted(ref', h, limbo + RunPages(b, n), end)
  {
    forall p: nat | p in RunPages(b, n) ensures !Free(h, p) {
      assert InRun(p, b, n);
    }
    forall p: nat | end <= p < PHYSPAGE ensures ref'[p] == 0 <==> Free(h, p) || p in limbo + RunPages(b, n) {
      assert p in RunPages(b, n) <==> InRun(p, b, n);
    }
  }

  lemma DropShared(ref: seq<int>, ref': seq<int>, h: seq<Hole>, limbo: set<nat>, end: nat, b: nat)
    requires Accounted(ref, h, limbo, end) && Dropped(ref, ref', b, 1) && end <= b < PHYSPAGE && ref[b] > 1
    ensures Accounted(ref', h, limbo, end)
  {
    assert InRun(b, b, 1);
  }

  class Kmem {
    const end: nat
    const refCount: array<int>
    var freelist: nat
    var hdr: map<nat, Header>
    ghost var list: seq<nat>
    ghost var limbo: set<nat>

    ghost function Holes(): seq<Hole>
      requires Linked(list, hdr, freelist)
      reads this
    {
      HolesOf(list, hdr)
    }

    ghost predicate Valid()
      reads this, refCount
    {
      && Linked(list, hdr, freelist)
      && Ordered(Holes())
      && Accounted(refCount[..], Holes(), limbo, end)
    }

    /** kinit and freerange: every page from end to PHYSTOP is one free run. */
    constructor (first: nat)
      requires KERNPAGE <= first < PHYSPAGE
      ensures Valid() && fresh(refCount) && limbo == {} && end == first
      ensures Holes() == [Hole(first, PHYSPAGE - first)]
    {
      end := first;
      refCount := new int[PHYSPAGE](_ => 0);
      freelist, hdr, list, limbo := 0, map[], [], {};
      new;
      SetRefs(end, PHYSPAGE - end);
      assert Holes() == [];
      var o := KfreeContig(end, PHYSPAGE - end);
      assert InRun(end, end, PHYSPAGE - end);
      ghost var whole := [Hole(first, PHYSPAGE - first)];
      forall p: nat ensures Free(Holes(), p) <==> Free(whole, p) { FreeOne(whole[0], p); }
      Canonical(Holes(), whole);
    }

    /** First critical section of kfree_contig: drop one reference of every page of the run. */
    method DropRefs(b: nat, n: nat) returns (o: Outcome)
      requires Valid() && end <= b && n > 0 && b + n <= PHYSPAGE
      modifies refCount, this`limbo
      ensures o.Panicked? <==> exists p :: InRun(p, b, n) && (old(refCount[p]) == 0 || (n > 1 && old(refCount[p]) > 1))
      ensures !o.Panicked? ==> Valid() && Dropped(old(refCount[..]), refCount[..], b, n)
      ensures o.Freed? ==> limbo == old(limbo) + RunPages(b, n)
      ensures o.Shared? ==> n == 1 && refCount[b] > 0 && limbo == old(limbo)
    {
      hide Ordered, Free, Linked;
      ghost var before, h := refCount[..], Holes();
      var i := 0;
      while i < n
        invariant 0 <= i <= n && refCount.Length == PHYSPAGE && limbo == old(limbo)
        invariant Dropped(before, refCount[..], b, i)
        invariant forall p :: InRun(p, b, i) ==> before[p] > 0
      {
        if refCount[b + i] <= 0 {
          assert InRun(b + i, b, n) && before[b + i] == 0;
          return Panicked;
        }
        refCount[b + i] := refCount[b + i] - 1;
        i := i + 1;
      }
      if n == 1 && refCount[b] > 0 {
        assert InRun(b, b, 1);
        DropShared(before, refCount[..], h, limbo, end, b);
        return Shared;
      }
      ghost var after := refCount[..];
      if n > 1 {
        i := 0;
        while i < n
          invariant 0 <= i <= n && limbo == old(limbo) && refCount[..] == after
          invariant forall p :: InRun(p, b, i) ==> refCount[p] == 0
        {
          if refCount[b + i] > 0 {
            assert InRun(b + i, b, n) && before[b + i] > 1;
            return Panicked;
          }
          i := i + 1;
        }
      }
      assert forall p :: InRun(p, b, n) ==> before[p] == 1;
      DropToZero(before, refCount[..], h, limbo, end, b, n);
      limbo := limbo + RunPages(b, n);
      return Freed;
    }

    /** Second critical section of kfree_contig: link the run in at its place and coalesce. */
    method LinkIn(b: nat, n: nat)
      requires Valid() && n > 0 && (forall p :: InRun(p, b, n) ==> p in limbo)
      modifies this
      ensures Valid() && limbo == old(limbo) - RunPages(b, n)
      ensures forall p: nat :: Free(Holes(), p) <==> old(Free(Holes(), p)) || InRun(p, b, n)
    {
      hide Ordered, Free, Accounted, Linked, HolesOf;
      ghost var h, hdr0, list0, head := Holes(), hdr, list, freelist;
      AccountedRun(refCount[..], h, limbo, end, b, n);
      ghost var k;
      var prev, curr;
      prev, curr, k := FindPlace(b, n);
      hdr := hdr[b := Header(curr, n)];
      if prev != 0 {
        hdr := hdr[prev := hdr[prev].(next := b)];
      } else {
        freelist := b;
      }
      if curr != 0 && b + hdr[b].num == curr {
        hdr := hdr[b := Header(hdr[curr].next, hdr[b].num + hdr[curr].num)];
      }
      if prev != 0 && prev + hdr[prev].num == b {
        hdr := hdr[prev := Header(hdr[b].next, hdr[prev].num + hdr[b].num)];
      }
      assert hdr == Surgery(hdr0, prev, curr, b, n);
      ghost var i, j, m := SurgeryLinks(list0, hdr0, head, k, b, n);
      list := list0[..i] + [m] + list0[j..];
      InsertOrdered(h, k, b, n);
      forall p: nat ensures Free(Holes(), p) <==> Free(h, p) || InRun(p, b, n) { InsertFree(h, k, b, n, p); }
      AccountedLink(refCount[..], h, Holes(), limbo, end, b, n);
      limbo := limbo - RunPages(b, n);
    }

    /** The loop of kfree_contig: the neighbours of block b in the list. */
    method FindPlace(b: nat, n: nat) returns (prev: nat, curr: nat, ghost k: nat)
      requires Linked(list, hdr, freelist) && Ordered(Holes()) && b > 0 && n > 0
      requires forall p :: b <= p < b + n ==> !Free(Holes(), p)
      ensures k <= |list| && prev == PrevOf(list, k) && curr == PtrAt(list, k)
      ensures Fits(Holes(), k, b, n) && Increasing(list)
      ensures forall i :: 0 <= i < |list| ==> list[i] != b && list[i] > 0 && list[i] in hdr
    {
      hide Ordered, Free, HolesOf;
      OrderedDistinct(list, hdr);
      prev, curr, k := 0, freelist, 0;
      while curr != 0 && curr < b
        invariant 0 <= k <= |list| && curr == PtrAt(list, k) && prev == PrevOf(list, k)
        invariant forall i :: 0 <= i < k ==> list[i] < b
        decreases |list| - k
      {
        prev, curr := curr, hdr[curr].next;
        k := k + 1;
      }
      RunFits(list, hdr, k, b, n);
    }

    /** kfree_contig: outside the managed range, on a zero count or on a shared page of a longer run it panics. */
    method KfreeContig(b: nat, n: nat) returns (o: Outcome)
      requires Valid() && n > 0
      modifies this, refCount
      ensures o.Panicked? <==> (b < end || b + n > PHYSPAGE || exists p :: InRun(p, b, n) && (old(refCount[p]) == 0 || (n > 1 && old(refCount[p]) > 1)))
      ensures !o.Panicked? ==> Valid() && limbo == old(limbo) && Dropped(old(refCount[..]), refCount[..], b, n)
      ensures o.Freed? ==> forall p: nat :: Free(Holes(), p) <==> old(Free(Holes(), p)) || InRun(p, b, n)
      ensures o.Shared? ==> n == 1 && refCount[b] > 0 && Holes() == old(Holes())
    {
      hide Ordered, Free, Linked;
      if b < end || b + n > PHYSPAGE {
        return Panicked;
      }
      ghost var h, l := Holes(), limbo;
      o := DropRefs(b, n);
      if o.Freed? {
        RunMembers(b, n);
        assert l !! RunPages(b, n) by { RunNotLimbo(old(refCount[..]), refCount[..], h, l, end, b, n); }
        LinkIn(b, n);
      }
    }

    /** The best-fit search loop of kalloc_contig: the winner, its predecessor and its position. */
    method FindBest(n: nat) returns (bestPrev: nat, best: nat, ghost k: nat)
      requires Linked(list, hdr, freelist)
      ensures best == 0 <==> forall i :: 0 <= i < |list| ==> hdr[list[i]].num < n
      ensures best != 0 ==> BestFit(Holes(), k, n) && best == list[k] && bestPrev == PrevOf(list, k)
    {
      var prev, curr := 0, freelist;
      ghost var i := 0;
      bestPrev, best, k := 0, 0, 0;
      while curr != 0
        invariant 0 <= i <= |list| && curr == PtrAt(list, i) && prev == PrevOf(list, i)
        invariant best == 0 ==> forall a :: 0 <= a < i ==> hdr[list[a]].num < n
        invariant best != 0 ==> k < i && best == list[k] && bestPrev == PrevOf(list, k) && hdr[best].num >= n
        invariant best != 0 ==> forall a :: 0 <= a < i && hdr[list[a]].num >= n ==> hdr[best].num <= hdr[list[a]].num
        invariant best != 0 ==> forall a :: 0 <= a < k && hdr[list[a]].num >= n ==> hdr[best].num < hdr[list[a]].num
        decreases |list| - i
      {
        if hdr[curr].num >= n {
          if best == 0 || hdr[curr].num < hdr[best].num {
            bestPrev, best, k := prev, curr, i;
          }
        }
        prev, curr := curr, hdr[curr].next;
        i := i + 1;
      }
    }

    /** kalloc_contig: the lowest of the smallest holes that fit, or null exactly when none does. */
    method KallocContig(n: int) returns (r: nat)
      requires Valid() && -0x8000_0000 <= n < 0x8000_0000
      modifies this, refCount
      ensures Valid() && limbo == old(limbo)
      ensures r == 0 <==> n < 0 || forall i :: 0 <= i < |old(Holes())| ==> old(Holes())[i].pages < n
      ensures r == 0 ==> Holes() == old(Holes()) && refCount[..] == old(refCount[..])
      ensures r != 0 ==> exists k: nat :: BestFit(old(Holes()), k, n) && r == old(Holes())[k].start && Holes() == Take(old(Holes()), k, n)
      ensures r != 0 ==> Raised(old(refCount[..]), refCount[..], r, n)
      ensures r != 0 ==> forall p: nat :: Free(Holes(), p) <==> old(Free(Holes(), p)) && !InRun(p, r, n)
    {
      hide Ordered, Free, Accounted, Linked, HolesOf, Take;
      ghost var h := Holes();
      HolesBounded(refCount[..], h, limbo, end);
      LinkedAt(list, hdr, freelist);
      HolesAre(list, hdr);
      var units := if n < 0 then n + 0x1_0000_0000 else n;  // num_pages is unsigned, so n is converted
      ghost var k;
      var bestPrev, best;
      bestPrev, best, k := FindBest(units);
      if best == 0 {
        return 0;
      }
      Cut(bestPrev, best, k, n);
      TakeOrdered(h, k, n);
      forall p: nat ensures Free(Holes(), p) <==> Free(h, p) && !InRun(p, best, n) { TakeFree(h, k, n, p); }
      forall p: nat | InRun(p, best, n) ensures Free(h, p) { HoleFree(h, k, p); }
      AccountedSize(refCount[..], h, limbo, end);
      SetRefs(best, n);
      AccountedTake(old(refCount[..]), refCount[..], h, Holes(), limbo, end, best, n);
      r := best;
    }

    /** Take the first n pages of the block found: unlink it, or leave its rest in its place. */
    method Cut(bestPrev: nat, best: nat, ghost k: nat, n: nat)
      requires Linked(list, hdr, freelist) && Ordered(Holes()) && k < |list|
      requires best == list[k] && bestPrev == PrevOf(list, k) && n <= hdr[best].num
      modifies this`freelist, this`hdr, this`list
      ensures Linked(list, hdr, freelist) && Holes() == Take(old(Holes()), k, n)
    {
      if hdr[best].num == n { Drop(bestPrev, best, k); } else { Shorten(bestPrev, best, k, n); }
    }

    /** A block taken whole is unlinked. */
    method Drop(bestPrev: nat, best: nat, ghost k: nat)
      requires Linked(list, hdr, freelist) && Ordered(Holes()) && k < |list| && best == list[k] && bestPrev == PrevOf(list, k)
      modifies this`freelist, this`hdr, this`list
      ensures Linked(list, hdr, freelist) && Holes() == Take(old(Holes()), k, old(hdr[best].num))
    {
      hide Ordered, HolesOf, Take, Linked;
      ghost var hdr0, list0, head := hdr, list, freelist;
      LinkedAt(list, hdr, freelist);
      CutDistinct(list, hdr, k);
      assert bestPrev != 0 <==> k > 0;
      if bestPrev != 0 {
        hdr := hdr[bestPrev := hdr[bestPrev].(next := hdr[best].next)];
      } else {
        freelist := hdr[best].next;
      }
      assert hdr == if k > 0 then hdr0[list0[k - 1] := Header(hdr0[best].next, hdr0[list0[k - 1]].num)] else hdr0;
      list := list0[..k] + list0[k + 1..];
      RemovedWhole(list0, hdr0, head, k, hdr, freelist);
    }

    /** Of a larger block the rest stays in its place. */
    method Shorten(bestPrev: nat, best: nat, ghost k: nat, n: nat)
      requires Linked(list, hdr, freelist) && Ordered(Holes()) && k < |list|
      requires best == list[k] && bestPrev == PrevOf(list, k) && n < hdr[best].num
      modifies this`freelist, this`hdr, this`list
      ensures Linked(list, hdr, freelist) && Holes() == Take(old(Holes()), k, n)
    {
      hide Ordered, HolesOf, Take, Linked;
      ghost var hdr0, list0, head := hdr, list, freelist;
      LinkedAt(list, hdr, freelist);
      CutDistinct(list, hdr, k);
      assert bestPrev != 0 <==> k > 0;
      hdr := hdr[best + n := Header(hdr[best].next, hdr[best].num - n)];
      if bestPrev != 0 {
        hdr := hdr[bestPrev := hdr[bestPrev].(next := best + n)];
      } else {
        freelist := best + n;
      }
      assert var hdr1 := hdr0[best + n := Header(hdr0[best].next, hdr0[best].num - n)];
        hdr == if k > 0 then hdr1[list0[k - 1] := Header(best + n, hdr0[list0[k - 1]].num)] else hdr1;
      list := list0[..k] + [best + n] + list0[k + 1..];
      SplitRest(list0, hdr0, head, k, n, hdr, freelist);
    }

    /** No run is on its way to the list: then the free pages are those with count zero. */
    ghost predicate Quiet()
      reads this, refCount
    {
      Valid() && limbo == {}
    }

    /** kalloc: some free page, or null exactly if there is none; only its count changes. */
    method Kalloc() returns (r: nat)
      requires Quiet()
      modifies this, refCount
      ensures Quiet() && (r == 0 <==> old(Avail(refCount[..], end)) == {})
      ensures r == 0 ==> refCount[..] == old(refCount[..])
      ensures r != 0 ==> r in old(Avail(refCount[..], end)) && refCount[..] == old(refCount[..])[r := 1]
    {
      hide Ordered, Free, Linked, HolesOf, Take, Accounted;
      ghost var h, ref := Holes(), refCount[..];
      HolesBounded(ref, h, limbo, end);
      r := KallocContig(1);
      AccountedSize(ref, h, limbo, end);
      if r != 0 {
        ghost var k: nat :| BestFit(h, k, 1) && r == h[k].start && Holes() == Take(h, k, 1);
        HoleFree(h, k, r);
        AvailIs(ref, h, end, r);
        assert forall p :: InRun(p, r, 1) <==> p == r;
      } else {
        NoneAvail(ref, h, end);
      }
    }

    /** kfree: one reference less; it panics exactly outside the managed range and on a count of zero. */
    method Kfree(b: nat) returns (ok: bool)
      requires Quiet()
      modifies this, refCount
      ensures ok <==> end <= b < PHYSPAGE && old(refCount[..][b]) > 0
      ensures ok ==> Quiet() && refCount[..] == old(refCount[..])[b := old(refCount[..][b]) - 1]
    {
      hide Ordered, Free, Linked, HolesOf, Accounted;
      ghost var ref := refCount[..];
      AccountedSize(ref, Holes(), limbo, end);
      AccountedCounts(ref, Holes(), limbo, end);
      assert forall p :: InRun(p, b, 1) <==> p == b;
      assert InRun(b, b, 1);
      var o := KfreeContig(b, 1);
      ok := o != Panicked;
    }

    /** incref: one reference more to a page in use. */
    method Incref(b: nat)
      requires Quiet() && end <= b < PHYSPAGE && refCount.Length == PHYSPAGE && refCount[b] > 0
      modifies refCount
      ensures Quiet() && refCount[..] == old(refCount[..])[b := old(refCount[b]) + 1]
    {
      refCount[b] := refCount[b] + 1;
      CountChanged(old(refCount[..]), refCount[..], Holes(), limbo, end, b);
    }

    /** decref of a page with further references. */
    method Decref(b: nat)
      requires Quiet() && end <= b < PHYSPAGE && refCount.Length == PHYSPAGE && refCount[b] > 1
      modifies refCount
      ensures Quiet() && refCount[..] == old(refCount[..])[b := old(refCount[b]) - 1]
    {
      refCount[b] := refCount[b] - 1;
      CountChanged(old(refCount[..]), refCount[..], Holes(), limbo, end, b);
    }

    /** Freeing what was just allocated restores list and counts. */
    method AllocThenFree(n: int) returns (r: nat)
      requires Valid() && 1 <= n < 0x8000_0000
      modifies this, refCount
      ensures Valid() && Holes() == old(Holes()) && refCount[..] == old(refCount[..]) && limbo == old(limbo)
    {
      hide Ordered, Free, Linked, HolesOf, Take, Accounted;
      ghost var h, ref := Holes(), refCount[..];
      HolesBounded(ref, h, limbo, end);
      r := KallocContig(n);
      if r != 0 {
        ghost var k: nat :| BestFit(h, k, n) && r == h[k].start && Holes() == Take(h, k, n);
        forall p: nat | InRun(p, r, n) ensures Free(h, p) { HoleFree(h, k, p); }
        FreeCounts(ref, h, limbo, end, r, n);
        AccountedSize(refCount[..], Holes(), limbo, end);
        assert InRun(r, r, n) && InRun(r + n - 1, r, n);
        ghost var raised := refCount[..];
        assert forall p :: InRun(p, r, n) ==> raised[p] == 1;
        var o := KfreeContig(r, n);
        RaisedDropped(ref, raised, refCount[..], r, n);
        assert o.Freed? by { assert refCount[r] == ref[r] == 0; }
        forall p: nat ensures Free(Holes(), p) <==> Free(h, p) {}
        Canonical(Holes(), h);
      }
    }

    /**
     compact_memory: the guard of the relocating branch reads the count at an
     index below KERNBASE / PGSIZE, where there are none, so no page ever moves.
     */
    method CompactMemory(movable: set<nat>) returns (compacted: bool)
      requires Valid()
      ensures !compacted
    {
      hide Ordered, Free, HolesOf;
      var curr := freelist;
      ghost var i := 0;
      compacted := false;
      while curr != 0
        invariant 0 <= i <= |list| && curr == PtrAt(list, i) && !compacted
        decreases |list| - i
      {
        var used := curr + hdr[curr].num;
        if used >= PHYSPAGE { break; }
        if hdr[curr].next == used {
          curr := hdr[curr].next;
        } else {
          var pfn: int := used - KERNPAGE;
          StartBound(refCount[..], list, hdr, limbo, end, i);
          if pfn in movable && refCount[pfn] == 1 {
            assert false;
          }
          curr := hdr[curr].next;
        }
        i := i + 1;
      }
    }

    /** The last loop of kalloc_contig. */
    method SetRefs(b: nat, n: nat)
      requires b + n <= refCount.Length
      modifies refCount
      ensures Raised(old(refCount[..]), refCount[..], b, n)
    {
      var i := 0;
      while i < n
        invariant 0 <= i <= n
        invariant Raised(old(refCount[..]), refCount[..], b, i)
      {
        refCount[b + i] := 1;
        i := i + 1;
      }
    }
  }

  lemma AccountedRun(ref: seq<int>, h: seq<Hole>, limbo: set<nat>, end: nat, b: nat, n: nat)
    requires Accounted(ref, h, limbo, end) && (forall p :: InRun(p, b, n) ==> p in limbo) && n > 0
    ensures forall p :: b <= p < b + n ==> !Free(h, p)
    ensures b > 0 && b + n <= PHYSPAGE
  {
    forall p | b <= p < b + n ensures !Free(h, p) { assert InRun(p, b, n); }
    assert InRun(b, b, n) && InRun(b + n - 1, b, n);
  }

  lemma AccountedLink(ref: seq<int>, h: seq<Hole>, h': seq<Hole>, limbo: set<nat>, end: nat, b: nat, n: nat)
    requires Accounted(ref, h, limbo, end) && (forall p :: InRun(p, b, n) ==> p in limbo)
    requires forall p: nat :: Free(h', p) <==> Free(h, p) || InRun(p, b, n)
    ensures Accounted(ref, h', limbo - RunPages(b, n), end)
  {
    hide Free;
    forall p: nat ensures p in RunPages(b, n) <==> InRun(p, b, n) {}
  }

  /** Counts after a run was allocated. */
  ghost predicate Raised(ref: seq<int>, ref': seq<int>, b: nat, n: int) {
    |ref'| == |ref| && forall p :: 0 <= p < |ref| ==> ref'[p] == if InRun(p, b, n) then 1 else ref[p]
  }

  lemma RunMembers(b: nat, n: nat)
    ensures forall p: int :: InRun(p, b, n) ==> p >= 0 && p in RunPages(b, n)
  {
  }

  lemma RunNotLimbo(ref: seq<int>, ref': seq<int>, h: seq<Hole>, limbo: set<nat>, end: nat, b: nat, n: nat)
    requires Accounted(ref, h, limbo, end) && Dropped(ref, ref', b, n) && end <= b && b + n <= PHYSPAGE
    requires forall p :: InRun(p, b, n) ==> ref[p] > 0
    ensures limbo !! RunPages(b, n)
  {
  }

  lemma HolesAre(list: seq<nat>, hdr: map<nat, Header>)
    requires forall i :: 0 <= i < |list| ==> list[i] in hdr
    ensures forall i :: 0 <= i < |list| ==> HolesOf(list, hdr)[i] == Hole(list[i], hdr[list[i]].num)
  {
  }

  lemma HolesBounded(ref: seq<int>, h: seq<Hole>, limbo: set<nat>, end: nat)
    requires Accounted(ref, h, limbo, end) && Ordered(h)
    ensures forall i :: 0 <= i < |h| ==> 0 < h[i].start && 0 < h[i].pages && h[i].End() <= PHYSPAGE
  {
    forall i | 0 <= i < |h| ensures 0 < h[i].start && 0 < h[i].pages && h[i].End() <= PHYSPAGE {
      assert h[i].Has(h[i].start) && h[i].Has(h[i].End() - 1);
      assert Free(h, h[i].start) && Free(h, h[i].End() - 1);
    }
  }

  lemma AccountedTake(ref: seq<int>, ref': seq<int>, h: seq<Hole>, h': seq<Hole>, limbo: set<nat>, end: nat, b: nat, n: nat)
    requires Accounted(ref, h, limbo, end) && Raised(ref, ref', b, n)
    requires forall p: nat :: InRun(p, b, n) ==> Free(h, p)
    requires forall p: nat :: Free(h', p) <==> Free(h, p) && !InRun(p, b, n)
    ensures Accounted(ref', h', limbo, end)
  {
    hide Free;
  }

  /** The managed pages with count zero. */
  ghost function Avail(ref: seq<int>, end: nat): set<nat> { set p: nat | p < |ref| && end <= p < PHYSPAGE && ref[p] == 0 }

  lemma AvailIs(ref: seq<int>, h: seq<Hole>, end: nat, p: nat)
    requires Accounted(ref, h, {}, end)
    ensures p in Avail(ref, end) <==> Free(h, p)
  {
    hide Free;
  }

  /** No hole has a page: there is no free page. */
  lemma NoneAvail(ref: seq<int>, h: seq<Hole>, end: nat)
    requires Accounted(ref, h, {}, end) && forall i :: 0 <= i < |h| ==> h[i].pages < 1
    ensures Avail(ref, end) == {}
  {
    forall p: nat ensures p !in Avail(ref, end) { AvailIs(ref, h, end, p); }
  }

  lemma AccountedCounts(ref: seq<int>, h: seq<Hole>, limbo: set<nat>, end: nat)
    requires Accounted(ref, h, limbo, end)
    ensures forall p :: 0 <= p < |ref| ==> ref[p] >= 0
  {
  }

  lemma CountChanged(ref: seq<int>, ref': seq<int>, h: seq<Hole>, limbo: set<nat>, end: nat, b: nat)
    requires Accounted(ref, h, limbo, end) && end <= b < PHYSPAGE && ref[b] > 0
    requires |ref'| == |ref| && ref' == ref[b := ref'[b]] && ref'[b] > 0
    ensures Accounted(ref', h, limbo, end)
  {
    hide Free;
  }

  lemma AccountedSize(ref: seq<int>, h: seq<Hole>, limbo: set<nat>, end: nat)
    requires Accounted(ref, h, limbo, end)
    ensures |ref| == PHYSPAGE
  {
  }

  /** No block starts inside block k. */
  lemma CutDistinct(list: seq<nat>, hdr: map<nat, Header>, k: nat)
    requires (forall i :: 0 <= i < |list| ==> list[i] in hdr) && Ordered(HolesOf(list, hdr)) && k < |list|
    ensures forall a :: 0 <= a < |list| && a != k ==> list[a] < list[k] || list[a] > list[k] + hdr[list[k]].num
  {
    var h := HolesOf(list, hdr);
    forall a | 0 <= a < |list| && a != k ensures list[a] < list[k] || list[a] > list[k] + hdr[list[k]].num {
      assert h[a].End() < h[k].start || h[k].End() < h[a].start;
    }
  }

  lemma SplitRest(list: seq<nat>, hdr: map<nat, Header>, head: nat, k: nat, n: nat, hdr': map<nat, Header>, head': nat)
    requires Linked(list, hdr, head) && Ordered(HolesOf(list, hdr)) && k < |list| && n < hdr[list[k]].num
    requires var hdr1 := hdr[list[k] + n := Header(hdr[list[k]].next, hdr[list[k]].num - n)];
             hdr' == if k > 0 then hdr1[list[k - 1] := Header(list[k] + n, hdr[list[k - 1]].num)] else hdr1
    requires head' == if k > 0 then head else list[k] + n
    ensures var list' := list[..k] + [list[k] + n] + list[k + 1..];
            Linked(list', hdr', head') && HolesOf(list', hdr') == Take(HolesOf(list, hdr), k, n)
  {
    hide Ordered, Take, HolesOf, Linked;
    LinkedAt(list, hdr, head);
    LinkedNext(list, hdr, head, k);
    CutDistinct(list, hdr, k);
    OrderedDistinct(list, hdr);
    SplitHeaders(list, hdr, k, n, hdr');
    Relink(list, hdr, head, k, k + 1, list[k] + n, hdr[list[k]].num - n, hdr', head');
    TakeIs(list, hdr, k, n);
  }

  lemma TakeIs(list: seq<nat>, hdr: map<nat, Header>, k: nat, n: nat)
    requires (forall i :: 0 <= i < |list| ==> list[i] in hdr) && k < |list| && n < hdr[list[k]].num
    ensures var h := HolesOf(list, hdr);
            Take(h, k, n) == h[..k] + [Hole(list[k] + n, hdr[list[k]].num - n)] + h[k + 1..]
  {
  }

  lemma SplitHeaders(list: seq<nat>, hdr: map<nat, Header>, k: nat, n: nat, hdr': map<nat, Header>)
    requires (forall i :: 0 <= i < |list| ==> list[i] in hdr) && k < |list| && n < hdr[list[k]].num
    requires Increasing(list) && (forall a :: 0 <= a < |list| && a != k ==> list[a] < list[k] || list[a] > list[k] + hdr[list[k]].num)
    requires var hdr1 := hdr[list[k] + n := Header(hdr[list[k]].next, hdr[list[k]].num - n)];
             hdr' == if k > 0 then hdr1[list[k - 1] := Header(list[k] + n, hdr[list[k - 1]].num)] else hdr1
    ensures list[k] + n in hdr' && hdr'[list[k] + n] == Header(hdr[list[k]].next, hdr[list[k]].num - n)
    ensures k > 0 ==> list[k - 1] in hdr' && hdr'[list[k - 1]] == Header(list[k] + n, hdr[list[k - 1]].num)
    ensures forall a :: (0 <= a < k - 1 || k + 1 <= a < |list|) ==> list[a] in hdr' && hdr'[list[a]] == hdr[list[a]]
  {
    forall a | 0 <= a < k - 1 || k + 1 <= a < |list| ensures list[a] in hdr' && hdr'[list[a]] == hdr[list[a]] {
      assert list[a] != list[k] + n && (k > 0 ==> list[a] != list[k - 1]);
    }
  }

  lemma RemovedWhole(list: seq<nat>, hdr: map<nat, Header>, head: nat, k: nat, hdr': map<nat, Header>, head': nat)
    requires Linked(list, hdr, head) && Ordered(HolesOf(list, hdr)) && k < |list|
    requires hdr' == if k > 0 then hdr[list[k - 1] := Header(hdr[list[k]].next, hdr[list[k - 1]].num)] else hdr
    requires head' == if k > 0 then head else hdr[list[k]].next
    ensures var list' := list[..k] + list[k + 1..];
            Linked(list', hdr', head') && HolesOf(list', hdr') == Take(HolesOf(list, hdr), k, hdr[list[k]].num)
  {
    hide Ordered, HolesOf;
    var list' := list[..k] + list[k + 1..];
    OrderedDistinct(list, hdr);
    forall a | 0 <= a < |list'| ensures list'[a] > 0 && list'[a] in hdr' && hdr'[list'[a]].next == PtrAt(list', a + 1) {
      RemovedAt(list, hdr, head, k, hdr', a);
    }
    RemovedHoles(list, hdr, k, hdr');
  }

  lemma RemovedHoles(list: seq<nat>, hdr: map<nat, Header>, k: nat, hdr': map<nat, Header>)
    requires (forall i :: 0 <= i < |list| ==> list[i] in hdr) && k < |list|
    requires hdr' == if k > 0 then hdr[list[k - 1] := Header(hdr[list[k]].next, hdr[list[k - 1]].num)] else hdr
    ensures var list' := list[..k] + list[k + 1..];
            && (forall i :: 0 <= i < |list'| ==> list'[i] in hdr')
            && HolesOf(list', hdr') == Take(HolesOf(list, hdr), k, hdr[list[k]].num)
  {
    var list' := list[..k] + list[k + 1..];
    forall i | 0 <= i < |list'| ensures list'[i] in hdr' && hdr'[list'[i]].num == hdr[list'[i]].num {
      assert list'[i] == list[if i < k then i else i + 1];
    }
    assert HolesOf(list', hdr') == HolesOf(list, hdr)[..k] + HolesOf(list, hdr)[k + 1..];
  }

  lemma RemovedAt(list: seq<nat>, hdr: map<nat, Header>, head: nat, k: nat, hdr': map<nat, Header>, a: nat)
    requires Linked(list, hdr, head) && Increasing(list) && k < |list| && a < |list| - 1
    requires hdr' == if k > 0 then hdr[list[k - 1] := Header(hdr[list[k]].next, hdr[list[k - 1]].num)] else hdr
    ensures var list' := list[..k] + list[k + 1..];
            list'[a] > 0 && list'[a] in hdr' && hdr'[list'[a]].next == PtrAt(list', a + 1)
  {
    hide Linked;
    LinkedAt(list, hdr, head);
    LinkedNext(list, hdr, head, k);
    var list' := list[..k] + list[k + 1..];
    var c := if a < k then a else a + 1;
    LinkedNext(list, hdr, head, c);
    assert list'[a] == list[c];
    if a + 1 < |list'| { assert list'[a + 1] == list[if a + 1 < k then a + 1 else a + 2]; }
    assert a != k - 1 && k > 0 ==> list[c] != list[k - 1];
  }

  /** Blocks start at managed pages, so the index compact_memory computes has count zero. */
  lemma StartBound(ref: seq<int>, list: seq<nat>, hdr: map<nat, Header>, limbo: set<nat>, end: nat, i: nat)
    requires (forall a :: 0 <= a < |list| ==> list[a] in hdr) && Ordered(HolesOf(list, hdr)) && i < |list|
    requires Accounted(ref, HolesOf(list, hdr), limbo, end) && list[i] + hdr[list[i]].num < PHYSPAGE
    ensures list[i] >= KERNPAGE && ref[list[i] + hdr[list[i]].num - KERNPAGE] == 0
  {
    var h := HolesOf(list, hdr);
    HolesBounded(ref, h, limbo, end);
    HoleFree(h, i, list[i]);
  }

  lemma FreeCounts(ref: seq<int>, h: seq<Hole>, limbo: set<nat>, end: nat, b: nat, n: nat)
    requires Accounted(ref, h, limbo, end) && n > 0 && forall p: nat :: InRun(p, b, n) ==> Free(h, p)
    ensures end <= b && b + n <= PHYSPAGE <= |ref| && forall p: nat :: InRun(p, b, n) ==> ref[p] == 0
  {
    hide Free;
    assert InRun(b, b, n) && InRun(b + n - 1, b, n);
  }

  lemma RaisedDropped(ref: seq<int>, raised: seq<int>, ref': seq<int>, b: nat, n: nat)
    requires Raised(ref, raised, b, n) && Dropped(raised, ref', b, n) && b + n <= |ref|
    requires forall p: nat :: InRun(p, b, n) ==> ref[p] == 0
    ensures ref' == ref
  {
  }
}
