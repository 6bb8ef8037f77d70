/**
 The address-ordered list of free page runs of kernel/kalloc.c, as values:
 what ordering and maximal coalescing mean, and why they make the list a
 function of the set of free pages.
 */
module FreeList {
  /** A free run: first page number and length in pages. */
  datatype Hole = Hole(start: nat, pages: nat) {
    function End(): nat { start + pages }

    predicate Has(p: nat) { start <= p < start + pages }
  }

  /** Strictly ordered, disjoint and with a gap between neighbours, so nothing is left to coalesce. */
  ghost predicate Ordered(h: seq<Hole>) {
    && (forall i :: 0 <= i < |h| ==> h[i].pages > 0)
    && (forall i, j :: 0 <= i < j < |h| ==> h[i].End() < h[j].start)
  }

  ghost predicate Free(h: seq<Hole>, p: nat) {
    exists i :: 0 <= i < |h| && h[i].Has(p)
  }

  /** Two ordered lists of the same free pages are the same list. */
  lemma {:induction false} Canonical(a: seq<Hole>, b: seq<Hole>)
    requires Ordered(a) && Ordered(b)
    requires forall p: nat :: Free(a, p) <==> Free(b, p)
    ensures a == b
    decreases |a|
  {
    if |a| > 0 && |b| > 0 {
      SameFirst(a, b);
      assert a == [a[0]] + a[1..] && b == [b[0]] + b[1..];
      forall p: nat ensures Free(a[1..], p) <==> Free(b[1..], p) {
        FreeTail(a, p);
        FreeTail(b, p);
      }
      Canonical(a[1..], b[1..]);
    } else {
      NonEmpty(a);
      NonEmpty(b);
    }
  }

  lemma NonEmpty(h: seq<Hole>)
    requires Ordered(h)
    ensures |h| > 0 ==> Free(h, h[0].start)
  {
    assert |h| > 0 ==> h[0].Has(h[0].start);
  }

  lemma FreeTail(h: seq<Hole>, p: nat)
    requires Ordered(h) && |h| > 0
    ensures Free(h[1..], p) <==> Free(h, p) && !h[0].Has(p)
  {
    if Free(h[1..], p) {
      var i :| 0 <= i < |h[1..]| && h[1..][i].Has(p);
      assert h[i + 1].Has(p);
    }
    if Free(h, p) && !h[0].Has(p) {
      var i :| 0 <= i < |h| && h[i].Has(p);
      assert h[1..][i - 1].Has(p);
    }
  }

  lemma SameFirst(a: seq<Hole>, b: seq<Hole>)
    requires Ordered(a) && Ordered(b) && |a| > 0 && |b| > 0
    requires forall p: nat :: Free(a, p) <==> Free(b, p)
    ensures a[0] == b[0]
  {
    FirstNotAfter(a, b);
    FirstNotAfter(b, a);
    EndNotAfter(a, b);
    EndNotAfter(b, a);
  }

  lemma FirstNotAfter(a: seq<Hole>, b: seq<Hole>)
    requires Ordered(a) && Ordered(b) && |a| > 0 && |b| > 0
    requires forall p: nat :: Free(b, p) ==> Free(a, p)
    ensures a[0].start <= b[0].start
  {
    var p := b[0].start;
    assert b[0].Has(p);
    assert Free(b, p);
    var i :| 0 <= i < |a| && a[i].Has(p);
    assert i > 0 ==> a[0].End() < a[i].start;
  }

  lemma EndNotAfter(a: seq<Hole>, b: seq<Hole>)
    requires Ordered(a) && Ordered(b) && |a| > 0 && |b| > 0 && a[0].start == b[0].start
    requires forall p: nat :: Free(b, p) ==> Free(a, p)
    ensures b[0].End() <= a[0].End()
  {
    EndNotFree(a);
    FirstHas(b, a[0].End());
  }

  lemma FirstHas(h: seq<Hole>, p: nat)
    requires |h| > 0
    ensures h[0].Has(p) ==> Free(h, p)
  {
  }

  lemma EndNotFree(h: seq<Hole>)
    requires Ordered(h) && |h| > 0
    ensures !Free(h, h[0].End())
  {
    forall i | 0 <= i < |h| ensures !h[i].Has(h[0].End()) {}
  }

  // ---------------------------------------------------------------------
  // Returning a run

  /** Insert the run [b, b + n) before index k and merge it with its neighbours. */
  function Insert(h: seq<Hole>, k: nat, b: nat, n: nat): seq<Hole>
    requires k <= |h|
  {
    var right := k < |h| && b + n == h[k].start;
    var left := k > 0 && h[k - 1].End() == b;
    var mid := Hole(if left then h[k - 1].start else b,
                    (if left then h[k - 1].pages else 0) + n + (if right then h[k].pages else 0));
    h[..if left then k - 1 else k] + [mid] + h[if right then k + 1 else k..]
  }

  /** Index k is where the run [b, b + n) belongs, and none of it is free. */
  ghost predicate Fits(h: seq<Hole>, k: nat, b: nat, n: nat) {
    && k <= |h| && n > 0
    && (forall i :: 0 <= i < k ==> h[i].End() <= b)
    && (forall i :: k <= i < |h| ==> b + n <= h[i].start)
  }

  lemma FreeConcat(a: seq<Hole>, b: seq<Hole>, p: nat)
    ensures Free(a + b, p) <==> Free(a, p) || Free(b, p)
  {
    if Free(a, p) {
      var i :| 0 <= i < |a| && a[i].Has(p);
      assert (a + b)[i].Has(p);
    }
    if Free(b, p) {
      var i :| 0 <= i < |b| && b[i].Has(p);
      assert (a + b)[|a| + i].Has(p);
    }
  }

  lemma FreeOne(x: Hole, p: nat)
    ensures Free([x], p) <==> x.Has(p)
  {
    assert x.Has(p) ==> [x][0].Has(p);
  }

  lemma OrderedJoin(a: seq<Hole>, x: Hole, b: seq<Hole>)
    requires Ordered(a) && Ordered(b) && x.pages > 0
    requires forall i :: 0 <= i < |a| ==> a[i].End() < x.start
    requires forall i :: 0 <= i < |b| ==> x.End() < b[i].start
    ensures Ordered(a + [x] + b)
  {
    var r := a + [x] + b;
    forall i | 0 <= i < |r| ensures r[i] == if i < |a| then a[i] else if i == |a| then x else b[i - |a| - 1] {}
  }

  lemma InsertOrdered(h: seq<Hole>, k: nat, b: nat, n: nat)
    requires Ordered(h) && Fits(h, k, b, n)
    ensures Ordered(Insert(h, k, b, n))
  {
    hide Ordered, Fits;
    InsertNeighbours(h, k, b, n);
    var right := k < |h| && b + n == h[k].start;
    var left := k > 0 && h[k - 1].End() == b;
    var i, j := if left then k - 1 else k, if right then k + 1 else k;
    var mid := Hole(if left then h[k - 1].start else b,
                    (if left then h[k - 1].pages else 0) + n + (if right then h[k].pages else 0));
    OrderedReplace(h, i, j, mid);
  }

  lemma InsertNeighbours(h: seq<Hole>, k: nat, b: nat, n: nat)
    requires Ordered(h) && Fits(h, k, b, n)
    ensures k <= |h| && n > 0
    ensures k > 0 ==> h[k - 1].End() <= b && h[k - 1].pages > 0
    ensures k > 1 ==> h[k - 2].End() < h[k - 1].start
    ensures k < |h| ==> b + n <= h[k].start
    ensures k + 1 < |h| ==> h[k].End() < h[k + 1].start
  {
  }

  lemma OrderedReplace(h: seq<Hole>, i: nat, j: nat, x: Hole)
    requires Ordered(h) && i <= j <= |h| && x.pages > 0
    requires i > 0 ==> h[i - 1].End() < x.start
    requires j < |h| ==> x.End() < h[j].start
    ensures Ordered(h[..i] + [x] + h[j..])
  {
    var pre, post := h[..i], h[j..];
    forall l | 0 <= l < |pre| ensures pre[l].End() < x.start {
      assert pre[l] == h[l] && (l < i - 1 ==> h[l].End() < h[i - 1].start);
    }
    forall l | 0 <= l < |post| ensures x.End() < post[l].start {
      assert post[l] == h[j + l] && (l > 0 ==> h[j].End() < h[j + l].start);
    }
    OrderedJoin(pre, x, post);
  }

  lemma InsertFree(h: seq<Hole>, k: nat, b: nat, n: nat, p: nat)
    requires Ordered(h) && Fits(h, k, b, n)
    ensures Free(Insert(h, k, b, n), p) <==> Free(h, p) || b <= p < b + n
  {
    hide Ordered, Free;
    var right := k < |h| && b + n == h[k].start;
    var left := k > 0 && h[k - 1].End() == b;
    var i, j := if left then k - 1 else k, if right then k + 1 else k;
    var mid := Hole(if left then h[k - 1].start else b,
                    (if left then h[k - 1].pages else 0) + n + (if right then h[k].pages else 0));
    assert Insert(h, k, b, n) == h[..i] + [mid] + h[j..];
    FreeReplace(h, i, j, mid, p);
    FreeMiddle(h, i, k, j, p);
    assert mid.Has(p) <==> (left && h[k - 1].Has(p)) || b <= p < b + n || (right && h[k].Has(p));
  }

  lemma FreeReplace(h: seq<Hole>, i: nat, j: nat, x: Hole, p: nat)
    requires i <= j <= |h|
    ensures Free(h[..i] + [x] + h[j..], p) <==> Free(h[..i], p) || x.Has(p) || Free(h[j..], p)
  {
    hide Free;
    FreeConcat(h[..i] + [x], h[j..], p);
    FreeConcat(h[..i], [x], p);
    FreeOne(x, p);
  }

  lemma FreeMiddle(h: seq<Hole>, i: nat, k: nat, j: nat, p: nat)
    requires k - 1 <= i <= k <= j <= k + 1 && j <= |h|
    ensures Free(h, p) <==> Free(h[..i], p) || (i < k && h[i].Has(p)) || (k < j && h[k].Has(p)) || Free(h[j..], p)
  {
    hide Free;
    FreeConcat(h[..k], h[k..], p);
    assert h == h[..k] + h[k..];
    if i < k {
      FreeConcat(h[..i], [h[i]], p);
      FreeOne(h[i], p);
      assert h[..k] == h[..i] + [h[i]];
    }
    if k < j {
      FreeConcat([h[k]], h[j..], p);
      FreeOne(h[k], p);
      assert h[k..] == [h[k]] + h[j..];
    }
  }

  // ---------------------------------------------------------------------
  // Taking from a run

  /** Take the first n pages of hole k. */
  function Take(h: seq<Hole>, k: nat, n: nat): seq<Hole>
    requires k < |h| && n <= h[k].pages
  {
    if n == h[k].pages then h[..k] + h[k + 1..]
    else h[k := Hole(h[k].start + n, h[k].pages - n)]
  }

  lemma TakeOrdered(h: seq<Hole>, k: nat, n: nat)
    requires Ordered(h) && k < |h| && n <= h[k].pages
    ensures Ordered(Take(h, k, n))
  {
  }

  lemma TakeFree(h: seq<Hole>, k: nat, n: nat, p: nat)
    requires Ordered(h) && k < |h| && n <= h[k].pages
    ensures Free(Take(h, k, n), p) <==> Free(h, p) && !(h[k].start <= p < h[k].start + n)
  {
    hide Free;
    assert h == h[..k] + [h[k]] + h[k + 1..];
    FreeConcat(h[..k] + [h[k]], h[k + 1..], p);
    FreeConcat(h[..k], [h[k]], p);
    FreeOne(h[k], p);
    if h[k].Has(p) { FreeBeyond(h, k, p); }
    if n == h[k].pages {
      FreeConcat(h[..k], h[k + 1..], p);
    } else {
      var x := Hole(h[k].start + n, h[k].pages - n);
      assert h[k := x] == h[..k] + [x] + h[k + 1..];
      FreeConcat(h[..k] + [x], h[k + 1..], p);
      FreeConcat(h[..k], [x], p);
      FreeOne(x, p);
    }
  }

  lemma FreeBeyond(h: seq<Hole>, k: nat, p: nat)
    requires Ordered(h) && k < |h| && h[k].Has(p)
    ensures !Free(h[..k], p) && !Free(h[k + 1..], p)
  {
  }

  /** Returning a run just taken from hole k restores the list. */
  lemma InsertTaken(h: seq<Hole>, k: nat, n: nat, l: nat)
    requires Ordered(h) && k < |h| && 0 < n <= h[k].pages && Fits(Take(h, k, n), l, h[k].start, n)
    ensures Insert(Take(h, k, n), l, h[k].start, n) == h
  {
    hide Ordered, Free, Insert, Take;
    var t := Take(h, k, n);
    TakeOrdered(h, k, n);
    InsertOrdered(t, l, h[k].start, n);
    forall p: nat ensures Free(Insert(t, l, h[k].start, n), p) <==> Free(h, p) {
      InsertFree(t, l, h[k].start, n, p);
      TakeFree(h, k, n, p);
      HoleFree(h, k, p);
    }
    Canonical(Insert(t, l, h[k].start, n), h);
  }

  lemma HoleFree(h: seq<Hole>, k: nat, p: nat)
    requires k < |h|
    ensures h[k].Has(p) ==> Free(h, p)
  {
  }

  /** The hole kalloc_contig(n) takes: the first among the smallest that are large enough. */
  ghost predicate BestFit(h: seq<Hole>, k: nat, n: nat) {
    && k < |h|
    && h[k].pages >= n
    && (forall i :: 0 <= i < |h| && h[i].pages >= n ==> h[k].pages <= h[i].pages)
    && (forall i :: 0 <= i < k && h[i].pages >= n ==> h[k].pages < h[i].pages)
  }

  lemma BestFitUnique(h: seq<Hole>, k: nat, l: nat, n: nat)
    requires BestFit(h, k, n) && BestFit(h, l, n)
    ensures k == l
  {
  }
}
