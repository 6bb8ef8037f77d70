/**
 The user-level allocator of user/umalloc.c: a circular list of free blocks
 in address order, searched from a roving pointer. Addresses are counted in
 headers (16 bytes); 0 is the null pointer.
 */
module UserMalloc {
  import opened Common
  import opened FreeList

  const TWO32: nat := 0x1_0000_0000

  datatype Header = Header(ptr: nat, size: nat)

  // ---------------------------------------------------------------------
  // Sizes

  function UnitsFor(nbytes: nat): nat { (nbytes + 15) / 16 + 1 }

  /** morecore asks for at least 4096 units. */
  function CoreUnits(nunits: nat): nat { if nunits < 4096 then 4096 else nunits }

  /** The byte count as sbrk's int parameter receives it. */
  function AsInt(n: nat): int {
    var low := n % TWO32;
    if low < 0x8000_0000 then low else low - TWO32
  }

  /** The largest request for which morecore gets from sbrk what it records. */
  const MAXREQUEST: nat := 0x7fff_ffe0

  lemma SbrkExact(nbytes: nat)
    requires nbytes < TWO32
    ensures AsInt(16 * CoreUnits(UnitsFor(nbytes))) == 16 * CoreUnits(UnitsFor(nbytes)) <==> nbytes <= MAXREQUEST
  {
  }

  /** A request of just under 2 GB makes sbrk shrink the process instead. */
  lemma SbrkShrinks()
    ensures AsInt(16 * CoreUnits(UnitsFor(0x7fff_fff0))) == -0x8000_0000
  {
  }

  // ---------------------------------------------------------------------
  // Taking the end of a block

  function TakeEnd(h: seq<Hole>, k: nat, n: nat): seq<Hole>
    requires k < |h| && n <= h[k].pages
  {
    if n == h[k].pages then h[..k] + h[k + 1..] else h[k := Hole(h[k].start, h[k].pages - n)]
  }

  lemma TakeEndOrdered(h: seq<Hole>, k: nat, n: nat)
    requires Ordered(h) && k < |h| && n <= h[k].pages
    ensures Ordered(TakeEnd(h, k, n))
  {
  }

  lemma TakeEndFree(h: seq<Hole>, k: nat, n: nat, p: nat)
    requires Ordered(h) && k < |h| && n <= h[k].pages
    ensures Free(TakeEnd(h, k, n), p) <==> Free(h, p) && !(h[k].End() - n <= p < h[k].End())
  {
    hide Free;
    assert h == h[..k] + [h[k]] + h[k + 1..];
    FreeConcat(h[..k] + [h[k]], h[k + 1..], p);
    FreeConcat(h[..k], [h[k]], p);
    FreeOne(h[k], p);
    if h[k].Has(p) { FreeBeyond(h, k, p); }
    if n == h[k].pages {
      FreeConcat(h[..k], h[k + 1..], p);
    } else {
      var x := Hole(h[k].start, h[k].pages - n);
      assert h[k := x] == h[..k] + [x] + h[k + 1..];
      FreeConcat(h[..k] + [x], h[k + 1..], p);
      FreeConcat(h[..k], [x], p);
      FreeOne(x, p);
    }
  }

  /** Freeing what was just allocated restores the free list. */
  lemma InsertTakenEnd(h: seq<Hole>, k: nat, n: nat, l: nat)
    requires Ordered(h) && k < |h| && 0 < n <= h[k].pages && Fits(TakeEnd(h, k, n), l, h[k].End() - n, n)
    ensures Insert(TakeEnd(h, k, n), l, h[k].End() - n, n) == h
  {
    hide Ordered, Free, Insert, TakeEnd;
    var t := TakeEnd(h, k, n);
    TakeEndOrdered(h, k, n);
    InsertOrdered(t, l, h[k].End() - n, n);
    forall p: nat ensures Free(Insert(t, l, h[k].End() - n, n), p) <==> Free(h, p) {
      InsertFree(t, l, h[k].End() - n, n, p);
      TakeEndFree(h, k, n, p);
      HoleFree(h, k, p);
    }
    Canonical(Insert(t, l, h[k].End() - n, n), h);
  }

  // ---------------------------------------------------------------------
  // The ring

  /** Ring position i: base first, then the free blocks in address order. */
  function At(list: seq<nat>, base: nat, i: nat): nat
    requires i <= |list|
  {
    if i == 0 then base else list[i - 1]
  }

  function After(list: seq<nat>, i: nat): nat { if i < |list| then i + 1 else 0 }

  /** Position i of the ring points to the next one. */
  predicate LinkOk(list: seq<nat>, hdr: map<nat, Header>, base: nat, i: nat)
    requires i <= |list|
  {
    At(list, base, i) in hdr && hdr[At(list, base, i)].ptr == At(list, base, After(list, i))
  }

  ghost predicate Ring(list: seq<nat>, hdr: map<nat, Header>, base: nat) {
    && (forall i: nat :: i <= |list| ==> LinkOk(list, hdr, base, i))
    && base in hdr && hdr[base].size == 0
  }

  ghost function Blocks(list: seq<nat>, hdr: map<nat, Header>): (h: seq<Hole>)
    requires forall i :: 0 <= i < |list| ==> list[i] in hdr
    ensures |h| == |list|
  {
    seq(|list|, i requires 0 <= i < |list| => Hole(list[i], hdr[list[i]].size))
  }

  lemma RingKeys(list: seq<nat>, hdr: map<nat, Header>, base: nat)
    requires Ring(list, hdr, base)
    ensures forall i :: 0 <= i < |list| ==> list[i] in hdr
  {
    forall i | 0 <= i < |list| ensures list[i] in hdr { assert LinkOk(list, hdr, base, i + 1); }
  }

  /** One strictly ascending run from base: the only wrap is from the last block back to base. */
  ghost predicate Ascending(list: seq<nat>, base: nat) {
    && (forall i, j :: 0 <= i < j < |list| ==> list[i] < list[j])
    && (forall i :: 0 <= i < |list| ==> base < list[i])
  }

  lemma AscendingAt(list: seq<nat>, base: nat, i: nat, j: nat)
    requires Ascending(list, base) && i < j <= |list|
    ensures At(list, base, i) < At(list, base, j)
  {
  }

  function Splice(list: seq<nat>, i: nat, mid: seq<nat>, j: nat): seq<nat>
    requires i <= j <= |list|
  {
    list[..i] + mid + list[j..]
  }

  /** The address that follows position j - 1 of the ring. */
  function From(list: seq<nat>, base: nat, j: nat): nat { if j < |list| then list[j] else base }

  /** hdr2 agrees with hdr on ring positions up to i and from list index j on, but for the link at position i. */
  ghost predicate Relinked(list: seq<nat>, hdr: map<nat, Header>, hdr2: map<nat, Header>, base: nat, i: nat, j: nat, next: nat)
    requires i <= j <= |list|
  {
    && (forall a: nat :: a < i ==> Kept(hdr, hdr2, At(list, base, a)))
    && (forall c :: j <= c < |list| ==> Kept(hdr, hdr2, list[c]))
    && At(list, base, i) in hdr && At(list, base, i) in hdr2
    && hdr2[At(list, base, i)] == Header(next, hdr[At(list, base, i)].size)
    && base in hdr2 && hdr2[base].size == 0
  }

  predicate Kept(hdr: map<nat, Header>, hdr2: map<nat, Header>, a: nat) { a in hdr && a in hdr2 && hdr2[a] == hdr[a] }

  /** Blocks i..j of the list are replaced by one block m. */
  lemma RingReplaceAt(list: seq<nat>, hdr: map<nat, Header>, hdr2: map<nat, Header>, base: nat, i: nat, j: nat, m: nat, num: nat, a: nat)
    requires Ring(list, hdr, base) && i <= j <= |list| && Relinked(list, hdr, hdr2, base, i, j, m)
    requires m in hdr2 && hdr2[m] == Header(From(list, base, j), num) && a <= |Splice(list, i, [m], j)|
    ensures LinkOk(Splice(list, i, [m], j), hdr2, base, a)
  {
    var list2 := Splice(list, i, [m], j);
    if a < i {
      assert LinkOk(list, hdr, base, a) && Kept(hdr, hdr2, At(list, base, a));
      assert list2[a] == list[a] && At(list2, base, a) == At(list, base, a);
    } else if a == i {
      assert At(list2, base, i) == At(list, base, i) && list2[i] == m;
    } else if a == i + 1 {
      assert list2[i] == m && (j < |list| ==> list2[i + 1] == list[j]);
    } else {
      var c := a - 1 - i - 1 + j;
      assert list2[a - 1] == list[c] && LinkOk(list, hdr, base, c + 1) && Kept(hdr, hdr2, list[c]);
      assert c + 1 < |list| ==> list2[a] == list[c + 1];
    }
  }

  lemma RingReplace(list: seq<nat>, hdr: map<nat, Header>, hdr2: map<nat, Header>, base: nat, i: nat, j: nat, m: nat, num: nat)
    requires Ring(list, hdr, base) && i <= j <= |list| && Relinked(list, hdr, hdr2, base, i, j, m)
    requires m in hdr2 && hdr2[m] == Header(From(list, base, j), num)
    ensures var list2 := Splice(list, i, [m], j);
            && Ring(list2, hdr2, base) && (forall a :: 0 <= a < |list2| ==> list2[a] in hdr2) && (forall a :: 0 <= a < |list| ==> list[a] in hdr)
            && Blocks(list2, hdr2) == Blocks(list, hdr)[..i] + [Hole(m, num)] + Blocks(list, hdr)[j..]
  {
    hide Relinked, LinkOk;
    var list2 := Splice(list, i, [m], j);
    forall a: nat | a <= |list2| ensures LinkOk(list2, hdr2, base, a) { RingReplaceAt(list, hdr, hdr2, base, i, j, m, num, a); }
    assert base in hdr2 && hdr2[base].size == 0 by { RelinkedBase(list, hdr, hdr2, base, i, j, m); }
    RingKeys(list2, hdr2, base);
    RingKeys(list, hdr, base);
    var h, r := Blocks(list, hdr), Blocks(list, hdr)[..i] + [Hole(m, num)] + Blocks(list, hdr)[j..];
    forall a | 0 <= a < |list2| ensures Blocks(list2, hdr2)[a] == r[a] {
      if a > i { assert list2[a] == list[a - i - 1 + j] && r[a] == h[a - i - 1 + j]; }
      SameSize(list, hdr, hdr2, base, i, j, m, if a < i then a else if a == i then 0 else a - i - 1 + j);
    }
  }

  lemma RelinkedBase(list: seq<nat>, hdr: map<nat, Header>, hdr2: map<nat, Header>, base: nat, i: nat, j: nat, next: nat)
    requires i <= j <= |list| && Relinked(list, hdr, hdr2, base, i, j, next)
    ensures base in hdr2 && hdr2[base].size == 0
  {
  }

  lemma SameSize(list: seq<nat>, hdr: map<nat, Header>, hdr2: map<nat, Header>, base: nat, i: nat, j: nat, next: nat, c: nat)
    requires i <= j <= |list| && Relinked(list, hdr, hdr2, base, i, j, next)
    ensures (c < i || j <= c < |list|) ==> list[c] in hdr && list[c] in hdr2 && hdr2[list[c]].size == hdr[list[c]].size
  {
    if c < i {
      assert At(list, base, c + 1) == list[c];
      if c + 1 < i { assert Kept(hdr, hdr2, At(list, base, c + 1)); }
    } else if j <= c < |list| {
      assert Kept(hdr, hdr2, list[c]);
    }
  }

  /** Block k of the list is taken out. */
  lemma RingRemoveAt(list: seq<nat>, hdr: map<nat, Header>, hdr2: map<nat, Header>, base: nat, k: nat, a: nat)
    requires Ring(list, hdr, base) && k < |list| && Relinked(list, hdr, hdr2, base, k, k + 1, From(list, base, k + 1))
    requires a < |list|
    ensures LinkOk(Splice(list, k, [], k + 1), hdr2, base, a)
  {
    var list2 := Splice(list, k, [], k + 1);
    if a < k {
      assert LinkOk(list, hdr, base, a) && Kept(hdr, hdr2, At(list, base, a));
      assert list2[a] == list[a] && At(list2, base, a) == At(list, base, a);
    } else if a == k {
      assert At(list2, base, k) == At(list, base, k) && (k + 1 < |list| ==> list2[k] == list[k + 1]);
    } else {
      assert list2[a - 1] == list[a] && LinkOk(list, hdr, base, a + 1) && Kept(hdr, hdr2, list[a]);
      assert a + 1 < |list| ==> list2[a] == list[a + 1];
    }
  }

  lemma RingRemove(list: seq<nat>, hdr: map<nat, Header>, hdr2: map<nat, Header>, base: nat, k: nat)
    requires Ring(list, hdr, base) && k < |list| && Relinked(list, hdr, hdr2, base, k, k + 1, From(list, base, k + 1))
    ensures var list2 := Splice(list, k, [], k + 1);
            && Ring(list2, hdr2, base) && (forall a :: 0 <= a < |list2| ==> list2[a] in hdr2) && (forall a :: 0 <= a < |list| ==> list[a] in hdr)
            && Blocks(list2, hdr2) == Blocks(list, hdr)[..k] + Blocks(list, hdr)[k + 1..]
  {
    hide Relinked, LinkOk;
    var list2 := Splice(list, k, [], k + 1);
    var next := From(list, base, k + 1);
    forall a: nat | a <= |list2| ensures LinkOk(list2, hdr2, base, a) { RingRemoveAt(list, hdr, hdr2, base, k, a); }
    RelinkedBase(list, hdr, hdr2, base, k, k + 1, next);
    RingKeys(list2, hdr2, base);
    RingKeys(list, hdr, base);
    var h, r := Blocks(list, hdr), Blocks(list, hdr)[..k] + Blocks(list, hdr)[k + 1..];
    forall a | 0 <= a < |list2| ensures Blocks(list2, hdr2)[a] == r[a] {
      if a >= k { assert list2[a] == list[a + 1] && r[a] == h[a + 1]; }
      SameSize(list, hdr, hdr2, base, k, k + 1, next, if a < k then a else a + 1);
    }
  }

  // ---------------------------------------------------------------------
  // Returning a block

  /** The headers after free has linked block bp in behind block p. */
  function Returned(hdr: map<nat, Header>, p: nat, bp: nat): map<nat, Header>
    requires p in hdr && bp in hdr && (bp + hdr[bp].size == hdr[p].ptr ==> hdr[p].ptr in hdr)
  {
    var next := hdr[p].ptr;
    var one := if bp + hdr[bp].size == next
               then hdr[bp := Header(hdr[next].ptr, hdr[bp].size + hdr[next].size)]
               else hdr[bp := Header(next, hdr[bp].size)];
    if p + one[p].size == bp
    then one[p := Header(one[bp].ptr, one[p].size + one[bp].size)]
    else one[p := Header(bp, one[p].size)]
  }

  /** The list after block bp has joined it behind position t. */
  function Joined(list: seq<nat>, h: seq<Hole>, t: nat, bp: nat, n: nat): seq<nat>
    requires t <= |list| == |h|
  {
    var right := t < |h| && bp + n == h[t].start;
    var left := t > 0 && h[t - 1].End() == bp;
    Splice(list, if left then t - 1 else t, [if left then list[t - 1] else bp], if right then t + 1 else t)
  }

  /** Position t is where bp belongs in the ring. */
  ghost predicate Spot(list: seq<nat>, base: nat, t: nat, bp: nat) {
    && t <= |list| && base < bp && bp !in list
    && (forall i :: 0 <= i < t ==> list[i] < bp)
    && (forall i :: t <= i < |list| ==> bp < list[i])
  }

  /** What Returned does, header by header. */
  ghost predicate LinkedIn(hdr: map<nat, Header>, hdr2: map<nat, Header>, p: nat, bp: nat, left: bool, nxt: nat, num: nat) {
    && p in hdr && bp in hdr && p in hdr2 && bp in hdr2
    && (forall x :: x in hdr && x != p && x != bp ==> Kept(hdr, hdr2, x))
    && hdr2[if left then p else bp] == Header(nxt, num)
    && (!left ==> hdr2[p] == Header(bp, hdr[p].size))
  }

  lemma ReturnedIs(hdr: map<nat, Header>, p: nat, bp: nat)
    requires p in hdr && bp in hdr && p != bp && hdr[p].ptr in hdr && hdr[p].ptr != bp
    requires bp + hdr[bp].size == hdr[p].ptr ==> hdr[p].ptr != p
    ensures var next := hdr[p].ptr;
            var right := bp + hdr[bp].size == next;
            var left := p + hdr[p].size == bp;
            LinkedIn(hdr, Returned(hdr, p, bp), p, bp, left, if right then hdr[next].ptr else next,
                     (if left then hdr[p].size else 0) + hdr[bp].size + (if right then hdr[next].size else 0))
  {
  }

  lemma InsertRelinked(list: seq<nat>, hdr: map<nat, Header>, hdr2: map<nat, Header>, base: nat, t: nat, bp: nat, left: bool, j: nat, nxt: nat, num: nat)
    requires Ring(list, hdr, base) && Ascending(list, base) && Spot(list, base, t, bp) && t <= j <= |list|
    requires LinkedIn(hdr, hdr2, At(list, base, t), bp, left, nxt, num) && (left ==> t > 0)
    ensures var i := if left then t - 1 else t;
            Relinked(list, hdr, hdr2, base, i, j, if left then list[t - 1] else bp)
  {
    hide Ring;
    var p := At(list, base, t);
    forall a: nat | a < t ensures Kept(hdr, hdr2, At(list, base, a)) && hdr[At(list, base, a)].ptr == list[a] {
      LinkAt(list, hdr, base, a);
      AscendingAt(list, base, a, t);
    }
    forall c | j <= c < |list| ensures Kept(hdr, hdr2, list[c]) {
      LinkAt(list, hdr, base, c + 1);
      AscendingAt(list, base, t, c + 1);
    }
    BaseOf(list, hdr, base);
    assert base == At(list, base, 0);
  }

  lemma LinkAt(list: seq<nat>, hdr: map<nat, Header>, base: nat, i: nat)
    requires Ring(list, hdr, base) && i <= |list|
    ensures At(list, base, i) in hdr && hdr[At(list, base, i)].ptr == From(list, base, i)
  {
    assert LinkOk(list, hdr, base, i);
  }

  lemma BaseOf(list: seq<nat>, hdr: map<nat, Header>, base: nat)
    requires Ring(list, hdr, base)
    ensures base in hdr && hdr[base].size == 0
  {
  }

  lemma ReturnedRing(list: seq<nat>, hdr: map<nat, Header>, base: nat, t: nat, bp: nat)
    requires Ring(list, hdr, base) && Ascending(list, base) && Spot(list, base, t, bp) && bp in hdr
    requires forall i :: 0 <= i < |list| ==> list[i] in hdr
    ensures At(list, base, t) in hdr && hdr[At(list, base, t)].ptr == From(list, base, t) && From(list, base, t) in hdr
    ensures var hdr2 := Returned(hdr, At(list, base, t), bp);
            var list2 := Joined(list, Blocks(list, hdr), t, bp, hdr[bp].size);
            && Ring(list2, hdr2, base) && (forall a :: 0 <= a < |list2| ==> list2[a] in hdr2)
            && Blocks(list2, hdr2) == Insert(Blocks(list, hdr), t, bp, hdr[bp].size)
  {
    hide Ring, Returned, LinkedIn, Relinked;
    var p, n := At(list, base, t), hdr[bp].size;
    LinkAt(list, hdr, base, t);
    if t < |list| { LinkAt(list, hdr, base, t + 1); } else { BaseOf(list, hdr, base); }
    var h := Blocks(list, hdr);
    var right := t < |h| && bp + n == h[t].start;
    var left := t > 0 && h[t - 1].End() == bp;
    SpotApart(list, hdr, base, t, bp);
    ReturnedIs(hdr, p, bp);
    var hdr2 := Returned(hdr, p, bp);
    var j := if right then t + 1 else t;
    var num := (if left then h[t - 1].pages else 0) + n + (if right then h[t].pages else 0);
    var m := if left then list[t - 1] else bp;
    assert LinkedIn(hdr, hdr2, p, bp, left, From(list, base, j), num);
    InsertRelinked(list, hdr, hdr2, base, t, bp, left, j, From(list, base, j), num);
    LinkedHeader(hdr, hdr2, p, bp, left, From(list, base, j), num);
    RingReplace(list, hdr, hdr2, base, if left then t - 1 else t, j, m, num);
  }

  lemma LinkedHeader(hdr: map<nat, Header>, hdr2: map<nat, Header>, p: nat, bp: nat, left: bool, nxt: nat, num: nat)
    requires LinkedIn(hdr, hdr2, p, bp, left, nxt, num)
    ensures p in hdr2 && bp in hdr2 && hdr2[if left then p else bp] == Header(nxt, num)
  {
  }

  lemma SpotApart(list: seq<nat>, hdr: map<nat, Header>, base: nat, t: nat, bp: nat)
    requires Ring(list, hdr, base) && Ascending(list, base) && Spot(list, base, t, bp)
    ensures var p, next := At(list, base, t), From(list, base, t);
            && p < bp && next != bp && (t < |list| ==> next > bp) && (t == |list| ==> next == base < bp)
            && (t == 0 ==> p in hdr && p + hdr[p].size != bp) && (next != p || next == base)
  {
  }

  // ---------------------------------------------------------------------
  // Every unit from sbrk is free or in exactly one live block

  predicate InRun(a: nat, n: nat, p: nat) { a <= p < a + n }

  ghost predicate InLive(live: map<nat, nat>, p: nat) { exists a :: a in live && InRun(a, live[a], p) }

  ghost predicate Account(h: seq<Hole>, live: map<nat, nat>, core: set<nat>) {
    && (forall a :: a in live ==> live[a] > 0)
    && (forall a, p :: a in live && InRun(a, live[a], p) ==> p in core && !Free(h, p))
    && (forall a, b :: a in live && b in live && a < b ==> a + live[a] <= b)
    && (forall p: nat :: Free(h, p) ==> p in core)
    && (forall p :: p in core ==> Free(h, p) || InLive(live, p))
  }

  lemma AccountFreed(h: seq<Hole>, h2: seq<Hole>, live: map<nat, nat>, core: set<nat>, bp: nat)
    requires Account(h, live, core) && bp in live
    requires forall p: nat :: Free(h2, p) <==> Free(h, p) || InRun(bp, live[bp], p)
    ensures Account(h2, live - {bp}, core)
  {
    hide Free;
    var rest := live - {bp};
    forall a, p | a in rest && InRun(a, rest[a], p) ensures p in core && !Free(h2, p) {
      assert a in live && InRun(a, live[a], p);
      assert a < bp ==> a + live[a] <= bp;
      assert bp < a ==> bp + live[bp] <= a;
    }
    forall p | p in core ensures Free(h2, p) || InLive(rest, p) {
      if !Free(h2, p) {
        assert InLive(live, p);
        var a :| a in live && InRun(a, live[a], p);
        assert a in rest;
      }
    }
  }

  lemma LiveHead(h: seq<Hole>, live: map<nat, nat>, core: set<nat>, a: nat)
    requires Account(h, live, core)
    ensures a in live ==> a in core && !Free(h, a)
  {
    assert a in live ==> InRun(a, live[a], a);
  }

  lemma AccountTaken(h: seq<Hole>, h2: seq<Hole>, live: map<nat, nat>, core: set<nat>, r: nat, n: nat)
    requires Account(h, live, core) && n > 0
    requires forall p: nat :: InRun(r, n, p) ==> Free(h, p)
    requires forall p: nat :: Free(h2, p) <==> Free(h, p) && !InRun(r, n, p)
    ensures r !in live && Account(h2, live[r := n], core)
  {
    hide Free;
    assert InRun(r, n, r);
    LiveHead(h, live, core, r);
    var more := live[r := n];
    forall a, b | a in more && b in more && a < b ensures a + more[a] <= b {
      if a == r {
        assert InRun(b, live[b], b);
        assert !InRun(r, n, b);
      } else if b == r {
        assert !InRun(a, live[a], r);
      }
    }
    forall p | p in core ensures Free(h2, p) || InLive(more, p) {
      if !Free(h2, p) {
        if Free(h, p) {
          assert InRun(r, more[r], p);
        } else {
          assert InLive(live, p);
          var a :| a in live && InRun(a, live[a], p);
          assert a in more && InRun(a, more[a], p);
        }
      }
    }
  }

  ghost function Region(a: nat, n: nat): set<nat> { set p: nat | a <= p < a + n && InRun(a, n, p) }

  lemma AccountGrown(h: seq<Hole>, live: map<nat, nat>, core: set<nat>, a: nat, n: nat)
    requires Account(h, live, core) && n > 0 && (forall p :: p in core ==> p < a)
    ensures a !in live && Account(h, live[a := n], core + Region(a, n))
  {
    hide Free;
    LiveHead(h, live, core, a);
    var more, all := live[a := n], core + Region(a, n);
    forall b: nat, c: nat | b in more && c in more && b < c ensures b + more[b] <= c { GrownApart(h, live, core, a, n, b, c); }
    forall p: nat | p in all ensures Free(h, p) || InLive(more, p) { GrownUnit(h, live, core, a, n, p); }
  }

  lemma GrownApart(h: seq<Hole>, live: map<nat, nat>, core: set<nat>, a: nat, n: nat, b: nat, c: nat)
    requires Account(h, live, core) && (forall p :: p in core ==> p < a)
    requires b in live[a := n] && c in live[a := n] && b < c
    ensures b + live[a := n][b] <= c
  {
    hide Free;
    LiveHead(h, live, core, b);
    LiveHead(h, live, core, c);
    assert b in live;
    if c == a {
      LiveUnit(h, live, core, b, b + live[b] - 1);
      assert b + live[b] - 1 in core;
    } else {
      assert c in live;
    }
  }

  lemma GrownUnit(h: seq<Hole>, live: map<nat, nat>, core: set<nat>, a: nat, n: nat, p: nat)
    requires Account(h, live, core) && a !in live && (p in core || InRun(a, n, p))
    ensures Free(h, p) || InLive(live[a := n], p)
  {
    hide Free;
    var more := live[a := n];
    if p in core {
      assert Free(h, p) || InLive(live, p);
      if b: nat :| b in live && InRun(b, live[b], p) { assert b in more && InRun(b, more[b], p); }
    } else {
      assert InRun(a, more[a], p);
    }
  }

  lemma LiveUnit(h: seq<Hole>, live: map<nat, nat>, core: set<nat>, a: nat, p: nat)
    requires Account(h, live, core)
    ensures a in live && InRun(a, live[a], p) ==> p in core && !Free(h, p)
  {
  }

  // ---------------------------------------------------------------------
  // The heap

  predicate OnRing(list: seq<nat>, base: nat, p: nat) { p == base || p in list }

  /** Number of blocks below an address. */
  function Below(list: seq<nat>, bp: nat): (t: nat)
    ensures t <= |list|
  {
    if |list| == 0 || list[0] >= bp then 0 else 1 + Below(list[1..], bp)
  }

  lemma {:induction false} BelowSpot(list: seq<nat>, base: nat, bp: nat)
    requires Ascending(list, base) && base < bp && bp !in list
    ensures Spot(list, base, Below(list, bp), bp)
    decreases |list|
  {
    if |list| > 0 && list[0] < bp {
      BelowSpot(list[1..], base, bp);
      var t := Below(list[1..], bp);
      forall i | 0 <= i < t + 1 ensures list[i] < bp { if i > 0 { assert list[1..][i - 1] < bp; } }
      forall i | t + 1 <= i < |list| ensures bp < list[i] { assert bp < list[1..][i - 1]; }
    }
  }

  /** Steps along the ring from position i to position t. */
  function Dist(n: nat, i: nat, t: nat): nat
    requires i <= n && t <= n
  {
    if i <= t then t - i else n + 1 - i + t
  }

  lemma BlocksAscend(list: seq<nat>, hdr: map<nat, Header>, base: nat, core: set<nat>)
    requires forall i :: 0 <= i < |list| ==> list[i] in hdr
    requires Ordered(Blocks(list, hdr)) && (forall p: nat :: Free(Blocks(list, hdr), p) ==> p in core) && (forall p :: p in core ==> base < p)
    ensures Ascending(list, base)
    ensures forall i :: 0 <= i < |list| ==> Free(Blocks(list, hdr), list[i])
  {
    var h := Blocks(list, hdr);
    forall i | 0 <= i < |list| ensures Free(h, list[i]) { assert h[i].Has(list[i]); }
    forall i, j | 0 <= i < j < |list| ensures list[i] < list[j] { assert h[i].End() < h[j].start; }
  }

  /** free's search stops at position i exactly if it is the spot for bp. */
  lemma SearchStops(list: seq<nat>, hdr: map<nat, Header>, base: nat, t: nat, bp: nat, i: nat)
    requires Ring(list, hdr, base) && Ascending(list, base) && Spot(list, base, t, bp) && i <= |list|
    ensures At(list, base, i) in hdr
    ensures var p, next := At(list, base, i), hdr[At(list, base, i)].ptr;
            (bp > p && bp < next) || (p >= next && (bp > p || bp < next)) <==> i == t
  {
    LinkAt(list, hdr, base, i);
    if 0 < i < |list| { assert list[i - 1] < list[i]; }
  }

  lemma DistStep(n: nat, i: nat, t: nat)
    requires i <= n && t <= n && i != t
    ensures Dist(n, if i < n then i + 1 else 0, t) < Dist(n, i, t)
  {
  }

  lemma RingIndex(list: seq<nat>, base: nat, p: nat) returns (i: nat)
    requires OnRing(list, base, p)
    ensures i <= |list| && At(list, base, i) == p
  {
    if p == base {
      i := 0;
    } else {
      var k :| 0 <= k < |list| && list[k] == p;
      i := k + 1;
    }
  }

  lemma SpotFits(list: seq<nat>, hdr: map<nat, Header>, live: map<nat, nat>, core: set<nat>, base: nat, t: nat, bp: nat)
    requires forall i :: 0 <= i < |list| ==> list[i] in hdr
    requires Ordered(Blocks(list, hdr)) && Account(Blocks(list, hdr), live, core) && bp in live && Spot(list, base, t, bp)
    ensures Fits(Blocks(list, hdr), t, bp, live[bp])
  {
    var h, n := Blocks(list, hdr), live[bp];
    LiveHead(h, live, core, bp);
    forall i | 0 <= i < t ensures h[i].End() <= bp { assert h[i].Has(bp) ==> Free(h, bp); }
    forall i | t <= i < |h| ensures bp + n <= h[i].start {
      LiveUnit(h, live, core, bp, list[i]);
      assert h[i].Has(list[i]) && Free(h, list[i]);
    }
  }

  /** A whole heap, as values. */
  ghost predicate HeapOk(list: seq<nat>, hdr: map<nat, Header>, base: nat, live: map<nat, nat>, core: set<nat>) {
    && Ring(list, hdr, base) && (forall i :: 0 <= i < |list| ==> list[i] in hdr)
    && Ordered(Blocks(list, hdr)) && Account(Blocks(list, hdr), live, core)
    && (forall p :: p in core ==> base < p < TWO32)
    && (forall a :: a in live ==> a in hdr && hdr[a].size == live[a])
  }

  lemma HeapAscends(list: seq<nat>, hdr: map<nat, Header>, base: nat, live: map<nat, nat>, core: set<nat>)
    requires HeapOk(list, hdr, base, live, core)
    ensures Ascending(list, base)
    ensures forall a :: a in live ==> base < a && a !in list
  {
    BlocksAscend(list, hdr, base, core);
    forall a | a in live ensures base < a && a !in list { LiveHead(Blocks(list, hdr), live, core, a); }
  }

  /** Linking a live block in keeps the heap whole. */
  lemma ReleaseOk(list: seq<nat>, hdr: map<nat, Header>, base: nat, live: map<nat, nat>, core: set<nat>, t: nat, bp: nat)
    requires HeapOk(list, hdr, base, live, core) && bp in live && Spot(list, base, t, bp)
    ensures At(list, base, t) in hdr && hdr[At(list, base, t)].ptr in hdr && bp in hdr
    ensures var h, n := Blocks(list, hdr), live[bp];
            var hdr2, list2 := Returned(hdr, At(list, base, t), bp), Joined(list, h, t, bp, n);
            && HeapOk(list2, hdr2, base, live - {bp}, core) && OnRing(list2, base, At(list, base, t))
            && Fits(h, t, bp, n) && Blocks(list2, hdr2) == Insert(h, t, bp, n)
            && (forall p: nat :: Free(Blocks(list2, hdr2), p) <==> Free(h, p) || InRun(bp, n, p))
  {
    hide Ring, Ordered, Free, Account, Returned, Joined, Insert, Spot, Fits;
    var h, n := Blocks(list, hdr), live[bp];
    HeapAscends(list, hdr, base, live, core);
    SpotFits(list, hdr, live, core, base, t, bp);
    ReturnedRing(list, hdr, base, t, bp);
    var hdr2, list2 := Returned(hdr, At(list, base, t), bp), Joined(list, h, t, bp, n);
    InsertOrdered(h, t, bp, n);
    forall q: nat ensures Free(Blocks(list2, hdr2), q) <==> Free(h, q) || InRun(bp, n, q) { InsertFree(h, t, bp, n, q); }
    AccountFreed(h, Blocks(list2, hdr2), live, core, bp);
    assert OnRing(list2, base, At(list, base, t)) by { JoinedRing(list, h, base, t, bp, n); }
    forall a | a in live - {bp} ensures a in hdr2 && hdr2[a].size == live[a] { ReturnedOther(list, hdr, base, t, bp, a); }
  }

  lemma JoinedRing(list: seq<nat>, h: seq<Hole>, base: nat, t: nat, bp: nat, n: nat)
    requires t <= |list| == |h|
    ensures OnRing(Joined(list, h, t, bp, n), base, At(list, base, t))
  {
    if t > 0 {
      var left := h[t - 1].End() == bp;
      assert Joined(list, h, t, bp, n)[t - 1] == list[t - 1];
    }
  }

  lemma ReturnedOther(list: seq<nat>, hdr: map<nat, Header>, base: nat, t: nat, bp: nat, a: nat)
    requires t <= |list| && At(list, base, t) in hdr && bp in hdr && hdr[At(list, base, t)].ptr in hdr
    requires a in hdr && a != bp && a != base && a !in list
    ensures a in Returned(hdr, At(list, base, t), bp) && Returned(hdr, At(list, base, t), bp)[a] == hdr[a]
  {
  }

  class Heap {
    const base: nat
    var hdr: map<nat, Header>
    var freep: nat

    /** The free blocks in address order, the live blocks with their sizes, and every unit obtained from sbrk. */
    ghost var list: seq<nat>
    ghost var live: map<nat, nat>
    ghost var core: set<nat>

    ghost predicate Ready()
      reads this
    {
      freep != 0 && HeapOk(list, hdr, base, live, core) && OnRing(list, base, freep)
    }

    ghost function Holes(): seq<Hole>
      requires Ready()
      reads this
    {
      Blocks(list, hdr)
    }

    /** Before the first call freep is null and there is nothing. */
    ghost predicate Valid()
      reads this
    {
      base > 0 && if freep == 0 then list == [] && live == map[] && core == {} else Ready()
    }

    /** No free block has n units. */
    ghost predicate NoneFits(n: nat)
      requires Valid()
      reads this
    {
      freep == 0 || NoFit(Holes(), n)
    }

    constructor (at: nat)
      requires at > 0
      ensures Valid() && base == at && freep == 0
    {
      base := at;
      hdr, freep := map[], 0;
      list, live, core := [], map[], {};
    }

    /** free's search loop: it ends, at the block after which bp belongs. */
    method FindSpot(bp: nat) returns (p: nat, ghost t: nat)
      requires Ready() && base < bp && bp !in list
      ensures t <= |list| && Spot(list, base, t, bp) && p == At(list, base, t) && p in hdr
    {
      hide Ring, Spot, Ascending, Ordered, Account;
      HeapAscends(list, hdr, base, live, core);
      t := Below(list, bp);
      BelowSpot(list, base, bp);
      p := freep;
      ghost var i: nat := RingIndex(list, base, freep);
      SearchStops(list, hdr, base, t, bp, i);
      while !(bp > p && bp < hdr[p].ptr)
        invariant i <= |list| && p == At(list, base, i) && p in hdr
        invariant (bp > p && bp < hdr[p].ptr) || (p >= hdr[p].ptr && (bp > p || bp < hdr[p].ptr)) <==> i == t
        decreases Dist(|list|, i, t)
      {
        if p >= hdr[p].ptr && (bp > p || bp < hdr[p].ptr) { break; }
        LinkAt(list, hdr, base, i);
        DistStep(|list|, i, t);
        p := hdr[p].ptr;
        i := After(list, i);
        SearchStops(list, hdr, base, t, bp, i);
      }
    }

    /** free: bp is the header of a live block. */
    method Release(bp: nat)
      requires Valid() && bp in live
      modifies this
      ensures Ready() && Valid() && live == old(live) - {bp} && core == old(core)
      ensures forall p: nat :: Free(Holes(), p) <==> Free(old(Holes()), p) || InRun(bp, old(live[bp]), p)
      ensures exists t: nat :: Fits(old(Holes()), t, bp, old(live[bp])) && Holes() == Insert(old(Holes()), t, bp, old(live[bp]))
    {
      hide HeapOk, Spot, Fits, Insert, Joined, Free;
      HeapAscends(list, hdr, base, live, core);
      ghost var h, hdr0, n := Holes(), hdr, live[bp];
      var p, t := FindSpot(bp);
      ReleaseOk(list, hdr, base, live, core, t, bp);
      var next := hdr[p].ptr;
      if bp + hdr[bp].size == next {
        hdr := hdr[bp := Header(hdr[next].ptr, hdr[bp].size + hdr[next].size)];
      } else {
        hdr := hdr[bp := Header(next, hdr[bp].size)];
      }
      if p + hdr[p].size == bp {
        hdr := hdr[p := Header(hdr[bp].ptr, hdr[p].size + hdr[bp].size)];
      } else {
        hdr := hdr[p := Header(bp, hdr[p].size)];
      }
      freep := p;
      assert hdr == Returned(hdr0, p, bp);
      list := Joined(list, h, t, bp, n);
      live := live - {bp};
    }

    /** What sbrk answers a request for nu units with: nothing, or units above everything handed out before. */
    ghost predicate SbrkAnswer(at: Option<nat>, nu: nat)
      reads this
    {
      at.Some? ==> base < at.value && at.value + nu <= TWO32 && forall p :: p in core ==> p < at.value
    }

    /** morecore. */
    method MoreCore(nunits: nat, at: Option<nat>) returns (p: nat)
      requires Valid() && freep != 0 && SbrkAnswer(at, CoreUnits(nunits))
      modifies this
      ensures Valid() && freep != 0 && live == old(live) && p == if at == None then 0 else freep
      ensures at == None ==> unchanged(this)
      ensures at.Some? ==> core == old(core) + Region(at.value, CoreUnits(nunits))
      ensures at.Some? ==> forall q: nat :: Free(Holes(), q) <==> Free(old(Holes()), q) || InRun(at.value, CoreUnits(nunits), q)
    {
      var nu := nunits;
      if nu < 4096 { nu := 4096; }
      if at == None { return 0; }
      var hp := at.value;
      var x := Header(if hp in hdr then hdr[hp].ptr else 0, nu);
      GrowOk(list, hdr, base, live, core, hp, x);
      hdr := hdr[hp := x];
      live := live[hp := nu];
      core := core + Region(hp, nu);
      Release(hp);
      p := freep;
    }

    /** The block p after prevp is taken whole, or its last nunits units are. */
    method Carve(prevp: nat, p: nat, ghost k: nat, nunits: nat) returns (r: nat)
      requires Ready() && base > 0 && k < |list| && nunits > 0
      requires p == list[k] && prevp == At(list, base, k) && p in hdr && prevp in hdr && hdr[p].size >= nunits
      modifies this
      ensures Ready() && Valid() && r > 0 && core == old(core)
      ensures r - 1 !in old(live) && live == old(live)[r - 1 := nunits]
      ensures Holes() == TakeEnd(old(Holes()), k, nunits)
    {
      hide HeapOk, TakenHdr, TakenList, TakeEnd;
      HeapAscends(list, hdr, base, live, core);
      TakeOk(list, hdr, base, live, core, k, nunits);
      TakenIs(list, hdr, base, k, nunits);
      ghost var hdr0 := hdr;
      var q := p;
      if hdr[p].size == nunits {
        hdr := hdr[prevp := Header(hdr[p].ptr, hdr[prevp].size)];
      } else {
        hdr := hdr[p := Header(hdr[p].ptr, hdr[p].size - nunits)];
        q := p + hdr[p].size;
        hdr := hdr[q := Header(if q in hdr then hdr[q].ptr else 0, nunits)];
      }
      assert hdr == TakenHdr(hdr0, prevp, p, nunits);
      list := TakenList(list, hdr0, k, nunits);
      live := live[q := nunits];
      freep := prevp;
      r := q + 1;
    }

    /**
     malloc: the header is one unit before the address returned. It is null
     exactly if no free block is large enough and sbrk gives nothing. `sound` is
     false exactly if no free block is large enough and sbrk would be asked for
     another size than morecore records.
     */
    method Malloc(nbytes: nat, at: Option<nat>) returns (r: nat, sound: bool)
      requires Valid() && nbytes < TWO32 && (nbytes <= MAXREQUEST ==> SbrkAnswer(at, CoreUnits(UnitsFor(nbytes))))
      modifies this
      ensures Valid() && freep != 0
      ensures sound <==> nbytes <= MAXREQUEST || !old(NoneFits(UnitsFor(nbytes)))
      ensures sound ==> (r == 0 <==> at == None && old(NoneFits(UnitsFor(nbytes))))
      ensures r != 0 ==> r - 1 !in old(live) && live == old(live)[r - 1 := UnitsFor(nbytes)]
      ensures r == 0 ==> live == old(live) && core == old(core) && NoFit(Holes(), UnitsFor(nbytes))
      ensures core == if r != 0 && old(NoneFits(UnitsFor(nbytes))) && at.Some? then old(core) + Region(at.value, CoreUnits(UnitsFor(nbytes))) else old(core)
    {
      hide HeapOk, SomeFit, Region, Free, AsInt;
      var nunits := UnitsFor(nbytes);
      ghost var none := NoneFits(nunits);
      sound := true;
      if freep == 0 {
        InitOk(hdr, base);
        hdr := hdr[base := Header(base, 0)];
        freep := base;
      }
      var found, prevp, p, k := Search(nunits);
      assert found ==> !none by { if found { FitAt(Holes(), k, nunits); } }
      if !found {
        SbrkExact(nbytes);
        if AsInt(16 * CoreUnits(nunits)) != 16 * CoreUnits(nunits) { return 0, false; }
        p := MoreCore(nunits, at);
        if p == 0 { return 0, true; }
        FitAfterGrowth(list, hdr, base, live, core, at.value, CoreUnits(nunits));
        found, prevp, p, k := Search(nunits);
      }
      r := Carve(prevp, p, k, nunits);
    }

    /** Freeing what malloc has just cut from a free block restores the list. */
    method MallocThenFree(nbytes: nat)
      requires Valid() && nbytes < TWO32 && freep != 0 && !NoneFits(UnitsFor(nbytes))
      modifies this
      ensures Valid() && freep != 0 && Holes() == old(Holes()) && live == old(live) && core == old(core)
    {
      hide HeapOk, Free, NoFit, UnitsFor, Insert, Fits;
      var r, sound := Malloc(nbytes, None);
      Release(r - 1);
      assert live == old(live);
      SameHoles(old(list), old(hdr), list, hdr, base, live, core);
    }

    /** malloc's loop once around the ring, from the block after freep to freep: the first large enough block, and the one before it. */
    method Search(nunits: nat) returns (found: bool, prevp: nat, p: nat, ghost k: nat)
      requires Ready() && nunits > 0
      ensures found <==> SomeFit(list, hdr, nunits)
      ensures found ==> k < |list| && p == list[k] && prevp == At(list, base, k) && prevp in hdr && Large(hdr, p, nunits)
      ensures !found ==> NoFit(Holes(), nunits)
    {
      hide HeapOk, Passed;
      prevp := freep;
      ghost var f: nat := RingIndex(list, base, freep);
      ghost var j: nat := f;
      HeapLink(list, hdr, base, live, core, j);
      p := hdr[prevp].ptr;
      ghost var i: nat := After(list, j);
      PassedNone(list, hdr, base, f, nunits);
      while true
        invariant f <= |list| && freep == At(list, base, f) && j <= |list| && prevp == At(list, base, j)
        invariant i == After(list, j) && p == At(list, base, i)
        invariant Passed(list, hdr, base, f, i, nunits)
        decreases Dist(|list|, i, f)
      {
        HeapLink(list, hdr, base, live, core, i);
        HeapLink(list, hdr, base, live, core, j);
        if hdr[p].size >= nunits {
          BaseEmpty(list, hdr, base, live, core);
          return true, prevp, p, i - 1;
        }
        if p == freep {
          AllPassed(list, hdr, base, live, core, f, i, nunits);
          return false, prevp, p, 0;
        }
        StepOn(list, hdr, base, live, core, f, i, nunits);
        prevp, p := p, hdr[p].ptr;
        j, i := i, After(list, i);
      }
    }
  }

  /** Units fresh from sbrk, with a header written to them, are one more live block. */
  lemma GrowOk(list: seq<nat>, hdr: map<nat, Header>, base: nat, live: map<nat, nat>, core: set<nat>, hp: nat, x: Header)
    requires HeapOk(list, hdr, base, live, core) && x.size > 0 && base < hp && hp + x.size <= TWO32 && forall p :: p in core ==> p < hp
    ensures hp !in live && live[hp := x.size] - {hp} == live
    ensures (forall i :: 0 <= i < |list| ==> list[i] in hdr) && Blocks(list, hdr[hp := x]) == Blocks(list, hdr)
    ensures HeapOk(list, hdr[hp := x], base, live[hp := x.size], core + Region(hp, x.size))
  {
    hide Ordered, Account, Free;
    AccountGrown(Blocks(list, hdr), live, core, hp, x.size);
    GrowBlocks(list, hdr, base, live, core, hp, x);
    var hdr2 := hdr[hp := x];
    forall i: nat | i <= |list| ensures LinkOk(list, hdr2, base, i) {
      assert LinkOk(list, hdr, base, i);
      assert At(list, base, i) != hp;
    }
  }

  /** The free list is determined by the live blocks and the units obtained from sbrk. */
  lemma SameHoles(a: seq<nat>, ha: map<nat, Header>, b: seq<nat>, hb: map<nat, Header>, base: nat, live: map<nat, nat>, core: set<nat>)
    requires HeapOk(a, ha, base, live, core) && HeapOk(b, hb, base, live, core)
    ensures (forall i :: 0 <= i < |a| ==> a[i] in ha) && (forall i :: 0 <= i < |b| ==> b[i] in hb) && Blocks(a, ha) == Blocks(b, hb)
  {
    hide Ring, Ordered, Free;
    var x, y := Blocks(a, ha), Blocks(b, hb);
    forall p: nat ensures Free(x, p) <==> Free(y, p) {
      hide Account;
      FreeExactly(x, live, core, p);
      FreeExactly(y, live, core, p);
    }
    Canonical(x, y);
  }

  lemma FreeExactly(h: seq<Hole>, live: map<nat, nat>, core: set<nat>, p: nat)
    requires Account(h, live, core)
    ensures Free(h, p) <==> p in core && !InLive(live, p)
  {
    hide Free;
  }

  lemma GrowBlocks(list: seq<nat>, hdr: map<nat, Header>, base: nat, live: map<nat, nat>, core: set<nat>, hp: nat, x: Header)
    requires HeapOk(list, hdr, base, live, core) && forall p :: p in core ==> p < hp
    ensures forall i :: 0 <= i < |list| ==> list[i] != hp
    ensures Blocks(list, hdr[hp := x]) == Blocks(list, hdr)
  {
    hide Ring, Ordered;
    BlocksAscend(list, hdr, base, core);
    forall i | 0 <= i < |list| ensures list[i] != hp { assert Free(Blocks(list, hdr), list[i]); }
  }

  // ---------------------------------------------------------------------
  // malloc's search and split

  lemma InitOk(hdr: map<nat, Header>, base: nat)
    ensures HeapOk([], hdr[base := Header(base, 0)], base, map[], {})
  {
  }

  lemma HeapLink(list: seq<nat>, hdr: map<nat, Header>, base: nat, live: map<nat, nat>, core: set<nat>, i: nat)
    requires HeapOk(list, hdr, base, live, core) && i <= |list|
    ensures At(list, base, i) in hdr && hdr[At(list, base, i)].ptr == At(list, base, After(list, i))
  {
    assert LinkOk(list, hdr, base, i);
  }

  lemma BaseEmpty(list: seq<nat>, hdr: map<nat, Header>, base: nat, live: map<nat, nat>, core: set<nat>)
    requires HeapOk(list, hdr, base, live, core)
    ensures base in hdr && hdr[base].size == 0
  {
  }

  /** The headers after malloc has cut n units off the end of block p, whose predecessor is q. */
  function TakenHdr(hdr: map<nat, Header>, q: nat, p: nat, n: nat): map<nat, Header>
    requires q in hdr && p in hdr
  {
    if hdr[p].size <= n then hdr[q := Header(hdr[p].ptr, hdr[q].size)]
    else
      var r := p + hdr[p].size - n;
      var one := hdr[p := Header(hdr[p].ptr, hdr[p].size - n)];
      one[r := Header(if r in one then one[r].ptr else 0, n)]
  }

  function TakenList(list: seq<nat>, hdr: map<nat, Header>, k: nat, n: nat): seq<nat>
    requires k < |list| && list[k] in hdr
  {
    if hdr[list[k]].size <= n then Splice(list, k, [], k + 1) else list
  }

  lemma TakenIs(list: seq<nat>, hdr: map<nat, Header>, base: nat, k: nat, n: nat)
    requires k < |list| && list[k] in hdr && At(list, base, k) in hdr && hdr[list[k]].size >= n
    ensures var p, q := list[k], At(list, base, k);
            && (hdr[p].size == n ==> TakenHdr(hdr, q, p, n) == hdr[q := Header(hdr[p].ptr, hdr[q].size)])
            && (hdr[p].size > n ==>
                var one := hdr[p := Header(hdr[p].ptr, hdr[p].size - n)];
                var r := p + one[p].size;
                TakenHdr(hdr, q, p, n) == one[r := Header(if r in one then one[r].ptr else 0, n)])
  {
  }

  lemma TakeOk(list: seq<nat>, hdr: map<nat, Header>, base: nat, live: map<nat, nat>, core: set<nat>, k: nat, n: nat)
    requires HeapOk(list, hdr, base, live, core) && k < |list| && n > 0
    requires list[k] in hdr && At(list, base, k) in hdr && hdr[list[k]].size >= n
    ensures var p, q := list[k], At(list, base, k);
            var hdr2, list2, r := TakenHdr(hdr, q, p, n), TakenList(list, hdr, k, n), p + hdr[p].size - n;
            && HeapOk(list2, hdr2, base, live[r := n], core) && OnRing(list2, base, q) && r !in live && r > 0
            && Blocks(list2, hdr2) == TakeEnd(Blocks(list, hdr), k, n)
  {
    hide Ring, Ordered, Free, Account, TakeEnd;
    var p, q := list[k], At(list, base, k);
    var h := Blocks(list, hdr);
    var hdr2, list2, r := TakenHdr(hdr, q, p, n), TakenList(list, hdr, k, n), p + hdr[p].size - n;
    HeapAscends(list, hdr, base, live, core);
    TakeLinks(list, hdr, base, k, n);
    TakeEndOrdered(h, k, n);
    forall x: nat ensures Free(Blocks(list2, hdr2), x) <==> Free(h, x) && !InRun(r, n, x) { TakeEndFree(h, k, n, x); }
    forall x: nat | InRun(r, n, x) ensures Free(h, x) { HoleFree(h, k, x); }
    AccountTaken(h, Blocks(list2, hdr2), live, core, r, n);
    forall a | a in live ensures a in hdr2 && hdr2[a].size == live[a] { TakenOther(list, hdr, base, k, n, a); }
    TakenHead(list, hdr, base, k, n);
  }

  lemma TakeLinks(list: seq<nat>, hdr: map<nat, Header>, base: nat, k: nat, n: nat)
    requires Ring(list, hdr, base) && Ascending(list, base) && (forall i :: 0 <= i < |list| ==> list[i] in hdr) && Ordered(Blocks(list, hdr))
    requires k < |list| && n > 0 && At(list, base, k) in hdr && hdr[list[k]].size >= n
    ensures var hdr2, list2 := TakenHdr(hdr, At(list, base, k), list[k], n), TakenList(list, hdr, k, n);
            && Ring(list2, hdr2, base) && (forall i :: 0 <= i < |list2| ==> list2[i] in hdr2)
            && Blocks(list2, hdr2) == TakeEnd(Blocks(list, hdr), k, n)
  {
    if hdr[list[k]].size == n { UnlinkLinks(list, hdr, base, k); } else { ShrinkLinks(list, hdr, base, k, n); }
  }

  lemma UnlinkLinks(list: seq<nat>, hdr: map<nat, Header>, base: nat, k: nat)
    requires Ring(list, hdr, base) && Ascending(list, base) && (forall i :: 0 <= i < |list| ==> list[i] in hdr)
    requires k < |list| && At(list, base, k) in hdr
    ensures var q := At(list, base, k);
            var hdr2, list2 := hdr[q := Header(hdr[list[k]].ptr, hdr[q].size)], Splice(list, k, [], k + 1);
            && Ring(list2, hdr2, base) && (forall i :: 0 <= i < |list2| ==> list2[i] in hdr2)
            && Blocks(list2, hdr2) == Blocks(list, hdr)[..k] + Blocks(list, hdr)[k + 1..]
  {
    hide Ring;
    var q := At(list, base, k);
    var hdr2 := hdr[q := Header(hdr[list[k]].ptr, hdr[q].size)];
    LinkAt(list, hdr, base, k + 1);
    BaseOf(list, hdr, base);
    forall a: nat | a < k ensures Kept(hdr, hdr2, At(list, base, a)) {
      LinkAt(list, hdr, base, a);
      AscendingAt(list, base, a, k);
    }
    forall c | k + 1 <= c < |list| ensures Kept(hdr, hdr2, list[c]) { AscendingAt(list, base, k, c + 1); }
    assert Relinked(list, hdr, hdr2, base, k, k + 1, From(list, base, k + 1));
    RingRemove(list, hdr, hdr2, base, k);
  }

  lemma ShrinkLinks(list: seq<nat>, hdr: map<nat, Header>, base: nat, k: nat, n: nat)
    requires Ring(list, hdr, base) && Ascending(list, base) && (forall i :: 0 <= i < |list| ==> list[i] in hdr) && Ordered(Blocks(list, hdr))
    requires k < |list| && 0 < n < hdr[list[k]].size
    ensures var r := list[k] + hdr[list[k]].size - n;
            var one := hdr[list[k] := Header(hdr[list[k]].ptr, hdr[list[k]].size - n)];
            var hdr2 := one[r := Header(if r in one then one[r].ptr else 0, n)];
            && Ring(list, hdr2, base) && (forall i :: 0 <= i < |list| ==> list[i] in hdr2)
            && Blocks(list, hdr2) == Blocks(list, hdr)[k := Hole(list[k], hdr[list[k]].size - n)]
  {
    var h := Blocks(list, hdr);
    var r := list[k] + hdr[list[k]].size - n;
    forall i | 0 <= i < |list| ensures list[i] != r {
      if i < k { assert list[i] < list[k]; } else if i > k { assert h[k].End() < h[i].start; }
    }
    assert r != base && base != list[k];
    var one := hdr[list[k] := Header(hdr[list[k]].ptr, hdr[list[k]].size - n)];
    var hdr2 := one[r := Header(if r in one then one[r].ptr else 0, n)];
    forall i: nat | i <= |list| ensures LinkOk(list, hdr2, base, i) {
      assert LinkOk(list, hdr, base, i) && At(list, base, i) != r;
    }
  }

  lemma TakenHead(list: seq<nat>, hdr: map<nat, Header>, base: nat, k: nat, n: nat)
    requires k < |list| && list[k] in hdr && At(list, base, k) in hdr && hdr[list[k]].size >= n && Ascending(list, base)
    ensures var hdr2, r := TakenHdr(hdr, At(list, base, k), list[k], n), list[k] + hdr[list[k]].size - n;
            r in hdr2 && hdr2[r].size == n
    ensures OnRing(TakenList(list, hdr, k, n), base, At(list, base, k))
  {
    AscendingAt(list, base, k, k + 1);
    if k > 0 { assert TakenList(list, hdr, k, n)[k - 1] == list[k - 1]; }
  }

  lemma TakenOther(list: seq<nat>, hdr: map<nat, Header>, base: nat, k: nat, n: nat, a: nat)
    requires k < |list| && list[k] in hdr && At(list, base, k) in hdr && hdr[list[k]].size >= n
    requires a in hdr && a != base && a !in list && a != list[k] + hdr[list[k]].size - n
    ensures a in TakenHdr(hdr, At(list, base, k), list[k], n) && TakenHdr(hdr, At(list, base, k), list[k], n)[a] == hdr[a]
  {
  }

  predicate Small(hdr: map<nat, Header>, x: nat, n: nat) { x in hdr ==> hdr[x].size < n }

  predicate Large(hdr: map<nat, Header>, x: nat, n: nat) { x in hdr && hdr[x].size >= n }

  /** Every ring position that the search has passed on its way from f to i is too small. */
  ghost predicate Passed(list: seq<nat>, hdr: map<nat, Header>, base: nat, f: nat, i: nat, n: nat) {
    f <= |list| && i <= |list|
    && forall a: nat :: a <= |list| && Dist(|list|, a, f) > Dist(|list|, i, f) ==> Small(hdr, At(list, base, a), n)
  }

  /** No block is large enough. */
  ghost predicate NoFit(h: seq<Hole>, n: nat) { forall k :: 0 <= k < |h| ==> h[k].pages < n }

  ghost predicate SomeFit(list: seq<nat>, hdr: map<nat, Header>, n: nat) { exists k :: 0 <= k < |list| && Large(hdr, list[k], n) }

  lemma PassedNone(list: seq<nat>, hdr: map<nat, Header>, base: nat, f: nat, n: nat)
    requires f <= |list|
    ensures Passed(list, hdr, base, f, After(list, f), n)
  {
  }

  lemma StepOn(list: seq<nat>, hdr: map<nat, Header>, base: nat, live: map<nat, nat>, core: set<nat>, f: nat, i: nat, n: nat)
    requires Passed(list, hdr, base, f, i, n) && Small(hdr, At(list, base, i), n) && i != f
    ensures Passed(list, hdr, base, f, After(list, i), n) && Dist(|list|, After(list, i), f) < Dist(|list|, i, f)
  {
    forall a: nat | a <= |list| && Dist(|list|, a, f) > Dist(|list|, After(list, i), f) ensures Small(hdr, At(list, base, a), n) {
      assert a == i || Dist(|list|, a, f) > Dist(|list|, i, f);
    }
  }

  lemma FitAt(h: seq<Hole>, k: nat, n: nat)
    requires k < |h| && h[k].pages >= n
    ensures !NoFit(h, n)
  {
  }

  /** Once around the ring without a fit: no free block is large enough. */
  lemma AllPassed(list: seq<nat>, hdr: map<nat, Header>, base: nat, live: map<nat, nat>, core: set<nat>, f: nat, i: nat, n: nat)
    requires HeapOk(list, hdr, base, live, core) && Passed(list, hdr, base, f, i, n)
    requires Small(hdr, At(list, base, i), n) && At(list, base, i) == At(list, base, f)
    ensures !SomeFit(list, hdr, n)
    ensures (forall k :: 0 <= k < |list| ==> list[k] in hdr) && NoFit(Blocks(list, hdr), n)
  {
    HeapAscends(list, hdr, base, live, core);
    if i < f { AscendingAt(list, base, i, f); } else if f < i { AscendingAt(list, base, f, i); }
    forall k | 0 <= k < |list| ensures !Large(hdr, list[k], n) && Blocks(list, hdr)[k].pages < n {
      assert Small(hdr, At(list, base, k + 1), n);
    }
  }

  lemma HolesEndNotFree(h: seq<Hole>, k: nat)
    requires Ordered(h) && k < |h|
    ensures !Free(h, h[k].End())
  {
    forall i | 0 <= i < |h| ensures !h[i].Has(h[k].End()) {
      assert i < k ==> h[i].End() < h[k].start;
      assert k < i ==> h[k].End() < h[i].start;
    }
  }

  /** A free run lies in one block. */
  lemma FitAfterGrowth(list: seq<nat>, hdr: map<nat, Header>, base: nat, live: map<nat, nat>, core: set<nat>, a: nat, nu: nat)
    requires HeapOk(list, hdr, base, live, core) && nu > 0 && forall q: nat :: InRun(a, nu, q) ==> Free(Blocks(list, hdr), q)
    ensures forall n: nat :: n <= nu ==> SomeFit(list, hdr, n)
  {
    var h := Blocks(list, hdr);
    assert InRun(a, nu, a);
    var k :| 0 <= k < |h| && h[k].Has(a);
    HolesEndNotFree(h, k);
    assert !InRun(a, nu, h[k].End());
    forall n: nat | n <= nu ensures SomeFit(list, hdr, n) { assert Large(hdr, list[k], n); }
  }

  /** Sizes fit the header's 32-bit field, so no addition in free wraps. */
  lemma SizesFit(list: seq<nat>, hdr: map<nat, Header>, base: nat, live: map<nat, nat>, core: set<nat>, k: nat)
    requires HeapOk(list, hdr, base, live, core) && k < |list|
    ensures list[k] in hdr && list[k] + hdr[list[k]].size <= TWO32 && hdr[list[k]].size < TWO32
  {
    var h := Blocks(list, hdr);
    assert h[k].Has(h[k].End() - 1);
    assert Free(h, h[k].End() - 1);
    HeapAscends(list, hdr, base, live, core);
  }
}
