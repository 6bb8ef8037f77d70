/**
 The doubly linked ring of kernel/bio.c: buffers are numbered from 0 and the
 list head is number NBUF. The ring is proved to be the recency order of
 BufferCache, and the loops of bget to be its two searches.
 */
module BufferRing {
  import opened Common
  import opened BufferCache

  const HEAD: nat := NBUF

  /** Ring position i: the head first, then the buffers, most recently used first. */
  function At(order: seq<nat>, i: nat): nat
    requires i <= |order|
  {
    if i == 0 then HEAD else order[i - 1]
  }

  function After(order: seq<nat>, i: nat): nat { if i < |order| then i + 1 else 0 }

  predicate Numbers(order: seq<nat>) {
    && (forall i :: 0 <= i < |order| ==> order[i] < NBUF)
    && (forall i, j :: 0 <= i < j < |order| ==> order[i] != order[j])
  }

  /** Position i and its successor point at each other. */
  predicate LinkOk(order: seq<nat>, next: seq<nat>, prev: seq<nat>, i: nat)
    requires i <= |order| && Numbers(order) && |next| == |prev| == NBUF + 1
  {
    next[At(order, i)] == At(order, After(order, i)) && prev[At(order, After(order, i))] == At(order, i)
  }

  ghost predicate Ring(order: seq<nat>, next: seq<nat>, prev: seq<nat>) {
    && Numbers(order) && |next| == |prev| == NBUF + 1
    && (forall i: nat :: i <= |order| ==> LinkOk(order, next, prev, i))
  }

  lemma AtDistinct(order: seq<nat>, i: nat, j: nat)
    requires Numbers(order) && i <= |order| && j <= |order|
    ensures At(order, i) == At(order, j) ==> i == j
  {
  }

  function Cut(order: seq<nat>, k: nat): seq<nat>
    requires k < |order|
  {
    order[..k] + order[k + 1..]
  }

  /** Unlinking the buffer at list index k. */
  lemma Unlink(order: seq<nat>, next: seq<nat>, prev: seq<nat>, k: nat)
    requires Ring(order, next, prev) && k < |order|
    ensures var b := order[k];
            && next[b] <= NBUF && prev[b] <= NBUF
            && Ring(Cut(order, k), next[prev[b] := next[b]], prev[next[b] := prev[b]])
  {
    var b := order[k];
    assert LinkOk(order, next, prev, k) && LinkOk(order, next, prev, k + 1);
    var p, n := At(order, k), At(order, After(order, k + 1));
    assert prev[b] == p && next[b] == n;
    var cut, next2, prev2 := Cut(order, k), next[p := n], prev[n := p];
    forall i: nat | i <= |cut| ensures LinkOk(cut, next2, prev2, i) { UnlinkAt(order, next, prev, k, i); }
  }

  lemma UnlinkAt(order: seq<nat>, next: seq<nat>, prev: seq<nat>, k: nat, i: nat)
    requires Ring(order, next, prev) && k < |order| && i < |order| && Numbers(Cut(order, k))
    ensures var p, n := At(order, k), At(order, After(order, k + 1));
            LinkOk(Cut(order, k), next[p := n], prev[n := p], i)
  {
    var cut := Cut(order, k);
    var p, n := At(order, k), At(order, After(order, k + 1));
    if i < k {
      assert LinkOk(order, next, prev, i);
      assert At(cut, i) == At(order, i) && cut[i] == order[i];
      assert At(order, i) != p && At(order, i + 1) != n by { CutApart(order, k, i); }
    } else if i == k {
      assert At(cut, k) == p && (k < |cut| ==> cut[k] == order[k + 1]);
    } else {
      assert LinkOk(order, next, prev, i + 1);
      assert cut[i - 1] == order[i] && (i < |cut| ==> cut[i] == order[i + 1]);
      assert At(order, i + 1) != p && At(order, After(order, i + 1)) != n by { CutApart(order, k, i + 1); }
    }
  }

  lemma CutApart(order: seq<nat>, k: nat, i: nat)
    requires Numbers(order) && k < |order| && i <= |order| && i != k && i != k + 1
    ensures At(order, i) != At(order, k) && At(order, After(order, i)) != At(order, After(order, k + 1))
  {
    AtDistinct(order, i, k);
    AtDistinct(order, After(order, i), After(order, k + 1));
  }

  /** Linking a buffer in behind the head. */
  lemma LinkFirst(order: seq<nat>, next: seq<nat>, prev: seq<nat>, b: nat)
    requires Ring(order, next, prev) && b < NBUF && b !in order
    ensures next[HEAD] <= NBUF
    ensures Ring([b] + order, next[b := next[HEAD]][HEAD := b], prev[b := HEAD][next[HEAD] := b])
  {
    assert LinkOk(order, next, prev, 0);
    var more := [b] + order;
    var next2, prev2 := next[b := next[HEAD]][HEAD := b], prev[b := HEAD][next[HEAD] := b];
    assert Numbers(more);
    forall i: nat | i <= |more| ensures LinkOk(more, next2, prev2, i) { LinkFirstAt(order, next, prev, b, i); }
  }

  lemma LinkFirstAt(order: seq<nat>, next: seq<nat>, prev: seq<nat>, b: nat, i: nat)
    requires Ring(order, next, prev) && b < NBUF && b !in order && i <= |order| + 1 && Numbers([b] + order) && next[HEAD] <= NBUF
    ensures LinkOk([b] + order, next[b := next[HEAD]][HEAD := b], prev[b := HEAD][next[HEAD] := b], i)
  {
    var more := [b] + order;
    assert LinkOk(order, next, prev, 0);
    assert next[HEAD] == At(order, After(order, 0)) != b;
    if i == 0 {
      assert At(more, 0) == HEAD && At(more, 1) == b;
    } else if i == 1 {
      assert At(more, 1) == b && At(more, After(more, 1)) == At(order, After(order, 0));
    } else {
      assert LinkOk(order, next, prev, i - 1);
      assert At(more, i) == order[i - 2] && At(more, After(more, i)) == At(order, After(order, i - 1));
      AtDistinct(order, After(order, i - 1), After(order, 0));
    }
  }

  lemma {:induction false} CutWithout(order: seq<nat>, k: nat)
    requires Numbers(order) && k < |order|
    ensures Cut(order, k) == Without(order, order[k])
  {
    if k > 0 {
      NumbersRest(order, k);
      CutWithout(order[1..], k - 1);
      CutRest(order, k);
    }
  }

  lemma NumbersRest(order: seq<nat>, k: nat)
    requires Numbers(order) && 0 < k < |order|
    ensures Numbers(order[1..]) && order[1..][k - 1] == order[k] && order[0] != order[k]
  {
  }

  lemma CutRest(order: seq<nat>, k: nat)
    requires 0 < k < |order|
    ensures Cut(order, k) == [order[0]] + Cut(order[1..], k - 1)
  {
    assert order[..k] == [order[0]] + order[1..][..k - 1];
    assert order[k + 1..] == order[1..][k..];
  }

  lemma RingNext(order: seq<nat>, next: seq<nat>, prev: seq<nat>, i: nat)
    requires Ring(order, next, prev) && i <= |order|
    ensures At(order, i) <= NBUF && next[At(order, i)] == At(order, After(order, i))
    ensures prev[At(order, i)] == At(order, if i == 0 then |order| else i - 1)
  {
    assert LinkOk(order, next, prev, i);
    assert LinkOk(order, next, prev, if i == 0 then |order| else i - 1);
  }

  class Bcache {
    const next: array<nat>
    const prev: array<nat>
    const buf: array<Buf>
    ghost var order: seq<nat>

    ghost predicate Shaped()
      reads this
    {
      next.Length == prev.Length == NBUF + 1 && buf.Length == NBUF && next != prev
    }

    ghost predicate Valid()
      reads this, next, prev
    {
      Shaped() && Ring(order, next[..], prev[..]) && Permutation(order)
    }

    /** binit: each buffer in turn is linked in behind the head. */
    constructor ()
      ensures Valid() && fresh(next) && fresh(prev) && fresh(buf)
      ensures buf[..] == Start(map[]).bufs && order == Start(map[]).order
    {
      next := new nat[NBUF + 1](_ => HEAD);
      prev := new nat[NBUF + 1](_ => HEAD);
      buf := new Buf[NBUF](_ => Buf(Key(0, 0), false, [], 0, 0, None));
      order := [];
      new;
      assert Ring(order, next[..], prev[..]);
      var b := 0;
      while b < NBUF
        invariant b <= NBUF && Shaped() && Ring(order, next[..], prev[..]) && fresh(next) && fresh(prev)
        invariant |order| == b && forall i :: 0 <= i < b ==> order[i] == b - 1 - i
        invariant buf[..] == Start(map[]).bufs
      {
        Front(b);
        b := b + 1;
      }
      assert order == Start(map[]).order;
      assert Permutation(order) by { StartInv(map[]); }
    }

    /** The four assignments that put b behind the head. */
    method Front(b: nat)
      requires Shaped() && Ring(order, next[..], prev[..]) && b < NBUF && b !in order
      modifies this`order, next, prev
      ensures Ring(order, next[..], prev[..]) && order == [b] + old(order)
    {
      LinkFirst(order, next[..], prev[..], b);
      ghost var n: seq<nat>, p: seq<nat> := next[..], prev[..];
      var first: nat := next[HEAD];
      next[b] := first;
      prev[b] := HEAD;
      prev[first] := b;
      next[HEAD] := b;
      assert next[..] == n[b := first][HEAD := b] && prev[..] == p[b := HEAD][first := b];
      order := [b] + order;
    }

    /** bget's first loop. */
    method Lookup(k: Key) returns (r: Option<nat>)
      requires Valid()
      ensures r == FindHit(buf[..], order, k, 0)
    {
      hide Ring;
      ghost var i := 0;
      RingNext(order, next[..], prev[..], 0);
      var b := next[HEAD];
      while b != HEAD
        invariant i <= |order| && b == (if i < |order| then order[i] else HEAD)
        invariant FindHit(buf[..], order, k, i) == FindHit(buf[..], order, k, 0)
        decreases |order| - i
      {
        if buf[b].key == k { return Some(b); }
        RingNext(order, next[..], prev[..], i + 1);
        b := next[b];
        i := i + 1;
      }
      r := None;
    }

    /** bget's second loop, from the least recently used end. */
    method FindLru() returns (r: Option<nat>)
      requires Valid()
      ensures r == FindFree(buf[..], order, |order|)
    {
      hide Ring;
      ghost var i := |order|;
      RingNext(order, next[..], prev[..], 0);
      var b := prev[HEAD];
      while b != HEAD
        invariant 0 <= i <= |order| && b == At(order, i)
        invariant FindFree(buf[..], order, i) == FindFree(buf[..], order, |order|)
        decreases i
      {
        if buf[b].refcnt == 0 { return Some(b); }
        RingNext(order, next[..], prev[..], i);
        b := prev[b];
        i := i - 1;
      }
      r := None;
    }

    /** bget up to the sleep lock; None is the panic. */
    method Bget(k: Key) returns (r: Option<nat>)
      requires Valid()
      modifies buf
      ensures Valid()
      ensures var hit, free := FindHit(old(buf[..]), order, k, 0), FindFree(old(buf[..]), order, |order|);
              match hit {
                case Some(i) => r == hit && buf[..] == old(buf[..])[i := old(buf[i]).(refcnt := old(buf[i]).refcnt + 1)]
                case None => r == free && match free {
                  case Some(i) => buf[..] == old(buf[..])[i := old(buf[i]).(key := k, valid := false, refcnt := 1)]
                  case None => buf[..] == old(buf[..])
                }
              }
    {
      r := Lookup(k);
      if r.Some? {
        buf[r.value] := buf[r.value].(refcnt := buf[r.value].refcnt + 1);
        return;
      }
      r := FindLru();
      if r.Some? { buf[r.value] := buf[r.value].(key := k, valid := false, refcnt := 1); }
    }

    /** brelse after the sleep lock is released. */
    method Brelse(b: nat)
      requires Valid() && b < NBUF && buf[b].refcnt > 0
      modifies this`order, next, prev, buf
      ensures Valid() && buf[..] == old(buf[..])[b := old(buf[b]).(refcnt := old(buf[b]).refcnt - 1)]
      ensures order == if old(buf[b]).refcnt == 1 then ToFront(old(order), b) else old(order)
    {
      hide Ring;
      buf[b] := buf[b].(refcnt := buf[b].refcnt - 1);
      if buf[b].refcnt == 0 {
        ghost var k := OrderHas(order, b);
        ghost var n: seq<nat>, p: seq<nat> := next[..], prev[..];
        ToFrontPermutes(order, b);
        Unlink(order, n, p, k);
        CutWithout(order, k);
        prev[next[b]] := prev[b];
        next[prev[b]] := next[b];
        UnlinkOrder(order, n, p, k);
        assert prev[..] == p[n[b] := p[b]] && next[..] == n[p[b] := n[b]];
        order := Cut(order, k);
        CutNot(old(order), k);
        Front(b);
      }
    }
  }

  lemma CutNot(order: seq<nat>, k: nat)
    requires Numbers(order) && k < |order|
    ensures order[k] !in Cut(order, k)
  {
  }

  /** A buffer is not its own neighbour. */
  lemma UnlinkOrder(order: seq<nat>, next: seq<nat>, prev: seq<nat>, k: nat)
    requires Ring(order, next, prev) && k < |order|
    ensures next[order[k]] != order[k] && prev[order[k]] != order[k]
  {
    RingNext(order, next, prev, k + 1);
    AtDistinct(order, k, k + 1);
    AtDistinct(order, After(order, k + 1), k + 1);
  }
}
