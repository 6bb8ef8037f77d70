/**
 The driver's side of the virtio disk (kernel/virtio_disk.c), with a device
 that takes published chains in order and completes each once, in any order
 (sections 2.6 and 5.2 of VirtIO 1.1). A step is one critical section under
 vdisk_lock, one turn of the interrupt handler's loop, or one device action.

 Every request carries a serial number that travels with its ring entries. It
 is there to say which request a completion belongs to; the driver has no such
 number.
 */
module VirtioDisk {
  import opened Common

  const NUM: nat := 8
  const WRAP: nat := 65536

  datatype Desc = Desc(next: nat, more: bool)

  datatype Entry = Entry(id: nat, serial: nat)

  datatype Req = Req(i0: nat, i1: nat, i2: nat, busy: bool, serial: nat)

  datatype Ring = Ring(slots: seq<Entry>, seen: nat, idx: nat)

  datatype Disk = Disk(
    free: seq<bool>,
    desc: seq<Desc>,
    info: seq<Option<nat>>,
    avail: Ring,
    used: Ring,
    flight: set<Entry>,
    reqs: map<nat, Req>,
    waiters: set<nat>,
    next: nat,
    completions: seq<nat>,
    finished: seq<nat>)

  // ---------------------------------------------------------------------
  // Rings with 16-bit indices

  predicate RingOk(r: Ring) { |r.slots| == NUM && r.seen < WRAP && r.idx < WRAP && Count(r) <= NUM }

  function Count(r: Ring): nat { (r.idx - r.seen) % WRAP }

  /** The entries that the producer has added and the consumer has not looked at. */
  function View(r: Ring): (v: seq<Entry>)
    requires RingOk(r)
    ensures |v| == Count(r)
  {
    seq(Count(r), k requires 0 <= k < Count(r) => r.slots[(r.seen + k) % NUM])
  }

  function Put(r: Ring, e: Entry): Ring
    requires |r.slots| == NUM
  {
    r.(slots := r.slots[r.idx % NUM := e], idx := (r.idx + 1) % WRAP)
  }

  function Take(r: Ring): Ring { r.(seen := (r.seen + 1) % WRAP) }

  lemma SlotWraps(a: nat, k: nat, b: nat)
    requires a < WRAP && k <= NUM && b == (a + k) % WRAP
    ensures b % NUM == (a + k) % NUM
  {
  }

  lemma PutCount(r: Ring, e: Entry)
    requires RingOk(r) && Count(r) < NUM
    ensures Count(Put(r, e)) == Count(r) + 1 && r.idx % NUM == (r.seen + Count(r)) % NUM
  {
    SlotWraps(r.seen, Count(r), r.idx);
  }

  /** A new entry comes last and overwrites no entry that is still to be looked at. */
  lemma PutView(r: Ring, e: Entry)
    requires RingOk(r) && Count(r) < NUM
    ensures RingOk(Put(r, e)) && View(Put(r, e)) == View(r) + [e]
  {
    hide Count;
    PutCount(r, e);
    var q := Put(r, e);
    assert RingOk(q);
    forall k | 0 <= k < Count(r) ensures View(q)[k] == View(r)[k] { SlotsApart(r.seen, k, Count(r)); }
    assert View(q)[Count(r)] == e;
  }

  lemma SlotsApart(a: nat, k: nat, n: nat)
    requires k < n < NUM
    ensures (a + k) % NUM != (a + n) % NUM
  {
  }

  lemma TakeCount(r: Ring)
    requires RingOk(r) && r.seen != r.idx
    ensures Count(r) > 0 && Count(Take(r)) == Count(r) - 1 && Take(r).seen % NUM == (r.seen + 1) % NUM
  {
    SlotWraps(r.seen, 1, Take(r).seen);
  }

  /** The consumer sees the oldest entry. */
  lemma TakeView(r: Ring)
    requires RingOk(r) && r.seen != r.idx
    ensures RingOk(Take(r)) && View(r) == [r.slots[r.seen % NUM]] + View(Take(r))
  {
    hide Count;
    TakeCount(r);
    var q := Take(r);
    assert RingOk(q);
    forall k | 0 <= k < Count(q) ensures View(q)[k] == View(r)[k + 1] {
      assert (q.seen + k) % NUM == (r.seen + 1 + k) % NUM;
    }
  }

  // ---------------------------------------------------------------------
  // Descriptors

  /** alloc_desc: the lowest free descriptor from i on, NUM for none. */
  function FirstFree(free: seq<bool>, i: nat): (r: nat)
    requires |free| == NUM && i <= NUM
    ensures i <= r <= NUM && (r < NUM ==> free[r]) && (forall j :: i <= j < r ==> !free[j])
    decreases NUM - i
  {
    if i == NUM || free[i] then i else FirstFree(free, i + 1)
  }

  /** alloc3_desc. */
  function Alloc3(free: seq<bool>): Option<(nat, nat, nat)>
    requires |free| == NUM
  {
    var i0 := FirstFree(free, 0);
    if i0 == NUM then None
    else
      var f0 := free[i0 := false];
      var i1 := FirstFree(f0, 0);
      if i1 == NUM then None
      else
        var f1 := f0[i1 := false];
        var i2 := FirstFree(f1, 0);
        if i2 == NUM then None else Some((i0, i1, i2))
  }

  function FreeCount(free: seq<bool>, i: nat): nat
    requires i <= |free|
  {
    if i == 0 then 0 else FreeCount(free, i - 1) + if free[i - 1] then 1 else 0
  }

  lemma {:induction false} FreeCountSet(free: seq<bool>, i: nat, k: nat)
    requires i <= |free| && k < |free| && free[k]
    ensures FreeCount(free[k := false], i) == FreeCount(free, i) - if k < i then 1 else 0
  {
    if i > 0 { FreeCountSet(free, i - 1, k); }
  }

  lemma {:induction false} FreeCountNone(free: seq<bool>, i: nat)
    requires i <= |free| && forall j :: 0 <= j < i ==> !free[j]
    ensures FreeCount(free, i) == 0
  {
    if i > 0 { FreeCountNone(free, i - 1); }
  }

  /** Three distinct free descriptors are found exactly when there are three. */
  lemma Alloc3Correct(free: seq<bool>)
    requires |free| == NUM
    ensures Alloc3(free) == None <==> FreeCount(free, NUM) < 3
    ensures Alloc3(free).Some? ==>
      var (i0, i1, i2) := Alloc3(free).value;
      && i0 < i1 < i2 < NUM && free[i0] && free[i1] && free[i2]
      && FreeCount(free[i0 := false][i1 := false][i2 := false], NUM) == FreeCount(free, NUM) - 3
  {
    var i0 := FirstFree(free, 0);
    if i0 == NUM {
      FreeCountNone(free, NUM);
    } else {
      var f0 := free[i0 := false];
      FreeCountSet(free, NUM, i0);
      var i1 := FirstFree(f0, 0);
      if i1 == NUM {
        FreeCountNone(f0, NUM);
      } else {
        var f1 := f0[i1 := false];
        FreeCountSet(f0, NUM, i1);
        var i2 := FirstFree(f1, 0);
        if i2 == NUM { FreeCountNone(f1, NUM); } else { FreeCountSet(f1, NUM, i2); }
      }
    }
  }

  // ---------------------------------------------------------------------
  // Steps

  datatype Step =
    | Issue(b: nat)        // virtio_disk_rw up to its first sleep
    | DeviceTake           // the device fetches the next available chain
    | DeviceDone(e: Entry) // the device completes a chain it has
    | Interrupt            // one turn of virtio_disk_intr's loop
    | Finish(b: nat)       // virtio_disk_rw after the request is done
    | WakeWaiter(b: nat)

  function Set3<T>(v: seq<T>, i0: nat, i1: nat, i2: nat, x: T): (r: seq<T>)
    requires i0 < |v| && i1 < |v| && i2 < |v|
    ensures |r| == |v|
    ensures forall i :: 0 <= i < |v| ==> r[i] == if i == i0 || i == i1 || i == i2 then x else v[i]
  {
    v[i0 := x][i1 := x][i2 := x]
  }

  /** The three descriptors are formatted, the buffer is recorded and the chain is published. */
  function Publish(s: Disk, b: nat, i0: nat, i1: nat, i2: nat): Disk
    requires |s.free| == |s.desc| == |s.info| == |s.avail.slots| == NUM && i0 < NUM && i1 < NUM && i2 < NUM
  {
    s.(free := s.free[i0 := false][i1 := false][i2 := false],
       desc := s.desc[i0 := Desc(i1, true)][i1 := Desc(i2, true)][i2 := Desc(0, false)],
       info := s.info[i0 := Some(b)],
       avail := Put(s.avail, Entry(i0, s.next)),
       reqs := s.reqs[b := Req(i0, i1, i2, true, s.next)],
       waiters := s.waiters - {b},
       next := s.next + 1)
  }

  function DoIssue(s: Disk, b: nat): Disk
    requires |s.free| == |s.desc| == |s.info| == |s.avail.slots| == NUM
  {
    if b in s.reqs then s
    else
      match Alloc3(s.free)
      case None => s.(waiters := (if FirstFree(s.free, 0) < NUM then {} else s.waiters) + {b})
      case Some((i0, i1, i2)) => if i0 < NUM && i1 < NUM && i2 < NUM then Publish(s, b, i0, i1, i2) else s
  }

  function DoTake(s: Disk): Disk
    requires |s.avail.slots| == NUM
  {
    if s.avail.seen == s.avail.idx then s
    else s.(flight := s.flight + {s.avail.slots[s.avail.seen % NUM]}, avail := Take(s.avail))
  }

  function DoDone(s: Disk, e: Entry): Disk
    requires |s.used.slots| == NUM
  {
    if e !in s.flight then s
    else s.(flight := s.flight - {e}, used := Put(s.used, e), completions := s.completions + [e.serial])
  }

  function DoInterrupt(s: Disk): Disk
    requires |s.used.slots| == |s.info| == NUM
  {
    if s.used.seen == s.used.idx then s
    else
      var id := s.used.slots[s.used.seen % NUM].id;
      var s1 := s.(used := Take(s.used));
      if id < NUM && s.info[id].Some? && s.info[id].value in s.reqs then
        var b := s.info[id].value;
        s1.(reqs := s.reqs[b := s.reqs[b].(busy := false)])
      else s1
  }

  function DoFinish(s: Disk, b: nat): Disk
    requires |s.free| == |s.desc| == |s.info| == NUM
  {
    if b in s.reqs && !s.reqs[b].busy && s.reqs[b].i0 < NUM && s.reqs[b].i1 < NUM && s.reqs[b].i2 < NUM then
      var r := s.reqs[b];
      s.(free := Set3(s.free, r.i0, r.i1, r.i2, true),
         desc := Set3(s.desc, r.i0, r.i1, r.i2, Desc(0, false)),
         info := s.info[r.i0 := None],
         reqs := s.reqs - {b},
         waiters := {},
         finished := s.finished + [r.serial])
    else s
  }

  // ---------------------------------------------------------------------
  // The invariant

  predicate UsesDesc(r: Req, i: nat) { i == r.i0 || i == r.i1 || i == r.i2 }

  ghost predicate Sizes(s: Disk) { |s.free| == |s.desc| == |s.info| == NUM && RingOk(s.avail) && RingOk(s.used) }

  /** The chain of request r of buffer b is formatted, in use, and recorded. */
  predicate ChainOk(s: Disk, b: nat, r: Req)
    requires |s.free| == |s.desc| == |s.info| == NUM
  {
    && r.i0 < NUM && r.i1 < NUM && r.i2 < NUM && r.i0 != r.i1 && r.i0 != r.i2 && r.i1 != r.i2
    && !s.free[r.i0] && !s.free[r.i1] && !s.free[r.i2]
    && s.desc[r.i0] == Desc(r.i1, true) && s.desc[r.i1] == Desc(r.i2, true) && s.desc[r.i2] == Desc(0, false)
    && s.info[r.i0] == Some(b)
    && r.serial < s.next
  }

  /** Different requests share no descriptor and no serial number. */
  predicate Disjoint(q: Req, r: Req) {
    q.serial != r.serial && !UsesDesc(q, r.i0) && !UsesDesc(q, r.i1) && !UsesDesc(q, r.i2)
  }

  ghost predicate Owned(s: Disk, i: nat) { exists b :: b in s.reqs && UsesDesc(s.reqs[b], i) }

  /** Entry e is the current entry of a request that is not done. */
  predicate Live(s: Disk, e: Entry)
    requires |s.info| == NUM
  {
    && e.id < NUM && s.info[e.id].Some?
    && var b := s.info[e.id].value;
    && b in s.reqs && s.reqs[b].busy && s.reqs[b].i0 == e.id && s.reqs[b].serial == e.serial
  }

  ghost predicate Located(s: Disk, e: Entry)
    requires RingOk(s.avail) && RingOk(s.used)
  {
    e in View(s.avail) || e in s.flight || e in View(s.used)
  }

  predicate NoDup(v: seq<Entry>) { forall k, l :: 0 <= k < l < |v| ==> v[k] != v[l] }

  predicate NoDupNat(v: seq<nat>) { forall k, l :: 0 <= k < l < |v| ==> v[k] != v[l] }

  /** Chains: every descriptor is free or in exactly one chain. */
  ghost predicate Chains(s: Disk)
    requires Sizes(s)
  {
    && (forall b :: b in s.reqs ==> ChainOk(s, b, s.reqs[b]))
    && (forall b, c :: b in s.reqs && c in s.reqs && b != c ==> Disjoint(s.reqs[b], s.reqs[c]))
    && (forall i: nat :: i < NUM && !s.free[i] ==> Owned(s, i))
  }

  /** Entries: each request that is not done has exactly one, on its way to the device, in it, or back. */
  ghost predicate Entries(s: Disk)
    requires Sizes(s)
  {
    && (forall e :: Located(s, e) ==> Live(s, e))
    && (forall b :: b in s.reqs && s.reqs[b].busy ==> Located(s, Entry(s.reqs[b].i0, s.reqs[b].serial)))
    && NoDup(View(s.avail)) && NoDup(View(s.used))
    && (forall e :: e in s.flight ==> e !in View(s.avail) && e !in View(s.used))
    && (forall e :: e in View(s.avail) ==> e !in View(s.used))
  }

  /** Serial numbers: which requests the device has completed and which have returned. */
  ghost predicate Serials(s: Disk)
    requires Sizes(s)
  {
    && NoDupNat(s.completions) && NoDupNat(s.finished)
    && (forall n :: n in s.completions ==> n < s.next)
    && (forall n :: n in s.finished ==> n in s.completions)
    && (forall e :: e in View(s.avail) || e in s.flight ==> e.serial !in s.completions)
    && (forall e :: e in View(s.used) ==> e.serial in s.completions)
    && (forall b :: b in s.reqs && !s.reqs[b].busy ==> s.reqs[b].serial in s.completions)
    && (forall b :: b in s.reqs ==> s.reqs[b].serial !in s.finished)
  }

  ghost predicate Inv(s: Disk) {
    && Sizes(s) && Chains(s) && Entries(s) && Serials(s)
    && (s.waiters != {} ==> FreeCount(s.free, NUM) < 3)
  }

  // ---------------------------------------------------------------------
  // Every step keeps it

  ghost function Elems(v: seq<nat>): set<nat> { set x | x in v }

  lemma {:induction false} DistinctCard(v: seq<nat>)
    requires NoDupNat(v)
    ensures |Elems(v)| == |v|
  {
    if |v| > 0 {
      var w, last := v[..|v| - 1], v[|v| - 1];
      DistinctCard(w);
      assert v == w + [last];
      assert Elems(v) == Elems(w) + {last};
      assert last !in Elems(w);
    }
  }

  lemma {:induction false} RangeCard(a: set<nat>, n: nat)
    requires forall x :: x in a ==> x < n
    ensures |a| <= n
    decreases n
  {
    if n == 0 {
      assert a == {};
    } else {
      RangeCard(a - {n - 1}, n - 1);
      assert |a - {n - 1}| >= |a| - 1;
    }
  }

  lemma DistinctBound(v: seq<nat>, n: nat)
    requires NoDupNat(v) && forall k :: 0 <= k < |v| ==> v[k] < n
    ensures |v| <= n
  {
    DistinctCard(v);
    RangeCard(Elems(v), n);
  }

  /** Live entries with the same descriptor are the same entry. */
  lemma LiveById(s: Disk, e: Entry, f: Entry)
    requires |s.info| == NUM && Live(s, e) && Live(s, f) && e.id == f.id
    ensures e == f
  {
  }

  /** A ring of distinct live entries has room for one with another descriptor. */
  lemma RoomFor(s: Disk, r: Ring, id: nat)
    requires |s.info| == NUM && RingOk(r) && NoDup(View(r)) && id < NUM
    requires forall e :: e in View(r) ==> Live(s, e) && e.id != id
    ensures Count(r) < NUM
  {
    var v := View(r);
    var ids := seq(|v|, k requires 0 <= k < |v| => v[k].id) + [id];
    forall k, l | 0 <= k < l < |ids| ensures ids[k] != ids[l] {
      assert v[k] in v;
      if l < |v| && v[k].id == v[l].id {
        assert v[l] in v;
        LiveById(s, v[k], v[l]);
      }
    }
    forall k | 0 <= k < |ids| ensures ids[k] < NUM { if k < |v| { assert v[k] in v; } }
    DistinctBound(ids, NUM);
  }

  /** A free descriptor is in no chain. */
  lemma FreeUnused(s: Disk, b: nat, i: nat)
    requires Sizes(s) && Chains(s) && b in s.reqs && i < NUM && s.free[i]
    ensures !UsesDesc(s.reqs[b], i)
  {
    assert ChainOk(s, b, s.reqs[b]);
  }

  lemma PublishRoom(s: Disk, i0: nat)
    requires Inv(s) && i0 < NUM && s.free[i0]
    ensures Count(s.avail) < NUM
  {
    forall e | e in View(s.avail) ensures Live(s, e) && e.id != i0 {
      assert Located(s, e);
      FreeUnused(s, s.info[e.id].value, i0);
    }
    RoomFor(s, s.avail, i0);
  }

  /** A request and three free descriptors. */
  ghost predicate CanPublish(s: Disk, b: nat, i0: nat, i1: nat, i2: nat) {
    && Sizes(s) && Chains(s) && |s.avail.slots| == NUM
    && b !in s.reqs && i0 < i1 < i2 < NUM && s.free[i0] && s.free[i1] && s.free[i2]
  }

  lemma PublishChainOk(s: Disk, b: nat, i0: nat, i1: nat, i2: nat, c: nat)
    requires CanPublish(s, b, i0, i1, i2) && (c in s.reqs || c == b)
    ensures var t := Publish(s, b, i0, i1, i2);
            && ChainOk(t, c, t.reqs[c])
            && (c != b ==> t.reqs[c] == s.reqs[c] && Disjoint(t.reqs[b], t.reqs[c]) && Disjoint(t.reqs[c], t.reqs[b]))
  {
    hide RingOk, Put, Chains;
    if c != b {
      ChainOf(s, c);
      FreeUnused(s, c, i0);
      FreeUnused(s, c, i1);
      FreeUnused(s, c, i2);
    }
  }

  lemma ChainOf(s: Disk, b: nat)
    requires Sizes(s) && Chains(s) && b in s.reqs
    ensures ChainOk(s, b, s.reqs[b])
  {
  }

  lemma OwnerOf(s: Disk, i: nat) returns (b: nat)
    requires Sizes(s) && Chains(s) && i < NUM && !s.free[i]
    ensures b in s.reqs && UsesDesc(s.reqs[b], i)
  {
    assert Owned(s, i);
    b :| b in s.reqs && UsesDesc(s.reqs[b], i);
  }

  lemma PublishChains(s: Disk, b: nat, i0: nat, i1: nat, i2: nat)
    requires CanPublish(s, b, i0, i1, i2) && Sizes(Publish(s, b, i0, i1, i2))
    ensures Chains(Publish(s, b, i0, i1, i2))
  {
    hide ChainOk, Disjoint, RingOk, Put;
    var t := Publish(s, b, i0, i1, i2);
    forall c | c in t.reqs ensures ChainOk(t, c, t.reqs[c]) { PublishChainOk(s, b, i0, i1, i2, c); }
    forall c, d | c in t.reqs && d in t.reqs && c != d ensures Disjoint(t.reqs[c], t.reqs[d]) {
      PublishChainOk(s, b, i0, i1, i2, c);
      PublishChainOk(s, b, i0, i1, i2, d);
      if c != b && d != b { assert Disjoint(s.reqs[c], s.reqs[d]); }
    }
    forall i: nat | i < NUM && !t.free[i] ensures Owned(t, i) { PublishOwned(s, b, i0, i1, i2, i); }
  }

  lemma PublishOwned(s: Disk, b: nat, i0: nat, i1: nat, i2: nat, i: nat)
    requires CanPublish(s, b, i0, i1, i2) && i < NUM && !Publish(s, b, i0, i1, i2).free[i]
    ensures Owned(Publish(s, b, i0, i1, i2), i)
  {
    hide RingOk, Put, Chains;
    var t := Publish(s, b, i0, i1, i2);
    if i == i0 || i == i1 || i == i2 {
      assert UsesDesc(t.reqs[b], i);
    } else {
      var c := OwnerOf(s, i);
      assert UsesDesc(t.reqs[c], i);
    }
  }

  lemma PublishLive(s: Disk, b: nat, i0: nat, i1: nat, i2: nat, e: Entry)
    requires CanPublish(s, b, i0, i1, i2) && Live(s, e)
    ensures Live(Publish(s, b, i0, i1, i2), e) && e.serial < s.next
  {
    hide RingOk, Put, Chains;
    var c := s.info[e.id].value;
    ChainOf(s, c);
    FreeUnused(s, c, i0);
  }

  lemma PublishEntries(s: Disk, b: nat, i0: nat, i1: nat, i2: nat)
    requires Inv(s) && CanPublish(s, b, i0, i1, i2)
    ensures var t := Publish(s, b, i0, i1, i2); Sizes(t) && Entries(t) && Serials(t)
  {
    hide View, RingOk, Chains, Put, Live;
    var t := Publish(s, b, i0, i1, i2);
    var e0 := Entry(i0, s.next);
    PublishRoom(s, i0);
    PutView(s.avail, e0);
    forall e | Located(s, e) ensures Live(t, e) && e.serial < s.next { PublishLive(s, b, i0, i1, i2, e); }
    assert Live(t, e0) by { PublishedLive(s, b, i0, i1, i2); }
    assert !Located(s, e0);
    assert e0 !in View(s.avail) && e0 !in s.flight && e0 !in View(s.used);
    forall e | Located(t, e) ensures Live(t, e) { assert Located(s, e) || e == e0; }
    forall c | c in t.reqs && t.reqs[c].busy ensures Located(t, Entry(t.reqs[c].i0, t.reqs[c].serial)) {
      if c != b { assert Located(s, Entry(s.reqs[c].i0, s.reqs[c].serial)); }
    }
    forall c | c in t.reqs ensures t.reqs[c].serial !in t.finished { if c != b { assert s.reqs[c].serial !in s.finished; } }
  }

  lemma PublishedLive(s: Disk, b: nat, i0: nat, i1: nat, i2: nat)
    requires CanPublish(s, b, i0, i1, i2)
    ensures Live(Publish(s, b, i0, i1, i2), Entry(i0, s.next))
  {
    hide RingOk, Put, Chains;
  }

  lemma IssueKeeps(s: Disk, b: nat)
    requires Inv(s)
    ensures Inv(DoIssue(s, b))
  {
    hide Alloc3;
    Alloc3Correct(s.free);
    if b !in s.reqs {
      match Alloc3(s.free)
      case None => SameCore(s, DoIssue(s, b));
      case Some((i0, i1, i2)) =>
        PublishEntries(s, b, i0, i1, i2);
        PublishChains(s, b, i0, i1, i2);
    }
  }

  /** A request is published exactly if three descriptors are free, and otherwise waits. */
  lemma IssueWorks(s: Disk, b: nat)
    requires Inv(s) && b !in s.reqs
    ensures b in DoIssue(s, b).reqs <==> FreeCount(s.free, NUM) >= 3
    ensures b !in DoIssue(s, b).reqs ==> b in DoIssue(s, b).waiters
  {
    hide Alloc3, Chains, Entries, Serials;
    Alloc3Correct(s.free);
  }

  /** Only waiters change. */
  lemma SameCore(s: Disk, t: Disk)
    requires Inv(s) && t == s.(waiters := t.waiters) && (t.waiters != {} ==> FreeCount(s.free, NUM) < 3)
    ensures Inv(t)
  {
    hide View, RingOk, ChainOk;
    assert Chains(t) by {
      forall b | b in t.reqs ensures ChainOk(t, b, t.reqs[b]) { assert ChainOk(s, b, s.reqs[b]); SameChain(s, t, b); }
      forall i: nat | i < NUM && !t.free[i] ensures Owned(t, i) { assert Owned(s, i); }
    }
    assert forall e :: Located(t, e) <==> Located(s, e);
    assert forall e :: Live(t, e) <==> Live(s, e);
  }

  lemma SameChain(s: Disk, t: Disk, b: nat)
    requires Sizes(s) && t.free == s.free && t.desc == s.desc && t.info == s.info && t.next == s.next
    requires b in s.reqs && ChainOk(s, b, s.reqs[b])
    ensures ChainOk(t, b, s.reqs[b])
  {
  }

  /** Chains depend only on the driver's own tables. */
  lemma SameChains(s: Disk, t: Disk)
    requires Sizes(s) && Sizes(t) && Chains(s)
    requires t.free == s.free && t.desc == s.desc && t.info == s.info && t.next == s.next && t.reqs == s.reqs
    ensures Chains(t)
  {
    hide ChainOk, Disjoint, RingOk;
    forall b | b in t.reqs ensures ChainOk(t, b, t.reqs[b]) { assert ChainOk(s, b, s.reqs[b]); SameChain(s, t, b); }
    forall b, c | b in t.reqs && c in t.reqs && b != c ensures Disjoint(t.reqs[b], t.reqs[c]) { assert Disjoint(s.reqs[b], s.reqs[c]); }
    forall i: nat | i < NUM && !t.free[i] ensures Owned(t, i) { assert Owned(s, i); }
  }

  lemma LiveSame(s: Disk, t: Disk, e: Entry)
    requires |s.info| == NUM && t.info == s.info && t.reqs == s.reqs
    ensures Live(s, e) <==> Live(t, e)
  {
  }

  /** Live entries with the same serial number are the same entry. */
  lemma LiveBySerial(s: Disk, e: Entry, f: Entry)
    requires Sizes(s) && Chains(s) && Live(s, e) && Live(s, f) && e.serial == f.serial
    ensures e == f
  {
    Apart(s, s.info[e.id].value, s.info[f.id].value);
  }

  lemma Apart(s: Disk, b: nat, c: nat)
    requires Sizes(s) && Chains(s) && b in s.reqs && c in s.reqs
    ensures b != c ==> Disjoint(s.reqs[b], s.reqs[c])
  {
  }

  lemma DeviceTakeKeeps(s: Disk)
    requires Inv(s)
    ensures Inv(DoTake(s))
  {
    hide View, Chains, Live, Take;
    var t := DoTake(s);
    if s.avail.seen != s.avail.idx {
      var e0 := s.avail.slots[s.avail.seen % NUM];
      TakeView(s.avail);
      assert e0 == View(s.avail)[0] && e0 in View(s.avail);
      assert forall k :: 0 <= k < |View(t.avail)| ==> View(t.avail)[k] == View(s.avail)[k + 1];
      SameChains(s, t);
      hide RingOk;
      assert forall e :: e in View(s.avail) <==> e == e0 || e in View(t.avail);
      forall e | Located(t, e) ensures Live(t, e) { assert Located(s, e); LiveSame(s, t, e); }
      forall b | b in t.reqs && t.reqs[b].busy ensures Located(t, Entry(t.reqs[b].i0, t.reqs[b].serial)) {
        assert Located(s, Entry(s.reqs[b].i0, s.reqs[b].serial));
      }
    }
  }

  lemma DeviceDoneKeeps(s: Disk, e0: Entry)
    requires Inv(s)
    ensures Inv(DoDone(s, e0))
  {
    hide View, Chains, Live, Put;
    var t := DoDone(s, e0);
    if e0 in s.flight {
      assert Located(s, e0);
      assert Live(s, e0);
      UsedRoom(s, e0);
      PutView(s.used, e0);
      hide RingOk;
      SameChains(s, t);
      forall e | Located(s, e) && e.serial == e0.serial ensures e == e0 { LiveBySerial(s, e, e0); }
      forall e | Located(t, e) ensures Live(t, e) { assert Located(s, e); LiveSame(s, t, e); }
      forall b | b in t.reqs && t.reqs[b].busy ensures Located(t, Entry(t.reqs[b].i0, t.reqs[b].serial)) {
        assert Located(s, Entry(s.reqs[b].i0, s.reqs[b].serial));
      }
      assert e0.serial < s.next by { LiveOld(s, e0); }
      assert forall e :: e in View(t.avail) || e in t.flight ==> Located(s, e);
    }
  }

  /** The used ring has room for every completion. */
  lemma UsedRoom(s: Disk, e0: Entry)
    requires Inv(s) && e0 in s.flight
    ensures Count(s.used) < NUM
  {
    hide View, Chains, Live, Serials;
    assert Located(s, e0);
    assert Live(s, e0);
    forall e | e in View(s.used) ensures Live(s, e) && e.id != e0.id {
      assert Located(s, e);
      if e.id == e0.id { LiveById(s, e, e0); }
    }
    assert e0.id < NUM by { LiveId(s, e0); }
    RoomFor(s, s.used, e0.id);
  }

  lemma LiveId(s: Disk, e: Entry)
    requires |s.info| == NUM && Live(s, e)
    ensures e.id < NUM
  {
  }

  lemma LiveOld(s: Disk, e: Entry)
    requires Sizes(s) && Chains(s) && Live(s, e)
    ensures e.serial < s.next
  {
    ChainOf(s, s.info[e.id].value);
  }

  lemma InterruptKeeps(s: Disk)
    requires Inv(s)
    ensures Inv(DoInterrupt(s))
  {
    hide View, Chains, Take;
    var t := DoInterrupt(s);
    if s.used.seen != s.used.idx {
      var e0 := s.used.slots[s.used.seen % NUM];
      TakeView(s.used);
      assert e0 == View(s.used)[0] && e0 in View(s.used);
      assert forall k :: 0 <= k < |View(t.used)| ==> View(t.used)[k] == View(s.used)[k + 1];
      hide RingOk;
      assert Located(s, e0) && Live(s, e0);
      var b := s.info[e0.id].value;
      DoneChains(s, t, b);
      assert forall e :: e in View(s.used) <==> e == e0 || e in View(t.used);
      forall e | Located(t, e) ensures Live(t, e) {
        assert Located(s, e) && Live(s, e) && e != e0;
        if s.info[e.id].value == b { LiveById(s, e, e0); }
      }
      forall c | c in t.reqs && t.reqs[c].busy ensures Located(t, Entry(t.reqs[c].i0, t.reqs[c].serial)) {
        var e := Entry(s.reqs[c].i0, s.reqs[c].serial);
        assert Located(s, e);
        Apart(s, b, c);
      }
    }
  }

  /** Request b is done: the chains stay as they are. */
  lemma DoneChains(s: Disk, t: Disk, b: nat)
    requires Sizes(s) && Sizes(t) && Chains(s) && b in s.reqs
    requires t.free == s.free && t.desc == s.desc && t.info == s.info && t.next == s.next
    requires t.reqs == s.reqs[b := s.reqs[b].(busy := false)]
    ensures Chains(t)
  {
    hide RingOk, Chains;
    forall c | c in t.reqs ensures ChainOk(t, c, t.reqs[c]) { ChainOf(s, c); }
    forall c, d | c in t.reqs && d in t.reqs && c != d ensures Disjoint(t.reqs[c], t.reqs[d]) { Apart(s, c, d); }
    forall i: nat | i < NUM && !t.free[i] ensures Owned(t, i) {
      var c := OwnerOf(s, i);
      assert UsesDesc(t.reqs[c], i);
    }
    ChainsFrom(t);
  }

  lemma FinishChain(s: Disk, b: nat, c: nat)
    requires Sizes(s) && Chains(s) && b in s.reqs && c in s.reqs && b != c && !s.reqs[b].busy
    ensures var t := DoFinish(s, b); |t.free| == |t.desc| == |t.info| == NUM && ChainOk(t, c, s.reqs[c])
  {
    hide Chains, RingOk, Set3;
    ChainOf(s, b);
    ChainOf(s, c);
    Apart(s, c, b);
    Apart(s, b, c);
  }

  lemma FinishOwned(s: Disk, b: nat, i: nat)
    requires Sizes(s) && Chains(s) && b in s.reqs && !s.reqs[b].busy && i < NUM && !DoFinish(s, b).free[i]
    ensures Owned(DoFinish(s, b), i)
  {
    hide Chains, RingOk, Set3;
    ChainOf(s, b);
    var c := OwnerOf(s, i);
    assert c != b;
    assert UsesDesc(DoFinish(s, b).reqs[c], i);
  }

  lemma FinishLive(s: Disk, b: nat, e: Entry)
    requires Sizes(s) && Chains(s) && b in s.reqs && !s.reqs[b].busy && Live(s, e)
    ensures |DoFinish(s, b).info| == NUM && Live(DoFinish(s, b), e)
  {
    hide Chains, RingOk, Set3;
    ChainOf(s, b);
  }

  lemma FinishSizes(s: Disk, b: nat)
    requires Sizes(s) && Chains(s) && b in s.reqs && !s.reqs[b].busy
    ensures var t := DoFinish(s, b);
            Sizes(t) && t.reqs == s.reqs - {b} && t.waiters == {} && t.finished == s.finished + [s.reqs[b].serial]
            && t.avail == s.avail && t.used == s.used && t.flight == s.flight && t.completions == s.completions && t.next == s.next
  {
    hide RingOk;
    ChainOf(s, b);
  }

  lemma ChainsFrom(s: Disk)
    requires Sizes(s)
    requires forall b :: b in s.reqs ==> ChainOk(s, b, s.reqs[b])
    requires forall b, c :: b in s.reqs && c in s.reqs && b != c ==> Disjoint(s.reqs[b], s.reqs[c])
    requires forall i: nat :: i < NUM && !s.free[i] ==> Owned(s, i)
    ensures Chains(s)
  {
  }

  lemma FinishKeeps(s: Disk, b: nat)
    requires Inv(s)
    ensures Inv(DoFinish(s, b))
  {
    hide RingOk, ChainOk, Disjoint, Live, View, Set3, Chains, Entries, Serials;
    var t := DoFinish(s, b);
    if b in s.reqs && !s.reqs[b].busy {
      FinishSizes(s, b);
      forall c | c in t.reqs ensures ChainOk(t, c, t.reqs[c]) { FinishChain(s, b, c); }
      forall c, d | c in t.reqs && d in t.reqs && c != d ensures Disjoint(t.reqs[c], t.reqs[d]) { Apart(s, c, d); }
      forall i: nat | i < NUM && !t.free[i] ensures Owned(t, i) { FinishOwned(s, b, i); }
      assert Chains(t) by { ChainsFrom(t); }
      FinishEntries(s, b);
    }
  }

  lemma FinishEntries(s: Disk, b: nat)
    requires Inv(s) && b in s.reqs && !s.reqs[b].busy && Sizes(DoFinish(s, b))
    ensures Entries(DoFinish(s, b)) && Serials(DoFinish(s, b))
  {
    hide RingOk, Chains, ChainOk, Live, View, DoFinish;
    var t := DoFinish(s, b);
    FinishSizes(s, b);
    forall e | Located(t, e) ensures Live(t, e) { assert Located(s, e); FinishLive(s, b, e); }
    forall c | c in t.reqs && t.reqs[c].busy ensures Located(t, Entry(t.reqs[c].i0, t.reqs[c].serial)) {
      assert Located(s, Entry(s.reqs[c].i0, s.reqs[c].serial));
    }
    forall c | c in t.reqs ensures t.reqs[c].serial !in t.finished { Apart(s, b, c); assert s.reqs[c].serial !in s.finished; }
  }

  // ---------------------------------------------------------------------
  // Runs

  ghost function Next(s: Disk, step: Step): (t: Disk)
    requires Inv(s)
  {
    match step
    case Issue(b) => DoIssue(s, b)
    case DeviceTake => DoTake(s)
    case DeviceDone(e) => DoDone(s, e)
    case Interrupt => DoInterrupt(s)
    case Finish(b) => DoFinish(s, b)
    case WakeWaiter(b) => s.(waiters := s.waiters - {b})
  }

  lemma NextKeeps(s: Disk, step: Step)
    requires Inv(s)
    ensures Inv(Next(s, step))
  {
    hide Inv, DoIssue, DoTake, DoDone, DoInterrupt, DoFinish;
    match step
    case Issue(b) => IssueKeeps(s, b);
    case DeviceTake => DeviceTakeKeeps(s);
    case DeviceDone(e) => DeviceDoneKeeps(s, e);
    case Interrupt => InterruptKeeps(s);
    case Finish(b) => FinishKeeps(s, b);
    case WakeWaiter(b) => WakeKeeps(s, b);
  }

  lemma WakeKeeps(s: Disk, b: nat)
    requires Inv(s)
    ensures Inv(s.(waiters := s.waiters - {b}))
  {
    hide Chains, Entries, Serials;
    SameCore(s, s.(waiters := s.waiters - {b}));
  }

  ghost function Run(s: Disk, steps: seq<Step>): (t: Disk)
    requires Inv(s)
    ensures Inv(t)
    decreases |steps|
  {
    if |steps| == 0 then s
    else
      var t := Run(s, steps[..|steps| - 1]);
      NextKeeps(t, steps[|steps| - 1]);
      Next(t, steps[|steps| - 1])
  }

  /** virtio_disk_init, with the ring indices at any 16-bit value. */
  function Start(at: nat): (s: Disk)
    requires at < WRAP
    ensures Inv(s)
  {
    var ring := Ring(seq(NUM, _ => Entry(0, 0)), at, at);
    assert Count(ring) == 0;
    Disk(seq(NUM, _ => true), seq(NUM, _ => Desc(0, false)), seq(NUM, _ => None), ring, ring, {}, map[], {}, 0, [], [])
  }

  /** In every run a descriptor is free or in exactly one chain of three, and a request waits for descriptors only while fewer than three are free. */
  lemma DescriptorsAccounted(at: nat, steps: seq<Step>, i: nat, b: nat, c: nat)
    requires at < WRAP && i < NUM
    ensures var s := Run(Start(at), steps);
            && |s.free| == NUM
            && (s.free[i] <==> !Owned(s, i))
            && (b in s.reqs && c in s.reqs && UsesDesc(s.reqs[b], i) && UsesDesc(s.reqs[c], i) ==> b == c)
            && (s.waiters != {} ==> FreeCount(s.free, NUM) < 3)
  {
    hide RingOk, Entries, Serials, Run, Chains;
    var s := Run(Start(at), steps);
    if Owned(s, i) {
      var o :| o in s.reqs && UsesDesc(s.reqs[o], i);
      ChainOf(s, o);
    } else if !s.free[i] {
      var o := OwnerOf(s, i);
    }
    if b in s.reqs && c in s.reqs {
      ChainOf(s, b);
      ChainOf(s, c);
      Apart(s, b, c);
    }
  }

  /** In every run a request returns only after the device completed that very request, once. */
  lemma OwnCompletion(at: nat, steps: seq<Step>, n: nat)
    requires at < WRAP
    ensures var s := Run(Start(at), steps);
            && NoDupNat(s.completions) && NoDupNat(s.finished)
            && (n in s.finished ==> n in s.completions)
  {
  }

  /** In every run an interrupt marks done exactly the request whose completion it reads, and there is room for every entry. */
  lemma InterruptReleases(at: nat, steps: seq<Step>)
    requires at < WRAP
    ensures var s := Run(Start(at), steps);
            && RingOk(s.used) && |s.info| == NUM
            && (s.used.seen != s.used.idx ==>
                var e := s.used.slots[s.used.seen % NUM];
                && e.id < NUM && s.info[e.id].Some? && s.info[e.id].value in s.reqs
                && s.reqs[s.info[e.id].value].busy && s.reqs[s.info[e.id].value].serial == e.serial
                && e.serial in s.completions)
  {
    var s := Run(Start(at), steps);
    if s.used.seen != s.used.idx {
      TakeView(s.used);
      var e := s.used.slots[s.used.seen % NUM];
      assert e == View(s.used)[0] && e in View(s.used);
      hide View, RingOk;
      assert Located(s, e);
    }
  }

  // ---------------------------------------------------------------------
  // A request gets through

  lemma SizesOf(s: Disk)
    requires Inv(s)
    ensures Sizes(s)
  {
  }

  /** A new request is published last, with its chain recorded. */
  lemma IssuePublishes(s: Disk, b: nat)
    requires Inv(s) && b !in s.reqs && FreeCount(s.free, NUM) >= 3
    ensures var t := Next(s, Issue(b));
            && RingOk(s.avail) && RingOk(t.avail) && b in t.reqs && t.reqs == s.reqs[b := t.reqs[b]]
            && t.reqs[b].busy && t.reqs[b].serial == s.next && View(t.avail) == View(s.avail) + [Entry(t.reqs[b].i0, s.next)]
            && t.flight == s.flight && t.used == s.used && t.completions == s.completions && t.finished == s.finished
            && |t.free| == |s.free| && (forall i: nat :: i < |s.free| ==> s.free[i] == (t.free[i] || UsesDesc(t.reqs[b], i)))
  {
    hide Chains, Entries, Serials, Alloc3, View;
    Alloc3Correct(s.free);
    assert Alloc3(s.free).Some?;
    PublishRoom(s, Alloc3(s.free).value.0);
    PutView(s.avail, Entry(Alloc3(s.free).value.0, s.next));
  }

  /** The device fetches the chain published first. */
  lemma DeviceTakes(s: Disk)
    requires Inv(s) && RingOk(s.avail) && View(s.avail) != []
    ensures var t := Next(s, DeviceTake);
            && RingOk(t.avail) && t == s.(flight := s.flight + {View(s.avail)[0]}, avail := t.avail)
            && View(t.avail) == View(s.avail)[1..]
  {
    hide Chains, Entries, Serials;
    assert s.avail.seen != s.avail.idx;
    TakeView(s.avail);
  }

  /** The interrupt handler takes the oldest completion, and the request it is for is done, no other. */
  lemma InterruptWorks(s: Disk, b: nat)
    requires Inv(s) && b in s.reqs && s.reqs[b].busy && RingOk(s.used) && View(s.used) != []
    requires View(s.used)[0] == Entry(s.reqs[b].i0, s.reqs[b].serial)
    ensures var t := Next(s, Interrupt);
            && RingOk(t.used) && t == s.(reqs := s.reqs[b := s.reqs[b].(busy := false)], used := t.used)
            && View(t.used) == View(s.used)[1..]
  {
    hide Entries, Serials, Chains;
    assert s.used.seen != s.used.idx;
    TakeView(s.used);
    ChainOf(s, b);
  }

  /** A request that is done returns, and exactly its three descriptors are free again. */
  lemma FinishWorks(s: Disk, b: nat)
    requires Inv(s) && b in s.reqs && !s.reqs[b].busy
    ensures var t, r := Next(s, Finish(b)), s.reqs[b];
            && t.reqs == s.reqs - {b} && t.finished == s.finished + [r.serial] && t.waiters == {}
            && |t.free| == |s.free| && (forall i: nat :: i < |s.free| ==> t.free[i] == (s.free[i] || UsesDesc(r, i)))
            && t.avail == s.avail && t.used == s.used && t.flight == s.flight && t.completions == s.completions
  {
    hide Entries, Serials, Chains, RingOk;
    ChainOf(s, b);
  }

  lemma ThreeFree(free: seq<bool>, i0: nat, i1: nat, i2: nat)
    requires |free| == NUM && i0 < NUM && i1 < NUM && i2 < NUM && i0 != i1 && i0 != i2 && i1 != i2 && free[i0] && free[i1] && free[i2]
    ensures FreeCount(free, NUM) >= 3
  {
    FreeCountSet(free, NUM, i0);
    FreeCountSet(free[i0 := false], NUM, i1);
    FreeCountSet(free[i0 := false][i1 := false], NUM, i2);
  }

  /** Once some request returns, one that waited for descriptors is no longer asleep, finds three and is published. */
  lemma WaiterServed(s: Disk, b: nat, c: nat)
    requires Inv(s) && b in s.waiters && b !in s.reqs && c in s.reqs && !s.reqs[c].busy
    ensures var t := Next(s, Finish(c)); Inv(t) && b !in t.waiters && b in Next(t, Issue(b)).reqs
    ensures Next(s, WakeWaiter(b)) == s.(waiters := s.waiters - {b})
  {
    hide Entries, Serials, Chains, RingOk, DoIssue, View;
    NextKeeps(s, Finish(c));
    FinishWorks(s, c);
    ChainOf(s, c);
    var t, r := Next(s, Finish(c)), s.reqs[c];
    assert UsesDesc(r, r.i0) && UsesDesc(r, r.i1) && UsesDesc(r, r.i2);
    ThreeFree(t.free, r.i0, r.i1, r.i2);
    IssuePublishes(t, b);
  }

  /** The completion of a chain in the device is added last. */
  lemma DeviceCompletes(s: Disk, e: Entry)
    requires Inv(s) && e in s.flight
    ensures var t := Next(s, DeviceDone(e));
            && RingOk(s.used) && RingOk(t.used) && t.flight == s.flight - {e} && t.completions == s.completions + [e.serial]
            && View(t.used) == View(s.used) + [e] && t.reqs == s.reqs && t.avail == s.avail && t.free == s.free && t.finished == s.finished
  {
    hide Chains, Entries, Serials, View;
    SizesOf(s);
    UsedRoom(s, e);
    PutView(s.used, e);
  }

  /** The steps of one request while both rings are empty and nothing else happens. */
  ghost function Served(s: Disk, b: nat): (t: Disk)
    requires Inv(s)
    ensures Inv(t)
  {
    NextKeeps(s, Issue(b));
    var s1 := Next(s, Issue(b));
    var e := if b in s1.reqs then Entry(s1.reqs[b].i0, s1.reqs[b].serial) else Entry(0, 0);
    NextKeeps(s1, DeviceTake);
    var s2 := Next(s1, DeviceTake);
    NextKeeps(s2, DeviceDone(e));
    var s3 := Next(s2, DeviceDone(e));
    NextKeeps(s3, Interrupt);
    var s4 := Next(s3, Interrupt);
    NextKeeps(s4, Finish(b));
    Next(s4, Finish(b))
  }

  /** virtio_disk_rw from start to return: three descriptors are taken and given back, and the request was completed by the device. */
  lemma RequestServed(s: Disk, b: nat)
    requires Inv(s) && b !in s.reqs && FreeCount(s.free, NUM) >= 3 && RingOk(s.avail) && View(s.avail) == [] && RingOk(s.used) && View(s.used) == []
    ensures var t := Served(s, b);
            && t.free == s.free && t.reqs == s.reqs && t.flight == s.flight
            && t.completions == s.completions + [s.next] && t.finished == s.finished + [s.next]
            && RingOk(t.avail) && View(t.avail) == [] && RingOk(t.used) && View(t.used) == []
  {
    hide Inv, Next, View, RingOk, Chains, Entries, Serials;
    NextKeeps(s, Issue(b));
    var s1 := Next(s, Issue(b));
    IssuePublishes(s, b);
    var e := Entry(s1.reqs[b].i0, s1.reqs[b].serial);
    assert View(s1.avail) == [e];
    NextKeeps(s1, DeviceTake);
    var s2 := Next(s1, DeviceTake);
    DeviceTakes(s1);
    NextKeeps(s2, DeviceDone(e));
    var s3 := Next(s2, DeviceDone(e));
    DeviceCompletes(s2, e);
    NotFlying(s, s1, b, e);
    assert View(s3.used) == [e];
    NextKeeps(s3, Interrupt);
    var s4 := Next(s3, Interrupt);
    InterruptWorks(s3, b);
    NextKeeps(s4, Finish(b));
    FinishWorks(s4, b);
    forall i: nat | i < |s.free| ensures Served(s, b).free[i] == s.free[i] { assert UsesDesc(s4.reqs[b], i) <==> UsesDesc(s1.reqs[b], i); }
    assert s.reqs[b := s4.reqs[b]] - {b} == s.reqs;
  }

  /** The entry of a new request is not in the device yet. */
  lemma NotFlying(s: Disk, s1: Disk, b: nat, e: Entry)
    requires Inv(s) && Inv(s1) && s1.flight == s.flight && RingOk(s1.avail) && View(s1.avail) == [e]
    ensures e !in s.flight
  {
    hide Chains, Serials, View;
    assert e in View(s1.avail);
  }

  // ---------------------------------------------------------------------
  // The loops

  const ZERO_DESC: Desc := Desc(0, false)

  class Driver {
    const free: array<bool>
    const desc: array<Desc>
    var panicked: bool

    ghost predicate Valid()
      reads this
    {
      free.Length == desc.Length == NUM
    }

    constructor ()
      ensures Valid() && !panicked && fresh(free) && fresh(desc) && FreeCount(free[..], NUM) == NUM
    {
      free := new bool[NUM](_ => true);
      desc := new Desc[NUM](_ => ZERO_DESC);
      panicked := false;
      new;
      AllFree(free[..], NUM);
    }

    /** alloc_desc. */
    method AllocDesc() returns (i: nat)
      requires Valid()
      modifies free
      ensures i == FirstFree(old(free[..]), 0)
      ensures free[..] == if i < NUM then old(free[..])[i := false] else old(free[..])
    {
      i := 0;
      while i < NUM
        invariant i <= NUM && free[..] == old(free[..])
        invariant FirstFree(old(free[..]), i) == FirstFree(old(free[..]), 0)
      {
        if free[i] {
          free[i] := false;
          return;
        }
        i := i + 1;
      }
    }

    /** free_desc: panics on a bad index or a descriptor that is already free. */
    method FreeDesc(i: nat)
      requires Valid()
      modifies this`panicked, free, desc
      ensures panicked == (old(panicked) || i >= NUM || old(free[..])[i])
      ensures i < NUM && !old(free[..])[i] ==> free[..] == old(free[..])[i := true] && desc[..] == old(desc[..])[i := ZERO_DESC]
      ensures i >= NUM || old(free[..])[i] ==> free[..] == old(free[..]) && desc[..] == old(desc[..])
    {
      if i >= NUM || free[i] {
        panicked := true;
      } else {
        desc[i] := ZERO_DESC;
        free[i] := true;
      }
    }

    /** alloc3_desc: three descriptors, or none and the table as it was. */
    method AllocThree() returns (got: Option<(nat, nat, nat)>)
      requires Valid()
      modifies this`panicked, free, desc
      ensures got == Alloc3(old(free[..])) && panicked == old(panicked)
      ensures got == None ==> free[..] == old(free[..])
      ensures got.Some? ==> var (i0, i1, i2) := got.value;
                i0 < NUM && i1 < NUM && i2 < NUM && free[..] == Set3(old(free[..]), i0, i1, i2, false)
      ensures forall i :: 0 <= i < NUM && !old(free[..])[i] ==> desc[i] == old(desc[i])
    {
      ghost var f := free[..];
      var i0 := AllocDesc();
      if i0 == NUM { return None; }
      var i1 := AllocDesc();
      if i1 == NUM {
        FreeDesc(i0);
        assert free[..] == f;
        return None;
      }
      var i2 := AllocDesc();
      if i2 == NUM {
        FreeDesc(i0);
        FreeDesc(i1);
        assert free[..] == f;
        return None;
      }
      got := Some((i0, i1, i2));
    }

    /** free_chain on a chain of three: it follows the links and frees exactly these, without a panic. */
    method FreeChain(i0: nat, ghost i1: nat, ghost i2: nat)
      requires Valid() && i0 < NUM && i1 < NUM && i2 < NUM && i0 != i1 && i0 != i2 && i1 != i2
      requires !free[i0] && !free[i1] && !free[i2]
      requires desc[i0] == Desc(i1, true) && desc[i1] == Desc(i2, true) && !desc[i2].more
      modifies this`panicked, free, desc
      ensures panicked == old(panicked)
      ensures free[..] == Set3(old(free[..]), i0, i1, i2, true)
      ensures desc[..] == Set3(old(desc[..]), i0, i1, i2, ZERO_DESC)
    {
      var i := i0;
      ghost var k := 0;
      while true
        invariant 0 <= k <= 2 && i == (if k == 0 then i0 else if k == 1 then i1 else i2) && panicked == old(panicked)
        invariant forall j :: 0 <= j < NUM ==> free[j] == if (k > 0 && j == i0) || (k > 1 && j == i1) then true else old(free[j])
        invariant forall j :: 0 <= j < NUM ==> desc[j] == if (k > 0 && j == i0) || (k > 1 && j == i1) then ZERO_DESC else old(desc[j])
        decreases 2 - k
      {
        var more, next := desc[i].more, desc[i].next;
        FreeDesc(i);
        if more {
          i := next;
          k := k + 1;
        } else {
          break;
        }
      }
    }
  }

  lemma {:induction false} AllFree(free: seq<bool>, i: nat)
    requires i <= |free| && forall j :: 0 <= j < i ==> free[j]
    ensures FreeCount(free, i) == i
  {
    if i > 0 { AllFree(free, i - 1); }
  }
}
