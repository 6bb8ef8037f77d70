/**
 The buffer cache of kernel/bio.c as a block map: buffers, their recency
 order, sleep locks, reference counts and log pins, for every interleaving of
 any number of users. A step is one critical section under bcache.lock or one
 action of a buffer's lock holder.

 A handle stands for one bread ... brelse of one user. Users are assumed to
 keep the rule in kernel/bio.c and kernel/log.c: a changed buffer is written
 (bwrite) or pinned (log_write) before it is released, and written before it
 is unpinned. File system blocks are on devices numbered from 1.
 */
module BufferCache {
  import opened Common

  const NBUF: nat := 30

  type Data = seq<Byte>

  datatype Key = Key(dev: nat, block: nat)

  datatype Buf = Buf(key: Key, valid: bool, data: Data, refcnt: nat, pins: nat, holder: Option<nat>)

  datatype Phase = Waiting | Locked | Holding | Leaving

  datatype Handle = Handle(buf: nat, key: Key, phase: Phase)

  datatype State = State(
    bufs: seq<Buf>,
    order: seq<nat>,
    disk: map<Key, Data>,
    handles: map<nat, Handle>,
    panicked: bool)

  datatype Step =
    | Get(h: nat, key: Key)
    | Lock(h: nat)
    | Fill(h: nat)
    | Modify(h: nat, data: Data)
    | Write(h: nat)
    | Pin(h: nat)
    | Unpin(h: nat)
    | Unlock(h: nat)
    | Drop(h: nat)

  function DiskAt(disk: map<Key, Data>, k: Key): Data { if k in disk then disk[k] else [] }

  // ---------------------------------------------------------------------
  // Steps

  /** The first buffer for key k in recency order, from position i on. */
  function FindHit(bufs: seq<Buf>, order: seq<nat>, k: Key, i: nat): (r: Option<nat>)
    ensures r.Some? ==> r.value in order && r.value < |bufs| && bufs[r.value].key == k
    ensures r == None ==> forall j :: i <= j < |order| && order[j] < |bufs| ==> bufs[order[j]].key != k
    decreases |order| - i
  {
    if i >= |order| then None
    else if order[i] < |bufs| && bufs[order[i]].key == k then Some(order[i])
    else FindHit(bufs, order, k, i + 1)
  }

  /** The least recently used buffer without references among the first i in recency order. */
  function FindFree(bufs: seq<Buf>, order: seq<nat>, i: nat): (r: Option<nat>)
    requires i <= |order|
    ensures r.Some? ==> r.value in order && r.value < |bufs| && bufs[r.value].refcnt == 0
    ensures r == None ==> forall j :: 0 <= j < i && order[j] < |bufs| ==> bufs[order[j]].refcnt > 0
    decreases i
  {
    if i == 0 then None
    else if order[i - 1] < |bufs| && bufs[order[i - 1]].refcnt == 0 then Some(order[i - 1])
    else FindFree(bufs, order, i - 1)
  }

  function SetBuf(s: State, i: nat, b: Buf): State
    requires i < |s.bufs|
  {
    s.(bufs := s.bufs[i := b])
  }

  function SetPhase(s: State, h: nat, p: Phase): State
    requires h in s.handles
  {
    s.(handles := s.handles[h := s.handles[h].(phase := p)])
  }

  function DoGet(s: State, h: nat, k: Key): State {
    if h in s.handles || k.dev < 1 then s
    else
      match FindHit(s.bufs, s.order, k, 0)
      case Some(i) =>
        SetBuf(s, i, s.bufs[i].(refcnt := s.bufs[i].refcnt + 1)).(handles := s.handles[h := Handle(i, k, Waiting)])
      case None =>
        match FindFree(s.bufs, s.order, |s.order|)
        case Some(i) =>
          SetBuf(s, i, s.bufs[i].(key := k, valid := false, refcnt := 1)).(handles := s.handles[h := Handle(i, k, Waiting)])
        case None => s.(panicked := true)
  }

  /** Handle h is known and in phase p. */
  predicate Is(s: State, h: nat, p: Phase) { h in s.handles && s.handles[h].phase == p && s.handles[h].buf < |s.bufs| }

  /** The buffer equals its disk block. */
  predicate Clean(s: State, b: Buf) { b.valid ==> b.data == DiskAt(s.disk, b.key) }

  /** The order with buffer i moved to the front. */
  function ToFront(order: seq<nat>, i: nat): seq<nat> { [i] + Without(order, i) }

  function Without(order: seq<nat>, i: nat): seq<nat> {
    if |order| == 0 then [] else if order[0] == i then order[1..] else [order[0]] + Without(order[1..], i)
  }

  function DoDrop(s: State, h: nat): State
    requires Is(s, h, Leaving)
  {
    var i := s.handles[h].buf;
    if s.bufs[i].refcnt == 0 then s
    else
      var s1 := SetBuf(s, i, s.bufs[i].(refcnt := s.bufs[i].refcnt - 1)).(handles := s.handles - {h});
      if s1.bufs[i].refcnt == 0 then s1.(order := ToFront(s.order, i)) else s1
  }

  function Next(s: State, step: Step): State {
    match step
    case Get(h, k) => DoGet(s, h, k)
    case Lock(h) =>
      if Is(s, h, Waiting) && s.bufs[s.handles[h].buf].holder == None
      then SetPhase(SetBuf(s, s.handles[h].buf, s.bufs[s.handles[h].buf].(holder := Some(h))), h, Locked) else s
    case Fill(h) =>
      if Is(s, h, Locked) then
        var b := s.bufs[s.handles[h].buf];
        SetPhase(SetBuf(s, s.handles[h].buf, if b.valid then b else b.(valid := true, data := DiskAt(s.disk, b.key))), h, Holding)
      else s
    case Modify(h, x) => if Is(s, h, Holding) then SetBuf(s, s.handles[h].buf, s.bufs[s.handles[h].buf].(data := x)) else s
    case Write(h) =>
      if Is(s, h, Holding) then
        var b := s.bufs[s.handles[h].buf];
        s.(disk := s.disk[b.key := b.data])
      else s
    case Pin(h) =>
      if Is(s, h, Holding) then
        var b := s.bufs[s.handles[h].buf];
        SetBuf(s, s.handles[h].buf, b.(refcnt := b.refcnt + 1, pins := b.pins + 1))
      else s
    case Unpin(h) =>
      if Is(s, h, Holding) && s.bufs[s.handles[h].buf].pins > 0 && s.bufs[s.handles[h].buf].refcnt > 0 && Clean(s, s.bufs[s.handles[h].buf]) then
        var b := s.bufs[s.handles[h].buf];
        SetBuf(s, s.handles[h].buf, b.(refcnt := b.refcnt - 1, pins := b.pins - 1))
      else s
    case Unlock(h) =>
      if Is(s, h, Holding) && (Clean(s, s.bufs[s.handles[h].buf]) || s.bufs[s.handles[h].buf].pins > 0)
      then SetPhase(SetBuf(s, s.handles[h].buf, s.bufs[s.handles[h].buf].(holder := None)), h, Leaving) else s
    case Drop(h) => if Is(s, h, Leaving) then DoDrop(s, h) else s
  }

  // ---------------------------------------------------------------------
  // The block map

  ghost predicate Caches(s: State, i: nat, k: Key) { i < |s.bufs| && s.bufs[i].key == k && s.bufs[i].valid }

  ghost predicate Cached(s: State, k: Key) { exists i: nat :: Caches(s, i, k) }

  /** What the cache and the disk together hold for block k. */
  ghost function Content(s: State, k: Key): Data {
    if Cached(s, k) then
      var i: nat :| Caches(s, i, k);
      s.bufs[i].data
    else DiskAt(s.disk, k)
  }

  // ---------------------------------------------------------------------
  // The invariant

  /** The recency order lists every buffer exactly once. */
  predicate Permutation(order: seq<nat>) {
    && |order| == NBUF
    && (forall i :: 0 <= i < NBUF ==> i in order)
    && (forall i :: 0 <= i < |order| ==> order[i] < NBUF)
    && (forall i, j :: 0 <= i < j < |order| ==> order[i] != order[j])
  }

  ghost function HandlesOn(handles: map<nat, Handle>, i: nat): set<nat> { set h | h in handles && handles[h].buf == i }

  predicate Inside(p: Phase) { p == Locked || p == Holding }

  /** A buffer's count is its handles plus its pins; a buffer that differs from the disk is held or pinned. */
  ghost predicate BufOk(s: State, i: nat, b: Buf) {
    && b.refcnt == |HandlesOn(s.handles, i)| + b.pins
    && (b.holder.Some? ==> b.holder.value in s.handles && s.handles[b.holder.value].buf == i && Inside(s.handles[b.holder.value].phase))
    && (!Clean(s, b) ==> b.pins > 0 || (b.holder.Some? && b.holder.value in s.handles && s.handles[b.holder.value].phase == Holding))
  }

  /** A handle's buffer is for its block, and valid once bread has returned it. */
  predicate HandleOk(s: State, h: nat, x: Handle) {
    && x.buf < |s.bufs| && s.bufs[x.buf].key == x.key && x.key.dev >= 1
    && (Inside(x.phase) <==> s.bufs[x.buf].holder == Some(h))
    && (x.phase == Holding ==> s.bufs[x.buf].valid)
  }

  /** Two buffers never hold the same block of a device from 1 on. */
  predicate Distinct(a: Buf, b: Buf) { a.key == b.key ==> a.key.dev < 1 }

  ghost predicate Inv(s: State) {
    && |s.bufs| == NBUF && Permutation(s.order)
    && (forall i: nat :: i < NBUF ==> BufOk(s, i, s.bufs[i]))
    && (forall h :: h in s.handles ==> HandleOk(s, h, s.handles[h]))
    && (forall i: nat, j: nat :: i < j < NBUF ==> Distinct(s.bufs[i], s.bufs[j]))
  }

  lemma ContentAt(s: State, k: Key, i: nat)
    requires Inv(s) && k.dev >= 1 && Caches(s, i, k)
    ensures Content(s, k) == s.bufs[i].data
  {
    assert Cached(s, k);
    var j: nat :| Caches(s, j, k) && Content(s, k) == s.bufs[j].data;
    OneBuffer(s, i, j);
  }

  /** At most one buffer holds a given block. */
  lemma OneBuffer(s: State, i: nat, j: nat)
    requires Inv(s) && i < NBUF && j < NBUF && s.bufs[i].key == s.bufs[j].key && s.bufs[i].key.dev >= 1
    ensures i == j
  {
    assert i < j ==> Distinct(s.bufs[i], s.bufs[j]);
    assert j < i ==> Distinct(s.bufs[j], s.bufs[i]);
  }

  /** bread returns what the last holder left in the buffer, or else the disk's contents: the block's content. */
  lemma ReadsContent(s: State, h: nat)
    requires Inv(s) && Is(s, h, Holding)
    ensures s.bufs[s.handles[h].buf].data == Content(s, s.handles[h].key)
  {
    assert HandleOk(s, h, s.handles[h]);
    ContentAt(s, s.handles[h].key, s.handles[h].buf);
  }

  // ---------------------------------------------------------------------
  // Handles and counts

  lemma HandlesAdd(handles: map<nat, Handle>, h: nat, x: Handle, i: nat)
    requires h !in handles
    ensures |HandlesOn(handles[h := x], i)| == |HandlesOn(handles, i)| + if x.buf == i then 1 else 0
  {
    var a, b := HandlesOn(handles, i), HandlesOn(handles[h := x], i);
    if x.buf == i { assert b == a + {h}; } else { assert b == a; }
  }

  lemma HandlesRemove(handles: map<nat, Handle>, h: nat, i: nat)
    requires h in handles
    ensures |HandlesOn(handles - {h}, i)| == |HandlesOn(handles, i)| - if handles[h].buf == i then 1 else 0
  {
    var a, b := HandlesOn(handles, i), HandlesOn(handles - {h}, i);
    if handles[h].buf == i { assert b == a - {h} && h in a; } else { assert b == a; }
  }

  lemma HandlesPhase(handles: map<nat, Handle>, h: nat, p: Phase, i: nat)
    requires h in handles
    ensures HandlesOn(handles[h := handles[h].(phase := p)], i) == HandlesOn(handles, i)
  {
  }

  // ---------------------------------------------------------------------
  // Steps of a lock holder

  /** One buffer and the phase of one handle change, nothing else. */
  ghost predicate Local(s: State, t: State, h: nat, i: nat) {
    && h in s.handles && h in t.handles && i == s.handles[h].buf && i < |s.bufs| == |t.bufs|
    && t.order == s.order && t.panicked == s.panicked
    && t.handles == s.handles[h := s.handles[h].(phase := t.handles[h].phase)]
    && (forall j: nat :: j < |s.bufs| && j != i ==> t.bufs[j] == s.bufs[j])
    && t.bufs[i].key == s.bufs[i].key
    && (forall k :: k != s.bufs[i].key ==> DiskAt(t.disk, k) == DiskAt(s.disk, k))
  }

  lemma LocalKeeps(s: State, t: State, h: nat, i: nat)
    requires Inv(s) && Local(s, t, h, i)
    requires BufOk(t, i, t.bufs[i]) && HandleOk(t, h, t.handles[h])
    requires t.bufs[i].holder == s.bufs[i].holder || s.bufs[i].holder == None || s.bufs[i].holder == Some(h)
    requires t.bufs[i].holder == s.bufs[i].holder || t.bufs[i].holder == None || t.bufs[i].holder == Some(h)
    requires s.bufs[i].valid ==> t.bufs[i].valid
    ensures Inv(t)
  {
    hide Permutation, BufOk;
    assert HandleOk(s, h, s.handles[h]);
    forall j: nat | j < NBUF ensures BufOk(t, j, t.bufs[j]) {
      if j != i { LocalBuf(s, t, h, i, j); }
    }
    forall g | g in t.handles ensures HandleOk(t, g, t.handles[g]) {
      if g != h { assert HandleOk(s, g, s.handles[g]); }
    }
    forall a: nat, b: nat | a < b < NBUF ensures Distinct(t.bufs[a], t.bufs[b]) { assert Distinct(s.bufs[a], s.bufs[b]); }
  }

  lemma LocalBuf(s: State, t: State, h: nat, i: nat, j: nat)
    requires Inv(s) && Local(s, t, h, i) && j < NBUF && j != i
    ensures BufOk(t, j, t.bufs[j])
  {
    var b := s.bufs[j];
    assert BufOk(s, j, b) && HandleOk(s, h, s.handles[h]);
    HandlesPhase(s.handles, h, t.handles[h].phase, j);
    assert Distinct(s.bufs[if i < j then i else j], s.bufs[if i < j then j else i]);
  }

  /** A step of the user of handle h that stays within its buffer. */
  predicate IsLocal(step: Step) { !step.Get? && !step.Drop? }

  lemma StepLocal(s: State, step: Step)
    requires Inv(s) && IsLocal(step) && Next(s, step) != s
    ensures var h, t := step.h, Next(s, step); h in s.handles && Local(s, t, h, s.handles[h].buf)
  {
    hide Inv, BufOk, HandleOk;
  }

  lemma HolderStep(s: State, step: Step)
    requires Inv(s) && IsLocal(step) && Next(s, step) != s
    ensures Inv(Next(s, step))
  {
    hide Inv;
    var h, t := step.h, Next(s, step);
    StepLocal(s, step);
    var i := s.handles[h].buf;
    Facts(s, h);
    HandlesPhase(s.handles, h, t.handles[h].phase, i);
    assert BufOk(t, i, t.bufs[i]);
    LocalKeeps(s, t, h, i);
  }

  lemma Facts(s: State, h: nat)
    requires Inv(s) && h in s.handles
    ensures |s.bufs| == NBUF && s.handles[h].buf < NBUF
    ensures HandleOk(s, h, s.handles[h]) && BufOk(s, s.handles[h].buf, s.bufs[s.handles[h].buf])
  {
    assert HandleOk(s, h, s.handles[h]);
  }

  // ---------------------------------------------------------------------
  // bget and brelse

  /** Buffer i gets one more handle; unless it was for block k already, it was unreferenced. */
  ghost predicate Granted(s: State, t: State, h: nat, k: Key, i: nat) {
    && i < |s.bufs| == |t.bufs| && h !in s.handles && k.dev >= 1
    && t == s.(bufs := t.bufs, handles := s.handles[h := Handle(i, k, Waiting)])
    && (forall j: nat :: j < |s.bufs| && j != i ==> t.bufs[j] == s.bufs[j])
    && (if s.bufs[i].key == k then t.bufs[i] == s.bufs[i].(refcnt := s.bufs[i].refcnt + 1)
        else s.bufs[i].refcnt == 0 && t.bufs[i] == s.bufs[i].(key := k, valid := false, refcnt := 1)
             && forall j: nat :: j < |s.bufs| ==> s.bufs[j].key != k)
  }

  /** Every buffer comes up in a scan of the order. */
  lemma OrderHas(order: seq<nat>, j: nat) returns (a: nat)
    requires Permutation(order) && j < NBUF
    ensures a < |order| && order[a] == j
  {
    assert j in order;
    a :| 0 <= a < |order| && order[a] == j;
  }

  lemma NoHit(s: State, k: Key, j: nat)
    requires |s.bufs| == NBUF && Permutation(s.order) && j < NBUF && FindHit(s.bufs, s.order, k, 0) == None
    ensures s.bufs[j].key != k
  {
    var a := OrderHas(s.order, j);
  }

  lemma NoneFree(s: State, j: nat)
    requires |s.bufs| == NBUF && Permutation(s.order) && j < NBUF && FindFree(s.bufs, s.order, |s.order|) == None
    ensures s.bufs[j].refcnt > 0
  {
    var a := OrderHas(s.order, j);
  }

  /** bget runs out of buffers exactly if the block is not cached and every buffer is referenced. */
  lemma GetPanics(s: State, h: nat, k: Key)
    requires Inv(s) && h !in s.handles && k.dev >= 1 && !s.panicked
    ensures DoGet(s, h, k).panicked <==> forall j: nat :: j < NBUF ==> s.bufs[j].key != k && s.bufs[j].refcnt > 0
  {
    hide BufOk, HandleOk;
    if FindHit(s.bufs, s.order, k, 0) == None && FindFree(s.bufs, s.order, |s.order|) == None {
      forall j: nat | j < NBUF ensures s.bufs[j].key != k && s.bufs[j].refcnt > 0 {
        NoHit(s, k, j);
        NoneFree(s, j);
      }
    }
  }

  lemma GetKeeps(s: State, h: nat, k: Key)
    requires Inv(s) && h !in s.handles && k.dev >= 1
    ensures Inv(DoGet(s, h, k))
    ensures DoGet(s, h, k) == s.(panicked := true) || exists i: nat :: Granted(s, DoGet(s, h, k), h, k, i)
  {
    hide BufOk, HandleOk, Granted;
    var hit, free := FindHit(s.bufs, s.order, k, 0), FindFree(s.bufs, s.order, |s.order|);
    var t := DoGet(s, h, k);
    if hit.Some? {
      HitGranted(s, h, k, hit.value);
      GrantKeeps(s, t, h, k, hit.value);
    } else if free.Some? {
      forall j: nat | j < NBUF ensures s.bufs[j].key != k { NoHit(s, k, j); }
      FreeGranted(s, h, k, free.value);
      GrantKeeps(s, t, h, k, free.value);
    } else {
      PanicKeeps(s);
    }
  }

  lemma HitGranted(s: State, h: nat, k: Key, i: nat)
    requires h !in s.handles && k.dev >= 1 && FindHit(s.bufs, s.order, k, 0) == Some(i)
    ensures Granted(s, DoGet(s, h, k), h, k, i)
  {
  }

  lemma FreeGranted(s: State, h: nat, k: Key, i: nat)
    requires |s.bufs| == NBUF && h !in s.handles && k.dev >= 1 && FindHit(s.bufs, s.order, k, 0) == None
    requires FindFree(s.bufs, s.order, |s.order|) == Some(i) && forall j: nat :: j < NBUF ==> s.bufs[j].key != k
    ensures Granted(s, DoGet(s, h, k), h, k, i)
  {
  }

  lemma PanicKeeps(s: State)
    requires Inv(s)
    ensures Inv(s.(panicked := true))
  {
    var t := s.(panicked := true);
    forall i: nat | i < NBUF ensures BufOk(t, i, t.bufs[i]) { assert BufOk(s, i, s.bufs[i]); }
    forall h | h in t.handles ensures HandleOk(t, h, t.handles[h]) { assert HandleOk(s, h, s.handles[h]); }
  }

  lemma HolderCounts(s: State, i: nat, b: Buf)
    requires BufOk(s, i, b)
    ensures b.holder.Some? ==> b.holder.value in HandlesOn(s.handles, i)
  {
  }

  /** The buffer recycled is the least recently used of the unreferenced ones: all after it in the order are referenced. */
  lemma {:induction false} LruChoice(bufs: seq<Buf>, order: seq<nat>, i: nat) returns (a: nat)
    requires i <= |order| && FindFree(bufs, order, i).Some?
    ensures a < i && order[a] == FindFree(bufs, order, i).value
    ensures forall l :: a < l < i && order[l] < |bufs| ==> bufs[order[l]].refcnt > 0
    decreases i
  {
    if order[i - 1] < |bufs| && bufs[order[i - 1]].refcnt == 0 { a := i - 1; } else { a := LruChoice(bufs, order, i - 1); }
  }

  /** An unreferenced buffer has no handle, no holder and no pin, and equals its disk block. */
  lemma Unreferenced(s: State, i: nat, h: nat)
    requires Inv(s) && i < NBUF && s.bufs[i].refcnt == 0
    ensures s.bufs[i].holder == None && s.bufs[i].pins == 0 && Clean(s, s.bufs[i]) && HandlesOn(s.handles, i) == {}
    ensures h in s.handles ==> s.handles[h].buf != i
  {
    assert BufOk(s, i, s.bufs[i]);
    HolderCounts(s, i, s.bufs[i]);
    assert h in s.handles && s.handles[h].buf == i ==> h in HandlesOn(s.handles, i);
  }

  lemma GrantBuf(s: State, t: State, h: nat, k: Key, i: nat, j: nat)
    requires Inv(s) && Granted(s, t, h, k, i) && j < NBUF
    ensures BufOk(t, j, t.bufs[j])
  {
    assert BufOk(s, j, s.bufs[j]);
    HandlesAdd(s.handles, h, Handle(i, k, Waiting), j);
    if s.bufs[i].key != k { Unreferenced(s, i, h); }
  }

  lemma GrantHandle(s: State, t: State, h: nat, k: Key, i: nat, g: nat)
    requires Inv(s) && Granted(s, t, h, k, i) && g in t.handles
    ensures HandleOk(t, g, t.handles[g])
  {
    if g != h {
      assert HandleOk(s, g, s.handles[g]);
      if s.bufs[i].key != k { Unreferenced(s, i, g); }
    } else {
      assert BufOk(s, i, s.bufs[i]);
      if s.bufs[i].key != k { Unreferenced(s, i, h); }
    }
  }

  lemma GrantKeeps(s: State, t: State, h: nat, k: Key, i: nat)
    requires Inv(s) && Granted(s, t, h, k, i)
    ensures Inv(t)
  {
    hide BufOk, HandleOk, Permutation;
    forall j: nat | j < NBUF ensures BufOk(t, j, t.bufs[j]) { GrantBuf(s, t, h, k, i, j); }
    forall g | g in t.handles ensures HandleOk(t, g, t.handles[g]) { GrantHandle(s, t, h, k, i, g); }
    forall a: nat, b: nat | a < b < NBUF ensures Distinct(t.bufs[a], t.bufs[b]) { assert Distinct(s.bufs[a], s.bufs[b]); }
  }

  lemma {:induction false} WithoutMember(order: seq<nat>, i: nat, x: nat)
    requires forall a, b :: 0 <= a < b < |order| ==> order[a] != order[b]
    ensures x in Without(order, i) <==> x in order && x != i
    ensures |Without(order, i)| == if i in order then |order| - 1 else |order|
    ensures forall a, b :: 0 <= a < b < |Without(order, i)| ==> Without(order, i)[a] != Without(order, i)[b]
    decreases |order|
  {
    if |order| > 0 {
      var rest := order[1..];
      assert forall y :: y in order <==> y == order[0] || y in rest;
      assert order[0] !in rest;
      if order[0] != i {
        WithoutMember(rest, i, x);
        WithoutMember(rest, i, order[0]);
      }
    }
  }

  /** Moving a buffer to the front permutes the order. */
  lemma ToFrontPermutes(order: seq<nat>, i: nat)
    requires Permutation(order) && i < NBUF
    ensures Permutation(ToFront(order, i)) && ToFront(order, i)[0] == i
  {
    var w := Without(order, i);
    WithoutMember(order, i, i);
    forall x: nat | x < NBUF ensures x in ToFront(order, i) { WithoutMember(order, i, x); }
    forall a | 0 <= a < |w| ensures w[a] < NBUF && w[a] != i { WithoutMember(order, i, w[a]); }
  }

  lemma DropBuf(s: State, h: nat, j: nat)
    requires Inv(s) && Is(s, h, Leaving) && j < NBUF && s.bufs[s.handles[h].buf].refcnt > 0
    ensures var t := DoDrop(s, h); |t.bufs| == NBUF && BufOk(t, j, t.bufs[j])
  {
    hide Inv, ToFront;
    BufAt(s, j);
    Facts(s, h);
    HandlesRemove(s.handles, h, j);
  }

  lemma BufAt(s: State, i: nat)
    requires Inv(s) && i < NBUF
    ensures |s.bufs| == NBUF && BufOk(s, i, s.bufs[i])
  {
  }

  lemma DropHandle(s: State, h: nat, g: nat)
    requires Inv(s) && Is(s, h, Leaving) && g in s.handles && g != h && s.bufs[s.handles[h].buf].refcnt > 0
    ensures var t := DoDrop(s, h); g in t.handles && HandleOk(t, g, t.handles[g])
  {
    hide Inv, ToFront, BufOk;
    Facts(s, g);
  }

  lemma Referenced(s: State, h: nat)
    requires Inv(s) && h in s.handles
    ensures s.handles[h].buf < NBUF && s.bufs[s.handles[h].buf].refcnt > 0
  {
    Facts(s, h);
    assert h in HandlesOn(s.handles, s.handles[h].buf);
  }

  lemma DropKeeps(s: State, h: nat)
    requires Inv(s) && Is(s, h, Leaving)
    ensures Inv(DoDrop(s, h))
  {
    hide Permutation, ToFront, BufOk, HandleOk;
    var i, t := s.handles[h].buf, DoDrop(s, h);
    Referenced(s, h);
    ToFrontPermutes(s.order, i);
    forall j: nat | j < NBUF ensures BufOk(t, j, t.bufs[j]) { DropBuf(s, h, j); }
    forall g | g in t.handles ensures HandleOk(t, g, t.handles[g]) { DropHandle(s, h, g); }
    forall a: nat, b: nat | a < b < NBUF ensures Distinct(t.bufs[a], t.bufs[b]) { assert Distinct(s.bufs[a], s.bufs[b]); }
  }

  lemma NextKeeps(s: State, step: Step)
    requires Inv(s)
    ensures Inv(Next(s, step))
  {
    hide Inv, DoGet, DoDrop;
    if IsLocal(step) {
      if Next(s, step) != s { HolderStep(s, step); }
    } else if step.Get? {
      if step.h !in s.handles && step.key.dev >= 1 { GetKeeps(s, step.h, step.key); } else { GetIgnored(s, step.h, step.key); }
    } else if Is(s, step.h, Leaving) {
      DropKeeps(s, step.h);
    }
  }

  lemma GetIgnored(s: State, h: nat, k: Key)
    requires h in s.handles || k.dev < 1
    ensures DoGet(s, h, k) == s
  {
  }

  // ---------------------------------------------------------------------
  // The cache is a block map

  lemma ContentOf(s: State, k: Key, i: nat)
    requires Inv(s) && k.dev >= 1 && i < NBUF && s.bufs[i].key == k
    ensures Content(s, k) == if s.bufs[i].valid then s.bufs[i].data else DiskAt(s.disk, k)
  {
    if s.bufs[i].valid {
      ContentAt(s, k, i);
    } else {
      forall j: nat | j < NBUF ensures !Caches(s, j, k) { if s.bufs[j].key == k { OneBuffer(s, i, j); } }
    }
  }

  lemma ContentMissing(s: State, k: Key)
    requires forall j: nat :: j < |s.bufs| ==> s.bufs[j].key != k
    ensures Content(s, k) == DiskAt(s.disk, k)
  {
  }

  /** The content of a block depends only on its buffer and its disk block. */
  lemma ContentSame(s: State, t: State, k: Key)
    requires Inv(s) && Inv(t) && k.dev >= 1 && DiskAt(s.disk, k) == DiskAt(t.disk, k)
    requires forall j: nat :: j < NBUF ==> (s.bufs[j].key == k <==> t.bufs[j].key == k)
    requires forall j: nat :: j < NBUF && s.bufs[j].key == k ==> s.bufs[j].valid == t.bufs[j].valid && s.bufs[j].data == t.bufs[j].data
    ensures Content(s, k) == Content(t, k)
  {
    hide BufOk, HandleOk, Permutation;
    if i: nat :| i < NBUF && s.bufs[i].key == k {
      ContentOf(s, k, i);
      ContentOf(t, k, i);
    } else {
      ContentMissing(s, k);
      ContentMissing(t, k);
    }
  }

  /** Does the step store x as the new content of block k? */
  predicate Stores(s: State, step: Step, k: Key) { step.Modify? && Is(s, step.h, Holding) && s.handles[step.h].key == k }

  lemma LocalContent(s: State, step: Step, k: Key)
    requires Inv(s) && IsLocal(step) && k.dev >= 1 && Next(s, step) != s
    ensures Content(Next(s, step), k) == if Stores(s, step, k) then step.data else Content(s, k)
  {
    hide Inv, BufOk;
    var t, h := Next(s, step), step.h;
    StepLocal(s, step);
    HolderStep(s, step);
    Facts(s, h);
    Facts(t, h);
    var i := s.handles[h].buf;
    if s.bufs[i].key == k {
      ContentOf(s, k, i);
      ContentOf(t, k, i);
    } else {
      ContentSame(s, t, k);
    }
  }

  lemma GetContent(s: State, h: nat, k0: Key, k: Key)
    requires Inv(s) && k.dev >= 1
    ensures Content(DoGet(s, h, k0), k) == Content(s, k)
  {
    hide Inv, DoGet;
    var t := DoGet(s, h, k0);
    if h in s.handles || k0.dev < 1 {
      GetIgnored(s, h, k0);
    } else {
      GetKeeps(s, h, k0);
      Sizes(s);
      if t == s.(panicked := true) {
        ContentSame(s, t, k);
      } else {
        var i: nat :| Granted(s, t, h, k0, i);
        GrantContent(s, t, h, k0, i, k);
      }
    }
  }

  lemma Sizes(s: State)
    requires Inv(s)
    ensures |s.bufs| == NBUF
  {
  }

  /** Recycling a buffer loses nothing: it equalled its disk block. */
  lemma GrantContent(s: State, t: State, h: nat, k0: Key, i: nat, k: Key)
    requires Inv(s) && Inv(t) && Granted(s, t, h, k0, i) && k.dev >= 1
    ensures Content(t, k) == Content(s, k)
  {
    hide Inv, BufOk, HandleOk;
    Sizes(s);
    if s.bufs[i].key == k0 || (k != k0 && k != s.bufs[i].key) {
      ContentSame(s, t, k);
    } else {
      Unreferenced(s, i, h);
      if k == k0 {
        ContentMissing(s, k);
        ContentOf(t, k, i);
      } else {
        ContentOf(s, k, i);
        forall j: nat | j < NBUF ensures t.bufs[j].key != k { if s.bufs[j].key == k { OneBuffer(s, i, j); } }
        ContentMissing(t, k);
      }
    }
  }

  /** Only a store by the buffer's holder changes a block's content, and only that block's. */
  lemma ContentStep(s: State, step: Step, k: Key)
    requires Inv(s) && k.dev >= 1
    ensures Content(Next(s, step), k) == if Stores(s, step, k) then step.data else Content(s, k)
  {
    hide Inv, DoGet, DoDrop, Content;
    if IsLocal(step) {
      if Next(s, step) != s { LocalContent(s, step, k); } else if Stores(s, step, k) { SelfStore(s, step, k); }
    } else if step.Get? {
      GetContent(s, step.h, step.key, k);
    } else if Is(s, step.h, Leaving) {
      DropKeeps(s, step.h);
      DropContent(s, step.h, k);
    }
  }

  /** Storing what is already there. */
  lemma SelfStore(s: State, step: Step, k: Key)
    requires Inv(s) && Stores(s, step, k) && Next(s, step) == s
    ensures Content(s, k) == step.data
  {
    hide Inv;
    ReadsContent(s, step.h);
    assert s.bufs[s.handles[step.h].buf] == s.bufs[s.handles[step.h].buf].(data := step.data);
  }

  lemma DropContent(s: State, h: nat, k: Key)
    requires Inv(s) && Is(s, h, Leaving) && Inv(DoDrop(s, h)) && k.dev >= 1
    ensures Content(DoDrop(s, h), k) == Content(s, k)
  {
    hide Inv, ToFront;
    Sizes(s);
    ContentSame(s, DoDrop(s, h), k);
  }

  // ---------------------------------------------------------------------
  // Runs

  function Run(s: State, steps: seq<Step>): State
    decreases |steps|
  {
    if |steps| == 0 then s else Next(Run(s, steps[..|steps| - 1]), steps[|steps| - 1])
  }

  /** The plain block map: the last store to k in the run, or the disk's initial contents. */
  ghost function LastStore(s: State, steps: seq<Step>, k: Key): Data
    decreases |steps|
  {
    if |steps| == 0 then DiskAt(s.disk, k)
    else
      var most, last := steps[..|steps| - 1], steps[|steps| - 1];
      if Stores(Run(s, most), last, k) then last.data else LastStore(s, most, k)
  }

  /** binit. */
  function Start(disk: map<Key, Data>): State {
    State(seq(NBUF, _ => Buf(Key(0, 0), false, [], 0, 0, None)), seq(NBUF, i requires 0 <= i < NBUF => NBUF - 1 - i), disk, map[], false)
  }

  lemma StartInv(disk: map<Key, Data>)
    ensures Inv(Start(disk))
  {
    var s := Start(disk);
    forall i: nat | i < NBUF ensures i in s.order { assert s.order[NBUF - 1 - i] == i; }
    forall i: nat | i < NBUF ensures BufOk(s, i, s.bufs[i]) { assert HandlesOn(s.handles, i) == {}; }
  }

  /** In every run the cache and the disk together are the plain block map, and every holder reads from it. */
  lemma {:induction false} CacheRefines(disk: map<Key, Data>, steps: seq<Step>, k: Key)
    requires k.dev >= 1
    ensures Inv(Run(Start(disk), steps))
    ensures Content(Run(Start(disk), steps), k) == LastStore(Start(disk), steps, k)
    decreases |steps|
  {
    hide Inv, Next, Content, Start;
    if |steps| == 0 {
      StartInv(disk);
      StartContent(disk, k);
    } else {
      var most, last := steps[..|steps| - 1], steps[|steps| - 1];
      CacheRefines(disk, most, k);
      NextKeeps(Run(Start(disk), most), last);
      ContentStep(Run(Start(disk), most), last, k);
    }
  }

  lemma StartContent(disk: map<Key, Data>, k: Key)
    requires k.dev >= 1
    ensures Content(Start(disk), k) == DiskAt(disk, k) && Start(disk).disk == disk
  {
    ContentMissing(Start(disk), k);
  }

  /** In every run the holder of a buffer sees the last store to its block, by whomever, or else the disk. */
  lemma HolderReads(disk: map<Key, Data>, steps: seq<Step>, h: nat)
    requires Is(Run(Start(disk), steps), h, Holding)
    ensures var s := Run(Start(disk), steps);
            s.bufs[s.handles[h].buf].data == LastStore(Start(disk), steps, s.handles[h].key)
  {
    hide Inv, Content;
    var s := Run(Start(disk), steps);
    CacheRefines(disk, steps, Key(1, 0));
    Facts(s, h);
    CacheRefines(disk, steps, s.handles[h].key);
    ReadsContent(s, h);
  }

  // ---------------------------------------------------------------------
  // Running out of buffers

  function Below(n: nat): (r: set<nat>)
    ensures |r| == n && forall i: nat :: i in r <==> i < n
  {
    if n == 0 then {} else Below(n - 1) + {n - 1}
  }

  /** The buffers someone refers to. */
  function InUse(s: State): set<nat> { set i | i in Below(|s.bufs|) && s.bufs[i].refcnt > 0 }

  lemma AllInUse(s: State)
    ensures |InUse(s)| <= |s.bufs|
    ensures |InUse(s)| == |s.bufs| <==> forall j: nat :: j < |s.bufs| ==> s.bufs[j].refcnt > 0
  {
    hide Below;
    var all, used := Below(|s.bufs|), InUse(s);
    assert |all - used| + |used| == |all| by { assert used <= all && (all - used) + used == all; }
    if |used| == |s.bufs| {
      forall j: nat | j < |s.bufs| ensures s.bufs[j].refcnt > 0 { assert j in all && j !in all - used; }
    } else {
      var j: nat :| j in all - used;
      assert s.bufs[j].refcnt == 0;
    }
  }

  /** In every run bget panics exactly when it wants a block that is not cached while all NBUF buffers are in use. */
  lemma RunsOutExactly(disk: map<Key, Data>, steps: seq<Step>, step: Step)
    ensures var s := Run(Start(disk), steps);
            !s.panicked ==>
              (Next(s, step).panicked <==>
               && step.Get? && step.h !in s.handles && step.key.dev >= 1 && |InUse(s)| == NBUF
               && forall j: nat :: j < NBUF && j < |s.bufs| ==> s.bufs[j].key != step.key)
  {
    hide Inv, DoGet, DoDrop, Run, Start, InUse;
    var s := Run(Start(disk), steps);
    CacheRefines(disk, steps, Key(1, 0));
    Sizes(s);
    if step.Get? && step.h !in s.handles && step.key.dev >= 1 {
      AllInUse(s);
      if !s.panicked { GetPanics(s, step.h, step.key); }
    } else if step.Get? {
      GetIgnored(s, step.h, step.key);
    } else if step.Drop? && Is(s, step.h, Leaving) {
      DropQuiet(s, step.h);
    }
  }

  lemma DropQuiet(s: State, h: nat)
    requires Is(s, h, Leaving)
    ensures DoDrop(s, h).panicked == s.panicked
  {
  }

  /** One block is read, logged and released. */
  function LogOne(k: Key): seq<Step> { [Get(0, k), Lock(0), Fill(0), Pin(0), Unlock(0), Drop(0)] }

  /** The blocks numbered from 100 are logged one after the other. */
  function PinSteps(n: nat): seq<Step> {
    if n == 0 then [] else PinSteps(n - 1) + LogOne(Key(1, 100 + n - 1))
  }

  /** The first n buffers hold those blocks and are pinned; nothing else is in use. */
  ghost predicate FirstPinned(s: State, n: nat) {
    && |s.bufs| == NBUF && s.handles == map[] && !s.panicked && n <= NBUF
    && |s.order| == NBUF && (forall j: nat :: j < NBUF ==> s.order[j] == NBUF - 1 - j)
    && (forall j: nat :: j < n ==> s.bufs[j].key == Key(1, 100 + j) && s.bufs[j].refcnt == 1 && s.bufs[j].pins == 1)
    && (forall j: nat :: n <= j < NBUF ==> s.bufs[j] == Buf(Key(0, 0), false, [], 0, 0, None))
  }

  lemma {:induction false} FreeIs(s: State, n: nat, i: nat)
    requires FirstPinned(s, n) && n < NBUF && NBUF - n <= i <= NBUF
    ensures FindFree(s.bufs, s.order, i) == Some(n)
    decreases i
  {
    assert s.order[i - 1] == NBUF - i;
    if NBUF - i < n { FreeIs(s, n, i - 1); }
  }

  ghost function LogOneRun(s: State, k: Key): State {
    Next(Next(Next(Next(Next(Next(s, Get(0, k)), Lock(0)), Fill(0)), Pin(0)), Unlock(0)), Drop(0))
  }

  /** The state with user 0 in the given phase on buffer n. */
  function Busy(s: State, n: nat, b: Buf, p: Phase): State
    requires n < |s.bufs|
  {
    s.(bufs := s.bufs[n := b], handles := map[0 := Handle(n, b.key, p)])
  }

  lemma PinBegins(s: State, n: nat, k: Key)
    requires FirstPinned(s, n) && n < NBUF && k == Key(1, 100 + n)
    ensures Next(s, Get(0, k)) == Busy(s, n, Buf(k, false, [], 1, 0, None), Waiting)
  {
    FreeIs(s, n, NBUF);
    assert FindHit(s.bufs, s.order, k, 0) == None;
    hide FindHit, FindFree;
  }

  lemma PinReads(s: State, n: nat, k: Key, x: Data)
    requires n < |s.bufs| && x == DiskAt(s.disk, k)
    ensures Next(Busy(s, n, Buf(k, false, [], 1, 0, None), Waiting), Lock(0)) == Busy(s, n, Buf(k, false, [], 1, 0, Some(0)), Locked)
    ensures Next(Busy(s, n, Buf(k, false, [], 1, 0, Some(0)), Locked), Fill(0)) == Busy(s, n, Buf(k, true, x, 1, 0, Some(0)), Holding)
  {
  }

  lemma PinPins(s: State, n: nat, k: Key, x: Data)
    requires n < |s.bufs|
    ensures Next(Busy(s, n, Buf(k, true, x, 1, 0, Some(0)), Holding), Pin(0)) == Busy(s, n, Buf(k, true, x, 2, 1, Some(0)), Holding)
  {
  }

  lemma PinUnlocks(s: State, n: nat, k: Key, x: Data)
    requires n < |s.bufs|
    ensures Next(Busy(s, n, Buf(k, true, x, 2, 1, Some(0)), Holding), Unlock(0)) == Busy(s, n, Buf(k, true, x, 2, 1, None), Leaving)
  {
  }

  lemma PinEnds(s: State, n: nat, k: Key, x: Data)
    requires n < |s.bufs| && s.handles == map[]
    ensures Next(Busy(s, n, Buf(k, true, x, 2, 1, None), Leaving), Drop(0)) == s.(bufs := s.bufs[n := Buf(k, true, x, 1, 1, None)])
  {
    hide ToFront;
    var t := Busy(s, n, Buf(k, true, x, 2, 1, None), Leaving);
    assert t.handles - {0} == map[];
  }

  lemma OneMorePinned(s: State, n: nat, x: Data)
    requires FirstPinned(s, n) && n < NBUF
    ensures s.handles == map[] && n < |s.bufs|
    ensures FirstPinned(s.(bufs := s.bufs[n := Buf(Key(1, 100 + n), true, x, 1, 1, None)]), n + 1)
  {
  }

  lemma PinRound(s: State, n: nat)
    requires FirstPinned(s, n) && n < NBUF
    ensures FirstPinned(LogOneRun(s, Key(1, 100 + n)), n + 1)
  {
    hide Next, Busy, FirstPinned;
    var k := Key(1, 100 + n);
    var x := DiskAt(s.disk, k);
    OneMorePinned(s, n, x);
    PinBegins(s, n, k);
    PinReads(s, n, k, x);
    PinPins(s, n, k, x);
    PinUnlocks(s, n, k, x);
    PinEnds(s, n, k, x);
  }

  lemma RunLogOne(s: State, steps: seq<Step>, k: Key)
    ensures Run(s, steps + LogOne(k)) == LogOneRun(Run(s, steps), k)
  {
    hide Next, Run;
    RunAppend(s, steps, Get(0, k));
    var a := steps + [Get(0, k)];
    RunAppend(s, a, Lock(0));
    RunAppend(s, a + [Lock(0)], Fill(0));
    RunAppend(s, a + [Lock(0)] + [Fill(0)], Pin(0));
    RunAppend(s, a + [Lock(0)] + [Fill(0)] + [Pin(0)], Unlock(0));
    RunAppend(s, a + [Lock(0)] + [Fill(0)] + [Pin(0)] + [Unlock(0)], Drop(0));
    assert a + [Lock(0)] + [Fill(0)] + [Pin(0)] + [Unlock(0)] + [Drop(0)] == steps + LogOne(k);
  }

  lemma RunAppend(s: State, steps: seq<Step>, step: Step)
    ensures Run(s, steps + [step]) == Next(Run(s, steps), step)
  {
    assert (steps + [step])[..|steps|] == steps;
  }

  lemma {:induction false} PinRun(disk: map<Key, Data>, n: nat)
    requires n <= NBUF
    ensures FirstPinned(Run(Start(disk), PinSteps(n)), n)
    decreases n
  {
    hide Run, LogOneRun, FirstPinned, LogOne, Start;
    if n == 0 {
      PinNone(disk);
    } else {
      PinRun(disk, n - 1);
      var s := Run(Start(disk), PinSteps(n - 1));
      PinRound(s, n - 1);
      RunLogOne(Start(disk), PinSteps(n - 1), Key(1, 100 + (n - 1)));
    }
  }

  lemma PinNone(disk: map<Key, Data>)
    ensures FirstPinned(Run(Start(disk), []), 0)
  {
  }

  /** From boot, NBUF blocks are logged and nobody holds a buffer any more; whatever further block is wanted next, bget panics. */
  lemma AllPinnedPanics(disk: map<Key, Data>, h: nat, k: Key)
    requires k.dev >= 1 && (k.dev == 1 ==> k.block < 100 || k.block >= 100 + NBUF)
    ensures var s := Run(Start(disk), PinSteps(NBUF));
            && !s.panicked && s.handles == map[] && |InUse(s)| == NBUF
            && Next(s, Get(h, k)).panicked
  {
    hide Run, PinSteps, InUse, DoGet, Start;
    var s := Run(Start(disk), PinSteps(NBUF));
    PinRun(disk, NBUF);
    AllInUse(s);
    RunsOutExactly(disk, PinSteps(NBUF), Get(h, k));
  }
}
