/**
 The buffer cache of kernel/bio.c against the history of a run: what is on the
 disk, how often a block is pinned and in which order buffers are recycled are
 each determined by the steps taken so far.
 */
module BufferHistory {
  import opened Common
  import opened BufferCache

  // ---------------------------------------------------------------------
  // The disk

  /** Is the step a bwrite of block k by its holder? */
  predicate Writes(s: State, step: Step, k: Key) { step.Write? && Is(s, step.h, Holding) && s.handles[step.h].key == k }

  /** What was last stored in block k when it was last written, or else the disk's initial contents. */
  ghost function LastWrite(s: State, steps: seq<Step>, k: Key): Data
    decreases |steps|
  {
    if |steps| == 0 then DiskAt(s.disk, k)
    else
      var most, last := steps[..|steps| - 1], steps[|steps| - 1];
      if Writes(Run(s, most), last, k) then LastStore(s, most, k) else LastWrite(s, most, k)
  }

  lemma DiskStep(s: State, step: Step, k: Key)
    requires Inv(s) && k.dev >= 1
    ensures DiskAt(Next(s, step).disk, k) == if Writes(s, step, k) then Content(s, k) else DiskAt(s.disk, k)
  {
    hide Inv, Content, DoGet, DoDrop;
    if step.Get? {
      DiskGet(s, step.h, step.key);
    } else if step.Drop? {
      if Is(s, step.h, Leaving) { DiskDrop(s, step.h); }
    } else if step.Write? && Is(s, step.h, Holding) {
      Facts(s, step.h);
      ReadsContent(s, step.h);
    }
  }

  lemma DiskGet(s: State, h: nat, k: Key)
    ensures DoGet(s, h, k).disk == s.disk
  {
  }

  lemma DiskDrop(s: State, h: nat)
    requires Is(s, h, Leaving)
    ensures DoDrop(s, h).disk == s.disk
  {
  }

  /** In every run the disk holds for each block what its holder had stored when it was last written. */
  lemma {:induction false} DiskHoldsLastWrite(disk: map<Key, Data>, steps: seq<Step>, k: Key)
    requires k.dev >= 1
    ensures DiskAt(Run(Start(disk), steps).disk, k) == LastWrite(Start(disk), steps, k)
    decreases |steps|
  {
    hide Inv, Next, Content, Start, LastStore;
    if |steps| > 0 {
      var most, last := steps[..|steps| - 1], steps[|steps| - 1];
      DiskHoldsLastWrite(disk, most, k);
      CacheRefines(disk, most, k);
      DiskStep(Run(Start(disk), most), last, k);
    }
  }

  // ---------------------------------------------------------------------
  // Pins

  ghost predicate For(s: State, i: nat, k: Key) { i < |s.bufs| && s.bufs[i].key == k }

  /** How often block k is pinned; a block without a buffer is not. */
  ghost function PinsOf(s: State, k: Key): nat {
    if exists i: nat :: For(s, i, k) then
      var i: nat :| For(s, i, k);
      s.bufs[i].pins
    else 0
  }

  lemma PinsAt(s: State, i: nat, k: Key)
    requires Inv(s) && For(s, i, k) && k.dev >= 1
    ensures PinsOf(s, k) == s.bufs[i].pins
  {
    hide Inv;
    Sizes(s);
    var j: nat :| For(s, j, k) && PinsOf(s, k) == s.bufs[j].pins;
    assert For(s, j, k);
    assert j < |s.bufs|;
    OneBuffer(s, i, j);
  }

  lemma PinsNone(s: State, k: Key)
    requires forall i: nat :: i < |s.bufs| ==> s.bufs[i].key != k
    ensures PinsOf(s, k) == 0
  {
  }

  /** The buffers for block k agree. */
  lemma PinsSame(s: State, t: State, k: Key)
    requires Inv(s) && Inv(t) && k.dev >= 1
    requires forall j: nat :: j < NBUF ==> (s.bufs[j].key == k <==> t.bufs[j].key == k)
    requires forall j: nat :: j < NBUF && s.bufs[j].key == k ==> s.bufs[j].pins == t.bufs[j].pins
    ensures PinsOf(s, k) == PinsOf(t, k)
  {
    hide BufOk, HandleOk, Permutation;
    if i: nat :| i < NBUF && s.bufs[i].key == k {
      PinsAt(s, i, k);
      PinsAt(t, i, k);
    } else {
      PinsNone(s, k);
      PinsNone(t, k);
    }
  }

  /** Does the step pin block k (bpin by its holder)? */
  predicate Pins(s: State, step: Step, k: Key) { step.Pin? && Is(s, step.h, Holding) && s.handles[step.h].key == k }

  /** Does the step take a pin off block k (bunpin by its holder, of a pinned block that equals its disk block)? */
  ghost predicate Unpins(s: State, step: Step, k: Key) {
    step.Unpin? && Is(s, step.h, Holding) && s.handles[step.h].key == k && PinsOf(s, k) > 0 && Content(s, k) == DiskAt(s.disk, k)
  }

  /** How often block k was pinned in the run less how often it was unpinned. */
  ghost function Balance(s: State, steps: seq<Step>, k: Key): int
    decreases |steps|
  {
    if |steps| == 0 then 0
    else
      var most, last := steps[..|steps| - 1], steps[|steps| - 1];
      Balance(s, most, k) + (if Pins(Run(s, most), last, k) then 1 else 0) - (if Unpins(Run(s, most), last, k) then 1 else 0)
  }

  lemma PinStep(s: State, step: Step, k: Key)
    requires Inv(s) && k.dev >= 1
    ensures PinsOf(Next(s, step), k) == PinsOf(s, k) + (if Pins(s, step, k) then 1 else 0) - (if Unpins(s, step, k) then 1 else 0)
  {
    hide Inv, Content, PinsOf, DoGet, DoDrop;
    NextKeeps(s, step);
    if step.Get? {
      GetPinsSame(s, step.h, step.key, k);
    } else if step.Drop? {
      if Is(s, step.h, Leaving) { DropPinsSame(s, step.h, k); }
    } else if step.h in s.handles {
      LocalPins(s, step, k);
    }
  }

  lemma LocalPins(s: State, step: Step, k: Key)
    requires Inv(s) && IsLocal(step) && k.dev >= 1 && Inv(Next(s, step)) && step.h in s.handles
    ensures PinsOf(Next(s, step), k) == PinsOf(s, k) + (if Pins(s, step, k) then 1 else 0) - (if Unpins(s, step, k) then 1 else 0)
  {
    hide Inv, BufOk, Content, PinsOf;
    var h, t := step.h, Next(s, step);
    Facts(s, h);
    var i := s.handles[h].buf;
    if s.bufs[i].key == k {
      assert For(s, i, k) && For(t, i, k);
      PinsAt(s, i, k);
      PinsAt(t, i, k);
      if Is(s, h, Holding) {
        ReadsContent(s, h);
        CountsPins(s, i);
      }
    } else {
      PinsSame(s, t, k);
    }
  }

  lemma CountsPins(s: State, i: nat)
    requires Inv(s) && i < NBUF && |s.bufs| == NBUF
    ensures s.bufs[i].refcnt >= s.bufs[i].pins
  {
    assert BufOk(s, i, s.bufs[i]);
  }

  lemma DropPinsSame(s: State, h: nat, k: Key)
    requires Inv(s) && Is(s, h, Leaving) && Inv(DoDrop(s, h)) && k.dev >= 1
    ensures PinsOf(DoDrop(s, h), k) == PinsOf(s, k)
  {
    hide Inv, ToFront, PinsOf;
    Sizes(s);
    PinsSame(s, DoDrop(s, h), k);
  }

  lemma GetPinsSame(s: State, h: nat, k0: Key, k: Key)
    requires Inv(s) && Inv(DoGet(s, h, k0)) && k.dev >= 1
    ensures PinsOf(DoGet(s, h, k0), k) == PinsOf(s, k)
  {
    hide Inv, DoGet, PinsOf;
    var t := DoGet(s, h, k0);
    Sizes(s);
    if h in s.handles || k0.dev < 1 {
      GetIgnored(s, h, k0);
    } else {
      GetKeeps(s, h, k0);
      if t == s.(panicked := true) {
        PinsSame(s, t, k);
      } else {
        var i: nat :| Granted(s, t, h, k0, i);
        GrantPins(s, t, h, k0, i, k);
      }
    }
  }

  lemma GrantPins(s: State, t: State, h: nat, k0: Key, i: nat, k: Key)
    requires Inv(s) && Inv(t) && Granted(s, t, h, k0, i) && k.dev >= 1
    ensures PinsOf(t, k) == PinsOf(s, k)
  {
    hide Inv, BufOk, HandleOk, PinsOf;
    Sizes(s);
    if s.bufs[i].key == k0 || (k != k0 && k != s.bufs[i].key) {
      PinsSame(s, t, k);
    } else {
      Unreferenced(s, i, h);
      if k == k0 {
        PinsNone(s, k);
        PinsAt(t, i, k);
      } else {
        assert For(s, i, k);
        PinsAt(s, i, k);
        forall j: nat | j < NBUF ensures t.bufs[j].key != k { if s.bufs[j].key == k { OneBuffer(s, i, j); } }
        PinsNone(t, k);
      }
    }
  }

  lemma StartPins(disk: map<Key, Data>, k: Key)
    requires k.dev >= 1
    ensures PinsOf(Start(disk), k) == 0
  {
    PinsNone(Start(disk), k);
  }

  /** In every run a block has as many pins as it was pinned more often than unpinned; so a block that is still pinned is in the cache. */
  lemma {:induction false} PinsBalance(disk: map<Key, Data>, steps: seq<Step>, k: Key)
    requires k.dev >= 1
    ensures PinsOf(Run(Start(disk), steps), k) == Balance(Start(disk), steps, k)
    ensures Balance(Start(disk), steps, k) > 0 ==> exists i: nat :: For(Run(Start(disk), steps), i, k)
    decreases |steps|
  {
    hide Inv, Next, Start, Unpins;
    if |steps| == 0 {
      StartPins(disk, k);
    } else {
      var most, last := steps[..|steps| - 1], steps[|steps| - 1];
      PinsBalance(disk, most, k);
      CacheRefines(disk, most, k);
      PinStep(Run(Start(disk), most), last, k);
    }
  }

  // ---------------------------------------------------------------------
  // Recency

  /** Does the step give up the last reference to buffer i? */
  predicate LastRelease(s: State, step: Step, i: nat) {
    step.Drop? && Is(s, step.h, Leaving) && s.handles[step.h].buf == i && s.bufs[i].refcnt == 1
  }

  /** The number of the step that last gave up the last reference to buffer i; 0 if none did. */
  function FreedAt(s: State, steps: seq<Step>, i: nat): (r: nat)
    ensures r <= |steps|
    decreases |steps|
  {
    if |steps| == 0 then 0
    else
      var most, last := steps[..|steps| - 1], steps[|steps| - 1];
      if LastRelease(Run(s, most), last, i) then |steps| else FreedAt(s, most, i)
  }

  /** Buffer i was released after buffer j; of two that never were, binit put the higher one first. */
  predicate Later(s: State, steps: seq<Step>, i: nat, j: nat) {
    FreedAt(s, steps, i) > FreedAt(s, steps, j) || (FreedAt(s, steps, i) == FreedAt(s, steps, j) == 0 && i > j)
  }

  predicate ByRecency(s: State, steps: seq<Step>, order: seq<nat>) {
    forall a: nat, b: nat :: a < b < |order| ==> Later(s, steps, order[a], order[b])
  }

  lemma {:induction false} CutOut(order: seq<nat>, i: nat, p: nat)
    requires p < |order| && order[p] == i && i !in order[..p]
    ensures Without(order, i) == order[..p] + order[p + 1..]
    decreases |order|
  {
    if p > 0 {
      assert order[0] == order[..p][0] && order[1..][..p - 1] == order[..p][1..];
      CutOut(order[1..], i, p - 1);
      assert order[1..][p..] == order[p + 1..] && [order[0]] + order[1..p] == order[..p];
    }
  }

  lemma PlaceOf(order: seq<nat>, i: nat) returns (p: nat)
    requires Permutation(order) && i < NBUF
    ensures p < |order| && order[p] == i && i !in order[..p]
  {
    assert i in order;
    p :| p < |order| && order[p] == i;
  }

  /** What one step does to the order. */
  lemma OrderStep(s: State, step: Step)
    requires Inv(s)
    ensures Next(s, step).order == if exists i: nat :: LastRelease(s, step, i) then ToFront(s.order, s.handles[step.h].buf) else s.order
  {
    hide Inv, ToFront, DoGet;
    if step.Get? {
      OrderGet(s, step.h, step.key);
    } else if step.Drop? && Is(s, step.h, Leaving) {
      var i := s.handles[step.h].buf;
      Referenced(s, step.h);
      if s.bufs[i].refcnt == 1 { assert LastRelease(s, step, i); }
    }
  }

  lemma OrderGet(s: State, h: nat, k: Key)
    ensures DoGet(s, h, k).order == s.order
  {
  }

  /** A buffer moved to the front of an order by recency, because it was just released, gives one by recency. */
  lemma FrontRecency(s: State, steps: seq<Step>, i: nat)
    requires |steps| > 0
    requires var most := steps[..|steps| - 1];
             && Permutation(Run(s, most).order) && i < NBUF && ByRecency(s, most, Run(s, most).order)
             && LastRelease(Run(s, most), steps[|steps| - 1], i)
    ensures ByRecency(s, steps, ToFront(Run(s, steps[..|steps| - 1]).order, i))
  {
    hide Run, LastRelease;
    var most := steps[..|steps| - 1];
    var order := Run(s, most).order;
    var p := PlaceOf(order, i);
    CutOut(order, i, p);
    var front := ToFront(order, i);
    assert front == [i] + (order[..p] + order[p + 1..]);
    forall a: nat, b: nat | a < b < |front| ensures Later(s, steps, front[a], front[b]) {
      var b0 := if b <= p then b - 1 else b;
      assert front[b] == order[b0] && b0 != p;
      OnlyRelease(s, steps, i, front[b]);
      if a > 0 {
        var a0 := if a <= p then a - 1 else a;
        assert front[a] == order[a0] && a0 != p && a0 < b0;
        OnlyRelease(s, steps, i, front[a]);
        assert Later(s, most, order[a0], order[b0]);
      }
    }
  }

  lemma OnlyRelease(s: State, steps: seq<Step>, i: nat, j: nat)
    requires |steps| > 0 && LastRelease(Run(s, steps[..|steps| - 1]), steps[|steps| - 1], i)
    ensures FreedAt(s, steps, i) == |steps|
    ensures j != i ==> FreedAt(s, steps, j) == FreedAt(s, steps[..|steps| - 1], j) < |steps|
  {
  }

  lemma StartRecency(disk: map<Key, Data>)
    ensures ByRecency(Start(disk), [], Start(disk).order)
  {
  }

  lemma Ordered(s: State)
    requires Inv(s)
    ensures Permutation(s.order)
  {
  }

  /** In every run the ring lists the buffers by when they were last released, latest first. */
  lemma {:induction false} OrderIsRecency(disk: map<Key, Data>, steps: seq<Step>)
    ensures ByRecency(Start(disk), steps, Run(Start(disk), steps).order)
    decreases |steps|
  {
    hide Inv, Next, Start, ToFront, Permutation, LastRelease, ByRecency;
    if |steps| == 0 {
      StartRecency(disk);
    } else {
      var most, last := steps[..|steps| - 1], steps[|steps| - 1];
      var s := Run(Start(disk), most);
      OrderIsRecency(disk, most);
      CacheRefines(disk, most, Key(1, 0));
      OrderStep(s, last);
      Ordered(s);
      if i: nat :| LastRelease(s, last, i) {
        ReleaseOf(s, last, i);
        FrontRecency(Start(disk), steps, i);
      } else {
        SameRecency(Start(disk), steps, s.order);
      }
    }
  }

  lemma ReleaseOf(s: State, step: Step, i: nat)
    requires Inv(s) && LastRelease(s, step, i)
    ensures i < NBUF && step.h in s.handles && s.handles[step.h].buf == i
  {
  }

  lemma SameRecency(s: State, steps: seq<Step>, order: seq<nat>)
    requires |steps| > 0 && ByRecency(s, steps[..|steps| - 1], order)
    requires var t, last := Run(s, steps[..|steps| - 1]), steps[|steps| - 1]; forall i: nat :: !LastRelease(t, last, i)
    ensures ByRecency(s, steps, order)
  {
    hide LastRelease, Run;
    var most := steps[..|steps| - 1];
    forall a: nat, b: nat | a < b < |order| ensures Later(s, steps, order[a], order[b]) {
      assert Later(s, most, order[a], order[b]);
      var i, j := order[a], order[b];
      assert !LastRelease(Run(s, most), steps[|steps| - 1], i) && !LastRelease(Run(s, most), steps[|steps| - 1], j);
    }
  }

  /** In every run the buffer bget recycles is the unreferenced one that was released longest ago. */
  lemma RecyclesOldest(disk: map<Key, Data>, steps: seq<Step>, h: nat, k: Key, j: nat)
    requires var s := Run(Start(disk), steps);
             h !in s.handles && k.dev >= 1 && !(exists i: nat :: For(s, i, k)) && h in Next(s, Get(h, k)).handles
    ensures var s := Run(Start(disk), steps);
            var i := Next(s, Get(h, k)).handles[h].buf;
            && |s.bufs| == NBUF && i < NBUF && s.bufs[i].refcnt == 0
            && (j < NBUF && j != i && s.bufs[j].refcnt == 0 ==> Later(Start(disk), steps, j, i))
  {
    hide Inv, Run, Start, Later, ByRecency, Permutation;
    var s := Run(Start(disk), steps);
    CacheRefines(disk, steps, Key(1, 0));
    Sizes(s);
    Ordered(s);
    Recycled(s, h, k);
    var i := Next(s, Get(h, k)).handles[h].buf;
    if j < NBUF && j != i && s.bufs[j].refcnt == 0 {
      var a := LruChoice(s.bufs, s.order, |s.order|);
      var b := PlaceOf(s.order, j);
      OrderIsRecency(disk, steps);
      RecencyAt(Start(disk), steps, s.order, b, a);
    }
  }

  lemma RecencyAt(s: State, steps: seq<Step>, order: seq<nat>, a: nat, b: nat)
    requires ByRecency(s, steps, order) && a < b < |order|
    ensures Later(s, steps, order[a], order[b])
  {
  }

  lemma Recycled(s: State, h: nat, k: Key)
    requires Inv(s) && h !in s.handles && k.dev >= 1 && !(exists i: nat :: For(s, i, k)) && h in Next(s, Get(h, k)).handles
    ensures FindFree(s.bufs, s.order, |s.order|) == Some(Next(s, Get(h, k)).handles[h].buf)
  {
    var hit := FindHit(s.bufs, s.order, k, 0);
    if hit.Some? { assert For(s, hit.value, k); }
  }

  // ---------------------------------------------------------------------
  // One user alone

  /** The state with user h in the given phase on buffer i. */
  function Using(s: State, h: nat, i: nat, b: Buf, p: Phase): State
    requires i < |s.bufs|
  {
    s.(bufs := s.bufs[i := b], handles := s.handles[h := Handle(i, b.key, p)])
  }

  lemma TakesBuffer(s: State, h: nat, i: nat, b: Buf)
    requires i < |s.bufs| && b.holder == None
    ensures var x := if b.valid then b.data else DiskAt(s.disk, b.key);
            Next(Next(Using(s, h, i, b, Waiting), Lock(h)), Fill(h)) == Using(s, h, i, b.(valid := true, data := x, holder := Some(h)), Holding)
  {
    var t := Using(s, h, i, b, Waiting);
    var t1 := Next(t, Lock(h));
    assert t1 == Using(s, h, i, b.(holder := Some(h)), Locked);
  }

  lemma StoresAndWrites(s: State, h: nat, i: nat, b: Buf, x: Data)
    requires i < |s.bufs| && b.valid
    ensures Next(Next(Using(s, h, i, b, Holding), Modify(h, x)), Write(h)) == Using(s, h, i, b.(data := x), Holding).(disk := s.disk[b.key := x])
  {
    assert Next(Using(s, h, i, b, Holding), Modify(h, x)) == Using(s, h, i, b.(data := x), Holding);
  }

  lemma Releases(s: State, h: nat, i: nat, b: Buf)
    requires i < |s.bufs| && h !in s.handles && b.refcnt > 0 && (Clean(s, b) || b.pins > 0)
    ensures var t := Next(Next(Using(s, h, i, b, Holding), Unlock(h)), Drop(h));
            t == s.(bufs := s.bufs[i := b.(holder := None, refcnt := b.refcnt - 1)],
                    order := if b.refcnt == 1 then ToFront(s.order, i) else s.order)
  {
    hide ToFront;
    var t1 := Next(Using(s, h, i, b, Holding), Unlock(h));
    assert t1 == Using(s, h, i, b.(holder := None), Leaving);
    assert t1.handles - {h} == s.handles;
  }

  /** bread of block k, a store to it, bwrite and brelse. */
  ghost function UpdateRun(s: State, h: nat, k: Key, x: Data): State {
    Next(Next(Next(Next(BreadRun(s, h, k), Modify(h, x)), Write(h)), Unlock(h)), Drop(h))
  }

  ghost function BreadRun(s: State, h: nat, k: Key): State { Next(Next(Next(s, Get(h, k)), Lock(h)), Fill(h)) }

  /** Buffer i may be handed out for block k. */
  predicate Available(s: State, i: nat, k: Key) { i < |s.bufs| && (s.bufs[i].key == k || s.bufs[i].refcnt == 0) }

  /** Buffer i serves block k: it is the block's buffer, or there is none and it was unreferenced. */
  ghost predicate Serves(s: State, i: nat, k: Key) {
    i < |s.bufs| && (s.bufs[i].key == k || (s.bufs[i].refcnt == 0 && !exists j: nat :: For(s, j, k)))
  }

  /** Buffer i of s once it is for block k, as bget leaves it. */
  function Assigned(b: Buf, k: Key): Buf { if b.key == k then b.(refcnt := b.refcnt + 1) else b.(key := k, valid := false, refcnt := 1) }

  lemma GetsOne(s: State, h: nat, k: Key) returns (i: nat)
    requires Inv(s) && h !in s.handles && k.dev >= 1 && !s.panicked
    requires exists j: nat :: Available(s, j, k)
    ensures Serves(s, i, k) && Next(s, Get(h, k)) == Using(s, h, i, Assigned(s.bufs[i], k), Waiting)
  {
    hide Inv, DoGet;
    Sizes(s);
    var a: nat :| Available(s, a, k);
    GetPanics(s, h, k);
    GetKeeps(s, h, k);
    var t := DoGet(s, h, k);
    i :| Granted(s, t, h, k, i);
    assert t.bufs == s.bufs[i := Assigned(s.bufs[i], k)];
    assert s.bufs[i].key != k ==> forall j: nat :: !For(s, j, k);
  }

  /**
   One user alone: if a buffer for block k is to be had and nobody holds it,
   bread returns the block's content, and a store followed by bwrite and brelse
   leaves the new content in the buffer and on the disk; every count and every
   other buffer is as before, and a buffer left without references is the most
   recently used.
   */
  lemma UpdateCycle(s: State, h: nat, k: Key, x: Data) returns (i: nat)
    requires Inv(s) && h !in s.handles && k.dev >= 1 && !s.panicked
    requires exists j: nat :: Available(s, j, k)
    requires forall j: nat :: For(s, j, k) ==> s.bufs[j].holder == None
    ensures Serves(s, i, k)
    ensures var t := BreadRun(s, h, k); Is(t, h, Holding) && t.handles[h] == Handle(i, k, Holding) && t.bufs[i].data == Content(s, k)
    ensures UpdateRun(s, h, k, x)
            == s.(bufs := s.bufs[i := Buf(k, true, x, s.bufs[i].refcnt, s.bufs[i].pins, None)], disk := s.disk[k := x],
                  order := if s.bufs[i].refcnt == 0 then ToFront(s.order, i) else s.order)
  {
    hide Inv, Next, Content, ToFront;
    i := GetsOne(s, h, k);
    Sizes(s);
    var b := Assigned(s.bufs[i], k);
    if s.bufs[i].key == k { assert For(s, i, k); } else { Unreferenced(s, i, h); }
    TakesBuffer(s, h, i, b);
    var y := if b.valid then b.data else DiskAt(s.disk, k);
    BeforeUse(s, i, k);
    var b1 := b.(valid := true, data := y, holder := Some(h));
    StoresAndWrites(s, h, i, b1, x);
    Releases(s.(disk := s.disk[k := x]), h, i, b1.(data := x));
  }

  lemma BeforeUse(s: State, i: nat, k: Key)
    requires Inv(s) && k.dev >= 1 && Serves(s, i, k)
    ensures Content(s, k) == if s.bufs[i].key == k && s.bufs[i].valid then s.bufs[i].data else DiskAt(s.disk, k)
  {
    hide Inv, Content;
    Sizes(s);
    if s.bufs[i].key == k {
      ContentOf(s, k, i);
    } else {
      forall j: nat | j < |s.bufs| ensures s.bufs[j].key != k { assert !For(s, j, k); }
      ContentMissing(s, k);
    }
  }
}
