/**
 The priority scheduler of kernel/proc.c: selection, ageing and penalty over
 the process table, and the other transitions of a process's state.
 Selection rounds are serialised by wait_lock; between the two phases of a
 round other CPUs can change every slot but the winner's.
 */
module Scheduler {
  const NPROC: nat := 64
  const ALPHA: int := 5
  const BETA: int := 10
  const DEFAULT: int := 60
  const MAX: int := 100
  const MIN: int := 0
  const WMAX: int := 50
  const TCPU_MAX: int := 1

  datatype RunState = Unused | Used | Sleeping | Runnable | Running | Zombie

  datatype Proc = Proc(state: RunState, priority: int, wait: int, cpu: int)

  type Table = seq<Proc>

  predicate Ready(t: Table, i: int) { 0 <= i < |t| && t[i].state == Runnable }

  predicate Starving(t: Table, i: int) { Ready(t, i) && t[i].wait >= WMAX }

  // ---------------------------------------------------------------------
  // Selection

  /** Slot b is the choice: the lowest starving slot if there is one, else the lowest of the highest priority. */
  ghost predicate IsPick(t: Table, b: int) {
    && Ready(t, b)
    && (Starving(t, b) || forall j :: 0 <= j < |t| ==> !Starving(t, j))
    && (Starving(t, b) ==> forall j :: 0 <= j < b ==> !Starving(t, j))
    && (!Starving(t, b) ==> forall j :: Ready(t, j) ==> t[j].priority < t[b].priority || (t[j].priority == t[b].priority && b <= j))
  }

  /** There is exactly one choice. */
  lemma PickUnique(t: Table, a: int, b: int)
    requires IsPick(t, a) && IsPick(t, b)
    ensures a == b
  {
    if Starving(t, a) {
      assert Starving(t, b);
    } else {
      assert !Starving(t, b);
      assert Ready(t, a) && Ready(t, b);
    }
  }

  /** Phase 1 from slot i on, with the best of the slots before it (-1 for none). */
  function Scan(t: Table, i: nat, best: int): int
    requires i <= |t| && -1 <= best < i
    decreases |t| - i
  {
    if i == |t| then best
    else if t[i].state == Runnable && t[i].wait >= WMAX then i
    else if t[i].state == Runnable && (best == -1 || t[i].priority > t[best].priority) then Scan(t, i + 1, i)
    else Scan(t, i + 1, best)
  }

  function Pick(t: Table): int { Scan(t, 0, -1) }

  /** `best` is the choice among the slots before i, none of which is starving. */
  ghost predicate BestSoFar(t: Table, i: nat, best: int)
    requires i <= |t|
  {
    && -1 <= best < i
    && (best >= 0 ==> Ready(t, best))
    && (forall j :: 0 <= j < i ==> !Starving(t, j))
    && (forall j :: 0 <= j < i && Ready(t, j) ==> best >= 0 && (t[j].priority < t[best].priority || (t[j].priority == t[best].priority && best <= j)))
  }

  lemma {:induction false} ScanPicks(t: Table, i: nat, best: int)
    requires i <= |t| && BestSoFar(t, i, best)
    ensures var r := Scan(t, i, best);
            if r == -1 then forall j :: !Ready(t, j) else IsPick(t, r)
    decreases |t| - i
  {
    if i < |t| {
      if Starving(t, i) {
      } else if Ready(t, i) && (best == -1 || t[i].priority > t[best].priority) {
        ScanPicks(t, i + 1, i);
      } else {
        ScanPicks(t, i + 1, best);
      }
    }
  }

  /** The scan finds the choice, and finds none exactly when nothing is runnable. */
  lemma PickCorrect(t: Table)
    ensures Pick(t) == -1 <==> forall j :: !Ready(t, j)
    ensures Pick(t) != -1 ==> IsPick(t, Pick(t))
  {
    ScanPicks(t, 0, -1);
  }

  // ---------------------------------------------------------------------
  // Steps

  function Aged(p: Proc): Proc {
    if p.state != Runnable then p
    else p.(wait := p.wait + 1, priority := if p.priority + ALPHA > MAX then MAX else p.priority + ALPHA)
  }

  /** Phase 2 and the start of the winner. */
  function AgeAndRun(t: Table, b: int): (r: Table)
    requires 0 <= b < |t|
    ensures |r| == |t|
  {
    seq(|t|, i requires 0 <= i < |t| => if i == b then t[b].(state := Running, wait := 0) else Aged(t[i]))
  }

  /** The winner is back from swtch. */
  function Charged(p: Proc): Proc {
    var cpu := p.cpu + 1;
    p.(cpu := cpu, priority := if cpu > TCPU_MAX then (if p.priority - BETA < MIN then MIN else p.priority - BETA) else p.priority)
  }

  /** What processes and their CPUs do to the table outside selection rounds. */
  datatype Act =
    | Charge(i: nat)
    | ResetWindow
    | Tick(i: nat)
    | Yield(i: nat)
    | Sleep(i: nat)
    | Wakeup(i: nat)
    | Exit(i: nat)
    | Reap(i: nat)
    | Alloc(i: nat)
    | Inherit(i: nat, parent: nat)
    | Start(i: nat)

  function Move(t: Table, i: nat, before: RunState, after: RunState): (r: Table)
    ensures |r| == |t|
  {
    if i < |t| && t[i].state == before then t[i := t[i].(state := after)] else t
  }

  function Apply(t: Table, act: Act): (r: Table)
    ensures |r| == |t|
  {
    match act
    case Charge(i) => if i < |t| then t[i := Charged(t[i])] else t
    case ResetWindow => seq(|t|, i requires 0 <= i < |t| => t[i].(cpu := 0))
    case Tick(i) => if i < |t| then t[i := t[i].(cpu := t[i].cpu + 1)] else t
    case Yield(i) => Move(t, i, Running, Runnable)
    case Sleep(i) => Move(t, i, Running, Sleeping)
    case Wakeup(i) => Move(t, i, Sleeping, Runnable)
    case Exit(i) => Move(t, i, Running, Zombie)
    case Reap(i) => Move(Move(t, i, Zombie, Unused), i, Used, Unused)
    case Alloc(i) => if i < |t| && t[i].state == Unused then t[i := Proc(Used, DEFAULT, 0, 0)] else t
    case Inherit(i, parent) =>
      if i < |t| && parent < |t| && t[i].state == Used && t[parent].state == Running then t[i := Proc(Used, t[parent].priority, 0, 0)] else t
    case Start(i) => Move(t, i, Used, Runnable)
  }

  /** What other CPUs do between the two phases; the winner's lock is held. */
  function Meanwhile(t: Table, b: nat, acts: seq<Act>): (r: Table)
    requires b < |t|
    ensures |r| == |t| && r[b] == t[b]
    decreases |acts|
  {
    if |acts| == 0 then t
    else
      var u := Meanwhile(t, b, acts[..|acts| - 1]);
      Apply(u, acts[|acts| - 1])[b := u[b]]
  }

  /** One selection round. A process that becomes runnable after phase 1 has passed it is aged without having been considered. */
  function Round(t: Table, late: seq<Act>): (r: Table)
    ensures |r| == |t|
  {
    var b := Pick(t);
    if 0 <= b < |t| then AgeAndRun(Meanwhile(t, b, late), b) else t
  }

  datatype Step = DoRound(late: seq<Act>) | Do(act: Act)

  function Next(t: Table, step: Step): (r: Table)
    ensures |r| == |t|
  {
    match step
    case DoRound(late) => Round(t, late)
    case Do(act) => Apply(t, act)
  }

  function Run(t: Table, steps: seq<Step>): (r: Table)
    ensures |r| == |t|
    decreases |steps|
  {
    if |steps| == 0 then t else Next(Run(t, steps[..|steps| - 1]), steps[|steps| - 1])
  }

  // ---------------------------------------------------------------------
  // The invariant

  function Below(n: nat): (r: set<nat>)
    ensures |r| == n && forall i: nat :: i in r <==> i < n
  {
    if n == 0 then {} else Below(n - 1) + {n - 1}
  }

  /** The slots of l that have waited less than m rounds. */
  function Fresh(t: Table, l: set<nat>, m: int): set<nat> { set i | i in l && i < |t| && t[i].wait < m }

  /** Rounds slot i has been passed over while starving: as many lower slots were picked since. */
  ghost predicate Credit(t: Table, i: nat)
    requires i < |t|
  {
    t[i].wait - WMAX <= |Fresh(t, Below(i), t[i].wait - WMAX)|
  }

  predicate SlotOk(p: Proc) {
    MIN <= p.priority <= MAX && p.wait >= 0 && (p.state != Runnable ==> p.wait == 0)
  }

  ghost predicate SlotsOk(t: Table) { forall i :: 0 <= i < |t| ==> SlotOk(t[i]) }

  ghost predicate Inv(t: Table) {
    && |t| == NPROC
    && SlotsOk(t)
    && (forall i: nat :: i <= WMAX ==> Credit(t, i))
  }

  /** The waiting times are the same, and what was runnable still is. */
  ghost predicate SameWaits(t: Table, u: Table) {
    |u| == |t| && forall i :: 0 <= i < |t| ==> u[i].wait == t[i].wait && (t[i].state == Runnable ==> u[i].state == Runnable)
  }

  /** No act makes a runnable process wait longer or stop being runnable. */
  lemma ActKeeps(t: Table, act: Act)
    requires SlotsOk(t)
    ensures SlotsOk(Apply(t, act)) && SameWaits(t, Apply(t, act))
  {
    var u := Apply(t, act);
    forall i | 0 <= i < |t| ensures SlotOk(u[i]) && u[i].wait == t[i].wait && (t[i].state == Runnable ==> u[i].state == Runnable) {
      assert SlotOk(t[i]);
      if act.Inherit? && act.parent < |t| { assert SlotOk(t[act.parent]); }
    }
  }

  lemma {:induction false} MeanwhileKeeps(t: Table, b: nat, acts: seq<Act>)
    requires SlotsOk(t) && b < |t|
    ensures SlotsOk(Meanwhile(t, b, acts)) && SameWaits(t, Meanwhile(t, b, acts))
    decreases |acts|
  {
    if |acts| > 0 {
      MeanwhileKeeps(t, b, acts[..|acts| - 1]);
      ActKeeps(Meanwhile(t, b, acts[..|acts| - 1]), acts[|acts| - 1]);
    }
  }

  /** A round that picks b: everything else that was runnable has waited one round more, b none, and others at most one. */
  ghost predicate Passed(t: Table, u: Table, b: nat) {
    && |u| == |t| && b < |t| && u[b].wait == 0
    && (forall i :: 0 <= i < |t| && i != b ==> t[i].wait <= u[i].wait <= t[i].wait + 1)
    && (forall i :: 0 <= i < |t| && i != b && t[i].state == Runnable ==> u[i].wait == t[i].wait + 1)
  }

  lemma RoundPasses(t: Table, late: seq<Act>)
    requires SlotsOk(t) && Pick(t) != -1
    ensures 0 <= Pick(t) < |t| && IsPick(t, Pick(t))
    ensures SlotsOk(Round(t, late)) && Passed(t, Round(t, late), Pick(t))
    ensures forall i :: 0 <= i < |t| && i != Pick(t) && t[i].state == Runnable ==> Round(t, late)[i].state == Runnable
  {
    PickCorrect(t);
    var b := Pick(t);
    MeanwhileKeeps(t, b, late);
    var v := Meanwhile(t, b, late);
    forall i | 0 <= i < |t| ensures SlotOk(AgeAndRun(v, b)[i]) && SlotOk(t[i]) { assert SlotOk(v[i]) && SlotOk(t[i]); }
  }

  /** One more slot is fresh after a round that picks b below i. */
  lemma FreshMore(t: Table, u: Table, l: set<nat>, m: int, b: nat)
    requires |u| == |t| && b in l && b < |t| && m >= 0
    requires forall j: nat :: j in l && j < |t| ==> u[j].wait <= t[j].wait + 1
    requires t[b].wait >= m && u[b].wait == 0
    ensures |Fresh(u, l, m + 1)| >= |Fresh(t, l, m)| + 1
  {
    assert Fresh(t, l, m) + {b} <= Fresh(u, l, m + 1);
    SubsetCard(Fresh(t, l, m) + {b}, Fresh(u, l, m + 1));
  }

  lemma SubsetCard(a: set<nat>, b: set<nat>)
    requires a <= b
    ensures |a| <= |b|
  {
    assert b == a + (b - a);
  }

  lemma RoundCredit(t: Table, u: Table, b: nat, i: nat)
    requires Inv(t) && IsPick(t, b) && Passed(t, u, b) && i <= WMAX
    ensures Credit(u, i)
  {
    hide Below, Fresh;
    assert SlotOk(t[i]) && Credit(t, i);
    if i != b && Starving(t, i) {
      assert Starving(t, b) && b < i && SlotOk(t[b]);
      FreshBound(t, i, t[i].wait - WMAX);
      FreshMore(t, u, Below(i), t[i].wait - WMAX, b);
    }
  }

  lemma RoundKeeps(t: Table, late: seq<Act>)
    requires Inv(t)
    ensures Inv(Round(t, late))
  {
    hide Credit, Round;
    if Pick(t) != -1 {
      RoundPasses(t, late);
      forall i: nat | i <= WMAX ensures Credit(Round(t, late), i) { RoundCredit(t, Round(t, late), Pick(t), i); }
    } else {
      NoRound(t, late);
    }
  }

  lemma NoRound(t: Table, late: seq<Act>)
    ensures Pick(t) == -1 ==> Round(t, late) == t
  {
  }

  lemma FreshSame(t: Table, u: Table, l: set<nat>, m: int)
    requires SameWaits(t, u)
    ensures Fresh(u, l, m) == Fresh(t, l, m)
  {
  }

  lemma SameCredit(t: Table, u: Table, i: nat)
    requires SameWaits(t, u) && i < |t| && Credit(t, i)
    ensures Credit(u, i)
  {
    hide Below, Fresh;
    FreshSame(t, u, Below(i), t[i].wait - WMAX);
  }

  lemma NextKeeps(t: Table, step: Step)
    requires Inv(t)
    ensures Inv(Next(t, step))
  {
    hide Apply, Round, Credit;
    match step
    case DoRound(late) => RoundKeeps(t, late);
    case Do(act) =>
      ActKeeps(t, act);
      forall i: nat | i <= WMAX ensures Credit(Apply(t, act), i) { SameCredit(t, Apply(t, act), i); }
  }

  lemma {:induction false} RunKeeps(t: Table, steps: seq<Step>)
    requires Inv(t)
    ensures Inv(Run(t, steps))
    decreases |steps|
  {
    if |steps| > 0 {
      RunKeeps(t, steps[..|steps| - 1]);
      NextKeeps(Run(t, steps[..|steps| - 1]), steps[|steps| - 1]);
    }
  }

  /** procinit: every slot unused. */
  function Boot(): (t: Table)
    ensures |t| == NPROC
  {
    seq(NPROC, _ => Proc(Unused, 0, 0, 0))
  }

  lemma BootInv()
    ensures Inv(Boot())
  {
    hide Below;
  }

  // ---------------------------------------------------------------------
  // Bounded waiting

  /** In every reachable state, priorities are in range and no slot up to WMAX has waited more than WMAX plus its number. */
  lemma BoundedWaiting(steps: seq<Step>, i: nat)
    requires i < NPROC
    ensures var t := Run(Boot(), steps);
            MIN <= t[i].priority <= MAX && (i <= WMAX ==> t[i].wait <= WMAX + i)
  {
    hide Run, Boot, Below, Fresh;
    BootInv();
    RunKeeps(Boot(), steps);
    var t := Run(Boot(), steps);
    assert SlotOk(t[i]) && (i <= WMAX ==> Credit(t, i));
    if i <= WMAX { FreshBound(t, i, t[i].wait - WMAX); }
  }

  lemma FreshBound(t: Table, i: nat, m: int)
    ensures |Fresh(t, Below(i), m)| <= i
  {
    hide Below;
    SubsetCard(Fresh(t, Below(i), m), Below(i));
  }

  function Rounds(steps: seq<Step>): nat {
    if |steps| == 0 then 0 else Rounds(steps[..|steps| - 1]) + if steps[|steps| - 1].DoRound? then 1 else 0
  }

  /** Slot i is runnable before, between and after all steps. */
  ghost predicate StaysReady(t: Table, steps: seq<Step>, i: nat) {
    forall k :: 0 <= k <= |steps| ==> Ready(Run(t, steps[..k]), i)
  }

  lemma {:induction false} WaitGrows(t: Table, steps: seq<Step>, i: nat)
    requires Inv(t) && StaysReady(t, steps, i)
    ensures Ready(Run(t, steps), i) && Ready(t, i) && Run(t, steps)[i].wait == t[i].wait + Rounds(steps)
    decreases |steps|
  {
    assert steps[..|steps|] == steps && steps[..0] == [];
    if |steps| > 0 {
      var most := steps[..|steps| - 1];
      forall k | 0 <= k <= |most| ensures Ready(Run(t, most[..k]), i) { assert most[..k] == steps[..k]; }
      WaitGrows(t, most, i);
      var u, last := Run(t, most), steps[|steps| - 1];
      RunKeeps(t, most);
      assert Run(t, steps) == Next(u, last) && Ready(Next(u, last), i);
      if last.Do? { ActKeeps(u, last.act); } else { ReadyPassed(u, last.late, i); }
    }
  }

  /** A process that is runnable before and after a round was not picked in it. */
  lemma ReadyPassed(t: Table, late: seq<Act>, i: nat)
    requires Inv(t) && Ready(t, i) && Ready(Round(t, late), i)
    ensures Round(t, late)[i].wait == t[i].wait + 1
  {
    PickCorrect(t);
    assert Pick(t) != -1;
    RoundPasses(t, late);
  }

  lemma ReadyRounds(t: Table, steps: seq<Step>, i: nat)
    requires Inv(t) && StaysReady(t, steps, i) && i <= WMAX
    ensures Ready(t, i) && Rounds(steps) <= WMAX + i - t[i].wait
  {
    hide Run, Below, Fresh, StaysReady;
    RunKeeps(t, steps);
    WaitGrows(t, steps, i);
    assert Credit(Run(t, steps), i);
    FreshBound(Run(t, steps), i, Run(t, steps)[i].wait - WMAX);
  }

  /** From any reachable state a process in slot i <= WMAX is picked within WMAX + i + 1 rounds, whatever the others do. */
  lemma PickedBy(before: seq<Step>, steps: seq<Step>, i: nat)
    requires i <= WMAX && Rounds(steps) > WMAX + i
    ensures !StaysReady(Run(Boot(), before), steps, i)
  {
    var t := Run(Boot(), before);
    BootInv();
    RunKeeps(Boot(), before);
    assert |t| == NPROC && SlotOk(t[i]);
    if StaysReady(t, steps, i) { ReadyRounds(t, steps, i); }
  }

  // ---------------------------------------------------------------------
  // Slots above WMAX starve

  /** The slots of l are runnable. */
  ghost predicate AllReady(t: Table, l: set<nat>) { forall j: nat :: j in l ==> Ready(t, j) }

  /** After n rounds at most m slots of l have waited less than m of them. */
  ghost predicate Scarce(t: Table, l: set<nat>, n: nat) {
    forall m: nat :: m <= n ==> |Fresh(t, l, m)| <= m
  }

  lemma FreshLess(t: Table, u: Table, l: set<nat>, m: int, b: nat)
    requires Passed(t, u, b) && AllReady(t, l)
    ensures |Fresh(u, l, m + 1)| <= |Fresh(t, l, m)| + 1
  {
    forall j | j in Fresh(u, l, m + 1) ensures j == b || j in Fresh(t, l, m) { assert Ready(t, j); }
    SubsetCard(Fresh(u, l, m + 1), Fresh(t, l, m) + {b});
  }

  lemma FreshZero(t: Table, l: set<nat>)
    requires SlotsOk(t)
    ensures Fresh(t, l, 0) == {}
  {
    forall i | i in l && i < |t| ensures t[i].wait >= 0 { assert SlotOk(t[i]); }
  }

  lemma ScarceRound(t: Table, u: Table, l: set<nat>, b: nat, n: nat)
    requires Passed(t, u, b) && AllReady(t, l) && Scarce(t, l, n) && SlotsOk(u)
    ensures Scarce(u, l, n + 1)
  {
    hide Fresh;
    forall m: nat | m <= n + 1 ensures |Fresh(u, l, m)| <= m {
      if m == 0 {
        FreshZero(u, l);
      } else {
        assert |Fresh(t, l, m - 1)| <= m - 1;
        FreshLess(t, u, l, m - 1, b);
      }
    }
  }

  /** Once more than WMAX slots have been runnable for WMAX rounds, one of them is starving, so nothing above them is picked. */
  lemma ScarcePick(t: Table, l: set<nat>, n: nat, high: nat)
    requires AllReady(t, l) && Scarce(t, l, n) && n >= WMAX && |l| > WMAX && forall j :: j in l ==> j < high
    ensures 0 <= Pick(t) < high
  {
    assert |Fresh(t, l, WMAX)| <= WMAX;
    assert Fresh(t, l, WMAX) != l;
    var j: nat :| j in l && j !in Fresh(t, l, WMAX);
    assert Ready(t, j) && Starving(t, j);
    PickCorrect(t);
  }

  /** The slots of l are runnable at every round of the run. */
  ghost predicate ReadyThroughout(t: Table, steps: seq<Step>, l: set<nat>) {
    forall k :: 0 <= k < |steps| && steps[k].DoRound? ==> AllReady(Run(t, steps[..k]), l)
  }

  lemma {:induction false} ScarceRun(t: Table, steps: seq<Step>, l: set<nat>)
    requires Inv(t) && l != {} && ReadyThroughout(t, steps, l)
    ensures Scarce(Run(t, steps), l, Rounds(steps))
    decreases |steps|
  {
    hide Fresh, Next;
    if |steps| == 0 {
      FreshZero(t, l);
    } else {
      var most, last := steps[..|steps| - 1], steps[|steps| - 1];
      forall k | 0 <= k < |most| && most[k].DoRound? ensures AllReady(Run(t, most[..k]), l) { assert most[..k] == steps[..k]; }
      ScarceRun(t, most, l);
      RunKeeps(t, most);
      assert last.DoRound? ==> AllReady(Run(t, steps[..|steps| - 1]), l);
      ScarceNext(Run(t, most), last, l, Rounds(most));
    }
  }

  lemma ScarceNext(t: Table, step: Step, l: set<nat>, n: nat)
    requires Inv(t) && l != {} && Scarce(t, l, n) && (step.DoRound? ==> AllReady(t, l))
    ensures Scarce(Next(t, step), l, if step.DoRound? then n + 1 else n)
  {
    hide Fresh, Round, Apply;
    match step
    case DoRound(late) =>
      var j :| j in l;
      assert Ready(t, j);
      PickCorrect(t);
      RoundPasses(t, late);
      ScarceRound(t, Round(t, late), l, Pick(t), n);
    case Do(act) =>
      ActKeeps(t, act);
      forall m: nat | m <= n ensures |Fresh(Apply(t, act), l, m)| <= m { FreshSame(t, Apply(t, act), l, m); }
  }

  /** If more than WMAX slots below `high` are runnable at every round, then after the first WMAX rounds no slot from `high` on is ever picked again. */
  lemma HighSlotsStarve(before: seq<Step>, steps: seq<Step>, late: seq<Act>, l: set<nat>, high: nat)
    requires ReadyThroughout(Run(Boot(), before), steps + [DoRound(late)], l) && Rounds(steps) >= WMAX
    requires |l| > WMAX && forall j :: j in l ==> j < high
    ensures 0 <= Pick(Run(Run(Boot(), before), steps)) < high
  {
    var t, all := Run(Boot(), before), steps + [DoRound(late)];
    BootInv();
    RunKeeps(Boot(), before);
    forall k | 0 <= k < |steps| && steps[k].DoRound? ensures AllReady(Run(t, steps[..k]), l) {
      assert all[k] == steps[k] && all[..k] == steps[..k];
    }
    ScarceRun(t, steps, l);
    assert all[|steps|].DoRound? && all[..|steps|] == steps;
    ScarcePick(Run(t, steps), l, Rounds(steps), high);
  }

  // ---------------------------------------------------------------------
  // A run that never picks a given slot above WMAX at all

  /** Every picked process runs for one turn and yields. */
  function Turn(t: Table): (r: Table)
    ensures |r| == |t|
  {
    var b := Pick(t);
    if 0 <= b < |t| then Run(t, [DoRound([]), Do(Yield(b)), Do(Charge(b))]) else t
  }

  function Turns(t: Table, n: nat): (r: Table)
    ensures |r| == |t|
  {
    if n == 0 then t else Turn(Turns(t, n - 1))
  }

  /** The slots below k that look exactly like slot k. */
  function Twins(t: Table, k: nat): set<nat>
    requires k < |t|
  {
    set j | j in Below(k) && t[j] == t[k]
  }

  lemma TwinsLess(t: Table, u: Table, k: nat, b: nat)
    requires k < |t| == |u| && b != k && forall j :: 0 <= j <= k && j != b ==> u[j] == Aged(t[j])
    ensures |Twins(u, k)| >= |Twins(t, k)| - 1
  {
    hide Below;
    assert Twins(t, k) <= Twins(u, k) + {b};
    SubsetCard(Twins(t, k), Twins(u, k) + {b});
  }

  /** Slots 0..k are runnable, n turns after all of them but slot 0 looked the same. */
  ghost predicate Rotating(t: Table, k: nat, n: nat) {
    && |t| == NPROC && WMAX < k < NPROC && SlotsOk(t)
    && (forall j :: 0 <= j <= k ==> Ready(t, j))
    && Scarce(t, Below(k), n)
    && |Twins(t, k)| >= k - 1 - n
    && t[k].wait == n
  }

  lemma RotatingPick(t: Table, k: nat, n: nat)
    requires Rotating(t, k, n)
    ensures IsPick(t, Pick(t)) && Pick(t) != k
  {
    hide Below, Fresh;
    PickCorrect(t);
    assert Ready(t, 0);
    if n >= WMAX {
      ScarcePick(t, Below(k), n, k);
    } else {
      var j :| j in Twins(t, k);
      assert Ready(t, j) && Ready(t, k) && (Starving(t, k) ==> Starving(t, j));
    }
  }

  lemma TurnEffect(t: Table)
    requires SlotsOk(t) && IsPick(t, Pick(t))
    ensures var b := Pick(t);
            && SlotsOk(Turn(t)) && Passed(t, Turn(t), b)
            && Ready(Turn(t), b) && forall j :: 0 <= j < |t| && j != b ==> Turn(t)[j] == Aged(t[j])
  {
    var b := Pick(t);
    var all := [DoRound([]), Do(Yield(b)), Do(Charge(b))];
    assert all[..2] == [DoRound([]), Do(Yield(b))] && all[..2][..1] == [DoRound([])] && all[..2][..1][..0] == [];
    var u := Next(t, DoRound([]));
    assert Run(t, all[..2][..1]) == u;
    assert Run(t, all[..2]) == Next(u, Do(Yield(b)));
    assert Turn(t) == Next(Next(u, Do(Yield(b))), Do(Charge(b)));
    assert u == AgeAndRun(t, b);
    RoundPasses(t, []);
    ActKeeps(u, Yield(b));
    ActKeeps(Apply(u, Yield(b)), Charge(b));
  }

  lemma RotatingTurn(t: Table, k: nat, n: nat)
    requires Rotating(t, k, n)
    ensures Rotating(Turn(t), k, n + 1)
  {
    hide Below, Fresh, Twins, Turn;
    RotatingPick(t, k, n);
    TurnEffect(t);
    var b, u := Pick(t), Turn(t);
    forall j: nat | j in Below(k) ensures Ready(t, j) { assert 0 <= j <= k; }
    ScarceRound(t, u, Below(k), b, n);
    TwinsLess(t, u, k, b);
    forall j | 0 <= j <= k ensures Ready(u, j) { assert Ready(t, j); }
    assert Ready(t, k);
  }

  /** The first process is started and picked, and forks k children. */
  function Forks(k: nat): seq<Step> {
    if k == 0 then [Do(Alloc(0)), Do(Start(0)), DoRound([])]
    else Forks(k - 1) + [Do(Alloc(k)), Do(Inherit(k, 0)), Do(Start(k))]
  }

  ghost predicate Forked(t: Table, k: nat) {
    && |t| == NPROC && SlotsOk(t)
    && t[0] == Proc(Running, DEFAULT, 0, 0)
    && (forall j :: 0 < j <= k && j < |t| ==> t[j] == Proc(Runnable, DEFAULT, 0, 0))
    && (forall j :: k < j < |t| ==> t[j].state == Unused)
  }

  lemma RunThree(t: Table, steps: seq<Step>, a: Step, b: Step, c: Step)
    ensures Run(t, steps + [a, b, c]) == Next(Next(Next(Run(t, steps), a), b), c)
  {
    hide Next;
    var all := steps + [a, b, c];
    assert all[..|all| - 1] == steps + [a, b] && (steps + [a, b])[..|steps| + 1] == steps + [a] && (steps + [a])[..|steps|] == steps;
    assert Run(t, steps + [a]) == Next(Run(t, steps), a);
    assert Run(t, steps + [a, b]) == Next(Run(t, steps + [a]), b);
  }

  lemma ForkOne(t: Table, k: nat)
    requires 0 < k < NPROC && Forked(t, k - 1)
    ensures Forked(Next(Next(Next(t, Do(Alloc(k))), Do(Inherit(k, 0))), Do(Start(k))), k)
  {
    assert t[k].state == Unused;
    assert SlotOk(t[0]);
  }

  lemma FirstRuns()
    ensures Forked(Next(Next(Next(Boot(), Do(Alloc(0))), Do(Start(0))), DoRound([])), 0)
  {
    var t := Next(Next(Boot(), Do(Alloc(0))), Do(Start(0)));
    assert t[0] == Proc(Runnable, DEFAULT, 0, 0) && (forall j :: 0 < j < |t| ==> t[j].state == Unused);
    PickCorrect(t);
    assert Ready(t, 0) && Pick(t) == 0;
    assert Meanwhile(t, 0, []) == t;
  }

  lemma {:induction false} ForkedRun(k: nat)
    requires k < NPROC
    ensures Forked(Run(Boot(), Forks(k)), k)
  {
    hide Next, Forked;
    if k == 0 {
      assert [] + Forks(0) == Forks(0);
      RunThree(Boot(), [], Do(Alloc(0)), Do(Start(0)), DoRound([]));
      FirstRuns();
    } else {
      ForkedRun(k - 1);
      RunThree(Boot(), Forks(k - 1), Do(Alloc(k)), Do(Inherit(k, 0)), Do(Start(k)));
      ForkOne(Run(Boot(), Forks(k - 1)), k);
    }
  }

  /** Then it yields like every other. */
  function AllStarted(k: nat): Table { Run(Boot(), Forks(k) + [Do(Yield(0)), Do(Charge(0))]) }

  lemma YieldRotates(t: Table, k: nat)
    requires Forked(t, k) && WMAX < k < NPROC
    ensures Rotating(Next(Next(t, Do(Yield(0))), Do(Charge(0))), k, 0)
  {
    hide Below;
    var u := Next(Next(t, Do(Yield(0))), Do(Charge(0)));
    ActKeeps(t, Yield(0));
    ActKeeps(Apply(t, Yield(0)), Charge(0));
    assert u[0] == Proc(Runnable, DEFAULT, 0, 1) && (forall j :: 0 < j <= k ==> u[j] == Proc(Runnable, DEFAULT, 0, 0));
    FreshZero(u, Below(k));
    ManyTwins(u, k);
  }

  lemma ManyTwins(t: Table, k: nat)
    requires k < |t| && forall j :: 0 < j <= k ==> t[j] == t[k]
    ensures |Twins(t, k)| >= k - 1
  {
    hide Below;
    assert Below(k) - {0} <= Twins(t, k);
    SubsetCard(Below(k) - {0}, Twins(t, k));
  }

  lemma StartRotating(k: nat)
    requires WMAX < k < NPROC
    ensures Rotating(AllStarted(k), k, 0)
  {
    hide Below, Forks, Rotating, Next, Forked;
    var f := Forks(k);
    ForkedRun(k);
    YieldRotates(Run(Boot(), f), k);
    assert (f + [Do(Yield(0)), Do(Charge(0))])[..|f| + 1] == f + [Do(Yield(0))] && (f + [Do(Yield(0))])[..|f|] == f;
    assert Run(Boot(), f + [Do(Yield(0))]) == Next(Run(Boot(), f), Do(Yield(0)));
  }

  lemma {:induction false} RotatingTurns(k: nat, n: nat)
    requires WMAX < k < NPROC
    ensures Rotating(Turns(AllStarted(k), n), k, n)
  {
    hide Rotating, AllStarted, Turn;
    if n == 0 {
      StartRotating(k);
    } else {
      RotatingTurns(k, n - 1);
      RotatingTurn(Turns(AllStarted(k), n - 1), k, n - 1);
    }
  }

  /** The bound on the slot is tight: with k + 1 processes that only compute, slot k > WMAX is runnable and passed over at every round for ever. */
  lemma NeverRuns(k: nat, n: nat)
    requires WMAX < k < NPROC
    ensures var t := Turns(AllStarted(k), n);
            Ready(t, k) && Pick(t) != -1 && Pick(t) != k && t[k].wait == n
  {
    hide Turns, AllStarted;
    RotatingTurns(k, n);
    RotatingPick(Turns(AllStarted(k), n), k, n);
  }

  // ---------------------------------------------------------------------
  // The loops

  const W: int := 50

  /** The process table and the scheduling window as the kernel keeps them. */
  class ProcTable {
    const proc: array<Proc>
    var windowTick: int

    constructor ()
      ensures fresh(proc) && proc[..] == Boot() && windowTick == 0
    {
      proc := new Proc[NPROC](_ => Proc(Unused, 0, 0, 0));
      windowTick := 0;
      new;
      assert proc[..] == Boot();
    }

    /** Phase 1. */
    method Select() returns (best: int)
      ensures best == Pick(proc[..])
      ensures if best == -1 then forall j :: !Ready(proc[..], j) else IsPick(proc[..], best)
    {
      PickCorrect(proc[..]);
      best := -1;
      var i := 0;
      while i < proc.Length
        invariant i <= proc.Length && -1 <= best < i
        invariant Scan(proc[..], i, best) == Pick(proc[..])
      {
        if proc[i].state == Runnable {
          if proc[i].wait >= WMAX {
            best := i;
            return;
          }
          if best == -1 || proc[i].priority > proc[best].priority {
            best := i;
          }
        }
        i := i + 1;
      }
    }

    /** Phase 2: every runnable slot but the winner ages. */
    method Age(best: nat)
      requires best < proc.Length
      modifies proc
      ensures forall j :: 0 <= j < proc.Length ==> proc[j] == if j == best then old(proc[j]) else Aged(old(proc[j]))
    {
      var i := 0;
      while i < proc.Length
        invariant i <= proc.Length
        invariant forall j :: 0 <= j < i ==> proc[j] == if j == best then old(proc[j]) else Aged(old(proc[j]))
        invariant forall j :: i <= j < proc.Length ==> proc[j] == old(proc[j])
      {
        if i != best && proc[i].state == Runnable {
          var priority := proc[i].priority + ALPHA;
          if priority > MAX { priority := MAX; }
          proc[i] := proc[i].(wait := proc[i].wait + 1, priority := priority);
        }
        i := i + 1;
      }
    }

    /** One selection round, up to the switch to the winner. */
    method Dispatch() returns (best: int)
      modifies proc
      ensures best == Pick(old(proc[..])) && proc[..] == Round(old(proc[..]), [])
    {
      best := Select();
      if best != -1 {
        Age(best);
        proc[best] := proc[best].(state := Running, wait := 0);
        assert proc[..] == AgeAndRun(old(proc[..]), best);
        assert Meanwhile(old(proc[..]), best, []) == old(proc[..]);
      }
    }

    /** The winner is back: charge it, and clear all charges at the end of the window. */
    method Account(best: nat)
      requires best < proc.Length
      modifies this, proc
      ensures windowTick == if old(windowTick) + 1 >= W then 0 else old(windowTick) + 1
      ensures var charged := Apply(old(proc[..]), Charge(best));
              proc[..] == if old(windowTick) + 1 >= W then Apply(charged, ResetWindow) else charged
    {
      var p := proc[best].(cpu := proc[best].cpu + 1);
      windowTick := windowTick + 1;
      if p.cpu > TCPU_MAX {
        p := p.(priority := p.priority - BETA);
        if p.priority < MIN { p := p.(priority := MIN); }
      }
      proc[best] := p;
      ghost var charged := proc[..];
      assert charged == Apply(old(proc[..]), Charge(best));
      if windowTick >= W {
        windowTick := 0;
        var i := 0;
        while i < proc.Length
          invariant i <= proc.Length && windowTick == 0
          invariant forall j :: 0 <= j < i ==> proc[j] == charged[j].(cpu := 0)
          invariant forall j :: i <= j < proc.Length ==> proc[j] == charged[j]
        {
          proc[i] := proc[i].(cpu := 0);
          i := i + 1;
        }
        assert proc[..] == Apply(charged, ResetWindow);
      }
    }
  }
}
