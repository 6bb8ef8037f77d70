/**
 The priority scheduler of kernel/proc.c against the history of a run: what
 waiting earns a process, what running costs it, and how a slot passes from
 one state to the next.
 */
module SchedulerHistory {
  import opened Scheduler

  lemma RunAppend(t: Table, steps: seq<Step>, step: Step)
    ensures Run(t, steps + [step]) == Next(Run(t, steps), step)
  {
    assert (steps + [step])[..|steps|] == steps;
  }

  // ---------------------------------------------------------------------
  // Waiting

  function Capped(x: int): int { if x < 100 then x else 100 }

  function Floored(x: int): int { if x < 0 then 0 else x }

  /** The act leaves the priority of a runnable process in slot i alone. */
  predicate Spares(act: Act, i: nat) { act != Charge(i) }

  predicate SparesAll(acts: seq<Act>, i: nat) { forall k :: 0 <= k < |acts| ==> Spares(acts[k], i) }

  /** Slot i is not charged in the step. */
  predicate Uncharged(step: Step, i: nat) {
    match step
    case DoRound(late) => SparesAll(late, i)
    case Do(act) => Spares(act, i)
  }

  lemma SparedAct(t: Table, act: Act, i: nat)
    requires Ready(t, i) && Spares(act, i)
    ensures Apply(t, act)[i].priority == t[i].priority && Ready(Apply(t, act), i)
  {
  }

  lemma {:induction false} SparedMeanwhile(t: Table, b: nat, acts: seq<Act>, i: nat)
    requires Ready(t, i) && b < |t| && SparesAll(acts, i)
    ensures Meanwhile(t, b, acts)[i].priority == t[i].priority && Ready(Meanwhile(t, b, acts), i)
    decreases |acts|
  {
    if |acts| > 0 {
      SparedMeanwhile(t, b, acts[..|acts| - 1], i);
      SparedAct(Meanwhile(t, b, acts[..|acts| - 1]), acts[|acts| - 1], i);
    }
  }

  lemma OneRound(t: Table, late: seq<Act>, i: nat)
    requires Inv(t) && Ready(t, i) && Ready(Round(t, late), i) && SparesAll(late, i)
    ensures Round(t, late)[i].priority == Capped(t[i].priority + 5)
  {
    PickCorrect(t);
    var b := Pick(t);
    assert b != -1;
    SparedMeanwhile(t, b, late, i);
  }

  /**
   A process that stays runnable through n rounds without being picked or
   charged has gained 5 for each of them, up to 100, and has waited them all.
   */
  lemma {:induction false} WaitingPays(t: Table, steps: seq<Step>, i: nat)
    requires Inv(t) && StaysReady(t, steps, i) && forall k :: 0 <= k < |steps| ==> Uncharged(steps[k], i)
    ensures Ready(t, i) && Ready(Run(t, steps), i)
    ensures Run(t, steps)[i].priority == Capped(t[i].priority + 5 * Rounds(steps))
    ensures Run(t, steps)[i].wait == t[i].wait + Rounds(steps)
    decreases |steps|
  {
    WaitGrows(t, steps, i);
    if |steps| == 0 {
      assert SlotOk(t[i]);
    } else {
      var most, last := steps[..|steps| - 1], steps[|steps| - 1];
      ReadyBefore(t, steps, i);
      WaitingPays(t, most, i);
      RunKeeps(t, most);
      match last
      case DoRound(late) => OneRound(Run(t, most), late, i);
      case Do(act) => SparedAct(Run(t, most), act, i);
    }
  }

  lemma ReadyBefore(t: Table, steps: seq<Step>, i: nat)
    requires |steps| > 0 && StaysReady(t, steps, i)
    ensures StaysReady(t, steps[..|steps| - 1], i)
  {
    var most := steps[..|steps| - 1];
    forall k | 0 <= k <= |most| ensures Ready(Run(t, most[..k]), i) { assert most[..k] == steps[..k]; }
  }

  // ---------------------------------------------------------------------
  // Running

  /** In the step slot i is picked if anything is, and its charges are neither cleared nor raised by anything but a charge. */
  predicate Alone(t: Table, step: Step, i: nat) {
    match step
    case DoRound(_) => Pick(t) == i || Pick(t) == -1
    case Do(act) => act != ResetWindow && act != Tick(i) && act != Alloc(i) && !(act.Inherit? && act.i == i)
  }

  ghost predicate AloneThroughout(t: Table, steps: seq<Step>, i: nat) {
    forall k :: 0 <= k < |steps| ==> Alone(Run(t, steps[..k]), steps[k], i)
  }

  function Charges(steps: seq<Step>, i: nat): nat {
    if |steps| == 0 then 0 else Charges(steps[..|steps| - 1], i) + if steps[|steps| - 1] == Do(Charge(i)) then 1 else 0
  }

  /** How many of n charges are beyond the first of a window, if the process has had c already. */
  function Excess(c: int, n: nat): int { if c + n <= 1 then 0 else if c >= 1 then n else c + n - 1 }

  lemma AloneStep(t: Table, step: Step, i: nat)
    requires i < |t| && Alone(t, step, i)
    ensures step == Do(Charge(i)) ==> Next(t, step)[i] == Charged(t[i])
    ensures step != Do(Charge(i)) ==> Next(t, step)[i].priority == t[i].priority && Next(t, step)[i].cpu == t[i].cpu
  {
    if step.DoRound? && Pick(t) == i { assert Meanwhile(t, i, step.late)[i] == t[i]; }
  }

  lemma NoCharge(t: Table, i: nat)
    requires i < |t| && SlotsOk(t)
    ensures t[i].priority == Floored(t[i].priority - 10 * Excess(t[i].cpu, 0))
  {
    assert SlotOk(t[i]);
  }

  lemma OneMoreCharge(p: Proc, priority: int, c: int, n: nat)
    requires p.priority == Floored(priority - 10 * Excess(c, n)) && p.cpu == c + n
    ensures Charged(p).priority == Floored(priority - 10 * Excess(c, n + 1)) && Charged(p).cpu == c + n + 1
  {
  }

  /**
   A process that is picked at every round of a stretch of a window pays 10
   for each charge beyond the first, down to 0.
   */
  lemma {:induction false} RunningCosts(t: Table, steps: seq<Step>, i: nat)
    requires i < |t| && SlotsOk(t) && AloneThroughout(t, steps, i)
    ensures Run(t, steps)[i].cpu == t[i].cpu + Charges(steps, i)
    ensures Run(t, steps)[i].priority == Floored(t[i].priority - 10 * Excess(t[i].cpu, Charges(steps, i)))
    decreases |steps|
  {
    hide Floored, Excess, Next, Alone, Charged;
    if |steps| == 0 {
      NoCharge(t, i);
    } else {
      var most, last := steps[..|steps| - 1], steps[|steps| - 1];
      assert Alone(Run(t, most), last, i);
      forall k | 0 <= k < |most| ensures Alone(Run(t, most[..k]), most[k], i) { assert most[..k] == steps[..k]; }
      RunningCosts(t, most, i);
      AloneStep(Run(t, most), last, i);
      OneMoreCharge(Run(t, most)[i], t[i].priority, t[i].cpu, Charges(most, i));
    }
  }

  // ---------------------------------------------------------------------
  // The counter of a window

  /** Does the act count for slot i? */
  predicate Consumes(act: Act, i: nat) { act == Charge(i) || act == Tick(i) }

  /** Does the act start the count of slot i afresh? */
  predicate Clears(t: Table, act: Act, i: nat) {
    && i < |t|
    && (act == ResetWindow
        || (act == Alloc(i) && t[i].state == Unused)
        || (act.Inherit? && act.i == i && act.parent < |t| && t[i].state == Used && t[act.parent].state == Running))
  }

  function Counted(t: Table, act: Act, i: nat, n: int): int {
    if Clears(t, act, i) then 0 else if Consumes(act, i) then n + 1 else n
  }

  /** Charges and ticks of slot i since its count last started, over what other CPUs do during a round that picks b. */
  function UsedLate(t: Table, b: nat, acts: seq<Act>, i: nat, n: int): int
    requires b < |t|
    decreases |acts|
  {
    if |acts| == 0 then n
    else Counted(Meanwhile(t, b, acts[..|acts| - 1]), acts[|acts| - 1], i, UsedLate(t, b, acts[..|acts| - 1], i, n))
  }

  /** Charges and ticks of slot i since its count last started, over a run from boot. */
  function CpuUsed(steps: seq<Step>, i: nat): int
    decreases |steps|
  {
    if |steps| == 0 then 0
    else
      var most, last := steps[..|steps| - 1], steps[|steps| - 1];
      var t, n := Run(Boot(), most), CpuUsed(most, i);
      match last
      case Do(act) => Counted(t, act, i, n)
      case DoRound(late) => if 0 <= Pick(t) < |t| && Pick(t) != i then UsedLate(t, Pick(t), late, i, n) else n
  }

  lemma CountedAct(t: Table, act: Act, i: nat)
    requires i < |t|
    ensures Apply(t, act)[i].cpu == Counted(t, act, i, t[i].cpu)
  {
  }

  lemma {:induction false} CountedLate(t: Table, b: nat, acts: seq<Act>, i: nat)
    requires i < |t| && b < |t| && i != b
    ensures Meanwhile(t, b, acts)[i].cpu == UsedLate(t, b, acts, i, t[i].cpu)
    decreases |acts|
  {
    if |acts| > 0 {
      CountedLate(t, b, acts[..|acts| - 1], i);
      CountedAct(Meanwhile(t, b, acts[..|acts| - 1]), acts[|acts| - 1], i);
    }
  }

  /** In every run the counter of a slot is the number of its charges and ticks since the window began or the slot was given out. */
  lemma {:induction false} CpuCounts(steps: seq<Step>, i: nat)
    requires i < NPROC
    ensures Run(Boot(), steps)[i].cpu == CpuUsed(steps, i)
    decreases |steps|
  {
    hide Apply, Meanwhile, Counted, UsedLate, Pick;
    if |steps| > 0 {
      var most, last := steps[..|steps| - 1], steps[|steps| - 1];
      var t := Run(Boot(), most);
      CpuCounts(most, i);
      match last
      case Do(act) => CountedAct(t, act, i);
      case DoRound(late) => if 0 <= Pick(t) < |t| && Pick(t) != i { CountedLate(t, Pick(t), late, i); }
    }
  }

  // ---------------------------------------------------------------------
  // From one state to the next

  /** The only ways for a slot to become runnable. */
  predicate MakesReady(t: Table, act: Act, i: nat) {
    && i < |t|
    && ((act == Yield(i) && t[i].state == Running) || (act == Wakeup(i) && t[i].state == Sleeping) || (act == Start(i) && t[i].state == Used))
  }

  lemma ReadyByAct(t: Table, act: Act, i: nat)
    requires i < |t|
    ensures Ready(Apply(t, act), i) <==> Ready(t, i) || MakesReady(t, act, i)
  {
  }

  /** A runnable process stops being runnable exactly by being picked. */
  lemma LeavesByPick(t: Table, step: Step, i: nat)
    requires Inv(t) && Ready(t, i)
    ensures Ready(Next(t, step), i) <==> !(step.DoRound? && Pick(t) == i)
    ensures step.DoRound? && Pick(t) == i ==> Next(t, step)[i].state == Running
  {
    match step
    case DoRound(late) =>
      PickCorrect(t);
      RoundPasses(t, late);
    case Do(act) => ReadyByAct(t, act, i);
  }

  lemma {:induction false} FirstPick(t: Table, steps: seq<Step>, i: nat) returns (k: nat)
    requires Inv(t) && Ready(t, i) && !StaysReady(t, steps, i)
    ensures k < |steps| && steps[k].DoRound? && Pick(Run(t, steps[..k])) == i && Ready(Run(t, steps[..k]), i)
    decreases |steps|
  {
    if |steps| == 0 {
      assert StaysReady(t, steps, i);
    } else {
      var most, last := steps[..|steps| - 1], steps[|steps| - 1];
      if StaysReady(t, most, i) {
        k := |most|;
        assert most[..|most|] == most;
        assert Ready(Run(t, most[..|most|]), i);
        RunKeeps(t, most);
        LeavesByPick(Run(t, most), last, i);
        if !(last.DoRound? && Pick(Run(t, most)) == i) { StaysOn(t, steps, i); }
      } else {
        k := FirstPick(t, most, i);
        assert most[..k] == steps[..k];
      }
    }
  }

  lemma StaysOn(t: Table, steps: seq<Step>, i: nat)
    requires |steps| > 0 && StaysReady(t, steps[..|steps| - 1], i) && Ready(Run(t, steps), i)
    ensures StaysReady(t, steps, i)
  {
    var most := steps[..|steps| - 1];
    forall k | 0 <= k <= |steps| ensures Ready(Run(t, steps[..k]), i) {
      if k <= |most| { assert most[..k] == steps[..k]; } else { assert steps[..k] == steps; }
    }
  }

  /** A sleeping process in slot i <= WMAX that is woken is picked within WMAX + i + 1 rounds of its waking. */
  lemma WokenIsPicked(before: seq<Step>, steps: seq<Step>, i: nat) returns (k: nat)
    requires i <= WMAX && Run(Boot(), before)[i].state == Sleeping && Rounds(steps) > WMAX + i
    ensures var t := Run(Boot(), before + [Do(Wakeup(i))]);
            && k < |steps| && steps[k].DoRound? && Pick(Run(t, steps[..k])) == i
            && Next(Run(t, steps[..k]), steps[k])[i].state == Running
  {
    hide Inv, Run, Pick;
    var u := Run(Boot(), before);
    var woken := before + [Do(Wakeup(i))];
    RunAppend(Boot(), before, Do(Wakeup(i)));
    var t := Run(Boot(), woken);
    BootInv();
    RunKeeps(Boot(), woken);
    PickedBy(woken, steps, i);
    k := FirstPick(t, steps, i);
    RunKeeps(t, steps[..k]);
    LeavesByPick(Run(t, steps[..k]), steps[k], i);
  }

  /** While it sleeps, and nobody wakes it, a process stays asleep; nor is it picked. */
  lemma SleepLasts(t: Table, act: Act, i: nat)
    requires i < |t| && t[i].state == Running
    ensures var u := Apply(t, Sleep(i)); !Ready(u, i) && (act != Wakeup(i) ==> Apply(u, act)[i].state == Sleeping) && Ready(Apply(u, Wakeup(i)), i)
  {
  }

  /** An exited process stays a zombie until it is reaped; then its slot can be given out again, with the default priority and no history. */
  lemma SlotReused(t: Table, act: Act, i: nat)
    requires i < |t| && t[i].state == Running
    ensures var u := Apply(t, Exit(i));
            && (act != Reap(i) ==> Apply(u, act)[i].state == Zombie)
            && Apply(Apply(Apply(u, Reap(i)), Alloc(i)), Start(i)) == t[i := Proc(Runnable, DEFAULT, 0, 0)]
  {
    var u := Apply(t, Exit(i));
    var v := Apply(u, Reap(i));
    assert v[i].state == Unused;
    assert Apply(v, Alloc(i)) == t[i := Proc(Used, DEFAULT, 0, 0)];
  }

  /** kfork: a new process starts with its parent's priority, without waiting time and without charges. */
  lemma ChildInherits(t: Table, i: nat, parent: nat)
    requires i < |t| && parent < |t| && i != parent && t[i].state == Unused && t[parent].state == Running
    ensures Apply(Apply(Apply(t, Alloc(i)), Inherit(i, parent)), Start(i)) == t[i := Proc(Runnable, t[parent].priority, 0, 0)]
  {
    var u := Apply(t, Alloc(i));
    var v := Apply(u, Inherit(i, parent));
    assert v == t[i := Proc(Used, t[parent].priority, 0, 0)];
  }
}
