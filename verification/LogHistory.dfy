/**
 The log of kernel/log.c against the history of a run: what the operations
 asked for is what is recorded, and an operation on its own gets through.
 */
module LogHistory {
  import opened RedoLog
  import opened LogRuns
  import BufferCache

  /** Does the step log a block: by a running operation within its budget, while the log has room? */
  ghost predicate Logs(s: Sys, start: nat, step: Step) {
    !s.panicked && step.LogWrite? && MayLog(s, start, step.op, step.block) && |s.lh| < LOGBLOCKS
  }

  /** The log_writes of a run from boot, in order. */
  ghost function Asked(d: Disk, start: nat, steps: seq<Step>): seq<Rec>
    decreases |steps|
  {
    if |steps| == 0 then []
    else
      var most, last := steps[..|steps| - 1], steps[|steps| - 1];
      Asked(d, start, most) + if Logs(Run(Boot(d), start, most), start, last) then [Rec(last.op, last.block, last.data)] else []
  }

  lemma HistoryStep(s: Sys, start: nat, step: Step)
    requires s.outstanding == |s.active|
    ensures Next(s, start, step).history == s.history + if Logs(s, start, step) then [Rec(step.op, step.block, step.data)] else []
  {
    hide MakeHead, Put, NoBuffer, Head, Pins;
    if step.LogWrite? && step.op in s.active { assert |s.active| > 0; }
    if !step.LogWrite? { OtherStep(s, start, step); }
  }

  lemma OtherStep(s: Sys, start: nat, step: Step)
    requires !step.LogWrite?
    ensures Next(s, start, step).history == s.history
  {
    hide MakeHead, Put, NoBuffer, Head, Pins;
  }

  /** In every run, crashes included, the history that CrashSafe speaks of is exactly the log_writes that were made. */
  lemma {:induction false} HistoryIsAsked(d: Disk, start: nat, steps: seq<Step>)
    requires Bootable(d, start)
    ensures Run(Boot(d), start, steps).history == Asked(d, start, steps)
    decreases |steps|
  {
    hide Next, Logs, Bootable;
    if |steps| > 0 {
      var most, last := steps[..|steps| - 1], steps[|steps| - 1];
      HistoryIsAsked(d, start, most);
      SpaceAndPins(d, start, most, 0);
      HistoryStep(Run(Boot(d), start, most), start, last);
    }
  }

  // ---------------------------------------------------------------------
  // One operation alone

  /** begin_op, log_write of one block, end_op. */
  ghost function OneOp(s: Sys, start: nat, b: nat, x: Block): Sys {
    Next(Next(Next(s, start, BeginOp), start, LogWrite(s.next, b, x)), start, EndOp(s.next))
  }

  lemma TraceCached(trace: seq<Rec>)
    ensures trace != [] ==> LastOf(trace) != map[]
  {
    if trace != [] { assert trace[|trace| - 1].block in LastOf(trace); }
  }

  lemma NormalFacts(s: Sys, start: nat, home: Disk)
    requires Inv(s, start, home) && s.pc == Normal && s.active == map[] && s.lh == []
    ensures s.outstanding == 0 && s.cache == map[] && s.trace == [] && Home(s.disk, start) == ReplayAll(home, s.committed)
  {
    hide Atomic, Numbered, GoodHead, PinnedOnce;
    EmptyHead(s.disk, start);
    TraceCached(s.trace);
  }

  lemma HomeWhenNormal(s: Sys, start: nat, home: Disk)
    requires Inv(s, start, home) && s.pc == Normal
    ensures Home(s.disk, start) == ReplayAll(home, s.committed)
  {
    hide Atomic, Numbered, GoodHead, PinnedOnce;
    EmptyHead(s.disk, start);
  }

  lemma OneOpEnds(s: Sys, start: nat, b: nat, x: Block)
    requires !s.panicked && s.pc == Normal && s.active == map[] && s.lh == [] && s.outstanding == 0 && s.trace == [] && b in s.disk && !InLog(b, start)
    ensures var t := OneOp(s, start, b, x);
            t.pc == Commit(0) && t.lh == [b] && !t.panicked && t.trace == [Rec(s.next, b, x)] && t.committed == s.committed
  {
    hide Pins;
    var s1 := Next(s, start, BeginOp);
    assert s1.active == map[s.next := {}];
    var s2 := Next(s1, start, LogWrite(s.next, b, x));
    assert |{} + {b}| == 1;
    assert MayLog(s1, start, s.next, b);
    assert s2.outstanding == 1 && s.next in s2.active;
  }

  /**
   An operation on its own: it begins, logs a block and ends; the commit that
   end_op starts takes four disk writes, after which the transaction is
   committed and the block is home, everything else there as it was.
   */
  lemma OneOpCommits(d: Disk, start: nat, steps: seq<Step>, b: nat, x: Block)
    requires Bootable(d, start)
    requires var s := Run(Boot(d), start, steps);
             !s.panicked && s.pc == Normal && s.active == map[] && s.lh == [] && b in s.disk && !InLog(b, start)
    ensures var s := Run(Boot(d), start, steps);
            var t := Writes(OneOp(s, start, b, x), start, [0, 0, 0, 0]);
            && t.pc == Normal && !t.panicked && t.lh == [] && t.committed == s.committed + [[Rec(s.next, b, x)]]
            && Home(t.disk, start) == Home(s.disk, start)[b := x]
  {
    hide Run, Inv, Next, Home, ReplayAll, Recovered, Writes, Bootable, BuffersLeft;
    var s, home := Run(Boot(d), start, steps), Recovered(d, start);
    RunInvariant(d, start, steps);
    NormalFacts(s, start, home);
    OneOpEnds(s, start, b, x);
    var u := OneOp(s, start, b, x);
    NextKeeps(s, start, home, BeginOp);
    NextKeeps(Next(s, start, BeginOp), start, home, LogWrite(s.next, b, x));
    NextKeeps(Next(Next(s, start, BeginOp), start, LogWrite(s.next, b, x)), start, home, EndOp(s.next));
    var none: seq<nat> := [0, 0, 0, 0];
    assert seq(2 * |u.lh| + 2, _ => 0) == none;
    CommitAlone(u, start, home);
    CommitCompletes(u, start, home, none);
    var t := Writes(u, start, none);
    assert t.pc == Normal && !t.panicked;
    EnoughBuffers(none);
    HomeWhenNormal(t, start, home);
    ReplayOne(home, s.committed, Rec(s.next, b, x));
  }

  lemma EnoughBuffers(none: seq<nat>)
    requires none == [0, 0, 0, 0]
    ensures BuffersLeft(1, 0, none)
  {
  }

  lemma ReplayOne(home: Disk, txns: seq<seq<Rec>>, r: Rec)
    ensures ReplayAll(home, txns + [[r]]) == ReplayAll(home, txns)[r.block := r.data]
  {
    assert (txns + [[r]])[..|txns|] == txns;
    var one := [r];
    assert one[..0] == [];
    assert Replay(ReplayAll(home, txns), one[..0]) == ReplayAll(home, txns);
  }

  // ---------------------------------------------------------------------
  // A crash, and the boot after it

  lemma RunMore(s: Sys, start: nat, steps: seq<Step>, step: Step)
    ensures Run(s, start, steps + [step]) == Next(Run(s, start, steps), start, step)
  {
    hide Next;
    assert (steps + [step])[..|steps|] == steps;
  }

  lemma CrashLoses(s: Sys, start: nat)
    ensures var t := Next(s, start, Crash);
            && t.disk == s.disk && t.committed == s.committed && t.history == s.history && t.pc == Down && !t.panicked
            && t.lh == [] && t.cache == map[] && t.active == map[] && t.pins == map[] && t.trace == []
  {
  }

  lemma ReadHeadReads(s: Sys, start: nat)
    requires s.pc == Down && !s.panicked
    ensures Next(s, start, ReadHead) == s.(lh := Head(s.disk, start), pc := Recover(0))
  {
  }

  /**
   After any run, however often it crashed before: a crash loses what is not on
   the disk and nothing else; the next boot reads the header and is running after
   one disk write for each block in it and one for the header, with exactly
   the committed transactions in the home blocks.
   */
  lemma CrashThenBoot(d: Disk, start: nat, steps: seq<Step>)
    requires Bootable(d, start)
    ensures var s, down := Run(Boot(d), start, steps), Run(Boot(d), start, steps + [Crash]);
            && down.disk == s.disk && down.committed == s.committed && down.pc == Down && down.cache == map[] && down.active == map[]
            && var up := Next(down, start, ReadHead);
            && var t := Writes(up, start, seq(|up.lh| + 1, _ => 0));
            && t.pc == Normal && !t.panicked && t.lh == [] && t.committed == s.committed
            && Home(t.disk, start) == ReplayAll(Recovered(d, start), s.committed)
  {
    hide Run, Inv, Next, Home, ReplayAll, Recovered, Bootable, Writes, Head;
    var s, home := Run(Boot(d), start, steps), Recovered(d, start);
    RunMore(Boot(d), start, steps, Crash);
    RunInvariant(d, start, steps + [Crash]);
    CrashLoses(s, start);
    var down := Run(Boot(d), start, steps + [Crash]);
    ReadHeadReads(down, start);
    NextKeeps(down, start, home, ReadHead);
    var up := Next(down, start, ReadHead);
    RecoverCompletes(up, start, home, seq(|up.lh| + 1, _ => 0));
    HomeWhenNormal(Writes(up, start, seq(|up.lh| + 1, _ => 0)), start, home);
  }
}
