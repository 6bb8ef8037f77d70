/**
 Sleep locks (kernel/sleeplock.c) over sleep, wakeup and kkill
 (kernel/proc.c), one lock acquisition, release or guarded assignment at a
 time, for any number of processes and every interleaving.
 */
module SleepLock {
  /** Where a process is in acquiresleep, sleep, releasesleep or wakeup. */
  datatype Pc =
    | Idle
    | Want                // acquiresleep, or sleep after waking: acquiring lk->lk
    | Test                // holds lk->lk, about to look at locked
    | Granted             // holds lk->lk, has set locked and pid
    | Committed           // in sleep: holds lk->lk, acquiring p->lock
    | Handoff             // in sleep: holds lk->lk and p->lock
    | Marking             // in sleep: holds p->lock, lk->lk released
    | Switching           // in sleep: holds p->lock, state is SLEEPING
    | Parked              // switched away, holds nothing
    | Woken               // scheduled again with p->lock held
    | Hold                // holds the sleep lock
    | Release             // releasesleep: acquiring lk->lk
    | Clearing            // holds lk->lk, about to clear locked
    | Waking(next: nat)   // holds lk->lk, wakeup has reached process `next`
    | Finishing           // holds lk->lk, wakeup done

  datatype RunState = Running | Runnable | Sleeping

  /** plock says that p->lock is held by the process itself; others hold it only within one step. */
  datatype Proc = Proc(pc: Pc, state: RunState, plock: bool)

  datatype Owner = Nobody | By(p: nat)

  datatype State = State(procs: seq<Proc>, inner: Owner, locked: bool, pid: nat)

  datatype Step =
    | Act(p: nat)       // the process does its next action
    | Schedule(p: nat)  // the scheduler resumes a parked process
    | Kill(p: nat)      // kkill reaches the process

  function At(s: State, p: nat, q: Proc): State
    requires p < |s.procs|
  {
    s.(procs := s.procs[p := q])
  }

  function Go(s: State, p: nat, pc: Pc): State
    requires p < |s.procs|
  {
    At(s, p, s.procs[p].(pc := pc))
  }

  function Take(s: State, p: nat, pc: Pc): State
    requires p < |s.procs|
  {
    if s.inner == Nobody then Go(s, p, pc).(inner := By(p)) else s
  }

  function Roused(q: Proc): Proc { if q.state == Sleeping then q.(state := Runnable) else q }

  /** One turn of wakeup's loop: waits for the target's p->lock. */
  function WakeTurn(s: State, p: nat, next: nat): State
    requires p < |s.procs|
  {
    if next >= |s.procs| then Go(s, p, Finishing)
    else if next == p then Go(s, p, Waking(next + 1))
    else if s.procs[next].plock then s
    else Go(At(s, next, Roused(s.procs[next])), p, Waking(next + 1))
  }

  function DoAct(s: State, p: nat): State
    requires p < |s.procs|
  {
    match s.procs[p].pc
    case Idle => Go(s, p, Want)
    case Want => Take(s, p, Test)
    case Test => if s.locked then Go(s, p, Committed) else Go(s, p, Granted).(locked := true, pid := p)
    case Granted => Go(s, p, Hold).(inner := Nobody)
    case Committed => At(s, p, s.procs[p].(pc := Handoff, plock := true))
    case Handoff => Go(s, p, Marking).(inner := Nobody)
    case Marking => At(s, p, s.procs[p].(pc := Switching, state := Sleeping))
    case Switching => At(s, p, s.procs[p].(pc := Parked, plock := false))
    case Parked => s
    case Woken => At(s, p, s.procs[p].(pc := Want, plock := false))
    case Hold => Go(s, p, Release)
    case Release => Take(s, p, Clearing)
    case Clearing => Go(s, p, Waking(0)).(locked := false)
    case Waking(next) => WakeTurn(s, p, next)
    case Finishing => Go(s, p, Idle).(inner := Nobody)
  }

  function Next(s: State, step: Step): State {
    match step
    case Act(p) => if p < |s.procs| then DoAct(s, p) else s
    case Schedule(p) =>
      if p < |s.procs| && s.procs[p].pc == Parked && s.procs[p].state == Runnable
      then At(s, p, Proc(Woken, Running, true)) else s
    case Kill(p) =>
      if p < |s.procs| && !s.procs[p].plock then At(s, p, Roused(s.procs[p])) else s
  }

  // ---------------------------------------------------------------------
  // The invariant

  predicate HasInner(pc: Pc) {
    pc.Test? || pc.Granted? || pc.Committed? || pc.Handoff? || pc.Clearing? || pc.Waking? || pc.Finishing?
  }

  predicate HasOwn(pc: Pc) { pc.Handoff? || pc.Marking? || pc.Switching? || pc.Woken? }

  /** The process owns the sleep lock: from the grant until it is cleared. */
  predicate Owns(pc: Pc) { pc.Granted? || pc.Hold? || pc.Release? || pc.Clearing? }

  /** On the way to sleep, or asleep and not yet woken. */
  predicate Dozing(q: Proc) { q.pc.Marking? || q.pc.Switching? || (q.pc.Parked? && q.state == Sleeping) }

  /** A wakeup that has not yet reached process p is under way. */
  predicate WakeupComing(s: State, p: nat) {
    s.inner.By? && s.inner.p < |s.procs| && s.procs[s.inner.p].pc.Waking? && s.procs[s.inner.p].pc.next <= p
  }

  predicate ProcOk(s: State, p: nat, q: Proc) {
    && (HasInner(q.pc) <==> s.inner == By(p))
    && (HasOwn(q.pc) <==> q.plock)
    && (Owns(q.pc) <==> s.locked && s.pid == p)
    && (q.pc.Switching? ==> q.state == Sleeping)
    && (q.pc.Parked? ==> q.state != Running)
    && (!q.pc.Switching? && !q.pc.Parked? ==> q.state == Running)
    && (q.pc.Committed? || q.pc.Handoff? ==> s.locked)
    && (Dozing(q) ==> s.locked || WakeupComing(s, p))
  }

  ghost predicate Inv(s: State) {
    && (forall p: nat :: p < |s.procs| ==> ProcOk(s, p, s.procs[p]))
    && (s.inner.By? ==> s.inner.p < |s.procs|)
    && (s.locked ==> s.pid < |s.procs|)
  }

  /** What a process's action leaves true of itself. */
  lemma ActSelf(s: State, p: nat)
    requires p < |s.procs| && !s.procs[p].pc.Waking?
    requires ProcOk(s, p, s.procs[p])
    ensures ProcOk(DoAct(s, p), p, DoAct(s, p).procs[p])
  {
  }

  /** What a process's action leaves true of another. */
  lemma ActOther(s: State, p: nat, q: nat)
    requires p < |s.procs| && q < |s.procs| && !s.procs[p].pc.Waking? && p != q
    requires ProcOk(s, p, s.procs[p]) && ProcOk(s, q, s.procs[q])
    ensures ProcOk(DoAct(s, p), q, DoAct(s, p).procs[q])
  {
  }

  lemma WakeOne(s: State, p: nat, q: nat)
    requires p < |s.procs| && q < |s.procs| && s.procs[p].pc.Waking?
    requires ProcOk(s, p, s.procs[p]) && ProcOk(s, q, s.procs[q])
    ensures ProcOk(DoAct(s, p), q, DoAct(s, p).procs[q])
  {
  }

  lemma ActKeeps(s: State, p: nat)
    requires Inv(s) && p < |s.procs|
    ensures Inv(DoAct(s, p))
  {
    hide ProcOk;
    var t := DoAct(s, p);
    forall q: nat | q < |t.procs| ensures ProcOk(t, q, t.procs[q]) {
      assert ProcOk(s, q, s.procs[q]) && ProcOk(s, p, s.procs[p]);
      if s.procs[p].pc.Waking? { WakeOne(s, p, q); }
      else if p == q { ActSelf(s, p); }
      else { ActOther(s, p, q); }
    }
  }

  lemma NextKeeps(s: State, step: Step)
    requires Inv(s)
    ensures Inv(Next(s, step))
  {
    match step
    case Act(p) => if p < |s.procs| { ActKeeps(s, p); }
    case _ =>
      var t := Next(s, step);
      forall q: nat | q < |t.procs| ensures ProcOk(t, q, t.procs[q]) { assert ProcOk(s, q, s.procs[q]); }
  }

  function Run(s: State, steps: seq<Step>): State
    decreases |steps|
  {
    if |steps| == 0 then s else Next(Run(s, steps[..|steps| - 1]), steps[|steps| - 1])
  }

  /** initsleeplock, with n processes that do not use the lock yet. */
  function Start(n: nat): State { State(seq(n, _ => Proc(Idle, Running, false)), Nobody, false, 0) }

  lemma {:induction false} RunKeeps(n: nat, steps: seq<Step>)
    ensures Inv(Run(Start(n), steps))
    decreases |steps|
  {
    if |steps| > 0 {
      RunKeeps(n, steps[..|steps| - 1]);
      NextKeeps(Run(Start(n), steps[..|steps| - 1]), steps[|steps| - 1]);
    }
  }

  /** In every interleaving at most one process owns the sleep lock, and it is the one the lock records. */
  lemma MutualExclusion(n: nat, steps: seq<Step>, p: nat, q: nat)
    requires p < |Run(Start(n), steps).procs| && q < |Run(Start(n), steps).procs|
    ensures var s := Run(Start(n), steps);
            && (Owns(s.procs[p].pc) && Owns(s.procs[q].pc) ==> p == q)
            && (s.locked && s.pid == p <==> Owns(s.procs[p].pc))
  {
    RunKeeps(n, steps);
    var s := Run(Start(n), steps);
    assert ProcOk(s, p, s.procs[p]) && ProcOk(s, q, s.procs[q]);
  }

  /** No wakeup is lost: while lk->lk is free, a process asleep on the lock implies that some process owns it. */
  lemma NoLostWakeup(n: nat, steps: seq<Step>, p: nat)
    requires p < |Run(Start(n), steps).procs|
    ensures var s := Run(Start(n), steps);
            s.inner == Nobody && Dozing(s.procs[p]) ==>
            s.locked && s.pid < |s.procs| && Owns(s.procs[s.pid].pc)
  {
    RunKeeps(n, steps);
    var s := Run(Start(n), steps);
    assert ProcOk(s, p, s.procs[p]);
    if s.locked { assert ProcOk(s, s.pid, s.procs[s.pid]); }
  }

  // ---------------------------------------------------------------------
  // The operations get through

  /** n actions of process p while the others stand still. */
  function Acts(s: State, p: nat, n: nat): State
    requires p < |s.procs|
    decreases n
  {
    if n == 0 || |DoAct(s, p).procs| <= p then s else Acts(DoAct(s, p), p, n - 1)
  }

  /** A free lock is granted to a process that wants it. */
  lemma AcquireWorks(s: State, p: nat)
    requires Inv(s) && p < |s.procs| && s.procs[p].pc == Want && s.inner == Nobody && !s.locked
    ensures var t := Acts(s, p, 3); p < |t.procs| && t.procs[p].pc == Hold && t.locked && t.pid == p && t.inner == Nobody
  {
    var s1 := DoAct(s, p);
    var s2 := DoAct(s1, p);
    var s3 := DoAct(s2, p);
    assert Acts(s3, p, 0) == s3 && Acts(s2, p, 1) == s3 && Acts(s1, p, 2) == s3;
  }

  /** wakeup rouses every sleeper from process k on, given that none of them is just going to sleep. */
  lemma {:induction false} WakeupReaches(s: State, p: nat, k: nat)
    requires p < |s.procs| && s.procs[p].pc == Waking(k) && k <= |s.procs|
    requires forall q: nat :: k <= q < |s.procs| && q != p ==> !s.procs[q].plock
    ensures var t := Acts(s, p, |s.procs| - k + 1);
            && |t.procs| == |s.procs| && t.procs[p].pc == Finishing
            && (forall q: nat :: q < |s.procs| && q != p ==> t.procs[q] == if q < k then s.procs[q] else Roused(s.procs[q]))
    decreases |s.procs| - k
  {
    var s1 := DoAct(s, p);
    if k == |s.procs| {
      assert Acts(s1, p, 0) == s1;
    } else {
      WakeupReaches(s1, p, k + 1);
      assert Acts(s, p, |s.procs| - k + 1) == Acts(s1, p, |s.procs| - k);
    }
  }

  lemma {:induction false} ActsAdd(s: State, p: nat, n: nat, m: nat)
    requires p < |s.procs|
    ensures |Acts(s, p, n).procs| == |s.procs| && Acts(s, p, n + m) == Acts(Acts(s, p, n), p, m)
    decreases n
  {
    hide DoAct;
    assert |DoAct(s, p).procs| == |s.procs| by { ActLength(s, p); }
    if n > 0 { ActsAdd(DoAct(s, p), p, n - 1, m); }
  }

  lemma ActLength(s: State, p: nat)
    requires p < |s.procs|
    ensures |DoAct(s, p).procs| == |s.procs|
  {
  }

  lemma ActsOne(s: State, p: nat)
    requires p < |s.procs|
    ensures Acts(s, p, 1) == DoAct(s, p)
  {
    assert Acts(DoAct(s, p), p, 0) == DoAct(s, p);
  }

  /** acquiresleep from the start: of a free lock it returns with the lock. */
  lemma AcquireFree(s: State, p: nat)
    requires Inv(s) && p < |s.procs| && s.procs[p].pc == Idle && s.inner == Nobody && !s.locked
    ensures var t := Acts(s, p, 4); p < |t.procs| && t.procs[p].pc == Hold && t.locked && t.pid == p && t.inner == Nobody
  {
    ActsOne(s, p);
    ActKeeps(s, p);
    AcquireWorks(DoAct(s, p), p);
    ActsAdd(s, p, 1, 3);
  }

  /** acquiresleep of a lock that another owns ends asleep, with both inner locks free and everything else as it was. */
  lemma SleepWorks(s: State, p: nat)
    requires Inv(s) && p < |s.procs| && s.procs[p].pc == Want && s.inner == Nobody && s.locked
    ensures Acts(s, p, 6) == s.(procs := s.procs[p := Proc(Parked, Sleeping, false)])
  {
    assert ProcOk(s, p, s.procs[p]);
    var s1 := DoAct(s, p);
    var s2 := DoAct(s1, p);
    var s3 := DoAct(s2, p);
    assert s3 == s.(procs := s.procs[p := Proc(Handoff, Running, true)], inner := By(p));
    SleepEnds(s3, p);
    assert Acts(s3, p, 0) == s3 && Acts(s2, p, 1) == s3 && Acts(s1, p, 2) == s3 && Acts(s, p, 3) == s3;
    ActsAdd(s, p, 3, 3);
  }

  lemma SleepEnds(s: State, p: nat)
    requires p < |s.procs| && s.procs[p] == Proc(Handoff, Running, true) && s.inner == By(p)
    ensures Acts(s, p, 3) == s.(procs := s.procs[p := Proc(Parked, Sleeping, false)], inner := Nobody)
  {
    var s1 := DoAct(s, p);
    var s2 := DoAct(s1, p);
    var s3 := DoAct(s2, p);
    assert Acts(s3, p, 0) == s3 && Acts(s2, p, 1) == s3 && Acts(s1, p, 2) == s3;
  }

  lemma ReleaseBegins(s: State, p: nat)
    requires Inv(s) && p < |s.procs| && s.procs[p].pc == Hold && s.inner == Nobody
    ensures Acts(s, p, 3) == s.(procs := s.procs[p := s.procs[p].(pc := Waking(0))], inner := By(p), locked := false)
  {
    var s1 := DoAct(s, p);
    var s2 := DoAct(s1, p);
    var s3 := DoAct(s2, p);
    assert Acts(s3, p, 0) == s3 && Acts(s2, p, 1) == s3 && Acts(s1, p, 2) == s3;
  }

  /** The parts of the state that wakeup leaves alone. */
  lemma {:induction false} WakeupQuiet(s: State, p: nat, k: nat)
    requires p < |s.procs| && s.procs[p].pc == Waking(k) && k <= |s.procs|
    requires forall q: nat :: k <= q < |s.procs| && q != p ==> !s.procs[q].plock
    ensures var t := Acts(s, p, |s.procs| - k + 1);
            t.inner == s.inner && t.locked == s.locked && t.pid == s.pid && |t.procs| == |s.procs|
            && t.procs[p] == s.procs[p].(pc := Finishing)
    decreases |s.procs| - k
  {
    var s1 := DoAct(s, p);
    if k == |s.procs| {
      assert Acts(s1, p, 0) == s1;
    } else {
      WakeupQuiet(s1, p, k + 1);
      assert Acts(s, p, |s.procs| - k + 1) == Acts(s1, p, |s.procs| - k);
    }
  }

  /** releasesleep: the lock is free, nobody has the inner lock, and every sleeper is runnable. */
  lemma ReleaseWorks(s: State, p: nat)
    requires Inv(s) && p < |s.procs| && s.procs[p].pc == Hold && s.inner == Nobody
    requires forall q: nat :: q < |s.procs| && q != p ==> !s.procs[q].plock
    ensures var t := Acts(s, p, |s.procs| + 5);
            && |t.procs| == |s.procs| && t.procs[p] == s.procs[p].(pc := Idle) && t.inner == Nobody && !t.locked
            && (forall q: nat :: q < |s.procs| && q != p ==> t.procs[q] == Roused(s.procs[q]))
  {
    hide Inv, DoAct, Acts;
    var n := |s.procs|;
    var s1 := s.(procs := s.procs[p := s.procs[p].(pc := Waking(0))], inner := By(p), locked := false);
    ReleaseBegins(s, p);
    WakeupReaches(s1, p, 0);
    WakeupQuiet(s1, p, 0);
    var s2 := Acts(s1, p, n + 1);
    ActsAdd(s, p, 3, n + 1);
    ActsAdd(s, p, n + 4, 1);
    ActsOne(s2, p);
    Finishes(s2, p);
  }

  lemma Finishes(s: State, p: nat)
    requires p < |s.procs| && s.procs[p].pc == Finishing
    ensures DoAct(s, p) == s.(procs := s.procs[p := s.procs[p].(pc := Idle)], inner := Nobody)
  {
  }

  /** A sleeper that has been roused, by wakeup or by kkill, is scheduled and wants the lock again. */
  lemma WokenWorks(s: State, p: nat)
    requires p < |s.procs| && s.procs[p] == Proc(Parked, Sleeping, false)
    ensures var t := s.(procs := s.procs[p := Roused(s.procs[p])]);
            Next(s, Kill(p)) == t && DoAct(Next(t, Schedule(p)), p) == s.(procs := s.procs[p := Proc(Want, Running, false)])
  {
  }

  /** The lock is handed on: once its owner has released it, a process that slept for it gets it. */
  lemma HandedOn(s: State, p: nat, q: nat)
    requires Inv(s) && p < |s.procs| && q < |s.procs| && p != q && s.procs[p].pc == Hold && s.inner == Nobody
    requires s.procs[q] == Proc(Parked, Sleeping, false) && forall r: nat :: r < |s.procs| && r != p ==> !s.procs[r].plock
    ensures var t := Next(Acts(s, p, |s.procs| + 5), Schedule(q));
            q < |t.procs| && var u := Acts(t, q, 4); q < |u.procs| && u.procs[q].pc == Hold && u.locked && u.pid == q && u.inner == Nobody
  {
    hide Inv, DoAct, Acts;
    ReleaseWorks(s, p);
    var r := Acts(s, p, |s.procs| + 5);
    var t := Next(r, Schedule(q));
    Rescheduled(r, q);
    var t1 := DoAct(t, q);
    ActsOne(t, q);
    ActsInv(s, p, |s.procs| + 5);
    NextKeeps(r, Schedule(q));
    ActKeeps(t, q);
    AcquireWorks(t1, q);
    ActsAdd(t, q, 1, 3);
  }

  lemma Rescheduled(s: State, q: nat)
    requires q < |s.procs| && s.procs[q] == Proc(Parked, Runnable, false)
    ensures var t := Next(s, Schedule(q));
            q < |t.procs| && DoAct(t, q) == s.(procs := s.procs[q := Proc(Want, Running, false)])
  {
  }

  lemma {:induction false} ActsInv(s: State, p: nat, n: nat)
    requires Inv(s) && p < |s.procs|
    ensures Inv(Acts(s, p, n))
    decreases n
  {
    hide Inv, DoAct;
    ActLength(s, p);
    if n > 0 {
      ActKeeps(s, p);
      ActsInv(DoAct(s, p), p, n - 1);
    }
  }
}
