/**
 Fork, exit and wait (kernel/proc.c): the process table, wait_lock, each
 process's own lock, and sleep and wakeup in kwait, one guarded action at a
 time, for every interleaving of any number of processes.

 The history fields record what happened: who exited with which status, who
 forked whom, and who was reaped by whom. `maker` is the process that is
 setting a slot up. The kernel stores none of these.
 */
module ExitWait {
  datatype Status = Unused | Used | Alive | Zombie

  datatype Ref = None | Some(slot: nat)

  datatype Pc =
    | User
    | Forking(child: nat)               // kfork: the slot is allocated
    | Adopted(child: nat)               // kfork: the child's parent is set
    | ExitWant(code: int)               // kexit: acquiring wait_lock
    | Reparenting(code: int, at: nat)   // holds wait_lock, reparent has reached slot `at`
    | NotifyInit(code: int, at: nat)    // holds wait_lock, slot `at` given to init, wakeup(init) pending
    | NotifyParent(code: int)           // holds wait_lock, wakeup(parent) pending
    | Dying(code: int)                  // holds wait_lock, about to become ZOMBIE
    | Leaving                           // ZOMBIE, still holds its own lock
    | Dead
    | WaitWant                          // kwait: acquiring wait_lock
    | Scanning                          // holds wait_lock
    | Committed                         // in sleep: holds wait_lock, acquiring its own lock
    | Handoff                           // in sleep: holds both
    | Marking                           // in sleep: holds its own lock
    | Parked                            // switched away
    | Woken                             // scheduled again, holds its own lock

  datatype Slot = Slot(
    status: Status, parent: Ref, pid: nat, xstate: int, pc: Pc, asleep: bool, plock: bool, killed: bool, maker: nat)

  datatype Reap = Reap(pid: nat, code: int, reaper: nat)

  datatype State = State(
    slots: seq<Slot>, init: nat, lock: Ref, nextpid: nat,
    exits: map<nat, int>, born: map<nat, nat>, reaps: seq<Reap>)

  const FREE: Slot := Slot(Unused, None, 0, 0, User, false, false, false, 0)

  datatype Step =
    | Fork(p: nat, c: nat)
    | Exit(p: nat, code: int)
    | Wait(p: nat)
    | Act(p: nat, ok: bool)
    | Schedule(p: nat)
    | Kill(p: nat)

  // ---------------------------------------------------------------------
  // Steps

  predicate In(s: State, p: nat) { p < |s.slots| }

  function Upd(s: State, p: nat, x: Slot): State
    requires In(s, p)
  {
    s.(slots := s.slots[p := x])
  }

  function Go(s: State, p: nat, pc: Pc): State
    requires In(s, p)
  {
    Upd(s, p, s.slots[p].(pc := pc))
  }

  /** allocproc takes an unused slot for p's child. */
  function DoFork(s: State, p: nat, c: nat): State
    requires In(s, p) && In(s, c)
  {
    if s.slots[p].status == Alive && s.slots[p].pc == User && s.slots[c].status == Unused then
      Upd(Go(s, p, Forking(c)), c, FREE.(status := Used, pid := s.nextpid, maker := p)).(nextpid := s.nextpid + 1)
    else s
  }

  /** np->parent = p under wait_lock, or freeproc(np) if the copy failed. */
  function DoAdopt(s: State, p: nat, c: nat, ok: bool): State
    requires In(s, p) && In(s, c)
  {
    if !ok then Upd(Go(s, p, User), c, FREE)
    else if s.lock != None then s
    else Upd(Go(s, p, Adopted(c)), c, s.slots[c].(parent := Some(p))).(born := s.born[s.slots[c].pid := s.slots[p].pid])
  }

  function DoStart(s: State, p: nat, c: nat): State
    requires In(s, p) && In(s, c)
  {
    Upd(Go(s, p, User), c, s.slots[c].(status := Alive))
  }

  function DoReparent(s: State, p: nat, code: int, at: nat): State
    requires In(s, p)
  {
    if at >= |s.slots| then Go(s, p, NotifyParent(code))
    else if s.slots[at].parent == Some(p) then Go(Upd(s, at, s.slots[at].(parent := Some(s.init))), p, NotifyInit(code, at))
    else Go(s, p, Reparenting(code, at + 1))
  }

  /** wakeup on the channel of process q, which only q's own kwait uses. */
  function DoWakeup(s: State, p: nat, q: nat, pc: Pc): State
    requires In(s, p) && In(s, q)
  {
    if s.slots[q].plock then s else Go(Upd(s, q, s.slots[q].(asleep := false)), p, pc)
  }

  function DoDie(s: State, p: nat, code: int): State
    requires In(s, p)
  {
    Upd(s, p, s.slots[p].(status := Zombie, xstate := code, pc := Leaving, plock := true)).(lock := None, exits := s.exits[s.slots[p].pid := code])
  }

  /** The first zombie child of p from slot i on. */
  function FirstZombie(s: State, p: nat, i: nat): (r: Ref)
    ensures r.Some? ==> i <= r.slot < |s.slots| && s.slots[r.slot].parent == Some(p) && s.slots[r.slot].status == Zombie
    ensures forall c :: i <= c < |s.slots| && (r == None || c < r.slot) ==> !ZombieOf(s.slots[c], p)
    decreases |s.slots| - i
  {
    if i >= |s.slots| then None else if ZombieOf(s.slots[i], p) then Some(i) else FirstZombie(s, p, i + 1)
  }

  predicate ZombieOf(x: Slot, p: nat) { x.parent == Some(p) && x.status == Zombie }

  predicate HasKids(s: State, p: nat) { exists c :: 0 <= c < |s.slots| && s.slots[c].parent == Some(p) }

  /** kwait's scan: reap the first zombie child (unless copyout fails), give up, or go to sleep. */
  function DoScan(s: State, p: nat, ok: bool): State
    requires In(s, p)
  {
    var r := FirstZombie(s, p, 0);
    if r.Some? then
      var x := s.slots[r.slot];
      if x.plock then s
      else if !ok then Go(s, p, User).(lock := None)
      else Upd(Go(s, p, User), r.slot, FREE).(lock := None, reaps := s.reaps + [Reap(x.pid, x.xstate, s.slots[p].pid)])
    else if !HasKids(s, p) || s.slots[p].killed then Go(s, p, User).(lock := None)
    else Go(s, p, Committed)
  }

  function TakeLock(s: State, p: nat, pc: Pc): State
    requires In(s, p)
  {
    if s.lock == None then Go(s, p, pc).(lock := Some(p)) else s
  }

  function DoAct(s: State, p: nat, ok: bool): State
    requires In(s, p)
  {
    var x := s.slots[p];
    match x.pc
    case Forking(c) => if In(s, c) then DoAdopt(s, p, c, ok) else s
    case Adopted(c) => if In(s, c) then DoStart(s, p, c) else s
    case ExitWant(code) => TakeLock(s, p, Reparenting(code, 0))
    case Reparenting(code, at) => DoReparent(s, p, code, at)
    case NotifyInit(code, at) => if In(s, s.init) then DoWakeup(s, p, s.init, Reparenting(code, at + 1)) else s
    case NotifyParent(code) => if x.parent.Some? && In(s, x.parent.slot) then DoWakeup(s, p, x.parent.slot, Dying(code)) else s
    case Dying(code) => DoDie(s, p, code)
    case Leaving => Upd(s, p, x.(pc := Dead, plock := false))
    case WaitWant => TakeLock(s, p, Scanning)
    case Scanning => DoScan(s, p, ok)
    case Committed => Upd(s, p, x.(pc := Handoff, plock := true))
    case Handoff => Go(s, p, Marking).(lock := None)
    case Marking => Upd(s, p, x.(pc := Parked, plock := false, asleep := true))
    case Woken => Upd(s, p, x.(pc := WaitWant, plock := false))
    case User => s
    case Dead => s
    case Parked => s
  }

  function Next(s: State, step: Step): State {
    match step
    case Fork(p, c) => if In(s, p) && In(s, c) then DoFork(s, p, c) else s
    case Exit(p, code) =>
      if In(s, p) && s.slots[p].status == Alive && s.slots[p].pc == User && p != s.init then Go(s, p, ExitWant(code)) else s
    case Wait(p) => if In(s, p) && s.slots[p].status == Alive && s.slots[p].pc == User then Go(s, p, WaitWant) else s
    case Act(p, ok) => if In(s, p) then DoAct(s, p, ok) else s
    case Schedule(p) =>
      if In(s, p) && s.slots[p].pc == Parked && !s.slots[p].asleep then Upd(s, p, s.slots[p].(pc := Woken, plock := true)) else s
    case Kill(p) =>
      if In(s, p) && !s.slots[p].plock then Upd(s, p, s.slots[p].(killed := true, asleep := false)) else s
  }

  // ---------------------------------------------------------------------
  // The invariant of the protocol

  predicate HasWaitLock(pc: Pc) {
    pc.Reparenting? || pc.NotifyInit? || pc.NotifyParent? || pc.Dying? || pc.Scanning? || pc.Committed? || pc.Handoff?
  }

  predicate HasOwnLock(pc: Pc) { pc.Handoff? || pc.Marking? || pc.Woken? || pc.Leaving? }

  predicate Gone(pc: Pc) { pc.Leaving? || pc.Dead? }

  predicate InExit(pc: Pc) {
    pc.ExitWant? || pc.Reparenting? || pc.NotifyInit? || pc.NotifyParent? || pc.Dying? || Gone(pc)
  }

  /** Asleep in kwait, or on the way there with no way back. */
  predicate Dozing(x: Slot) { x.asleep || x.pc.Committed? || x.pc.Handoff? || x.pc.Marking? }

  /** wakeup(init) is about to happen. */
  predicate InitCalled(s: State) { s.lock.Some? && In(s, s.lock.slot) && s.slots[s.lock.slot].pc.NotifyInit? }

  predicate One(s: State, i: nat, x: Slot) {
    && (HasWaitLock(x.pc) <==> s.lock == Some(i))
    && (HasOwnLock(x.pc) <==> x.plock)
    && (x.asleep ==> x.pc == Parked)
    && (x.pc != User ==> x.status == Alive || x.status == Zombie)
    && (x.status == Zombie <==> Gone(x.pc))
    && (x.status == Unused ==> x.parent == None)
    && (i == s.init ==> x.status == Alive && x.parent == None && !InExit(x.pc))
    && (i != s.init && (x.status == Alive || x.status == Zombie) ==> x.parent.Some?)
  }

  /** How slot i (x) and slot j (y) relate. */
  predicate Two(s: State, i: nat, x: Slot, j: nat, y: Slot) {
    && (x.parent == Some(j) ==> i != j && y.status == Alive && !Past(y.pc, i))
    && (ZombieOf(x, j) && Dozing(y) ==> j == s.init && InitCalled(s))
    && (x.pc == Forking(j) ==> y.status == Used && y.maker == i && y.parent == None)
    && (x.pc == Adopted(j) ==> y.status == Used && y.maker == i && y.parent == Some(i))
    && (x.pc.Dying? && x.parent == Some(j) ==> !Dozing(y))
  }

  /** A process with this pc has no child in slot c any more. */
  predicate Past(pc: Pc, c: nat) {
    (pc.Reparenting? && c < pc.at) || (pc.NotifyInit? && c <= pc.at) || pc.NotifyParent? || pc.Dying?
  }

  ghost predicate Shape(s: State) {
    && In(s, s.init)
    && (s.lock.Some? ==> In(s, s.lock.slot))
    && (forall i: nat :: In(s, i) ==> One(s, i, s.slots[i]))
    && (forall i: nat, j: nat :: In(s, i) && In(s, j) ==> Two(s, i, s.slots[i], j, s.slots[j]))
    && (forall i: nat :: In(s, i) ==> RefOk(s, s.slots[i]))
  }

  predicate RefOk(s: State, x: Slot) {
    && (x.parent.Some? ==> In(s, x.parent.slot))
    && (x.pc.Forking? || x.pc.Adopted? ==> In(s, x.pc.child))
  }

  // ---------------------------------------------------------------------
  // Every step keeps it

  lemma Facts(s: State, i: nat, j: nat)
    requires Shape(s) && In(s, i) && In(s, j)
    ensures One(s, i, s.slots[i]) && One(s, j, s.slots[j]) && RefOk(s, s.slots[i]) && RefOk(s, s.slots[j])
    ensures Two(s, i, s.slots[i], j, s.slots[j]) && Two(s, j, s.slots[j], i, s.slots[i])
    ensures In(s, s.init) && (s.lock.Some? ==> In(s, s.lock.slot))
  {
  }

  lemma ForkOne(s: State, p: nat, c: nat, i: nat)
    requires Shape(s) && In(s, p) && In(s, c) && In(s, i)
    ensures var t := DoFork(s, p, c); One(t, i, t.slots[i]) && RefOk(t, t.slots[i])
  {
    hide Shape;
    Facts(s, i, p);
    Facts(s, i, c);
    Facts(s, p, p);
    Facts(s, p, c);
    Facts(s, c, c);
  }

  lemma ForkTwo(s: State, p: nat, c: nat, i: nat, j: nat)
    requires Shape(s) && In(s, p) && In(s, c) && In(s, i) && In(s, j)
    ensures var t := DoFork(s, p, c); Two(t, i, t.slots[i], j, t.slots[j])
  {
    hide Shape;
    Facts(s, i, j);
    Facts(s, i, p);
    Facts(s, i, c);
    Facts(s, j, p);
    Facts(s, j, c);
    Facts(s, p, p);
    Facts(s, p, c);
    Facts(s, c, c);
  }

  lemma ForkPair(s: State, p: nat, c: nat, i: nat, j: nat)
    requires Shape(s) && In(s, p) && In(s, c) && In(s, i) && In(s, j)
    ensures var t := DoFork(s, p, c); One(t, i, t.slots[i]) && RefOk(t, t.slots[i]) && Two(t, i, t.slots[i], j, t.slots[j])
  {
    hide Shape, One, Two, RefOk;
    ForkOne(s, p, c, i);
    ForkTwo(s, p, c, i, j);
  }

  lemma AdoptOne(s: State, p: nat, c: nat, i: nat)
    requires Shape(s) && In(s, p) && In(s, c) && s.slots[p].pc == Forking(c) && s.lock == None && In(s, i)
    ensures var t := DoAdopt(s, p, c, true); One(t, i, t.slots[i]) && RefOk(t, t.slots[i])
  {
    hide Shape;
    Facts(s, i, p);
    Facts(s, i, c);
    Facts(s, p, p);
    Facts(s, p, c);
    Facts(s, c, c);
  }

  lemma AdoptTwo(s: State, p: nat, c: nat, i: nat, j: nat)
    requires Shape(s) && In(s, p) && In(s, c) && s.slots[p].pc == Forking(c) && s.lock == None && In(s, i) && In(s, j)
    ensures var t := DoAdopt(s, p, c, true); Two(t, i, t.slots[i], j, t.slots[j])
  {
    hide Shape;
    Facts(s, i, j);
    Facts(s, i, p);
    Facts(s, i, c);
    Facts(s, j, p);
    Facts(s, j, c);
    Facts(s, p, p);
    Facts(s, p, c);
    Facts(s, c, c);
  }

  lemma AdoptPair(s: State, p: nat, c: nat, i: nat, j: nat)
    requires Shape(s) && In(s, p) && In(s, c) && s.slots[p].pc == Forking(c) && s.lock == None && In(s, i) && In(s, j)
    ensures var t := DoAdopt(s, p, c, true); One(t, i, t.slots[i]) && RefOk(t, t.slots[i]) && Two(t, i, t.slots[i], j, t.slots[j])
  {
    hide Shape, One, Two, RefOk;
    AdoptOne(s, p, c, i);
    AdoptTwo(s, p, c, i, j);
  }

  lemma UnforkOne(s: State, p: nat, c: nat, i: nat)
    requires Shape(s) && In(s, p) && In(s, c) && s.slots[p].pc == Forking(c) && In(s, i)
    ensures var t := DoAdopt(s, p, c, false); One(t, i, t.slots[i]) && RefOk(t, t.slots[i])
  {
    hide Shape;
    Facts(s, i, p);
    Facts(s, i, c);
    Facts(s, p, p);
    Facts(s, p, c);
    Facts(s, c, c);
  }

  lemma UnforkTwo(s: State, p: nat, c: nat, i: nat, j: nat)
    requires Shape(s) && In(s, p) && In(s, c) && s.slots[p].pc == Forking(c) && In(s, i) && In(s, j)
    ensures var t := DoAdopt(s, p, c, false); Two(t, i, t.slots[i], j, t.slots[j])
  {
    hide Shape;
    Facts(s, i, j);
    Facts(s, i, p);
    Facts(s, i, c);
    Facts(s, j, p);
    Facts(s, j, c);
    Facts(s, p, p);
    Facts(s, p, c);
    Facts(s, c, c);
  }

  lemma UnforkPair(s: State, p: nat, c: nat, i: nat, j: nat)
    requires Shape(s) && In(s, p) && In(s, c) && s.slots[p].pc == Forking(c) && In(s, i) && In(s, j)
    ensures var t := DoAdopt(s, p, c, false); One(t, i, t.slots[i]) && RefOk(t, t.slots[i]) && Two(t, i, t.slots[i], j, t.slots[j])
  {
    hide Shape, One, Two, RefOk;
    UnforkOne(s, p, c, i);
    UnforkTwo(s, p, c, i, j);
  }

  lemma StartPair(s: State, p: nat, c: nat, i: nat, j: nat)
    requires Shape(s) && In(s, p) && In(s, c) && s.slots[p].pc == Adopted(c) && In(s, i) && In(s, j)
    ensures var t := DoStart(s, p, c); One(t, i, t.slots[i]) && RefOk(t, t.slots[i]) && Two(t, i, t.slots[i], j, t.slots[j])
  {
    hide Shape;
    Facts(s, i, j);
    Facts(s, i, p);
    Facts(s, i, c);
    Facts(s, j, i);
    Facts(s, j, p);
    Facts(s, j, c);
    Facts(s, p, p);
    Facts(s, p, c);
    Facts(s, c, c);
  }

  lemma DiePair(s: State, p: nat, code: int, i: nat, j: nat)
    requires Shape(s) && In(s, p) && s.slots[p].pc == Dying(code) && In(s, i) && In(s, j)
    ensures var t := DoDie(s, p, code); One(t, i, t.slots[i]) && RefOk(t, t.slots[i]) && Two(t, i, t.slots[i], j, t.slots[j])
  {
    hide Shape;
    Facts(s, i, j);
    Facts(s, i, p);
    Facts(s, j, i);
    Facts(s, j, p);
    Facts(s, p, p);
  }

  lemma TakePair(s: State, p: nat, pc: Pc, i: nat, j: nat)
    requires Shape(s) && In(s, p) && s.lock == None && ((s.slots[p].pc.ExitWant? && pc == Reparenting(s.slots[p].pc.code, 0)) || (s.slots[p].pc == WaitWant && pc == Scanning)) && In(s, i) && In(s, j)
    ensures var t := TakeLock(s, p, pc); One(t, i, t.slots[i]) && RefOk(t, t.slots[i]) && Two(t, i, t.slots[i], j, t.slots[j])
  {
    hide Shape;
    Facts(s, i, j);
    Facts(s, i, p);
    Facts(s, j, p);
  }

  lemma ReparentNextPair(s: State, p: nat, code: int, at: nat, i: nat, j: nat)
    requires Shape(s) && In(s, p) && s.slots[p].pc == Reparenting(code, at) && In(s, at) && s.slots[at].parent != Some(p) && In(s, i) && In(s, j)
    ensures var t := Go(s, p, Reparenting(code, at + 1)); One(t, i, t.slots[i]) && RefOk(t, t.slots[i]) && Two(t, i, t.slots[i], j, t.slots[j])
  {
    hide Shape;
    Facts(s, i, j);
    Facts(s, i, p);
    Facts(s, j, p);
  }

  lemma ReparentDonePair(s: State, p: nat, code: int, at: nat, i: nat, j: nat)
    requires Shape(s) && In(s, p) && s.slots[p].pc == Reparenting(code, at) && !In(s, at) && In(s, i) && In(s, j)
    ensures var t := Go(s, p, NotifyParent(code)); One(t, i, t.slots[i]) && RefOk(t, t.slots[i]) && Two(t, i, t.slots[i], j, t.slots[j])
  {
    hide Shape;
    Facts(s, i, j);
    Facts(s, i, p);
    Facts(s, j, p);
  }

  lemma ReparentMoveOne(s: State, p: nat, code: int, at: nat, i: nat)
    requires Shape(s) && In(s, p) && In(s, at) && s.slots[p].pc == Reparenting(code, at) && s.slots[at].parent == Some(p) && In(s, i)
    ensures var t := DoReparent(s, p, code, at); One(t, i, t.slots[i]) && RefOk(t, t.slots[i])
  {
    hide Shape;
    Facts(s, i, p);
    Facts(s, i, at);
    Facts(s, i, s.init);
    Facts(s, p, at);
    Facts(s, p, s.init);
    Facts(s, at, s.init);
  }

  lemma ReparentMoveTwo(s: State, p: nat, code: int, at: nat, i: nat, j: nat)
    requires Shape(s) && In(s, p) && In(s, at) && s.slots[p].pc == Reparenting(code, at) && s.slots[at].parent == Some(p) && In(s, i) && In(s, j)
    ensures var t := DoReparent(s, p, code, at); Two(t, i, t.slots[i], j, t.slots[j])
  {
    hide Shape;
    Facts(s, i, j);
    Facts(s, i, p);
    Facts(s, j, p);
    Facts(s, i, at);
    Facts(s, j, at);
    Facts(s, i, s.init);
    Facts(s, j, s.init);
    Facts(s, p, at);
    Facts(s, p, s.init);
    Facts(s, at, s.init);
  }

  lemma ReparentMovePair(s: State, p: nat, code: int, at: nat, i: nat, j: nat)
    requires Shape(s) && In(s, p) && In(s, at) && s.slots[p].pc == Reparenting(code, at) && s.slots[at].parent == Some(p) && In(s, i) && In(s, j)
    ensures var t := DoReparent(s, p, code, at); One(t, i, t.slots[i]) && RefOk(t, t.slots[i]) && Two(t, i, t.slots[i], j, t.slots[j])
  {
    hide Shape, One, Two, RefOk;
    ReparentMoveOne(s, p, code, at, i);
    ReparentMoveTwo(s, p, code, at, i, j);
  }

  lemma WakeInitPair(s: State, p: nat, code: int, at: nat, i: nat, j: nat)
    requires Shape(s) && In(s, p) && In(s, s.init) && s.slots[p].pc == NotifyInit(code, at) && !s.slots[s.init].plock && In(s, i) && In(s, j)
    ensures var t := DoWakeup(s, p, s.init, Reparenting(code, at + 1)); One(t, i, t.slots[i]) && RefOk(t, t.slots[i]) && Two(t, i, t.slots[i], j, t.slots[j])
  {
    hide Shape;
    Facts(s, i, j);
    Facts(s, i, p);
    Facts(s, j, p);
    Facts(s, i, s.init);
    Facts(s, j, s.init);
    Facts(s, p, s.init);
  }

  lemma WakeParentPair(s: State, p: nat, q: nat, code: int, i: nat, j: nat)
    requires Shape(s) && In(s, p) && In(s, q) && s.slots[p].pc == NotifyParent(code) && s.slots[p].parent == Some(q) && !s.slots[q].plock && In(s, i) && In(s, j)
    ensures var t := DoWakeup(s, p, q, Dying(code)); One(t, i, t.slots[i]) && RefOk(t, t.slots[i]) && Two(t, i, t.slots[i], j, t.slots[j])
  {
    hide Shape;
    Facts(s, i, j);
    Facts(s, i, p);
    Facts(s, j, p);
    Facts(s, i, q);
    Facts(s, j, q);
    Facts(s, p, q);
  }

  lemma ReapPair(s: State, p: nat, c: nat, i: nat, j: nat)
    requires Shape(s) && In(s, p) && In(s, c) && s.slots[p].pc == Scanning && ZombieOf(s.slots[c], p) && !s.slots[c].plock && In(s, i) && In(s, j)
    ensures var t := Upd(Go(s, p, User), c, FREE).(lock := None); One(t, i, t.slots[i]) && RefOk(t, t.slots[i]) && Two(t, i, t.slots[i], j, t.slots[j])
  {
    hide Shape;
    Facts(s, i, j);
    Facts(s, i, p);
    Facts(s, j, p);
    Facts(s, i, c);
    Facts(s, j, c);
    Facts(s, p, c);
  }

  lemma GiveUpPair(s: State, p: nat, i: nat, j: nat)
    requires Shape(s) && In(s, p) && s.slots[p].pc == Scanning && In(s, i) && In(s, j)
    ensures var t := Go(s, p, User).(lock := None); One(t, i, t.slots[i]) && RefOk(t, t.slots[i]) && Two(t, i, t.slots[i], j, t.slots[j])
  {
    hide Shape;
    Facts(s, i, j);
    Facts(s, i, p);
    Facts(s, j, p);
  }

  lemma CommitPair(s: State, p: nat, i: nat, j: nat)
    requires Shape(s) && In(s, p) && s.slots[p].pc == Scanning && FirstZombie(s, p, 0) == None && In(s, i) && In(s, j)
    ensures var t := Go(s, p, Committed); One(t, i, t.slots[i]) && RefOk(t, t.slots[i]) && Two(t, i, t.slots[i], j, t.slots[j])
  {
    hide Shape;
    Facts(s, i, j);
    Facts(s, i, p);
    Facts(s, j, p);
    assert !ZombieOf(s.slots[i], p);
  }

  /** A change of a slot that touches neither wait_lock nor any other slot, and takes nobody to sleep. */
  predicate Quiet(x: Slot, y: Slot) {
    && y == x.(pc := y.pc, plock := y.plock, asleep := y.asleep, killed := y.killed)
    && !Busy(x.pc) && !Busy(y.pc)
    && (HasWaitLock(x.pc) <==> HasWaitLock(y.pc))
    && (HasOwnLock(y.pc) <==> y.plock)
    && (Gone(x.pc) <==> Gone(y.pc))
    && (y.pc != User ==> x.status == Alive || x.status == Zombie)
    && (y.asleep ==> y.pc == Parked)
    && (Dozing(y) ==> Dozing(x))
  }

  predicate Busy(pc: Pc) {
    pc.Forking? || pc.Adopted? || pc.Reparenting? || pc.NotifyInit? || pc.NotifyParent? || pc.Dying?
  }

  lemma QuietOne(s: State, p: nat, y: Slot, i: nat)
    requires Shape(s) && In(s, p) && Quiet(s.slots[p], y) && (p == s.init ==> !InExit(y.pc)) && In(s, i)
    ensures var t := Upd(s, p, y); One(t, i, t.slots[i]) && RefOk(t, t.slots[i])
  {
    hide Shape;
    Facts(s, i, p);
  }

  lemma QuietTwo(s: State, p: nat, y: Slot, i: nat, j: nat)
    requires Shape(s) && In(s, p) && Quiet(s.slots[p], y) && (p == s.init ==> !InExit(y.pc)) && In(s, i) && In(s, j)
    ensures var t := Upd(s, p, y); Two(t, i, t.slots[i], j, t.slots[j])
  {
    hide Shape;
    Facts(s, i, j);
    Facts(s, i, p);
    Facts(s, j, p);
  }

  lemma QuietPair(s: State, p: nat, y: Slot, i: nat, j: nat)
    requires Shape(s) && In(s, p) && Quiet(s.slots[p], y) && (p == s.init ==> !InExit(y.pc)) && In(s, i) && In(s, j)
    ensures var t := Upd(s, p, y); One(t, i, t.slots[i]) && RefOk(t, t.slots[i]) && Two(t, i, t.slots[i], j, t.slots[j])
  {
    hide Shape, One, Two, RefOk;
    QuietOne(s, p, y, i);
    QuietTwo(s, p, y, i, j);
  }

  lemma HandoffPair(s: State, p: nat, i: nat, j: nat)
    requires Shape(s) && In(s, p) && s.slots[p].pc == Handoff && In(s, i) && In(s, j)
    ensures var t := Go(s, p, Marking).(lock := None); One(t, i, t.slots[i]) && RefOk(t, t.slots[i]) && Two(t, i, t.slots[i], j, t.slots[j])
  {
    hide Shape;
    Facts(s, i, j);
    Facts(s, i, p);
    Facts(s, j, p);
  }

  lemma KillPair(s: State, p: nat, i: nat, j: nat)
    requires Shape(s) && In(s, p) && !s.slots[p].plock && In(s, i) && In(s, j)
    ensures var t := Upd(s, p, s.slots[p].(killed := true, asleep := false)); One(t, i, t.slots[i]) && RefOk(t, t.slots[i]) && Two(t, i, t.slots[i], j, t.slots[j])
  {
    hide Shape;
    Facts(s, i, j);
    Facts(s, i, p);
    Facts(s, j, p);
  }

  predicate Pair(s: State, i: nat, j: nat) {
    In(s, i) && In(s, j) ==> One(s, i, s.slots[i]) && RefOk(s, s.slots[i]) && Two(s, i, s.slots[i], j, s.slots[j])
  }

  lemma Pairs(s: State, t: State)
    requires Shape(s) && |t.slots| == |s.slots| && t.init == s.init && (t.lock.Some? ==> In(s, t.lock.slot))
    requires forall i: nat, j: nat :: Pair(t, i, j)
    ensures Shape(t)
  {
    hide One, Two, RefOk;
    forall i: nat | In(t, i) ensures One(t, i, t.slots[i]) && RefOk(t, t.slots[i]) { assert Pair(t, i, i); }
    forall i: nat, j: nat | In(t, i) && In(t, j) ensures Two(t, i, t.slots[i], j, t.slots[j]) { assert Pair(t, i, j); }
  }

  lemma SameCore(s: State, t: State)
    requires Shape(s) && t.slots == s.slots && t.lock == s.lock && t.init == s.init
    ensures Shape(t)
  {
    forall i: nat, j: nat ensures Pair(t, i, j) { if In(s, i) && In(s, j) { Facts(s, i, j); } }
    Pairs(s, t);
  }

  lemma ForkShape(s: State, p: nat, c: nat)
    requires Shape(s) && In(s, p) && In(s, c)
    ensures Shape(DoFork(s, p, c))
  {
    hide One, Two, RefOk;
    var t := DoFork(s, p, c);
    forall i: nat, j: nat ensures Pair(t, i, j) { if In(t, i) && In(t, j) { ForkPair(s, p, c, i, j); } }
    Pairs(s, t);
  }

  lemma FamilyShape(s: State, p: nat, c: nat, ok: bool)
    requires Shape(s) && In(s, p) && In(s, c)
    ensures s.slots[p].pc == Forking(c) ==> Shape(DoAdopt(s, p, c, ok))
    ensures s.slots[p].pc == Adopted(c) ==> Shape(DoStart(s, p, c))
  {
    hide One, Two, RefOk;
    if s.slots[p].pc == Forking(c) && (!ok || s.lock == None) {
      var t := DoAdopt(s, p, c, ok);
      forall i: nat, j: nat ensures Pair(t, i, j) {
        if In(t, i) && In(t, j) { if ok { AdoptPair(s, p, c, i, j); } else { UnforkPair(s, p, c, i, j); } }
      }
      Pairs(s, t);
    }
    if s.slots[p].pc == Adopted(c) {
      var t := DoStart(s, p, c);
      forall i: nat, j: nat ensures Pair(t, i, j) { if In(t, i) && In(t, j) { StartPair(s, p, c, i, j); } }
      Pairs(s, t);
    }
  }

  lemma TakeShape(s: State, p: nat, pc: Pc)
    requires Shape(s) && In(s, p)
    requires (s.slots[p].pc.ExitWant? && pc == Reparenting(s.slots[p].pc.code, 0)) || (s.slots[p].pc == WaitWant && pc == Scanning)
    ensures Shape(TakeLock(s, p, pc))
  {
    hide One, Two, RefOk;
    if s.lock == None {
      var t := TakeLock(s, p, pc);
      forall i: nat, j: nat ensures Pair(t, i, j) { if In(t, i) && In(t, j) { TakePair(s, p, pc, i, j); } }
      Pairs(s, t);
    }
  }

  lemma ReparentShape(s: State, p: nat, code: int, at: nat)
    requires Shape(s) && In(s, p) && s.slots[p].pc == Reparenting(code, at)
    ensures Shape(DoReparent(s, p, code, at))
  {
    hide One, Two, RefOk;
    var t := DoReparent(s, p, code, at);
    forall i: nat, j: nat ensures Pair(t, i, j) {
      if In(t, i) && In(t, j) {
        if !In(s, at) { ReparentDonePair(s, p, code, at, i, j); }
        else if s.slots[at].parent == Some(p) { ReparentMovePair(s, p, code, at, i, j); }
        else { ReparentNextPair(s, p, code, at, i, j); }
      }
    }
    Pairs(s, t);
  }

  lemma WakeupShape(s: State, p: nat, q: nat, code: int, at: nat)
    requires Shape(s) && In(s, p) && In(s, q)
    ensures s.slots[p].pc == NotifyInit(code, at) && q == s.init ==> Shape(DoWakeup(s, p, q, Reparenting(code, at + 1)))
    ensures s.slots[p].pc == NotifyParent(code) && s.slots[p].parent == Some(q) ==> Shape(DoWakeup(s, p, q, Dying(code)))
  {
    hide One, Two, RefOk;
    if s.slots[p].pc == NotifyInit(code, at) && q == s.init && !s.slots[q].plock {
      var t := DoWakeup(s, p, q, Reparenting(code, at + 1));
      forall i: nat, j: nat ensures Pair(t, i, j) { if In(t, i) && In(t, j) { WakeInitPair(s, p, code, at, i, j); } }
      Pairs(s, t);
    }
    if s.slots[p].pc == NotifyParent(code) && s.slots[p].parent == Some(q) && !s.slots[q].plock {
      var t := DoWakeup(s, p, q, Dying(code));
      forall i: nat, j: nat ensures Pair(t, i, j) { if In(t, i) && In(t, j) { WakeParentPair(s, p, q, code, i, j); } }
      Pairs(s, t);
    }
  }

  lemma DieShape(s: State, p: nat, code: int)
    requires Shape(s) && In(s, p) && s.slots[p].pc == Dying(code)
    ensures Shape(DoDie(s, p, code))
  {
    hide One, Two, RefOk;
    var t := DoDie(s, p, code);
    forall i: nat, j: nat ensures Pair(t, i, j) { if In(t, i) && In(t, j) { DiePair(s, p, code, i, j); } }
    Pairs(s, t);
  }

  lemma QuietShape(s: State, p: nat, y: Slot)
    requires Shape(s) && In(s, p) && Quiet(s.slots[p], y) && (p == s.init ==> !InExit(y.pc))
    ensures Shape(Upd(s, p, y))
  {
    hide One, Two, RefOk, Quiet;
    var t := Upd(s, p, y);
    forall i: nat, j: nat ensures Pair(t, i, j) { if In(t, i) && In(t, j) { QuietPair(s, p, y, i, j); } }
    Pairs(s, t);
  }

  lemma HandoffShape(s: State, p: nat)
    requires Shape(s) && In(s, p) && s.slots[p].pc == Handoff
    ensures Shape(Go(s, p, Marking).(lock := None))
  {
    hide One, Two, RefOk;
    var t := Go(s, p, Marking).(lock := None);
    forall i: nat, j: nat ensures Pair(t, i, j) { if In(t, i) && In(t, j) { HandoffPair(s, p, i, j); } }
    Pairs(s, t);
  }

  lemma KillShape(s: State, p: nat)
    requires Shape(s) && In(s, p) && !s.slots[p].plock
    ensures Shape(Upd(s, p, s.slots[p].(killed := true, asleep := false)))
  {
    hide One, Two, RefOk;
    var t := Upd(s, p, s.slots[p].(killed := true, asleep := false));
    forall i: nat, j: nat ensures Pair(t, i, j) { if In(t, i) && In(t, j) { KillPair(s, p, i, j); } }
    Pairs(s, t);
  }

  lemma ReapShape(s: State, p: nat, c: nat)
    requires Shape(s) && In(s, p) && In(s, c) && s.slots[p].pc == Scanning && ZombieOf(s.slots[c], p) && !s.slots[c].plock
    ensures Shape(Upd(Go(s, p, User), c, FREE).(lock := None))
  {
    hide One, Two, RefOk;
    var t := Upd(Go(s, p, User), c, FREE).(lock := None);
    forall i: nat, j: nat ensures Pair(t, i, j) { if In(t, i) && In(t, j) { ReapPair(s, p, c, i, j); } }
    Pairs(s, t);
  }

  lemma ScanShape(s: State, p: nat, ok: bool)
    requires Shape(s) && In(s, p) && s.slots[p].pc == Scanning
    ensures Shape(DoScan(s, p, ok))
  {
    hide One, Two, RefOk, FirstZombie;
    var r := FirstZombie(s, p, 0);
    var t := DoScan(s, p, ok);
    if r.Some? && !s.slots[r.slot].plock && ok {
      ReapShape(s, p, r.slot);
      SameCore(Upd(Go(s, p, User), r.slot, FREE).(lock := None), t);
    } else if r == None && HasKids(s, p) && !s.slots[p].killed {
      forall i: nat, j: nat ensures Pair(t, i, j) { if In(t, i) && In(t, j) { CommitPair(s, p, i, j); } }
      Pairs(s, t);
    } else if t != s {
      forall i: nat, j: nat ensures Pair(t, i, j) { if In(t, i) && In(t, j) { GiveUpPair(s, p, i, j); } }
      Pairs(s, t);
    }
  }

  lemma ActShape(s: State, p: nat, ok: bool)
    requires Shape(s) && In(s, p)
    ensures Shape(DoAct(s, p, ok))
  {
    hide Shape, DoAdopt, DoStart, DoReparent, DoWakeup, DoDie, DoScan, TakeLock;
    Facts(s, p, p);
    var x := s.slots[p];
    match x.pc
    case Forking(c) => FamilyShape(s, p, c, ok);
    case Adopted(c) => FamilyShape(s, p, c, ok);
    case ExitWant(code) => TakeShape(s, p, Reparenting(code, 0));
    case Reparenting(code, at) => ReparentShape(s, p, code, at);
    case NotifyInit(code, at) => WakeupShape(s, p, s.init, code, at);
    case NotifyParent(code) => if x.parent.Some? { WakeupShape(s, p, x.parent.slot, code, 0); }
    case Dying(code) => DieShape(s, p, code);
    case Leaving => QuietShape(s, p, x.(pc := Dead, plock := false));
    case WaitWant => TakeShape(s, p, Scanning);
    case Scanning => ScanShape(s, p, ok);
    case Committed => QuietShape(s, p, x.(pc := Handoff, plock := true));
    case Handoff => HandoffShape(s, p);
    case Marking => QuietShape(s, p, x.(pc := Parked, plock := false, asleep := true));
    case Woken => QuietShape(s, p, x.(pc := WaitWant, plock := false));
    case _ =>
  }

  lemma NextShape(s: State, step: Step)
    requires Shape(s)
    ensures Shape(Next(s, step))
  {
    hide Shape, DoFork, DoAct;
    var p := step.p;
    if In(s, p) {
      Facts(s, p, p);
      var x := s.slots[p];
      match step
      case Fork(_, c) => if In(s, c) { ForkShape(s, p, c); }
      case Exit(_, code) => if x.status == Alive && x.pc == User && p != s.init { QuietShape(s, p, x.(pc := ExitWant(code))); }
      case Wait(_) => if x.status == Alive && x.pc == User { QuietShape(s, p, x.(pc := WaitWant)); }
      case Act(_, ok) => ActShape(s, p, ok);
      case Schedule(_) => if x.pc == Parked && !x.asleep { QuietShape(s, p, x.(pc := Woken, plock := true)); }
      case Kill(_) => if !x.plock { KillShape(s, p); }
    }
  }

  // ---------------------------------------------------------------------
  // Who exited, and who was reaped

  predicate NotReaped(reaps: seq<Reap>, pid: nat) { forall k :: 0 <= k < |reaps| ==> reaps[k].pid != pid }

  /** A process in the table has a pid of its own, has not been reaped, and is in `exits` exactly when it is a zombie. */
  predicate PidOk(s: State, x: Slot) {
    x.status != Unused ==>
      && 0 < x.pid < s.nextpid
      && NotReaped(s.reaps, x.pid)
      && (x.pid in s.exits <==> x.status == Zombie)
      && (x.status == Zombie ==> s.exits[x.pid] == x.xstate)
      && (x.parent.Some? ==> x.pid in s.born)
  }

  /** Different slots have different pids; a parent is the forking process or init. */
  predicate KinOk(s: State, i: nat, x: Slot, j: nat, y: Slot) {
    && (i != j && x.status != Unused && y.status != Unused ==> x.pid != y.pid)
    && (x.parent == Some(j) && x.pid in s.born ==> j == s.init || y.pid == s.born[x.pid])
  }

  predicate ReapOk(s: State, r: Reap, initpid: nat) {
    && r.pid in s.exits && r.code == s.exits[r.pid]
    && (r.reaper == initpid || (r.pid in s.born && r.reaper == s.born[r.pid]))
  }

  predicate ReapedOnce(reaps: seq<Reap>) { forall k, l :: 0 <= k < l < |reaps| ==> reaps[k].pid != reaps[l].pid }

  /** An exit is either still in the table as a zombie or has been reaped. */
  ghost predicate Accounted(s: State, pid: nat) {
    (exists i: nat :: In(s, i) && IsZombie(s.slots[i], pid)) || !NotReaped(s.reaps, pid)
  }

  predicate IsZombie(x: Slot, pid: nat) { x.status == Zombie && x.pid == pid }

  ghost predicate History(s: State) {
    && In(s, s.init) && s.nextpid > 0
    && (forall i: nat :: In(s, i) ==> PidOk(s, s.slots[i]))
    && (forall i: nat, j: nat :: In(s, i) && In(s, j) ==> KinOk(s, i, s.slots[i], j, s.slots[j]))
    && (forall k :: 0 <= k < |s.reaps| ==> ReapOk(s, s.reaps[k], s.slots[s.init].pid))
    && ReapedOnce(s.reaps)
    && (forall pid: nat :: pid in s.exits ==> pid < s.nextpid && Accounted(s, pid))
  }

  /** Slot y keeps the identity of x; only its parent may have become init. */
  predicate SameId(init: nat, x: Slot, y: Slot) {
    && y.pid == x.pid && y.xstate == x.xstate
    && (y.status == Unused <==> x.status == Unused)
    && (y.status == Zombie <==> x.status == Zombie)
    && (y.parent == x.parent || (x.parent.Some? && y.parent == Some(init)))
  }

  lemma SameHistory(s: State, t: State)
    requires History(s) && |t.slots| == |s.slots| && t.init == s.init && t.nextpid == s.nextpid
    requires t.exits == s.exits && t.born == s.born && t.reaps == s.reaps
    requires forall i: nat :: In(s, i) ==> SameId(s.init, s.slots[i], t.slots[i])
    ensures History(t)
  {
    forall i: nat | In(t, i) ensures PidOk(t, t.slots[i]) { assert PidOk(s, s.slots[i]) && SameId(s.init, s.slots[i], t.slots[i]); }
    forall i: nat, j: nat | In(t, i) && In(t, j) ensures KinOk(t, i, t.slots[i], j, t.slots[j]) {
      assert KinOk(s, i, s.slots[i], j, s.slots[j]) && SameId(s.init, s.slots[i], t.slots[i]) && SameId(s.init, s.slots[j], t.slots[j]);
    }
    assert SameId(s.init, s.slots[s.init], t.slots[s.init]);
    forall k | 0 <= k < |t.reaps| ensures ReapOk(t, t.reaps[k], t.slots[t.init].pid) { assert ReapOk(s, s.reaps[k], s.slots[s.init].pid); }
    forall pid: nat | pid in t.exits ensures Accounted(t, pid) {
      assert Accounted(s, pid);
      if i: nat :| In(s, i) && IsZombie(s.slots[i], pid) {
        assert SameId(s.init, s.slots[i], t.slots[i]);
        assert IsZombie(t.slots[i], pid);
      }
    }
  }

  lemma InitAlive(s: State)
    requires Shape(s)
    ensures In(s, s.init) && s.slots[s.init].status == Alive
  {
    Facts(s, s.init, s.init);
  }

  /** A slot that is not alive is nobody's parent. */
  lemma NoKidsOf(s: State, c: nat, i: nat)
    requires Shape(s) && In(s, c) && In(s, i) && s.slots[c].status != Alive
    ensures s.slots[i].parent != Some(c)
  {
    Facts(s, i, c);
  }

  /** The next pid has never been used. */
  lemma FreshPid(s: State)
    requires History(s)
    ensures NotReaped(s.reaps, s.nextpid) && s.nextpid !in s.exits
  {
    forall k | 0 <= k < |s.reaps| ensures s.reaps[k].pid != s.nextpid { assert ReapOk(s, s.reaps[k], s.slots[s.init].pid); }
  }

  /** The record of exits and reaps carries over if no zombie disappears. */
  lemma RecordKept(s: State, t: State)
    requires History(s) && t.init == s.init && In(t, t.init) && t.slots[t.init].pid == s.slots[s.init].pid
    requires |t.slots| == |s.slots| && t.reaps == s.reaps && s.nextpid <= t.nextpid
    requires forall pid: nat :: pid in s.exits ==> pid in t.exits && t.exits[pid] == s.exits[pid]
    requires forall pid: nat :: !NotReaped(s.reaps, pid) && pid in s.born ==> pid in t.born && t.born[pid] == s.born[pid]
    requires forall i: nat :: In(s, i) && s.slots[i].status == Zombie ==> t.slots[i].status == Zombie && t.slots[i].pid == s.slots[i].pid
    ensures forall k :: 0 <= k < |t.reaps| ==> ReapOk(t, t.reaps[k], t.slots[t.init].pid)
    ensures forall pid: nat :: pid in s.exits ==> Accounted(t, pid)
  {
    forall k | 0 <= k < |t.reaps| ensures ReapOk(t, t.reaps[k], t.slots[t.init].pid) {
      assert ReapOk(s, s.reaps[k], s.slots[s.init].pid) && !NotReaped(s.reaps, s.reaps[k].pid);
    }
    forall pid: nat | pid in s.exits ensures Accounted(t, pid) {
      assert Accounted(s, pid);
      if i: nat :| In(s, i) && IsZombie(s.slots[i], pid) { assert IsZombie(t.slots[i], pid); }
    }
  }

  lemma ForkKin(s: State, p: nat, c: nat, i: nat, j: nat)
    requires History(s) && Shape(s) && In(s, p) && In(s, c) && In(s, i) && In(s, j)
    ensures var t := DoFork(s, p, c); KinOk(t, i, t.slots[i], j, t.slots[j])
  {
    assert KinOk(s, i, s.slots[i], j, s.slots[j]) && PidOk(s, s.slots[i]) && PidOk(s, s.slots[j]);
    hide Shape, History;
    if s.slots[c].status == Unused { NoKidsOf(s, c, i); }
  }

  lemma ForkHistory(s: State, p: nat, c: nat)
    requires History(s) && Shape(s) && In(s, p) && In(s, c)
    ensures History(DoFork(s, p, c))
  {
    hide One, Two, RefOk, Accounted, ReapOk;
    var t := DoFork(s, p, c);
    if s.slots[p].status == Alive && s.slots[p].pc == User && s.slots[c].status == Unused {
      FreshPid(s);
      InitAlive(s);
      RecordKept(s, t);
      forall i: nat | In(t, i) ensures PidOk(t, t.slots[i]) { assert PidOk(s, s.slots[i]); }
      forall i: nat, j: nat | In(t, i) && In(t, j) ensures KinOk(t, i, t.slots[i], j, t.slots[j]) { ForkKin(s, p, c, i, j); }
    }
  }

  /** Slot c, not a zombie, is freed again. */
  lemma UnforkHistory(s: State, p: nat, c: nat)
    requires History(s) && Shape(s) && In(s, p) && In(s, c) && p != c && s.slots[c].status == Used
    ensures History(Upd(Go(s, p, User), c, FREE))
  {
    hide One, Two, RefOk, Accounted, ReapOk;
    var t := Upd(Go(s, p, User), c, FREE);
    InitAlive(s);
    RecordKept(s, t);
    forall i: nat | In(t, i) ensures PidOk(t, t.slots[i]) { assert PidOk(s, s.slots[i]); }
    forall i: nat, j: nat | In(t, i) && In(t, j) ensures KinOk(t, i, t.slots[i], j, t.slots[j]) {
      assert KinOk(s, i, s.slots[i], j, s.slots[j]);
      NoKidsOf(s, c, i);
    }
  }

  lemma AdoptKin(s: State, p: nat, c: nat, i: nat, j: nat)
    requires History(s) && Shape(s) && In(s, p) && In(s, c) && p != c && s.slots[c].status == Used && s.lock == None
    requires In(s, i) && In(s, j)
    ensures var t := DoAdopt(s, p, c, true); KinOk(t, i, t.slots[i], j, t.slots[j])
  {
    assert KinOk(s, i, s.slots[i], j, s.slots[j]) && KinOk(s, i, s.slots[i], c, s.slots[c]);
    hide History, Shape;
    UnusedAlone(s, i);
  }

  lemma AdoptHistory(s: State, p: nat, c: nat)
    requires History(s) && Shape(s) && In(s, p) && In(s, c) && p != c && s.slots[c].status == Used && s.lock == None
    ensures History(DoAdopt(s, p, c, true))
  {
    hide One, Two, RefOk, Accounted, ReapOk;
    var t := DoAdopt(s, p, c, true);
    InitAlive(s);
    assert PidOk(s, s.slots[c]);
    RecordKept(s, t);
    forall i: nat | In(t, i) ensures PidOk(t, t.slots[i]) { assert PidOk(s, s.slots[i]); }
    forall i: nat, j: nat | In(t, i) && In(t, j) ensures KinOk(t, i, t.slots[i], j, t.slots[j]) { AdoptKin(s, p, c, i, j); }
  }

  lemma UnusedAlone(s: State, i: nat)
    requires Shape(s) && In(s, i)
    ensures s.slots[i].status == Unused ==> s.slots[i].parent == None
  {
    Facts(s, i, i);
  }

  lemma DieHistory(s: State, p: nat, code: int)
    requires History(s) && Shape(s) && In(s, p) && s.slots[p].status == Alive && p != s.init
    ensures History(DoDie(s, p, code))
  {
    hide One, Two, RefOk, Accounted, ReapOk;
    var t := DoDie(s, p, code);
    var pid := s.slots[p].pid;
    assert PidOk(s, s.slots[p]);
    RecordKept(s, t);
    assert Accounted(t, pid) by { ZombieAccounted(t, p); }
    forall i: nat | In(t, i) ensures PidOk(t, t.slots[i]) {
      assert PidOk(s, s.slots[i]) && KinOk(s, i, s.slots[i], p, s.slots[p]);
    }
    forall i: nat, j: nat | In(t, i) && In(t, j) ensures KinOk(t, i, t.slots[i], j, t.slots[j]) {
      assert KinOk(s, i, s.slots[i], j, s.slots[j]);
    }
  }

  lemma ZombieAccounted(s: State, i: nat)
    requires In(s, i) && s.slots[i].status == Zombie
    ensures Accounted(s, s.slots[i].pid)
  {
    assert IsZombie(s.slots[i], s.slots[i].pid);
  }

  ghost function Reaped(s: State, p: nat, c: nat): State
    requires In(s, p) && In(s, c)
  {
    Upd(Go(s, p, User), c, FREE).(lock := None, reaps := s.reaps + [Reap(s.slots[c].pid, s.slots[c].xstate, s.slots[p].pid)])
  }

  lemma ReapKin(s: State, p: nat, c: nat, i: nat, j: nat)
    requires History(s) && Shape(s) && In(s, p) && In(s, c) && ZombieOf(s.slots[c], p) && In(s, i) && In(s, j)
    ensures var t := Reaped(s, p, c); KinOk(t, i, t.slots[i], j, t.slots[j])
  {
    assert KinOk(s, i, s.slots[i], j, s.slots[j]);
    hide Shape, History;
    NoKidsOf(s, c, i);
  }

  lemma ReapHistory(s: State, p: nat, c: nat)
    requires History(s) && Shape(s) && In(s, p) && In(s, c) && ZombieOf(s.slots[c], p)
    ensures History(Reaped(s, p, c))
  {
    hide One, Two, RefOk;
    var t := Reaped(s, p, c);
    InitAlive(s);
    NoKidsOf(s, c, c);
    assert PidOk(s, s.slots[c]) && KinOk(s, c, s.slots[c], p, s.slots[p]);
    forall i: nat | In(t, i) ensures PidOk(t, t.slots[i]) { assert PidOk(s, s.slots[i]) && KinOk(s, i, s.slots[i], c, s.slots[c]); }
    forall i: nat, j: nat | In(t, i) && In(t, j) ensures KinOk(t, i, t.slots[i], j, t.slots[j]) { ReapKin(s, p, c, i, j); }
    forall k | 0 <= k < |t.reaps| ensures ReapOk(t, t.reaps[k], t.slots[t.init].pid) {
      if k < |s.reaps| { assert ReapOk(s, s.reaps[k], s.slots[s.init].pid); }
    }
    forall pid: nat | pid in t.exits ensures Accounted(t, pid) { ReapAccounted(s, p, c, pid); }
  }

  lemma ReapAccounted(s: State, p: nat, c: nat, pid: nat)
    requires In(s, p) && In(s, c) && p != c && Accounted(s, pid)
    ensures Accounted(Reaped(s, p, c), pid)
  {
    var t := Reaped(s, p, c);
    if !NotReaped(s.reaps, pid) {
      var k :| 0 <= k < |s.reaps| && s.reaps[k].pid == pid;
      assert t.reaps[k].pid == pid;
    } else {
      var i: nat :| In(s, i) && IsZombie(s.slots[i], pid);
      if i == c { assert t.reaps[|s.reaps|].pid == pid; } else { assert IsZombie(t.slots[i], pid); }
    }
  }

  lemma ScanHistory(s: State, p: nat, ok: bool)
    requires History(s) && Shape(s) && In(s, p) && s.slots[p].pc == Scanning
    ensures History(DoScan(s, p, ok))
  {
    hide Shape, History, FirstZombie, HasKids;
    var r := FirstZombie(s, p, 0);
    if r.Some? && !s.slots[r.slot].plock && ok {
      ReapHistory(s, p, r.slot);
    } else {
      SameHistory(s, DoScan(s, p, ok));
    }
  }

  /** Nothing is recorded, and slot i keeps its identity. */
  predicate Unrecorded(s: State, t: State, i: nat) {
    && |t.slots| == |s.slots| && t.init == s.init && t.nextpid == s.nextpid
    && t.exits == s.exits && t.born == s.born && t.reaps == s.reaps
    && (In(s, i) ==> SameId(s.init, s.slots[i], t.slots[i]))
  }

  lemma ReparentSame(s: State, p: nat, code: int, at: nat, i: nat)
    requires In(s, p)
    ensures Unrecorded(s, DoReparent(s, p, code, at), i)
  {
  }

  lemma UpdSame(s: State, p: nat, y: Slot, i: nat)
    requires In(s, p) && SameId(s.init, s.slots[p], y)
    ensures Unrecorded(s, Upd(s, p, y), i)
  {
  }

  lemma WakeupSame(s: State, p: nat, q: nat, pc: Pc, i: nat)
    requires In(s, p) && In(s, q)
    ensures Unrecorded(s, DoWakeup(s, p, q, pc), i)
  {
    hide SameId;
    var s1 := Upd(s, q, s.slots[q].(asleep := false));
    IdOf(s.init, s.slots[q], s.slots[q].(asleep := false));
    IdOf(s.init, s1.slots[p], s1.slots[p].(pc := pc));
    UpdSame(s, q, s.slots[q].(asleep := false), i);
    UpdSame(s1, p, s1.slots[p].(pc := pc), i);
    if In(s, i) {
      IdOf(s.init, s.slots[i], s.slots[i]);
      IdTrans(s.init, s.slots[i], s1.slots[i], Go(s1, p, pc).slots[i]);
    }
  }

  lemma IdOf(init: nat, x: Slot, y: Slot)
    requires y == x.(pc := y.pc, plock := y.plock, asleep := y.asleep, killed := y.killed)
    ensures SameId(init, x, y)
  {
  }

  lemma IdTrans(init: nat, x: Slot, y: Slot, z: Slot)
    requires SameId(init, x, y) && SameId(init, y, z)
    ensures SameId(init, x, z)
  {
  }

  lemma TakeSame(s: State, p: nat, pc: Pc, i: nat)
    requires In(s, p)
    ensures Unrecorded(s, TakeLock(s, p, pc), i)
  {
  }

  lemma StartSame(s: State, p: nat, c: nat, i: nat)
    requires In(s, p) && In(s, c) && p != c && s.slots[c].status == Used
    ensures Unrecorded(s, DoStart(s, p, c), i)
  {
  }

  /** Actions other than allocating, adopting, dying and reaping leave no record. */
  lemma ActSameId(s: State, p: nat, ok: bool, i: nat)
    requires Shape(s) && In(s, p)
    requires !s.slots[p].pc.Forking? && !s.slots[p].pc.Dying? && !s.slots[p].pc.Scanning?
    ensures Unrecorded(s, DoAct(s, p, ok), i)
  {
    hide Shape, DoReparent, DoWakeup, DoStart, TakeLock;
    Facts(s, p, p);
    var x := s.slots[p];
    match x.pc
    case Adopted(c) =>
      Facts(s, p, c);
      StartSame(s, p, c, i);
    case Reparenting(code, at) => ReparentSame(s, p, code, at, i);
    case NotifyInit(code, at) => WakeupSame(s, p, s.init, Reparenting(code, at + 1), i);
    case NotifyParent(code) => if x.parent.Some? { WakeupSame(s, p, x.parent.slot, Dying(code), i); }
    case ExitWant(code) => TakeSame(s, p, Reparenting(code, 0), i);
    case WaitWant => TakeSame(s, p, Scanning, i);
    case _ =>
  }

  lemma ActHistory(s: State, p: nat, ok: bool)
    requires History(s) && Shape(s) && In(s, p)
    ensures History(DoAct(s, p, ok))
  {
    hide Shape, History, DoScan, DoReparent, DoWakeup, TakeLock, DoStart, SameId;
    Facts(s, p, p);
    var x := s.slots[p];
    match x.pc
    case Forking(c) =>
      Facts(s, p, c);
      if !ok { UnforkHistory(s, p, c); } else if s.lock == None { AdoptHistory(s, p, c); }
    case Dying(code) => DieHistory(s, p, code);
    case Scanning => ScanHistory(s, p, ok);
    case _ =>
      var t := DoAct(s, p, ok);
      ActSameId(s, p, ok, p);
      forall i: nat | In(s, i) ensures SameId(s.init, s.slots[i], t.slots[i]) { ActSameId(s, p, ok, i); }
      SameHistory(s, t);
  }

  lemma NextHistory(s: State, step: Step)
    requires History(s) && Shape(s)
    ensures History(Next(s, step))
  {
    hide Shape, History, DoFork, DoAct;
    match step
    case Fork(p, c) => if In(s, p) && In(s, c) { ForkHistory(s, p, c); }
    case Act(p, ok) => if In(s, p) { ActHistory(s, p, ok); }
    case _ => SameHistory(s, Next(s, step));
  }

  // ---------------------------------------------------------------------
  // Runs

  function Run(s: State, steps: seq<Step>): State
    decreases |steps|
  {
    if |steps| == 0 then s else Next(Run(s, steps[..|steps| - 1]), steps[|steps| - 1])
  }

  /** userinit: n slots, of which the first is init with pid 1. */
  function Boot(n: nat): State {
    State([FREE.(status := Alive, pid := 1)] + seq(n, _ => FREE), 0, None, 2, map[], map[], [])
  }

  lemma {:induction false} RunKeeps(n: nat, steps: seq<Step>)
    ensures var s := Run(Boot(n), steps); Shape(s) && History(s)
    decreases |steps|
  {
    if |steps| > 0 {
      RunKeeps(n, steps[..|steps| - 1]);
      NextShape(Run(Boot(n), steps[..|steps| - 1]), steps[|steps| - 1]);
      NextHistory(Run(Boot(n), steps[..|steps| - 1]), steps[|steps| - 1]);
    } else {
      BootKeeps(n);
    }
  }

  lemma BootKeeps(n: nat)
    ensures Shape(Boot(n)) && History(Boot(n))
  {
  }

  /**
   In every interleaving, whenever wait_lock is free, a parent is alive (neither
   ZOMBIE nor UNUSED), and no process sleeps in kwait, or is on its way to
   sleep there, while it has a zombie child.
   */
  lemma NoForgottenZombie(n: nat, steps: seq<Step>, c: nat, q: nat)
    ensures var s := Run(Boot(n), steps);
            s.lock == None && In(s, c) && s.slots[c].parent == Some(q) ==>
            && In(s, q) && s.slots[q].status == Alive
            && (s.slots[c].status == Zombie ==> !Dozing(s.slots[q]))
  {
    RunKeeps(n, steps);
    var s := Run(Boot(n), steps);
    if In(s, c) && s.slots[c].parent == Some(q) {
      Facts(s, c, c);
      Facts(s, c, q);
    }
  }

  /**
   In every interleaving each exit is reaped at most once, with the status it
   exited with, by the process that forked it or by init; and until then the
   exited process is in the table as a zombie.
   */
  lemma ReapedOnceWithStatus(n: nat, steps: seq<Step>)
    ensures var s := Run(Boot(n), steps);
            && In(s, s.init)
            && (forall k, l :: 0 <= k < l < |s.reaps| ==> s.reaps[k].pid != s.reaps[l].pid)
            && (forall k :: 0 <= k < |s.reaps| ==> ReapOk(s, s.reaps[k], s.slots[s.init].pid))
            && (forall pid: nat :: pid in s.exits ==> Accounted(s, pid))
  {
    RunKeeps(n, steps);
  }

  // ---------------------------------------------------------------------
  // What a call does while nobody else acts

  /** n actions of process p. */
  function Acts(s: State, p: nat, ok: bool, n: nat): State
    decreases n
  {
    if n == 0 then s else Acts(Next(s, Act(p, ok)), p, ok, n - 1)
  }

  lemma {:induction false} ActsAdd(s: State, p: nat, ok: bool, n: nat, m: nat)
    ensures Acts(s, p, ok, n + m) == Acts(Acts(s, p, ok, n), p, ok, m)
    decreases n
  {
    hide Next;
    if n > 0 { ActsAdd(Next(s, Act(p, ok)), p, ok, n - 1, m); }
  }

  lemma ActsOne(s: State, p: nat, ok: bool, m: nat)
    requires m > 0
    ensures Acts(s, p, ok, m) == Acts(Next(s, Act(p, ok)), p, ok, m - 1)
  {
  }

  lemma ActsNone(s: State, p: nat)
    ensures Acts(s, p, true, 0) == s
  {
  }

  /** Slot c is in use for a child of process p. */
  predicate IsKid(s: State, p: nat, c: nat) { In(s, c) && s.slots[c].parent == Some(p) }

  ghost predicate AnyKid(s: State, p: nat) { exists c: nat :: IsKid(s, p, c) }

  predicate IsZombieKid(s: State, p: nat, c: nat) { IsKid(s, p, c) && s.slots[c].status == Zombie }

  ghost predicate ZombieKid(s: State, p: nat) { exists c: nat :: IsZombieKid(s, p, c) }

  lemma KidsFound(s: State, p: nat)
    ensures FirstZombie(s, p, 0).Some? <==> ZombieKid(s, p)
    ensures FirstZombie(s, p, 0).Some? ==> IsZombieKid(s, p, FirstZombie(s, p, 0).slot)
    ensures HasKids(s, p) <==> AnyKid(s, p)
  {
    var r := FirstZombie(s, p, 0);
    if r.Some? { assert IsZombieKid(s, p, r.slot); }
    if c: nat :| IsZombieKid(s, p, c) { assert ZombieOf(s.slots[c], p); }
    if c: nat :| IsKid(s, p, c) { assert HasKids(s, p); }
    if HasKids(s, p) {
      var c :| 0 <= c < |s.slots| && s.slots[c].parent == Some(p);
      assert IsKid(s, p, c);
    }
  }

  /**
   kwait's scan with wait_lock held. A zombie child whose own lock is free is
   reaped, or if its status cannot be copied out nothing is. Without a zombie
   child the process goes to sleep exactly if it has a child and is not killed;
   otherwise it returns, the lock is free, and nothing else has changed.
   */
  lemma ScanOutcome(s: State, p: nat, ok: bool)
    requires Shape(s) && In(s, p) && s.slots[p].pc == Scanning
    requires forall c: nat :: IsZombieKid(s, p, c) ==> !s.slots[c].plock
    ensures var t := Next(s, Act(p, ok));
            && |t.slots| == |s.slots|
            && (t.slots[p].pc == Committed <==> !ZombieKid(s, p) && AnyKid(s, p) && !s.slots[p].killed)
            && (t.slots[p].pc == Committed ==> t == s.(slots := s.slots[p := s.slots[p].(pc := Committed)]))
            && (t.slots[p].pc != Committed && !(ZombieKid(s, p) && ok) ==> t == s.(slots := s.slots[p := s.slots[p].(pc := User)], lock := None))
            && (ZombieKid(s, p) && ok ==> exists c: nat :: IsZombieKid(s, p, c) && Freed(s, t, p, c))
  {
    hide Shape, FirstZombie, HasKids, ZombieKid, AnyKid;
    KidsFound(s, p);
    var r := FirstZombie(s, p, 0);
    if r.Some? {
      NotOwnKid(s, p);
      if ok { assert Freed(s, Next(s, Act(p, ok)), p, r.slot); }
    }
  }

  /** Process p has reaped slot c: the slot is free, its pid and status are recorded, and p is back with the lock released. */
  predicate Freed(s: State, t: State, p: nat, c: nat) {
    && In(s, p) && In(s, c) && p != c
    && t == s.(slots := s.slots[p := s.slots[p].(pc := User)][c := FREE], lock := None,
               reaps := s.reaps + [Reap(s.slots[c].pid, s.slots[c].xstate, s.slots[p].pid)])
  }

  /** kfork: a child with a new pid, alive and with p as its parent; or, if the copy fails, a pid used up and nothing else. */
  lemma ForkAlone(s: State, p: nat, c: nat)
    requires Shape(s) && s.lock == None && In(s, p) && In(s, c) && s.slots[p].status == Alive && s.slots[p].pc == User && s.slots[c].status == Unused
    ensures var child := Slot(Alive, Some(p), s.nextpid, 0, User, false, false, false, p);
            Acts(Next(s, Fork(p, c)), p, true, 2)
            == s.(slots := s.slots[c := child], nextpid := s.nextpid + 1, born := s.born[s.nextpid := s.slots[p].pid])
    ensures Acts(Next(s, Fork(p, c)), p, false, 1) == s.(slots := s.slots[c := FREE], nextpid := s.nextpid + 1)
  {
    hide Shape;
    var s1 := Next(s, Fork(p, c));
    var x := s.slots[p];
    assert p != c && s1.slots[p] == x.(pc := Forking(c));
    assert Next(s1, Act(p, false)).slots == s.slots[c := FREE];
    ActsOne(s1, p, false, 1);
    var s2 := Next(s1, Act(p, true));
    assert s2.slots[p] == x.(pc := Adopted(c)) && s2.slots[c].parent == Some(p);
    var s3 := Next(s2, Act(p, true));
    assert s3.slots[p] == x;
    ActsOne(s1, p, true, 2);
    ActsOne(s2, p, true, 1);
    assert s3.slots == s.slots[c := Slot(Alive, Some(p), s.nextpid, 0, User, false, false, false, p)];
  }

  /** kwait up to its scan. */
  lemma WaitTakesLock(s: State, p: nat)
    requires s.lock == None && In(s, p) && s.slots[p].status == Alive && s.slots[p].pc == User
    ensures Acts(Next(s, Wait(p)), p, true, 1) == s.(slots := s.slots[p := s.slots[p].(pc := Scanning)], lock := Some(p))
  {
    var s1 := Next(s, Wait(p));
    ActsOne(s1, p, true, 1);
  }

  /** sleep(p, &wait_lock) of a process that has decided to sleep. */
  lemma SleepAlone(s: State, p: nat)
    requires In(s, p) && s.slots[p].pc == Committed
    ensures Acts(s, p, true, 3) == s.(slots := s.slots[p := s.slots[p].(pc := Parked, plock := false, asleep := true)], lock := None)
  {
    var s1 := Next(s, Act(p, true));
    var s2 := Next(s1, Act(p, true));
    assert s2.slots[p] == s.slots[p].(pc := Marking, plock := true);
    var s3 := Next(s2, Act(p, true));
    ActsOne(s, p, true, 3);
    ActsOne(s1, p, true, 2);
    ActsOne(s2, p, true, 1);
    assert s3.slots == s.slots[p := s.slots[p].(pc := Parked, plock := false, asleep := true)];
  }

  /**
   kwait while wait_lock is free: with a zombie child it reaps one at once;
   without children, or killed, it returns with everything as it was; otherwise
   it ends asleep, with both locks free and everything else as it was.
   */
  lemma WaitAlone(s: State, p: nat)
    requires Shape(s) && s.lock == None && In(s, p) && s.slots[p].status == Alive && s.slots[p].pc == User
    requires forall c: nat :: IsZombieKid(s, p, c) ==> !s.slots[c].plock
    ensures if ZombieKid(s, p) then exists c: nat :: IsZombieKid(s, p, c) && Freed(s, Acts(Next(s, Wait(p)), p, true, 2), p, c)
            else if !AnyKid(s, p) || s.slots[p].killed then Acts(Next(s, Wait(p)), p, true, 2) == s
            else Acts(Next(s, Wait(p)), p, true, 5) == s.(slots := s.slots[p := s.slots[p].(pc := Parked, asleep := true)])
  {
    hide Shape, Next, Acts, AnyKid, ZombieKid;
    var s0 := Next(s, Wait(p));
    var s1 := s.(slots := s.slots[p := s.slots[p].(pc := Scanning)], lock := Some(p));
    WaitTakesLock(s, p);
    NextShape(s, Wait(p));
    ActsShape(s0, p, 1);
    NotOwnKid(s, p);
    KidsSame(s, s1, p);
    ScanOutcome(s1, p, true);
    var t := Next(s1, Act(p, true));
    ActsAdd(s0, p, true, 1, 1);
    ActsLast(s1, p);
    if ZombieKid(s, p) {
      var c: nat :| IsZombieKid(s1, p, c) && Freed(s1, t, p, c);
      assert s1.slots[p].(pc := User) == s.slots[p];
      assert Freed(s, t, p, c);
    } else if AnyKid(s, p) && !s.slots[p].killed {
      SleepAlone(t, p);
      ActsAdd(s0, p, true, 2, 3);
      UserUnlocked(s, p);
      assert Acts(s0, p, true, 5).slots == s.slots[p := s.slots[p].(pc := Parked, asleep := true)];
    } else {
      assert t.slots == s.slots;
    }
  }

  lemma UserUnlocked(s: State, p: nat)
    requires Shape(s) && In(s, p) && s.slots[p].pc == User
    ensures !s.slots[p].plock
  {
    Facts(s, p, p);
  }

  lemma NotOwnKid(s: State, p: nat)
    requires Shape(s) && In(s, p)
    ensures !IsKid(s, p, p)
  {
    Facts(s, p, p);
  }

  lemma KidsSame(s: State, s1: State, p: nat)
    requires In(s, p) && In(s1, p) && s1.slots == s.slots[p := s1.slots[p]] && s1.slots[p].parent == s.slots[p].parent && !IsKid(s, p, p)
    ensures forall c: nat :: IsKid(s1, p, c) <==> IsKid(s, p, c)
    ensures forall c: nat :: IsKid(s, p, c) ==> s1.slots[c] == s.slots[c]
    ensures AnyKid(s1, p) <==> AnyKid(s, p)
    ensures ZombieKid(s1, p) <==> ZombieKid(s, p)
  {
    forall c: nat ensures (IsKid(s1, p, c) <==> IsKid(s, p, c)) && (IsZombieKid(s1, p, c) <==> IsZombieKid(s, p, c)) {}
  }

  // ---------------------------------------------------------------------
  // kexit

  /** Slot i once reparent of process p has passed the slots before `at`. */
  function Orphaned(s: State, p: nat, at: nat, i: nat): Slot
    requires In(s, i)
  {
    s.slots[i].(parent := if i < at && s.slots[i].parent == Some(p) then Some(s.init) else s.slots[i].parent,
                asleep := s.slots[i].asleep && !(i == s.init && KidBelow(s, p, at)))
  }

  predicate KidBelow(s: State, p: nat, at: nat) { exists c: nat :: c < at && IsKid(s, p, c) }

  /** reparent of p, which began in s, has reached slot `at` in t. */
  ghost predicate Passed(s: State, t: State, p: nat, code: int, at: nat) {
    && In(s, p) && |t.slots| == |s.slots| && t == s.(slots := t.slots, lock := Some(p))
    && t.slots[p] == s.slots[p].(pc := Reparenting(code, at))
    && forall i: nat :: In(s, i) && i != p ==> t.slots[i] == Orphaned(s, p, at, i)
  }

  /** How many actions reparent takes from slot `at` on. */
  function ReparentActs(s: State, p: nat, at: nat): nat
    decreases |s.slots| - at
  {
    if at >= |s.slots| then 0 else (if IsKid(s, p, at) then 2 else 1) + ReparentActs(s, p, at + 1)
  }

  lemma KidHere(s: State, p: nat, at: nat)
    requires IsKid(s, p, at)
    ensures KidBelow(s, p, at + 1)
  {
  }

  /** reparent hands a child to init, and then wakes init. */
  lemma MovesKid(t: State, p: nat, code: int, at: nat)
    requires In(t, p) && In(t, at) && p != at && t.slots[p].pc == Reparenting(code, at) && t.slots[at].parent == Some(p)
    ensures Next(t, Act(p, true)) == t.(slots := t.slots[at := t.slots[at].(parent := Some(t.init))][p := t.slots[p].(pc := NotifyInit(code, at))])
  {
  }

  lemma WakesInit(t: State, p: nat, code: int, at: nat)
    requires In(t, p) && In(t, t.init) && p != t.init && t.slots[p].pc == NotifyInit(code, at) && !t.slots[t.init].plock
    ensures Next(t, Act(p, true)) == t.(slots := t.slots[t.init := t.slots[t.init].(asleep := false)][p := t.slots[p].(pc := Reparenting(code, at + 1))])
  {
  }

  lemma PassKid(s: State, t: State, p: nat, code: int, at: nat)
    requires Passed(s, t, p, code, at) && IsKid(s, p, at) && p != s.init && !IsKid(s, p, p) && In(s, s.init) && !s.slots[s.init].plock
    ensures Passed(s, Acts(t, p, true, 2), p, code, at + 1)
  {
    hide KidBelow, Next, Acts;
    assert at != p && t.slots[at] == Orphaned(s, p, at, at) && t.slots[s.init] == Orphaned(s, p, at, s.init);
    KidHere(s, p, at);
    MovesKid(t, p, code, at);
    var t1 := Next(t, Act(p, true));
    WakesInit(t1, p, code, at);
    var t2 := Next(t1, Act(p, true));
    ActsOne(t, p, true, 2);
    ActsLast(t1, p);
    forall i: nat | In(s, i) && i != p ensures t2.slots[i] == Orphaned(s, p, at + 1, i) { assert t.slots[i] == Orphaned(s, p, at, i); }
  }

  lemma PassOther(s: State, t: State, p: nat, code: int, at: nat)
    requires Passed(s, t, p, code, at) && at < |s.slots| && !IsKid(s, p, at) && p != s.init && !IsKid(s, p, p)
    ensures Passed(s, Acts(t, p, true, 1), p, code, at + 1)
  {
    var t1 := Next(t, Act(p, true));
    ActsOne(t, p, true, 1);
    assert at != p ==> t.slots[at] == Orphaned(s, p, at, at);
    assert KidBelow(s, p, at + 1) <==> KidBelow(s, p, at);
    hide KidBelow;
    forall i: nat | In(s, i) && i != p ensures t1.slots[i] == Orphaned(s, p, at + 1, i) { assert t.slots[i] == Orphaned(s, p, at, i); }
  }

  lemma {:induction false} PassAll(s: State, t: State, p: nat, code: int, at: nat)
    requires Passed(s, t, p, code, at) && at <= |s.slots| && p != s.init && !IsKid(s, p, p) && In(s, s.init) && !s.slots[s.init].plock
    ensures Passed(s, Acts(t, p, true, ReparentActs(s, p, at)), p, code, |s.slots|)
    decreases |s.slots| - at
  {
    hide Passed, Next, Acts;
    if at == |s.slots| {
      ActsNone(t, p);
    } else {
      var n := if IsKid(s, p, at) then 2 else 1;
      if IsKid(s, p, at) { PassKid(s, t, p, code, at); } else { PassOther(s, t, p, code, at); }
      PassAll(s, Acts(t, p, true, n), p, code, at + 1);
      ActsAdd(t, p, true, n, ReparentActs(s, p, at + 1));
    }
  }

  /** After kexit(code) of p, with q its parent. */
  ghost predicate Exited(s: State, t: State, p: nat, q: nat, code: int) {
    && In(s, p) && |t.slots| == |s.slots| && t == s.(slots := t.slots, exits := s.exits[s.slots[p].pid := code])
    && t.slots[p] == s.slots[p].(status := Zombie, xstate := code, pc := Dead)
    && forall i: nat :: In(s, i) && i != p ==>
         t.slots[i] == s.slots[i].(parent := if s.slots[i].parent == Some(p) then Some(s.init) else s.slots[i].parent,
                                   asleep := s.slots[i].asleep && i != q && !(i == s.init && KidBelow(s, p, |s.slots|)))
  }

  function ExitActs(s: State, p: nat): nat { 1 + ReparentActs(s, p, 0) + 4 }

  /** kexit's last four actions: it wakes its parent, becomes a zombie and lets go of both locks. */
  lemma DieAlone(s: State, t: State, p: nat, q: nat, code: int)
    requires Passed(s, t, p, code, |s.slots|) && s.lock == None && s.slots[p].parent == Some(q) && In(s, q) && q != p && !s.slots[q].plock && !s.slots[p].plock
    ensures Exited(s, Acts(t, p, true, 4), p, q, code)
  {
    var t1 := Next(t, Act(p, true));
    assert t1.slots[p].pc == NotifyParent(code) && t1.slots[q] == Orphaned(s, p, |s.slots|, q);
    var t2 := Next(t1, Act(p, true));
    assert t2.slots[p].pc == Dying(code);
    var t3 := Next(t2, Act(p, true));
    var t4 := Next(t3, Act(p, true));
    ActsOne(t, p, true, 4);
    ActsOne(t1, p, true, 3);
    ActsOne(t2, p, true, 2);
    ActsOne(t3, p, true, 1);
    forall i: nat | In(s, i) && i != p
      ensures t4.slots[i] == s.slots[i].(parent := if s.slots[i].parent == Some(p) then Some(s.init) else s.slots[i].parent,
                                         asleep := s.slots[i].asleep && i != q && !(i == s.init && KidBelow(s, p, |s.slots|)))
    {
      assert t.slots[i] == Orphaned(s, p, |s.slots|, i);
    }
  }

  /**
   kexit while wait_lock is free: the process is a zombie with its status,
   every child of its has init as parent, its parent is awake, and init is if it
   has got a child; nothing else has changed and no lock is held.
   */
  lemma ExitAlone(s: State, p: nat, q: nat, code: int)
    requires Shape(s) && s.lock == None && In(s, p) && s.slots[p].status == Alive && s.slots[p].pc == User && p != s.init
    requires s.slots[p].parent == Some(q) && In(s, q) && !s.slots[q].plock && In(s, s.init) && !s.slots[s.init].plock
    ensures Exited(s, Acts(Next(s, Exit(p, code)), p, true, ExitActs(s, p)), p, q, code)
  {
    hide Shape, Next, Acts, Passed, Exited, ReparentActs;
    NotOwnKid(s, p);
    UserUnlocked(s, p);
    var s0 := Next(s, Exit(p, code));
    var s1 := Acts(s0, p, true, 1);
    ExitBegins(s, p, code);
    PassAll(s, s1, p, code, 0);
    DieAlone(s, Acts(s1, p, true, ReparentActs(s, p, 0)), p, q, code);
    ActsAdd(s0, p, true, 1, ReparentActs(s, p, 0));
    ActsAdd(s0, p, true, 1 + ReparentActs(s, p, 0), 4);
  }

  lemma ExitBegins(s: State, p: nat, code: int)
    requires s.lock == None && In(s, p) && s.slots[p].status == Alive && s.slots[p].pc == User && p != s.init
    ensures Passed(s, Acts(Next(s, Exit(p, code)), p, true, 1), p, code, 0)
  {
    var s0 := Next(s, Exit(p, code));
    ActsOne(s0, p, true, 1);
    var s1 := Next(s0, Act(p, true));
    assert s1.slots[p] == s.slots[p].(pc := Reparenting(code, 0));
    forall i: nat | In(s, i) && i != p ensures s1.slots[i] == Orphaned(s, p, 0, i) { assert s1.slots[i] == s.slots[i]; }
  }

  /** A woken process is back at its scan after three actions. */
  lemma WakesUp(s: State, q: nat)
    requires s.lock == None && In(s, q) && s.slots[q].pc == Parked && !s.slots[q].asleep
    ensures Acts(Next(s, Schedule(q)), q, true, 2) == s.(slots := s.slots[q := s.slots[q].(pc := Scanning, plock := false)], lock := Some(q))
  {
    var s1 := Next(s, Schedule(q));
    assert s1 == s.(slots := s.slots[q := s1.slots[q]]);
    var s2 := Next(s1, Act(q, true));
    assert s2 == s.(slots := s.slots[q := s2.slots[q]]);
    ActsOne(s1, q, true, 2);
    ActsLast(s2, q);
    assert Next(s2, Act(q, true)).slots == s.slots[q := s.slots[q].(pc := Scanning, plock := false)];
  }

  /**
   A parent asleep in kwait gets the exit of its child: the child exits, the
   parent runs again and reaps that very child, with the status it exited with.
   (Init may find a zombie that the child has left to it first.)
   */
  lemma WaitGetsStatus(s: State, q: nat, p: nat, code: int)
    requires Shape(s) && s.lock == None && In(s, q) && s.slots[q].pc == Parked && s.slots[q].asleep
    requires In(s, p) && s.slots[p].status == Alive && s.slots[p].pc == User && p != s.init && s.slots[p].parent == Some(q)
    requires In(s, s.init) && !s.slots[s.init].plock && (q == s.init ==> !AnyKid(s, p))
    ensures var t := Acts(Next(Acts(Next(s, Exit(p, code)), p, true, ExitActs(s, p)), Schedule(q)), q, true, 3);
            && |t.slots| == |s.slots| && t.lock == None && t.slots[q].pc == User && t.slots[p] == FREE
            && t.reaps == s.reaps + [Reap(s.slots[p].pid, code, s.slots[q].pid)]
  {
    hide Shape, Next, Acts, Exited, Freed;
    Facts(s, p, q);
    var s0 := Next(s, Exit(p, code));
    var t := Acts(s0, p, true, ExitActs(s, p));
    ExitAlone(s, p, q, code);
    NextShape(s, Exit(p, code));
    ActsShape(s0, p, ExitActs(s, p));
    AfterExit(s, t, p, q, code);
    var t0 := Next(t, Schedule(q));
    NextShape(t, Schedule(q));
    WakesUp(t, q);
    ActsShape(t0, q, 2);
    var t1 := Acts(t0, q, true, 2);
    OnlyZombie(s, t, t1, p, q, code);
    ScanOutcome(t1, q, true);
    assert IsZombieKid(t1, q, p);
    var c: nat :| IsZombieKid(t1, q, c) && Freed(t1, Next(t1, Act(q, true)), q, c);
    assert c == p;
    FreedIs(t1, Next(t1, Act(q, true)), q, p);
    ActsAdd(t0, q, true, 2, 1);
    ActsLast(t1, q);
  }

  lemma ActsLast(s: State, p: nat)
    ensures Acts(s, p, true, 1) == Next(s, Act(p, true))
  {
    ActsOne(s, p, true, 1);
  }

  lemma FreedIs(s: State, t: State, p: nat, c: nat)
    requires Freed(s, t, p, c)
    ensures |t.slots| == |s.slots| && In(s, p) && In(s, c) && t.lock == None && t.slots[p].pc == User && t.slots[c] == FREE
    ensures t.reaps == s.reaps + [Reap(s.slots[c].pid, s.slots[c].xstate, s.slots[p].pid)]
  {
  }

  lemma {:induction false} ActsShape(s: State, p: nat, n: nat)
    requires Shape(s)
    ensures Shape(Acts(s, p, true, n))
    decreases n
  {
    hide Shape, Next;
    if n > 0 {
      NextShape(s, Act(p, true));
      ActsShape(Next(s, Act(p, true)), p, n - 1);
    }
  }

  lemma AfterExit(s: State, t: State, p: nat, q: nat, code: int)
    requires Exited(s, t, p, q, code) && s.lock == None && In(s, q) && q != p && s.slots[q].pc == Parked
    ensures |t.slots| == |s.slots| && t.lock == None && In(t, q) && t.slots[q].pc == Parked && !t.slots[q].asleep && t.reaps == s.reaps
    ensures t.slots[q].pid == s.slots[q].pid && t.slots[p].pid == s.slots[p].pid && t.slots[p].xstate == code
  {
  }

  /** A sleeping parent had no zombie child, so the one that exited is the only one. */
  lemma OnlyZombie(s: State, t: State, t1: State, p: nat, q: nat, code: int)
    requires Shape(s) && s.lock == None && Exited(s, t, p, q, code) && In(s, q) && q != p && s.slots[q].asleep && s.slots[p].parent == Some(q)
    requires s.slots[p].pc == User && (q == s.init ==> !AnyKid(s, p))
    requires t1 == t.(slots := t.slots[q := t.slots[q].(pc := Scanning, plock := false)], lock := Some(q))
    ensures IsKid(t1, q, p) && t1.slots[p].status == Zombie && t1.reaps == s.reaps
    ensures t1.slots[p].pid == s.slots[p].pid && t1.slots[p].xstate == code && t1.slots[q].pid == s.slots[q].pid
    ensures forall c: nat :: IsZombieKid(t1, q, c) ==> c == p && !t1.slots[c].plock
  {
    hide Shape;
    Facts(s, p, q);
    NotOwnKid(s, q);
    NotOwnKid(s, p);
    forall c: nat | IsZombieKid(t1, q, c) ensures c == p && !t1.slots[c].plock {
      if c != p {
        assert c != q && In(s, c);
        assert !IsKid(s, p, c) || q != s.init;
        Facts(s, c, q);
      }
    }
  }

  /** A killed process asleep in kwait runs again and returns. */
  lemma KillEndsWait(s: State, p: nat)
    requires Shape(s) && s.lock == None && In(s, p) && s.slots[p].pc == Parked && s.slots[p].asleep
    requires !ZombieKid(s, p)
    ensures Acts(Next(Next(s, Kill(p)), Schedule(p)), p, true, 3)
            == s.(slots := s.slots[p := s.slots[p].(pc := User, killed := true, asleep := false)])
  {
    hide Shape, Next, Acts;
    Facts(s, p, p);
    NotOwnKid(s, p);
    var s1 := Next(s, Kill(p));
    KillSets(s, p);
    NextShape(s, Kill(p));
    var s2 := Next(s1, Schedule(p));
    NextShape(s1, Schedule(p));
    WakesUp(s1, p);
    ActsShape(s2, p, 2);
    var s3 := Acts(s2, p, true, 2);
    KidsSame(s, s3, p);
    ScanOutcome(s3, p, true);
    ActsAdd(s2, p, true, 2, 1);
    ActsLast(s3, p);
    assert Next(s3, Act(p, true)).slots == s.slots[p := s.slots[p].(pc := User, killed := true, asleep := false)];
  }

  lemma KillSets(s: State, p: nat)
    requires In(s, p) && !s.slots[p].plock
    ensures Next(s, Kill(p)) == s.(slots := s.slots[p := s.slots[p].(killed := true, asleep := false)])
  {
  }

  /** A process that waits while wait_lock is free and a child of its own is a zombie reaps one, at once. */
  lemma WaitWorks(s: State, p: nat, c: nat)
    requires Shape(s) && s.lock == None && In(s, p) && s.slots[p].pc == WaitWant && In(s, c) && ZombieOf(s.slots[c], p)
    requires forall d: nat :: In(s, d) && ZombieOf(s.slots[d], p) ==> !s.slots[d].plock
    ensures var s1 := DoAct(s, p, true);
            && In(s1, p) && s1.slots[p].pc == Scanning && FirstZombie(s1, p, 0).Some?
            && DoAct(s1, p, true) == Reaped(s1, p, FirstZombie(s1, p, 0).slot)
  {
    hide Shape;
    Facts(s, p, c);
    var s1 := DoAct(s, p, true);
    assert c != p && ZombieOf(s1.slots[c], p);
    var r := FirstZombie(s1, p, 0);
    Facts(s, p, p);
    assert r.Some? && r.slot != p;
    assert s1.slots[r.slot] == s.slots[r.slot];
  }

  /** kwait's scanning loop: the first zombie child, or else whether there is any child. */
  method ScanTable(s: State, p: nat) returns (found: Ref, havekids: bool)
    ensures found == FirstZombie(s, p, 0)
    ensures found == None ==> (havekids <==> HasKids(s, p))
  {
    havekids := false;
    var i := 0;
    while i < |s.slots|
      invariant i <= |s.slots| && FirstZombie(s, p, i) == FirstZombie(s, p, 0)
      invariant havekids <==> exists c :: 0 <= c < i && s.slots[c].parent == Some(p)
    {
      if s.slots[i].parent == Some(p) {
        havekids := true;
        if s.slots[i].status == Zombie { return Some(i), true; }
      }
      i := i + 1;
    }
    found := None;
  }
}
