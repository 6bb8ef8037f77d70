/**
 The pipe of kernel/pipe.c: a ring of PIPESIZE bytes between two counters that
 wrap at 32 bits. A step is what one caller does while it holds the pipe's
 lock: from taking it until it returns or sleeps.
 */
module Pipe {
  import opened Common

  const PIPESIZE: nat := 512
  const TWO32: nat := 0x1_0000_0000

  datatype Ring = Ring(data: seq<Byte>, nread: nat, nwrite: nat, readopen: bool, writeopen: bool)

  predicate Valid(p: Ring) {
    |p.data| == PIPESIZE && p.nread < TWO32 && p.nwrite < TWO32 && Occupancy(p) <= PIPESIZE
  }

  /** Bytes in the ring: the difference of the counters as unsigned 32-bit numbers. */
  function Occupancy(p: Ring): nat { (p.nwrite - p.nread) % TWO32 }

  /** The bytes in the ring, oldest first. */
  function Buffered(p: Ring): (s: seq<Byte>)
    requires Valid(p)
  {
    seq(Occupancy(p), k requires 0 <= k < Occupancy(p) => p.data[(p.nread + k) % PIPESIZE])
  }

  predicate Full(p: Ring) { p.nwrite == (p.nread + PIPESIZE) % TWO32 }

  predicate Empty(p: Ring) { p.nread == p.nwrite }

  lemma FullEmpty(p: Ring)
    requires Valid(p)
    ensures Full(p) <==> Occupancy(p) == PIPESIZE
    ensures Empty(p) <==> Occupancy(p) == 0
  {
  }

  lemma OccupancyBound(p: Ring)
    requires Valid(p)
    ensures Occupancy(p) <= PIPESIZE && |Buffered(p)| == Occupancy(p)
  {
  }

  function Push(p: Ring, ch: Byte): Ring
    requires Valid(p)
  {
    p.(data := p.data[p.nwrite % PIPESIZE := ch], nwrite := (p.nwrite + 1) % TWO32)
  }

  function Pop(p: Ring): Ring { p.(nread := (p.nread + 1) % TWO32) }

  /** Reducing at 2^32 first does not change a ring index. */
  lemma IndexWraps(a: nat, k: nat, b: nat)
    requires a < TWO32 && k <= PIPESIZE && b == (a + k) % TWO32
    ensures b % PIPESIZE == (a + k) % PIPESIZE
  {
    if a + k < TWO32 {
      assert b == a + k;
    } else {
      assert b == a + k - TWO32;
      assert a + k == b + 8388608 * PIPESIZE;
    }
  }

  lemma IndexApart(a: nat, k: nat, n: nat)
    requires k < n < PIPESIZE
    ensures (a + k) % PIPESIZE != (a + n) % PIPESIZE
  {
  }

  lemma PushOccupancy(p: Ring, ch: Byte)
    requires Valid(p) && !Full(p)
    ensures Occupancy(Push(p, ch)) == Occupancy(p) + 1 <= PIPESIZE
    ensures p.nwrite % PIPESIZE == (p.nread + Occupancy(p)) % PIPESIZE
  {
    hide Full;
    FullEmpty(p);
    Behind(p.nread, p.nwrite, Occupancy(p));
    IndexWraps(p.nread, Occupancy(p), p.nwrite);
  }

  /** Moving the writing counter one up adds one to the difference. */
  lemma Behind(r: nat, w: nat, n: nat)
    requires r < TWO32 && w < TWO32 && n == (w - r) % TWO32 && n < PIPESIZE
    ensures ((w + 1) % TWO32 - r) % TWO32 == n + 1 && w == (r + n) % TWO32
  {
    if w >= r {
      assert n == w - r;
    } else {
      assert n == w - r + TWO32;
    }
  }

  /** A byte goes in at the end; no counter value is special. */
  lemma PushAppends(p: Ring, ch: Byte)
    requires Valid(p) && !Full(p)
    ensures Valid(Push(p, ch)) && Buffered(Push(p, ch)) == Buffered(p) + [ch] && Occupancy(Push(p, ch)) == Occupancy(p) + 1
  {
    hide Full, Occupancy;
    var q := Push(p, ch);
    PushOccupancy(p, ch);
    assert Valid(q);
    forall k | 0 <= k < Occupancy(p) ensures Buffered(q)[k] == Buffered(p)[k] { IndexApart(p.nread, k, Occupancy(p)); }
    assert Buffered(q)[Occupancy(p)] == ch;
  }

  lemma PopOccupancy(p: Ring)
    requires Valid(p) && !Empty(p)
    ensures Occupancy(p) > 0 && Occupancy(Pop(p)) == Occupancy(p) - 1
    ensures Pop(p).nread % PIPESIZE == (p.nread + 1) % PIPESIZE
  {
    hide Empty;
    FullEmpty(p);
    Ahead(p.nread, p.nwrite, Occupancy(p));
    IndexWraps(p.nread, 1, Pop(p).nread);
  }

  /** Moving the reading counter one up takes one off the difference. */
  lemma Ahead(r: nat, w: nat, n: nat)
    requires r < TWO32 && w < TWO32 && n == (w - r) % TWO32 && 0 < n <= PIPESIZE
    ensures (w - (r + 1) % TWO32) % TWO32 == n - 1
  {
    if w >= r {
      assert n == w - r;
    } else {
      assert n == w - r + TWO32;
    }
  }

  /** A byte comes out at the front. */
  lemma PopFirst(p: Ring)
    requires Valid(p) && !Empty(p)
    ensures Valid(Pop(p)) && Buffered(p) == [p.data[p.nread % PIPESIZE]] + Buffered(Pop(p)) && Occupancy(Pop(p)) == Occupancy(p) - 1
  {
    hide Occupancy, Empty;
    var q := Pop(p);
    PopOccupancy(p);
    assert Valid(q);
    forall k | 0 <= k < Occupancy(q) ensures Buffered(q)[k] == Buffered(p)[k + 1] { ModAdd(q.nread, p.nread + 1, k); }
  }

  lemma ModAdd(a: nat, b: nat, k: nat)
    requires a % PIPESIZE == b % PIPESIZE
    ensures (a + k) % PIPESIZE == (b + k) % PIPESIZE
  {
    var r := a % PIPESIZE;
    ModMultiple(r + k, a / PIPESIZE);
    ModMultiple(r + k, b / PIPESIZE);
    assert a + k == r + k + 512 * (a / PIPESIZE) && b + k == r + k + 512 * (b / PIPESIZE);
  }

  lemma ModMultiple(x: int, q: int)
    ensures (x + 512 * q) % PIPESIZE == x % PIPESIZE
  {
  }

  // ---------------------------------------------------------------------
  // One caller holding the lock

  datatype Outcome = Asleep | Returned(value: int)

  datatype Written = Written(p: Ring, i: nat, outcome: Outcome)

  /**
   pipewrite's loop from byte i on, until it sleeps or returns. `src` is what
   copyin can read at the source address, and the caller is seen killed from
   byte `killed` on.
   */
  function WriteLoop(p: Ring, src: seq<Byte>, n: int, i: nat, killed: nat): Written
    requires Valid(p)
    decreases n - i
  {
    if i >= n then Written(p, i, Returned(i))
    else if !p.readopen || killed <= i then Written(p, i, Returned(-1))
    else if Full(p) then Written(p, i, Asleep)
    else if i >= |src| then Written(p, i, Returned(i))
    else
      PushAppends(p, src[i]);
      WriteLoop(Push(p, src[i]), src, n, i + 1, killed)
  }

  datatype Delivered = Delivered(p: Ring, bytes: seq<Byte>, value: int)

  /** piperead's loop from byte i on; copyout can write `room` bytes at the destination. */
  function ReadLoop(p: Ring, n: int, room: nat, i: nat): Delivered
    requires Valid(p)
    decreases n - i
  {
    if i >= n || Empty(p) then Delivered(p, [], i)
    else if i >= room then Delivered(p, [], if i == 0 then -1 else i)
    else
      PopFirst(p);
      var ch := p.data[p.nread % PIPESIZE];
      var rest := ReadLoop(Pop(p), n, room, i + 1);
      rest.(bytes := [ch] + rest.bytes)
  }

  /**
   A write appends a prefix of the remaining source bytes. It sleeps only on a
   full pipe, returns the count only at the end or where the source cannot be
   read, and -1 only if the read end is closed or its process is killed.
   */
  lemma {:induction false} WriteEffect(p: Ring, src: seq<Byte>, n: int, i: nat, killed: nat)
    requires Valid(p) && i <= |src|
    ensures var w := WriteLoop(p, src, n, i, killed);
            && Valid(w.p) && i <= w.i <= |src| && (w.i > i ==> w.i <= n)
            && Buffered(w.p) == Buffered(p) + src[i..w.i]
            && w.p.readopen == p.readopen && w.p.writeopen == p.writeopen
            && (w.outcome == Asleep ==> Full(w.p) && p.readopen)
            && (w.outcome != Asleep ==> w.outcome.value == w.i || w.outcome.value == -1)
            && (w.outcome == Returned(w.i) ==> w.i >= n || w.i == |src|)
            && (w.outcome == Returned(-1) ==> w.i < n && (!p.readopen || killed <= w.i))
    decreases n - i
  {
    if i < n && p.readopen && i < killed && !Full(p) && i < |src| {
      PushAppends(p, src[i]);
      WriteEffect(Push(p, src[i]), src, n, i + 1, killed);
      var w := WriteLoop(p, src, n, i, killed);
      assert src[i..w.i] == [src[i]] + src[i + 1..w.i];
    } else {
      assert src[i..i] == [];
    }
  }

  /** A read delivers a prefix of the buffered bytes, exactly as many as it reports; a byte that cannot be copied out stays. */
  lemma {:induction false} ReadEffect(p: Ring, n: int, room: nat, i: nat)
    requires Valid(p)
    ensures var r := ReadLoop(p, n, room, i);
            && Valid(r.p) && r.p.readopen == p.readopen && r.p.writeopen == p.writeopen
            && Buffered(p) == r.bytes + Buffered(r.p)
            && (r.value == i + |r.bytes| || (r.value == -1 && i == 0 && r.bytes == []))
            && |r.bytes| == Min(Min(Left(n, i), Left(room, i)), Occupancy(p))
    decreases n - i
  {
    hide Valid, Occupancy, Buffered, Empty;
    FullEmpty(p);
    if i < n && !Empty(p) && i < room {
      PopFirst(p);
      ReadEffect(Pop(p), n, room, i + 1);
    }
  }

  function Left(n: int, i: nat): nat { if i < n then n - i else 0 }

  // ---------------------------------------------------------------------
  // Runs

  /** A call of pipewrite: its readable source bytes, the count asked for, the bytes added so far, and how its last turn ended. */
  datatype Call = Call(src: seq<Byte>, n: int, i: nat, outcome: Outcome)

  /** `writes` lists all calls of pipewrite, `writers` those asleep; `tags` names the call that added each byte of `sent`. */
  datatype State = State(
    p: Ring,
    readers: set<nat>,
    writes: seq<Call>,
    writers: set<nat>,
    sent: seq<Byte>,
    tags: seq<nat>,
    got: seq<Byte>,
    frees: nat)

  /** A call of pipewrite starts, or goes on after a wake-up; a process in pipewrite holds the write end open. */
  datatype Step =
    | Write(src: seq<Byte>, n: int, killed: nat)
    | Resume(id: nat, killed: nat)
    | Read(pid: nat, n: int, room: nat, dead: bool)
    | CloseWrite
    | CloseRead
    | WakeReader(pid: nat)
    | WakeWriter(id: nat)

  /** pipealloc: whatever the page held before. */
  function Opened(data: seq<Byte>): Ring { Ring(data, 0, 0, true, true) }

  function Closed(s: State): State {
    if !s.p.readopen && !s.p.writeopen then s.(frees := s.frees + 1) else s
  }

  /** Some call is between its start and its return. */
  predicate Writing(s: State) { exists id :: 0 <= id < |s.writes| && s.writes[id].outcome == Asleep }

  /** The call that takes the pipe's lock in this step. */
  function Turn(s: State, step: Step): Option<Call> {
    if step.Write? && s.p.writeopen then Some(Call(step.src, step.n, 0, Asleep))
    else if step.Resume? && step.id < |s.writes| && s.writes[step.id].outcome == Asleep && step.id !in s.writers then Some(s.writes[step.id])
    else None
  }

  /** Call number id, standing at c, holds the lock until it sleeps or returns. */
  function Carry(s: State, id: nat, c: Call, killed: nat): State
    requires Valid(s.p) && c.i <= |c.src| && id <= |s.writes|
  {
    var w := WriteLoop(s.p, c.src, c.n, c.i, killed);
    WriteEffect(s.p, c.src, c.n, c.i, killed);
    var added, now := c.src[c.i..w.i], c.(i := w.i, outcome := w.outcome);
    var s1 := s.(p := w.p, sent := s.sent + added, tags := s.tags + seq(|added|, _ => id),
                 writes := if id < |s.writes| then s.writes[id := now] else s.writes + [now]);
    if w.outcome == Asleep then s1.(writers := s.writers + {id}, readers := {})
    else if w.outcome.value == -1 then s1
    else s1.(readers := {})
  }

  function Next(s: State, step: Step): State
    requires Valid(s.p) && CallsOk(s)
  {
    match step
    case Write(src, n, killed) => if s.p.writeopen then Carry(s, |s.writes|, Call(src, n, 0, Asleep), killed) else s
    case Resume(id, killed) => if Turn(s, step).Some? then assert CallOk(s, id, s.writes[id]); Carry(s, id, s.writes[id], killed) else s
    case Read(pid, n, room, dead) =>
      if !s.p.readopen then s
      else if Empty(s.p) && s.p.writeopen then
        if dead then s else s.(readers := s.readers + {pid})
      else
        var r := ReadLoop(s.p, n, room, 0);
        s.(p := r.p, got := s.got + r.bytes, writers := {})
    case CloseWrite => if s.p.writeopen && !Writing(s) then Closed(s.(p := s.p.(writeopen := false), readers := {})) else s
    case CloseRead => if s.p.readopen then Closed(s.(p := s.p.(readopen := false), writers := {})) else s
    case WakeReader(pid) => s.(readers := s.readers - {pid})
    case WakeWriter(id) => s.(writers := s.writers - {id})
  }

  /** The bytes that one call added, in order. */
  function ByCall(sent: seq<Byte>, tags: seq<nat>, id: nat): seq<Byte>
    decreases |sent|
  {
    if |sent| == 0 || |tags| < |sent| then []
    else ByCall(sent[..|sent| - 1], tags[..|sent| - 1], id) + if tags[|sent| - 1] == id then [sent[|sent| - 1]] else []
  }

  /** A call has added exactly a prefix of its source; it returns that prefix's length, at the end or where the source cannot be read, or -1. */
  predicate CallOk(s: State, id: nat, c: Call) {
    && c.i <= |c.src| && (c.i > 0 ==> c.i <= c.n)
    && ByCall(s.sent, s.tags, id) == c.src[..c.i]
    && (c.outcome == Asleep ==> c.i < c.n)
    && (c.outcome.Returned? ==> c.outcome.value == -1 || (c.outcome.value == c.i && (c.i >= c.n || c.i == |c.src|)))
  }

  predicate CallsOk(s: State) {
    && |s.tags| == |s.sent|
    && (forall k :: 0 <= k < |s.tags| ==> s.tags[k] < |s.writes|)
    && (forall id :: 0 <= id < |s.writes| ==> CallOk(s, id, s.writes[id]))
    && (forall id :: id in s.writers ==> id < |s.writes| && s.writes[id].outcome == Asleep)
  }

  /** Bytes in order, none lost and none invented; the page freed once, when both ends are closed; sleeping writers face a full pipe. */
  ghost predicate Inv(s: State) {
    && Valid(s.p)
    && s.got + Buffered(s.p) == s.sent
    && s.frees == (if s.p.readopen || s.p.writeopen then 0 else 1)
    && (s.writers != {} ==> Full(s.p) && s.p.readopen)
    && CallsOk(s)
  }

  lemma {:induction false} ByCallAppend(sent: seq<Byte>, tags: seq<nat>, more: seq<Byte>, owner: nat, id: nat)
    requires |tags| == |sent|
    ensures ByCall(sent + more, tags + seq(|more|, _ => owner), id) == ByCall(sent, tags, id) + if id == owner then more else []
    decreases |more|
  {
    var all, marks := sent + more, tags + seq(|more|, _ => owner);
    if |more| == 0 {
      assert all == sent && marks == tags;
    } else {
      var most := more[..|more| - 1];
      ByCallAppend(sent, tags, most, owner, id);
      assert all[..|all| - 1] == sent + most && marks[..|all| - 1] == tags + seq(|most|, _ => owner);
      assert marks[|all| - 1] == owner && all[|all| - 1] == more[|more| - 1];
      assert most + [more[|more| - 1]] == more;
    }
  }

  lemma {:induction false} ByCallNone(sent: seq<Byte>, tags: seq<nat>, id: nat)
    requires |tags| == |sent| && forall k :: 0 <= k < |tags| ==> tags[k] != id
    ensures ByCall(sent, tags, id) == []
    decreases |sent|
  {
    if |sent| > 0 { ByCallNone(sent[..|sent| - 1], tags[..|sent| - 1], id); }
  }

  /** What a call has added so far is a prefix of its source, also for a call that is just starting. */
  predicate Standing(s: State, id: nat, c: Call) {
    id <= |s.writes| && c.i <= |c.src| && (c.i > 0 ==> c.i <= c.n) && ByCall(s.sent, s.tags, id) == c.src[..c.i]
  }

  lemma CarryCalls(s: State, id: nat, c: Call, killed: nat)
    requires Valid(s.p) && CallsOk(s) && Standing(s, id, c) && id !in s.writers
    ensures CallsOk(Carry(s, id, c, killed))
  {
    hide Valid, Buffered, Full, ByCall, WriteLoop;
    WriteEffect(s.p, c.src, c.n, c.i, killed);
    var t := Carry(s, id, c, killed);
    var w := WriteLoop(s.p, c.src, c.n, c.i, killed);
    SleepsBelow(s.p, c.src, c.n, c.i, killed);
    assert c.src[..c.i] + c.src[c.i..w.i] == c.src[..w.i];
    forall k: nat | k < |t.writes| ensures CallOk(t, k, t.writes[k]) {
      ByCallAppend(s.sent, s.tags, c.src[c.i..w.i], id, k);
      assert k != id ==> CallOk(s, k, s.writes[k]);
    }
  }

  lemma {:induction false} SleepsBelow(p: Ring, src: seq<Byte>, n: int, i: nat, killed: nat)
    requires Valid(p)
    ensures WriteLoop(p, src, n, i, killed).outcome == Asleep ==> WriteLoop(p, src, n, i, killed).i < n
    decreases n - i
  {
    if i < n && p.readopen && i < killed && !Full(p) && i < |src| {
      PushAppends(p, src[i]);
      SleepsBelow(Push(p, src[i]), src, n, i + 1, killed);
    }
  }

  lemma CarryKeeps(s: State, id: nat, c: Call, killed: nat)
    requires Inv(s) && Standing(s, id, c) && id !in s.writers && c.i <= |c.src|
    ensures Inv(Carry(s, id, c, killed))
  {
    hide Valid, Buffered, Full, CallsOk, WriteLoop;
    WriteEffect(s.p, c.src, c.n, c.i, killed);
    CarryCalls(s, id, c, killed);
    if Full(s.p) { FullWrite(s.p, c.src, c.n, c.i, killed); }
  }

  lemma StandsAt(s: State, step: Step)
    requires Inv(s) && Turn(s, step).Some?
    ensures step.Write? ==> Standing(s, |s.writes|, Turn(s, step).value) && |s.writes| !in s.writers
    ensures step.Resume? ==> Standing(s, step.id, Turn(s, step).value) && step.id !in s.writers
  {
    hide Buffered, Full;
    if step.Write? { ByCallNone(s.sent, s.tags, |s.writes|); } else { assert CallOk(s, step.id, s.writes[step.id]); }
  }

  lemma WriteKeeps(s: State, step: Step)
    requires Inv(s) && (step.Write? || step.Resume?)
    ensures Inv(Next(s, step))
  {
    if Turn(s, step).Some? {
      hide Inv, Carry, CallsOk, Valid, Standing;
      InvParts(s);
      StandsAt(s, step);
      CarryKeeps(s, if step.Write? then |s.writes| else step.id, Turn(s, step).value, step.killed);
    }
  }

  lemma InvParts(s: State)
    requires Inv(s)
    ensures Valid(s.p) && CallsOk(s)
  {
  }

  lemma ReadKeeps(s: State, step: Step)
    requires Inv(s) && step.Read?
    ensures Inv(Next(s, step))
  {
    hide Valid, Buffered, Full, CallsOk;
    ReadEffect(s.p, step.n, step.room, 0);
    SameCalls(s, Next(s, step));
  }

  lemma SameCalls(s: State, t: State)
    requires CallsOk(s) && t.sent == s.sent && t.tags == s.tags && t.writes == s.writes && t.writers <= s.writers
    ensures CallsOk(t)
  {
    hide ByCall;
    forall id | 0 <= id < |t.writes| ensures CallOk(t, id, t.writes[id]) { assert CallOk(s, id, s.writes[id]); }
  }

  lemma CloseKeeps(s: State, step: Step)
    requires Inv(s) && !step.Read? && !step.Write? && !step.Resume?
    ensures Inv(Next(s, step))
  {
    hide CallsOk;
    assert Buffered(s.p) == Buffered(s.p.(writeopen := false)) == Buffered(s.p.(readopen := false));
    SameCalls(s, Next(s, step));
  }

  lemma NextKeeps(s: State, step: Step)
    requires Inv(s)
    ensures Inv(Next(s, step))
  {
    hide Inv, Next;
    match step
    case Write(_, _, _) => WriteKeeps(s, step);
    case Resume(_, _) => WriteKeeps(s, step);
    case Read(_, _, _, _) => ReadKeeps(s, step);
    case _ => CloseKeeps(s, step);
  }

  lemma FullWrite(p: Ring, src: seq<Byte>, n: int, i: nat, killed: nat)
    requires Valid(p) && Full(p)
    ensures WriteLoop(p, src, n, i, killed).p == p
  {
  }

  ghost function Run(s: State, steps: seq<Step>): (t: State)
    requires Inv(s)
    ensures Inv(t)
    decreases |steps|
  {
    if |steps| == 0 then s
    else
      var t := Run(s, steps[..|steps| - 1]);
      NextKeeps(t, steps[|steps| - 1]);
      Next(t, steps[|steps| - 1])
  }

  function Start(data: seq<Byte>): (s: State)
    requires |data| == PIPESIZE
    ensures Inv(s)
  {
    State(Opened(data), {}, [], {}, [], [], [], 0)
  }

  /** Every interleaving: what was delivered, then what is buffered, is what was accepted, in order. */
  lemma Fifo(data: seq<Byte>, steps: seq<Step>)
    requires |data| == PIPESIZE
    ensures var s := Run(Start(data), steps);
            && s.got + Buffered(s.p) == s.sent && Occupancy(s.p) <= PIPESIZE
            && (s.frees == 1 <==> !s.p.readopen && !s.p.writeopen) && s.frees <= 1
            && (s.writers != {} ==> Occupancy(s.p) == PIPESIZE && s.p.readopen)
  {
    var s := Run(Start(data), steps);
    FullEmpty(s.p);
  }

  /**
   Every interleaving, every call of pipewrite, over all its sleeps: of the
   accepted bytes exactly a prefix of its source is its own, in order. A
   return value other than -1 is that prefix's length: all n bytes, or all that
   can be read.
   */
  lemma WholeWrites(data: seq<Byte>, steps: seq<Step>, id: nat)
    requires |data| == PIPESIZE && id < |Run(Start(data), steps).writes|
    ensures var s := Run(Start(data), steps);
            var c := s.writes[id];
            && c.i <= |c.src| && |s.tags| == |s.sent| && ByCall(s.sent, s.tags, id) == c.src[..c.i]
            && (c.outcome.Returned? && c.outcome.value != -1 ==> c.outcome.value == c.i == Min(Left(c.n, 0), |c.src|))
            && (id in s.writers ==> c.outcome == Asleep && c.i < c.n)
  {
    hide Buffered, Full, Run, ByCall;
    var s := Run(Start(data), steps);
    assert CallOk(s, id, s.writes[id]);
  }

  // ---------------------------------------------------------------------
  // What each call does

  /** How many bytes pipewrite adds from byte i on before it sleeps or returns. */
  function Room(p: Ring, src: seq<Byte>, n: int, i: nat, killed: nat): int {
    if !p.readopen then 0 else Min(Min(Left(n, i), Left(|src|, i)), Min(Left(killed, i), Left(PIPESIZE, Occupancy(p))))
  }

  /** It adds as many as are asked for, can be read, fit and come before it is killed; and how it ends follows from which of these came first. */
  lemma {:induction false} WriteExact(p: Ring, src: seq<Byte>, n: int, i: nat, killed: nat)
    requires Valid(p) && i <= |src|
    ensures var w := WriteLoop(p, src, n, i, killed);
            && w.i == i + Room(p, src, n, i, killed)
            && w.outcome == if w.i >= n then Returned(w.i)
                            else if !p.readopen || killed <= w.i then Returned(-1)
                            else if Occupancy(p) + (w.i - i) == PIPESIZE then Asleep else Returned(w.i)
    decreases n - i
  {
    hide Occupancy, Full;
    FullEmpty(p);
    OccupancyBound(p);
    if i < n && p.readopen && i < killed && !Full(p) && i < |src| {
      PushAppends(p, src[i]);
      WriteExact(Push(p, src[i]), src, n, i + 1, killed);
    }
  }

  lemma RunMore(s: State, steps: seq<Step>, step: Step)
    requires Inv(s)
    ensures Valid(Run(s, steps).p) && CallsOk(Run(s, steps)) && Run(s, steps + [step]) == Next(Run(s, steps), step)
  {
    hide Next, Valid, CallsOk;
    InvParts(Run(s, steps));
    assert (steps + [step])[..|steps|] == steps;
  }

  /** In every run a call of pipewrite adds at once exactly the bytes there is room for, and sleeps exactly if the pipe is full before it is done. */
  lemma WriteWorks(data: seq<Byte>, steps: seq<Step>, src: seq<Byte>, n: int, killed: nat)
    requires |data| == PIPESIZE && Run(Start(data), steps).p.writeopen
    ensures var s, t := Run(Start(data), steps), Run(Start(data), steps + [Write(src, n, killed)]);
            var k, id := Room(s.p, src, n, 0, killed), |s.writes|;
            && 0 <= k <= |src| && t.sent == s.sent + src[..k] && t.got == s.got && Buffered(t.p) == Buffered(s.p) + src[..k]
            && t.p.readopen == s.p.readopen && t.p.writeopen && |t.writes| == id + 1 && t.writes[..id] == s.writes
            && t.writes[id] == Call(src, n, k, if k >= n then Returned(k) else if !s.p.readopen || killed <= k then Returned(-1)
                                               else if Occupancy(s.p) + k == PIPESIZE then Asleep else Returned(k))
            && (id in t.writers <==> t.writes[id].outcome == Asleep)
  {
    hide Run, Occupancy, Buffered, WriteLoop, Room, CallOk;
    var s := Run(Start(data), steps);
    RunMore(Start(data), steps, Write(src, n, killed));
    WriteExact(s.p, src, n, 0, killed);
    WriteEffect(s.p, src, n, 0, killed);
    assert forall id :: id in s.writers ==> id < |s.writes|;
  }

  /** So does one that goes on after a wake-up, from where it stopped. */
  lemma ResumeWorks(data: seq<Byte>, steps: seq<Step>, id: nat, killed: nat)
    requires |data| == PIPESIZE
    requires var s := Run(Start(data), steps); id < |s.writes| && s.writes[id].outcome == Asleep && id !in s.writers
    ensures var s, t := Run(Start(data), steps), Run(Start(data), steps + [Resume(id, killed)]);
            var c := s.writes[id];
            var k := c.i + Room(s.p, c.src, c.n, c.i, killed);
            && c.i <= k <= |c.src| && t.sent == s.sent + c.src[c.i..k] && t.got == s.got && Buffered(t.p) == Buffered(s.p) + c.src[c.i..k]
            && t.writes == s.writes[id := c.(i := k, outcome := if k >= c.n then Returned(k) else if !s.p.readopen || killed <= k then Returned(-1)
                                                                else if Occupancy(s.p) + (k - c.i) == PIPESIZE then Asleep else Returned(k))]
            && (id in t.writers <==> t.writes[id].outcome == Asleep)
  {
    hide Run, Occupancy, Buffered, WriteLoop, Room;
    var s := Run(Start(data), steps);
    var c := s.writes[id];
    RunMore(Start(data), steps, Resume(id, killed));
    assert CallOk(s, id, c);
    WriteExact(s.p, c.src, c.n, c.i, killed);
    WriteEffect(s.p, c.src, c.n, c.i, killed);
  }

  /** In every run a reader gets what there is, up to what it asks for and can take; it sleeps exactly if there is nothing and the write end is open. */
  lemma ReadWorks(data: seq<Byte>, steps: seq<Step>, pid: nat, n: int, room: nat)
    requires |data| == PIPESIZE && Run(Start(data), steps).p.readopen
    ensures var s, t := Run(Start(data), steps), Run(Start(data), steps + [Read(pid, n, room, false)]);
            if Occupancy(s.p) == 0 && s.p.writeopen then t == s.(readers := s.readers + {pid})
            else
              var k := Min(Min(Left(n, 0), room), Occupancy(s.p));
              && k <= |Buffered(s.p)| && t.got == s.got + Buffered(s.p)[..k] && Buffered(t.p) == Buffered(s.p)[k..]
              && t.sent == s.sent && t.writers == {} && t.writes == s.writes
              && t.p.readopen && t.p.writeopen == s.p.writeopen
  {
    hide Run, Occupancy, Buffered, ReadLoop, CallsOk;
    var s := Run(Start(data), steps);
    RunMore(Start(data), steps, Read(pid, n, room, false));
    FullEmpty(s.p);
    OccupancyBound(s.p);
    ReadEffect(s.p, n, room, 0);
    var r := ReadLoop(s.p, n, room, 0);
    assert (r.bytes + Buffered(r.p))[..|r.bytes|] == r.bytes && (r.bytes + Buffered(r.p))[|r.bytes|..] == Buffered(r.p);
  }

  /** Closing an end closes it, wakes those who sleep for it, and frees the page exactly if the other end is closed too. */
  lemma CloseWorks(data: seq<Byte>, steps: seq<Step>)
    requires |data| == PIPESIZE
    ensures var s, t := Run(Start(data), steps), Run(Start(data), steps + [CloseRead]);
            && !t.p.readopen && t.p.writeopen == s.p.writeopen && t.writers == {} && t.frees == (if s.p.writeopen then 0 else 1)
            && t.sent == s.sent && t.got == s.got && t.writes == s.writes
    ensures var s, t := Run(Start(data), steps), Run(Start(data), steps + [CloseWrite]);
            if Writing(s) then t == s
            else
              && !t.p.writeopen && t.p.readopen == s.p.readopen && (s.p.writeopen ==> t.readers == {}) && t.frees == (if s.p.readopen then 0 else 1)
              && t.sent == s.sent && t.got == s.got && t.writes == s.writes
  {
    hide Run, Occupancy, Buffered, CallsOk;
    RunMore(Start(data), steps, CloseRead);
    RunMore(Start(data), steps, CloseWrite);
  }

  /** A sleeper woken for another reason (kkill) is no longer asleep, and a writer can go on. */
  lemma WakeWorks(data: seq<Byte>, steps: seq<Step>, id: nat)
    requires |data| == PIPESIZE
    ensures var s, t := Run(Start(data), steps), Run(Start(data), steps + [WakeWriter(id)]);
            t == s.(writers := t.writers) && t.writers == s.writers - {id} && (id in s.writers ==> Turn(t, Resume(id, 0)).Some?)
    ensures var s, t := Run(Start(data), steps), Run(Start(data), steps + [WakeReader(id)]);
            t == s.(readers := t.readers) && t.readers == s.readers - {id}
  {
    hide Run, Occupancy, Buffered, CallOk;
    RunMore(Start(data), steps, WakeWriter(id));
    RunMore(Start(data), steps, WakeReader(id));
  }

  // ---------------------------------------------------------------------
  // Sleeping readers

  /** A reader sleeps only on an empty pipe that can still be written. */
  ghost predicate ReadersFed(s: State) { s.readers != {} ==> Empty(s.p) && s.p.writeopen }

  /** A writer that is killed after adding bytes since it took the lock: it leaves without wakeup. */
  predicate CutShort(s: State, step: Step)
    requires Valid(s.p)
  {
    Turn(s, step).Some? && s.p.readopen
    && var c := Turn(s, step).value;
    c.i < step.killed < c.n && step.killed <= |c.src| && step.killed - c.i <= PIPESIZE - Occupancy(s.p)
  }

  /** A step leaves a sleeping reader with bytes to read exactly if its writer is cut short. */
  lemma ReaderForgotten(s: State, step: Step)
    requires Inv(s) && ReadersFed(s)
    ensures !ReadersFed(Next(s, step)) <==> s.readers != {} && CutShort(s, step)
  {
    hide CallsOk, CallOk;
    FullEmpty(s.p);
    if Turn(s, step).Some? {
      StandsAt(s, step);
      CarryForgets(s, if step.Write? then |s.writes| else step.id, Turn(s, step).value, step.killed);
    } else if step.Read? {
      ReadEffect(s.p, step.n, step.room, 0);
    }
  }

  lemma CarryForgets(s: State, id: nat, c: Call, killed: nat)
    requires Inv(s) && ReadersFed(s) && Standing(s, id, c) && c.i <= |c.src|
    ensures !ReadersFed(Carry(s, id, c, killed)) <==>
            s.readers != {} && s.p.readopen && c.i < killed < c.n && killed <= |c.src| && killed - c.i <= PIPESIZE - Occupancy(s.p)
  {
    hide CallsOk, WriteLoop, Standing;
    var w := WriteLoop(s.p, c.src, c.n, c.i, killed);
    WriteEffect(s.p, c.src, c.n, c.i, killed);
    KilledWrite(s.p, c.src, c.n, c.i, killed);
    FullEmpty(s.p);
    FullEmpty(w.p);
    assert |Buffered(w.p)| == Occupancy(w.p);
  }

  lemma {:induction false} KilledWrite(p: Ring, src: seq<Byte>, n: int, i: nat, killed: nat)
    requires Valid(p) && i <= |src|
    ensures var w := WriteLoop(p, src, n, i, killed);
            w.outcome == Returned(-1) && w.i > i <==>
            p.readopen && i < killed < n && killed <= |src| && killed - i <= PIPESIZE - Occupancy(p)
    ensures var w := WriteLoop(p, src, n, i, killed);
            w.outcome == Returned(-1) && w.i == i ==> !p.readopen || killed <= i
    decreases n - i
  {
    hide Valid, Occupancy, Buffered, Full;
    FullEmpty(p);
    OccupancyBound(p);
    if i < n && p.readopen && i < killed && !Full(p) && i < |src| {
      PushAppends(p, src[i]);
      KilledWrite(Push(p, src[i]), src, n, i + 1, killed);
      WriteEffect(Push(p, src[i]), src, n, i + 1, killed);
    }
  }

  /** In a run without such a writer no reader sleeps while there are bytes for it or after the write end is closed. */
  lemma {:induction false} ReadersAlwaysFed(data: seq<Byte>, steps: seq<Step>)
    requires |data| == PIPESIZE
    requires forall k :: 0 <= k < |steps| ==> !CutShort(Run(Start(data), steps[..k]), steps[k])
    ensures ReadersFed(Run(Start(data), steps))
    decreases |steps|
  {
    if |steps| > 0 {
      var most := steps[..|steps| - 1];
      forall k | 0 <= k < |most| ensures !CutShort(Run(Start(data), most[..k]), most[k]) { assert most[..k] == steps[..k]; }
      ReadersAlwaysFed(data, most);
      ReaderForgotten(Run(Start(data), most), steps[|steps| - 1]);
    }
  }

  /** Reader 1 sleeps on an empty pipe, a writer adds one byte of two and is killed: reader 1 still sleeps. */
  lemma ForgottenReader(data: seq<Byte>)
    requires |data| == PIPESIZE
    ensures var s := Run(Start(data), [Read(1, 1, 1, false), Write([65, 66], 2, 1)]);
            s.readers == {1} && Buffered(s.p) == [65]
  {
    var s0 := Start(data);
    var steps := [Read(1, 1, 1, false), Write([65, 66], 2, 1)];
    var one := [Read(1, 1, 1, false)];
    assert steps[..1] == one && one[..0] == [];
    assert Run(s0, []) == s0;
    var s1 := Run(s0, one);
    assert s1 == Next(Run(s0, one[..0]), one[0]);
    assert s1.readers == {1} && s1.p == s0.p;
    PushAppends(s1.p, 65);
    assert WriteLoop(s1.p, [65, 66], 2, 0, 1) == Written(Push(s1.p, 65), 1, Returned(-1));
    assert Run(s0, steps) == Next(s1, steps[1]);
    assert Buffered(s1.p) == [];
  }

  // ---------------------------------------------------------------------
  // The loops

  class PipePage {
    const data: array<Byte>
    var nread: nat
    var nwrite: nat
    var readopen: bool
    var writeopen: bool

    ghost function Now(): Ring
      reads this, data
    {
      Ring(data[..], nread, nwrite, readopen, writeopen)
    }

    /** pipealloc; the page keeps whatever bytes it held. */
    constructor (page: array<Byte>)
      requires page.Length == PIPESIZE
      ensures data == page && Now() == Opened(page[..]) && Valid(Now())
    {
      data := page;
      nread, nwrite, readopen, writeopen := 0, 0, true, true;
    }

    /** pipewrite from byte `from` on, while it holds the lock. */
    method Fill(src: seq<Byte>, n: int, from: nat, killed: nat) returns (i: nat, outcome: Outcome)
      requires Valid(Now()) && from <= |src|
      modifies this`nwrite, data
      ensures Written(Now(), i, outcome) == WriteLoop(old(Now()), src, n, from, killed)
      ensures Valid(Now()) && from <= i <= |src| && Buffered(Now()) == Buffered(old(Now())) + src[from..i]
    {
      hide Valid, Buffered, Full, Push;
      i := from;
      WriteEffect(Now(), src, n, from, killed);
      while i < n
        invariant Valid(Now()) && from <= i <= |src|
        invariant WriteLoop(Now(), src, n, i, killed) == WriteLoop(old(Now()), src, n, from, killed)
        decreases n - i
      {
        if !readopen || killed <= i { return i, Returned(-1); }
        FullNow(Now());
        if nwrite == (nread + PIPESIZE) % TWO32 { return i, Asleep; }
        if i >= |src| { break; }
        PushAppends(Now(), src[i]);
        PushNow(Now(), src[i]);
        data[nwrite % PIPESIZE] := src[i];
        nwrite := (nwrite + 1) % TWO32;
        i := i + 1;
      }
      outcome := Returned(i);
    }

    /** piperead's copying loop. */
    method Drain(n: int, room: nat) returns (bytes: seq<Byte>, value: int)
      requires Valid(Now())
      modifies this`nread
      ensures Delivered(Now(), bytes, value) == ReadLoop(old(Now()), n, room, 0)
      ensures Valid(Now()) && Buffered(old(Now())) == bytes + Buffered(Now()) && (value == |bytes| || (value == -1 && bytes == []))
    {
      hide Valid, Buffered, ReadLoop, Pop;
      ghost var p := Now();
      ReadEffect(p, n, room, 0);
      var i := 0;
      bytes := [];
      while i < n && nread != nwrite
        invariant 0 <= i && i == |bytes| && Valid(Now())
        invariant Extend(bytes, ReadLoop(Now(), n, room, i)) == ReadLoop(p, n, room, 0)
        decreases n - i
      {
        PopFirst(Now());
        ReadNext(Now(), n, room, i, bytes);
        if i >= room {
          value := if i == 0 then -1 else i;
          return;
        }
        bytes := bytes + [data[nread % PIPESIZE]];
        nread := (nread + 1) % TWO32;
        i := i + 1;
      }
      ReadEnd(Now(), n, room, i);
      value := i;
    }
  }

  function Extend(bytes: seq<Byte>, r: Delivered): Delivered { r.(bytes := bytes + r.bytes) }

  lemma ReadEnd(p: Ring, n: int, room: nat, i: nat)
    requires Valid(p) && (i >= n || Empty(p))
    ensures ReadLoop(p, n, room, i) == Delivered(p, [], i)
  {
  }

  lemma ReadNext(p: Ring, n: int, room: nat, i: nat, bytes: seq<Byte>)
    requires Valid(p) && i < n && !Empty(p)
    ensures |p.data| == PIPESIZE && Pop(p) == p.(nread := (p.nread + 1) % TWO32) && Valid(Pop(p))
    ensures i >= room ==> ReadLoop(p, n, room, i) == Delivered(p, [], if i == 0 then -1 else i)
    ensures i < room ==>
      Extend(bytes, ReadLoop(p, n, room, i)) == Extend(bytes + [p.data[p.nread % PIPESIZE]], ReadLoop(Pop(p), n, room, i + 1))
  {
    PopFirst(p);
    var ch := p.data[p.nread % PIPESIZE];
    var rest := ReadLoop(Pop(p), n, room, i + 1).bytes;
    assert bytes + ([ch] + rest) == bytes + [ch] + rest;
  }

  lemma FullNow(p: Ring)
    ensures Full(p) <==> p.nwrite == (p.nread + PIPESIZE) % TWO32
  {
  }

  lemma PushNow(p: Ring, ch: Byte)
    requires Valid(p)
    ensures |p.data| == PIPESIZE && Push(p, ch) == p.(data := p.data[p.nwrite % PIPESIZE := ch], nwrite := (p.nwrite + 1) % TWO32)
  {
  }
}
