/**
 Group commit of kernel/log.c as a transition system: begin_op, log_write and
 end_op of concurrent operations, the single disk writes of commit and
 recovery, and crashes between any two of them.

 `trace`, `committed` and `history` record the log_writes of the current
 transaction, of each committed one, and of all time; the kernel does not
 store them, nor the operation numbers. `active` holds, for each
 operation between begin_op and end_op, the distinct blocks it has logged.
 */
module LogRuns {
  import opened RedoLog
  import BufferCache

  datatype Rec = Rec(op: nat, block: nat, data: Block)

  /** Where the system is: running, in commit after `at` disk writes, crashed, or in recovery after `at` writes. */
  datatype Pc = Normal | Commit(at: nat) | Down | Recover(at: nat)

  datatype Sys = Sys(
    disk: Disk,
    pc: Pc,
    lh: seq<nat>,
    cache: Disk,
    outstanding: nat,
    active: map<nat, set<nat>>,
    pins: map<nat, nat>,
    trace: seq<Rec>,
    committed: seq<seq<Rec>>,
    history: seq<Rec>,
    first: nat,
    next: nat,
    panicked: bool)

  /** A disk write of commit finds `others` further buffers of the cache in use, by processes outside any operation. */
  datatype Step = BeginOp | LogWrite(op: nat, block: nat, data: Block) | EndOp(op: nat) | DiskWrite(others: nat) | Crash | ReadHead

  function Begin(s: Sys): Sys {
    if s.pc != Normal || |s.lh| + (s.outstanding + 1) * MAXOPBLOCKS > LOGBLOCKS then s
    else s.(outstanding := s.outstanding + 1, active := s.active[s.next := {}], next := s.next + 1)
  }

  /** An operation logs a home block it has modified, within its budget of distinct blocks. */
  ghost predicate MayLog(s: Sys, start: nat, op: nat, b: nat) {
    op in s.active && b in s.disk && !InLog(b, start) && |s.active[op] + {b}| <= MAXOPBLOCKS
  }

  ghost function Write(s: Sys, start: nat, op: nat, b: nat, x: Block): Sys {
    if !MayLog(s, start, op, b) then s
    else if |s.lh| >= LOGBLOCKS || s.outstanding < 1 then s.(panicked := true)
    else
      var s1 := s.(cache := s.cache[b := x], active := s.active[op := s.active[op] + {b}], trace := s.trace + [Rec(op, b, x)],
                   history := s.history + [Rec(op, b, x)]);
      if b in s.lh then s1 else s1.(lh := s.lh + [b], pins := s.pins[b := Pins(s.pins, b) + 1])
  }

  function End(s: Sys, op: nat): Sys {
    if op !in s.active || s.outstanding == 0 then s
    else
      var s1 := s.(outstanding := s.outstanding - 1, active := s.active - {op});
      if s.pc.Commit? then s1.(panicked := true)
      else if s1.outstanding == 0 then s1.(pc := Commit(0)) else s1
  }

  function Put(d: Disk, b: nat, x: Block): Disk { d[b := x] }

  /** write_log: one block from the cache to the log. */
  function CommitLog(s: Sys, start: nat, at: nat): Sys
    requires at < |s.lh|
  {
    if s.lh[at] in s.cache then s.(disk := Put(s.disk, start + at + 1, s.cache[s.lh[at]]), pc := Commit(at + 1)) else s
  }

  /** write_head with the current entries: the transaction is committed. */
  function CommitHead(s: Sys, start: nat): Sys {
    if start in s.disk && |s.lh| <= LOGBLOCKS then
      s.(disk := Put(s.disk, start, MakeHead(s.disk[start], s.lh)), pc := Commit(|s.lh| + 1),
         committed := s.committed + [s.trace], trace := [], first := s.next)
    else s
  }

  /** install_trans(0): one block from the log to its home, and its buffer unpinned. */
  function CommitInstall(s: Sys, start: nat, tail: nat): Sys
    requires tail < |s.lh|
  {
    if start + tail + 1 in s.disk then
      s.(disk := Put(s.disk, s.lh[tail], s.disk[start + tail + 1]), pc := Commit(|s.lh| + tail + 2),
         pins := s.pins[s.lh[tail] := if Pins(s.pins, s.lh[tail]) > 0 then Pins(s.pins, s.lh[tail]) - 1 else 0])
    else s
  }

  /** write_head with no entries, then committing := 0. */
  function CommitClear(s: Sys, start: nat): Sys {
    if start in s.disk then s.(disk := Put(s.disk, start, MakeHead(s.disk[start], [])), pc := Normal, lh := [], cache := map[]) else s
  }

  /** How many buffers of the cache the pins keep in use. */
  function Busy(pins: map<nat, nat>): nat { |set b | b in pins && pins[b] > 0| }

  /** bread of a block of the log area finds no buffer: all of them are in use, none by that block. */
  predicate NoBuffer(pins: map<nat, nat>, others: nat) { Busy(pins) + others >= BufferCache.NBUF }

  /** The next single write of commit(), which first reads a block of the log area. */
  function CommitWrite(s: Sys, start: nat, at: nat, others: nat): Sys {
    var n := |s.lh|;
    if n == 0 then s.(pc := Normal, trace := [], first := s.next)
    else if NoBuffer(s.pins, others) then s.(panicked := true)
    else if at < n then CommitLog(s, start, at)
    else if at == n then CommitHead(s, start)
    else if at <= 2 * n then CommitInstall(s, start, at - n - 1)
    else CommitClear(s, start)
  }

  /** The next single write of recover_from_log(). */
  function RecoverWrite(s: Sys, start: nat, at: nat): Sys {
    if start !in s.disk then s
    else if at < |s.lh| then
      if start + at + 1 in s.disk then s.(disk := Put(s.disk, s.lh[at], s.disk[start + at + 1]), pc := Recover(at + 1)) else s
    else s.(disk := Put(s.disk, start, MakeHead(s.disk[start], [])), pc := Normal, lh := [])
  }

  function CrashNow(s: Sys): Sys {
    s.(pc := Down, lh := [], cache := map[], outstanding := 0, active := map[], pins := map[], trace := [],
       first := s.next, panicked := false)
  }

  ghost function Next(s: Sys, start: nat, step: Step): Sys {
    if s.panicked && step != Crash then s
    else
      match step
      case BeginOp => Begin(s)
      case LogWrite(op, b, x) => Write(s, start, op, b, x)
      case EndOp(op) => End(s, op)
      case DiskWrite(others) => if s.pc.Commit? then CommitWrite(s, start, s.pc.at, others) else if s.pc.Recover? then RecoverWrite(s, start, s.pc.at) else s
      case Crash => CrashNow(s)
      case ReadHead => if s.pc.Down? then s.(lh := Head(s.disk, start), pc := Recover(0)) else s
  }

  // ---------------------------------------------------------------------
  // What the history means

  /** Home blocks after a sequence of log_writes. */
  ghost function Replay(home: Disk, recs: seq<Rec>): Disk
    decreases |recs|
  {
    if |recs| == 0 then home
    else
      var last := recs[|recs| - 1];
      Replay(home, recs[..|recs| - 1])[last.block := last.data]
  }

  ghost function ReplayAll(home: Disk, txns: seq<seq<Rec>>): Disk
    decreases |txns|
  {
    if |txns| == 0 then home else Replay(ReplayAll(home, txns[..|txns| - 1]), txns[|txns| - 1])
  }

  /** The cached blocks after a sequence of log_writes. */
  ghost function LastOf(recs: seq<Rec>): Disk
    decreases |recs|
  {
    if |recs| == 0 then map[]
    else
      var last := recs[|recs| - 1];
      LastOf(recs[..|recs| - 1])[last.block := last.data]
  }

  /** Writing the cached blocks at once is the same as replaying every log_write in order. */
  lemma {:induction false} OverlayReplay(home: Disk, recs: seq<Rec>)
    requires forall i :: 0 <= i < |recs| ==> recs[i].block in home
    ensures Overlay(home, LastOf(recs)) == Replay(home, recs) && Replay(home, recs).Keys == home.Keys
    decreases |recs|
  {
    if |recs| > 0 {
      OverlayReplay(home, recs[..|recs| - 1]);
    }
  }

  lemma AppendRec(recs: seq<Rec>, r: Rec)
    ensures LastOf(recs + [r]) == LastOf(recs)[r.block := r.data]
  {
    assert (recs + [r])[..|recs|] == recs;
  }

  /** The writes of one operation, in order. */
  ghost function OfOp(recs: seq<Rec>, op: nat): seq<Rec>
    decreases |recs|
  {
    if |recs| == 0 then []
    else
      var last := recs[|recs| - 1];
      OfOp(recs[..|recs| - 1], op) + if last.op == op then [last] else []
  }

  ghost function Flat(txns: seq<seq<Rec>>): seq<Rec>
    decreases |txns|
  {
    if |txns| == 0 then [] else Flat(txns[..|txns| - 1]) + txns[|txns| - 1]
  }

  lemma {:induction false} OfOpConcat(a: seq<Rec>, b: seq<Rec>, op: nat)
    ensures OfOp(a + b, op) == OfOp(a, op) + OfOp(b, op)
    decreases |b|
  {
    if |b| == 0 {
      assert a + b == a;
    } else {
      OfOpConcat(a, b[..|b| - 1], op);
      assert (a + b)[..|a + b| - 1] == a + b[..|b| - 1];
    }
  }

  lemma {:induction false} OfOpNone(recs: seq<Rec>, op: nat)
    requires forall i :: 0 <= i < |recs| ==> recs[i].op != op
    ensures OfOp(recs, op) == []
    decreases |recs|
  {
    if |recs| > 0 { OfOpNone(recs[..|recs| - 1], op); }
  }

  // ---------------------------------------------------------------------
  // Log space

  function Slack(a: set<nat>): nat { if |a| <= MAXOPBLOCKS then MAXOPBLOCKS - |a| else 0 }

  /** Blocks the running operations may still log. */
  ghost function Reserve(m: map<nat, set<nat>>): nat
    decreases |m|
  {
    if m == map[] then 0
    else
      var k :| k in m;
      Slack(m[k]) + Reserve(m - {k})
  }

  lemma {:induction false} ReserveAt(m: map<nat, set<nat>>, k: nat)
    requires k in m
    ensures Reserve(m) == Slack(m[k]) + Reserve(m - {k})
    decreases |m|
  {
    var j :| j in m && Reserve(m) == Slack(m[j]) + Reserve(m - {j});
    if j != k {
      ReserveAt(m - {j}, k);
      ReserveAt(m - {k}, j);
      assert m - {j} - {k} == m - {k} - {j};
    }
  }

  lemma {:induction false} ReserveBound(m: map<nat, set<nat>>)
    ensures Reserve(m) <= |m| * MAXOPBLOCKS
    decreases |m|
  {
    if m == map[] {
      assert Reserve(m) == 0;
    } else {
      var j :| j in m && Reserve(m) == Slack(m[j]) + Reserve(m - {j});
      ReserveBound(m - {j});
      assert m.Keys == (m - {j}).Keys + {j};
      assert |m| == |m - {j}| + 1;
      assert Slack(m[j]) <= MAXOPBLOCKS;
      assert Reserve(m) <= MAXOPBLOCKS + |m - {j}| * MAXOPBLOCKS;
    }
  }

  lemma ReserveSet(m: map<nat, set<nat>>, k: nat, a: set<nat>)
    ensures Reserve(m[k := a]) == Slack(a) + Reserve(m - {k})
  {
    ReserveAt(m[k := a], k);
    assert m[k := a] - {k} == m - {k};
  }

  // ---------------------------------------------------------------------
  // The invariant

  /** outstanding counts the running operations, and what they may still log fits. */
  ghost predicate Space(lh: seq<nat>, outstanding: nat, active: map<nat, set<nat>>) {
    && outstanding == |active|
    && (forall op :: op in active ==> |active[op]| <= MAXOPBLOCKS)
    && (forall op, b :: op in active && b in active[op] ==> b in lh)
    && |lh| + Reserve(active) <= LOGBLOCKS
  }

  /** Log entries and cached blocks are those of the current transaction. */
  ghost predicate Current(d: Disk, start: nat, lh: seq<nat>, cache: Disk) {
    && GoodHead(d, start, lh)
    && (forall b :: b in cache <==> b in lh)
  }

  ghost predicate Traced(d: Disk, cache: Disk, trace: seq<Rec>) {
    && cache == LastOf(trace)
    && (forall i :: 0 <= i < |trace| ==> trace[i].block in d)
  }

  /**
   Every operation's writes are committed all together or not at all: nothing of
   the current transaction (operations from `first` on) is committed, and of an
   earlier operation either no write is, or every write it ever made, in order.
   */
  ghost predicate Atomic(first: nat, trace: seq<Rec>, committed: seq<seq<Rec>>, history: seq<Rec>) {
    && (forall i :: 0 <= i < |trace| ==> first <= trace[i].op)
    && (forall op: nat :: op < first ==> OfOp(Flat(committed), op) == [] || OfOp(Flat(committed), op) == OfOp(history, op))
    && (forall op: nat :: first <= op ==> OfOp(Flat(committed), op) == [] && OfOp(history, op) == OfOp(trace, op))
  }

  /** Running operations belong to the current transaction; no operation number from `next` on is in use. */
  ghost predicate Numbered(s: Sys) {
    && s.first <= s.next
    && (forall op :: op in s.active ==> s.first <= op < s.next)
    && (forall i :: 0 <= i < |s.history| ==> s.history[i].op < s.next)
  }

  /** How often a block's buffer is pinned. */
  function Pins(pins: map<nat, nat>, b: nat): nat { if b in pins then pins[b] else 0 }

  /** Exactly the entries from k on are pinned, each once. */
  ghost predicate PinnedOnce(pins: map<nat, nat>, lh: seq<nat>, k: nat)
    requires k <= |lh|
  {
    forall b: nat :: Pins(pins, b) == if b in lh[k..] then 1 else 0
  }

  lemma UnpinOne(d: Disk, start: nat, pins: map<nat, nat>, lh: seq<nat>, k: nat)
    requires GoodHead(d, start, lh) && k < |lh| && PinnedOnce(pins, lh, k)
    ensures Pins(pins, lh[k]) == 1 && PinnedOnce(pins[lh[k] := 0], lh, k + 1)
  {
    assert lh[k..] == [lh[k]] + lh[k + 1..];
    assert lh[k] !in lh[k + 1..];
    var rest := lh[k + 1..];
    var after := pins[lh[k] := 0];
    forall b: nat ensures Pins(after, b) == if b in rest then 1 else 0 {
      assert b != lh[k] ==> Pins(after, b) == Pins(pins, b);
      assert b in lh[k..] <==> b == lh[k] || b in rest;
    }
  }

  lemma PinOne(pins: map<nat, nat>, lh: seq<nat>, b: nat)
    requires PinnedOnce(pins, lh, 0) && b !in lh
    ensures PinnedOnce(pins[b := Pins(pins, b) + 1], lh + [b], 0)
  {
    assert lh[0..] == lh && (lh + [b])[0..] == lh + [b];
    forall c: nat ensures Pins(pins[b := Pins(pins, b) + 1], c) == if c in lh + [b] then 1 else 0 {
      assert c in lh[0..] <==> c in lh;
      assert c != b ==> Pins(pins[b := Pins(pins, b) + 1], c) == Pins(pins, c);
    }
  }

  /** Entry b is in the log at block `at`. */
  ghost predicate EntryLogged(d: Disk, at: nat, b: nat, cache: Disk) { at in d && b in cache && d[at] == cache[b] }

  ghost predicate LogsWritten(d: Disk, start: nat, lh: seq<nat>, cache: Disk, k: int) {
    forall i :: 0 <= i < k && i < |lh| ==> EntryLogged(d, start + i + 1, lh[i], cache)
  }

  /** The log block `at` is installed as block b. */
  ghost predicate EntryHome(d: Disk, at: nat, b: nat) { at in d && b in d && d[b] == d[at] }

  ghost predicate HomeWritten(d: Disk, start: nat, lh: seq<nat>, k: int) {
    forall i :: 0 <= i < k && i < |lh| ==> EntryHome(d, start + i + 1, lh[i])
  }

  ghost predicate Idle(s: Sys) { s.active == map[] && s.outstanding == 0 }

  /** In commit before the header is written: the first `at` log blocks are on disk. */
  ghost predicate Logging(s: Sys, start: nat, at: nat) {
    && Head(s.disk, start) == []
    && Traced(s.disk, s.cache, s.trace)
    && LogsWritten(s.disk, start, s.lh, s.cache, at)
    && PinnedOnce(s.pins, s.lh, 0)
  }

  /** In commit after the header is written: the first `tail` home blocks are on disk and unpinned. */
  ghost predicate Installing(s: Sys, start: nat, tail: nat) {
    && Head(s.disk, start) == s.lh
    && s.trace == []
    && tail <= |s.lh|
    && HomeWritten(s.disk, start, s.lh, tail)
    && PinnedOnce(s.pins, s.lh, tail)
  }

  ghost predicate Phase(s: Sys, start: nat) {
    match s.pc
    case Normal =>
      && Head(s.disk, start) == [] && Current(s.disk, start, s.lh, s.cache) && Traced(s.disk, s.cache, s.trace)
      && Space(s.lh, s.outstanding, s.active) && PinnedOnce(s.pins, s.lh, 0)
    case Commit(at) =>
      && Idle(s) && Current(s.disk, start, s.lh, s.cache)
      && if at <= |s.lh| then Logging(s, start, at) else Installing(s, start, at - |s.lh| - 1)
    case Down => Idle(s) && s.trace == [] && s.lh == [] && s.cache == map[] && s.pins == map[]
    case Recover(at) =>
      && Idle(s) && s.trace == [] && s.cache == map[] && s.pins == map[]
      && at <= |s.lh| && Head(s.disk, start) == s.lh && HomeWritten(s.disk, start, s.lh, at)
  }

  /** Recovery from here would yield exactly the transactions committed so far, whole and in order. */
  ghost predicate Durable(d: Disk, start: nat, home: Disk, committed: seq<seq<Rec>>) {
    GoodDisk(d, start) && Recovered(d, start) == ReplayAll(home, committed)
  }

  ghost predicate Sound(s: Sys, start: nat, home: Disk) {
    Durable(s.disk, start, home, s.committed) && Phase(s, start)
  }

  ghost predicate Inv(s: Sys, start: nat, home: Disk) {
    Sound(s, start, home) && Numbered(s) && Atomic(s.first, s.trace, s.committed, s.history)
  }

  // ---------------------------------------------------------------------
  // Every step keeps it

  lemma BeginSpace(lh: seq<nat>, outstanding: nat, active: map<nat, set<nat>>, op: nat)
    requires Space(lh, outstanding, active) && op !in active && |lh| + (outstanding + 1) * MAXOPBLOCKS <= LOGBLOCKS
    ensures Space(lh, outstanding + 1, active[op := {}])
  {
    hide Reserve;
    ReserveSet(active, op, {});
    assert active - {op} == active;
    ReserveBound(active);
    assert active[op := {}].Keys == active.Keys + {op};
  }

  lemma BeginKeeps(s: Sys, start: nat, home: Disk)
    requires Sound(s, start, home) && s.next !in s.active
    ensures Sound(Begin(s), start, home)
  {
    hide Durable, Current, Traced, Head, Space, PinnedOnce;
    if Begin(s) != s { BeginSpace(s.lh, s.outstanding, s.active, s.next); }
  }

  lemma EndSpace(lh: seq<nat>, outstanding: nat, active: map<nat, set<nat>>, op: nat)
    requires Space(lh, outstanding, active) && op in active
    ensures outstanding > 0 && Space(lh, outstanding - 1, active - {op})
    ensures outstanding == 1 ==> active - {op} == map[]
  {
    hide Reserve;
    ReserveAt(active, op);
    assert (active - {op}).Keys == active.Keys - {op};
  }

  lemma EndKeeps(s: Sys, start: nat, home: Disk, op: nat)
    requires Sound(s, start, home)
    ensures Sound(End(s, op), start, home) && (End(s, op).panicked ==> s.panicked)
  {
    hide Durable, Current, Traced, Head, Space, PinnedOnce;
    if op in s.active && s.outstanding != 0 { EndSpace(s.lh, s.outstanding, s.active, op); }
  }

  lemma CrashKeeps(s: Sys, start: nat, home: Disk)
    requires Sound(s, start, home)
    ensures Sound(CrashNow(s), start, home)
  {
    hide Durable;
  }

  lemma {:induction false} AlreadyInstalled(d: Disk, start: nat, lh: seq<nat>, k: nat)
    requires k <= |lh| && HomeWritten(d, start, lh, k)
    ensures Installed(d, start, lh, k) == d
    decreases k
  {
    if k > 0 {
      AlreadyInstalled(d, start, lh, k - 1);
      assert EntryHome(d, start + (k - 1) + 1, lh[k - 1]);
    }
  }

  /** Entries stay good as long as no block appears or disappears. */
  lemma CurrentKept(d: Disk, d1: Disk, start: nat, lh: seq<nat>, cache: Disk)
    requires Current(d, start, lh, cache) && d1.Keys == d.Keys
    ensures Current(d1, start, lh, cache) && start in d && |lh| <= LOGBLOCKS
    ensures forall i :: 0 <= i < |lh| ==> lh[i] in d && start + i + 1 in d && lh[i] in cache
  {
    assert InLog(start, start);
    forall i | 0 <= i < |lh| ensures lh[i] in d && start + i + 1 in d && lh[i] in cache { assert InLog(start + i + 1, start); }
  }

  /** One home write of install_trans. */
  lemma InstallOne(d: Disk, start: nat, lh: seq<nat>, t: nat)
    requires GoodDisk(d, start) && Head(d, start) == lh && t < |lh| && HomeWritten(d, start, lh, t)
    ensures start + t + 1 in d
    ensures var d1 := Put(d, lh[t], d[start + t + 1]);
            GoodDisk(d1, start) && Head(d1, start) == lh && Recovered(d1, start) == Recovered(d, start)
            && HomeWritten(d1, start, lh, t + 1)
  {
    hide Recovered, Head;
    assert InLog(start + t + 1, start);
    AlreadyInstalled(d, start, lh, t);
    InstallStep(d, start, lh, t + 1);
    var d1 := Put(d, lh[t], d[start + t + 1]);
    forall i | 0 <= i < t + 1 ensures EntryHome(d1, start + i + 1, lh[i]) {
      assert InLog(start + i + 1, start) && (i < t ==> EntryHome(d, start + i + 1, lh[i]));
    }
  }

  lemma ReadHeadKeeps(s: Sys, start: nat, home: Disk)
    requires Sound(s, start, home) && s.pc.Down?
    ensures Sound(s.(lh := Head(s.disk, start), pc := Recover(0)), start, home)
  {
  }

  lemma RecoverKeeps(s: Sys, start: nat, home: Disk)
    requires Sound(s, start, home) && s.pc.Recover?
    ensures Sound(RecoverWrite(s, start, s.pc.at), start, home)
  {
    hide Recovered, Head, HomeWritten, Installed;
    var at := s.pc.at;
    assert InLog(start, start);
    if at < |s.lh| {
      InstallOne(s.disk, start, s.lh, at);
    } else {
      AlreadyInstalled(s.disk, start, s.lh, |s.lh|);
      ClearStep(s.disk, start, s.lh);
    }
  }

  lemma OneMoreWritten(d: Disk, start: nat, lh: seq<nat>, cache: Disk, k: nat)
    requires LogsWritten(d, start, lh, cache, k) && k < |lh| && lh[k] in cache
    ensures LogsWritten(Put(d, start + k + 1, cache[lh[k]]), start, lh, cache, k + 1)
  {
  }

  lemma CommitLogKeeps(s: Sys, start: nat, home: Disk)
    requires Sound(s, start, home) && s.pc.Commit? && s.pc.at < |s.lh|
    ensures Sound(CommitLog(s, start, s.pc.at), start, home)
  {
    hide Recovered, Head, GoodDisk, Current, LogsWritten, PinnedOnce;
    var at := s.pc.at;
    CurrentKept(s.disk, s.disk, start, s.lh, s.cache);
    LogBlockStep(s.disk, start, at, s.cache[s.lh[at]]);
    var t := CommitLog(s, start, at);
    CurrentKept(s.disk, t.disk, start, s.lh, s.cache);
    OneMoreWritten(s.disk, start, s.lh, s.cache, at);
  }

  /** The header write adds exactly the current transaction to what recovery yields. */
  lemma CommitHeadDurable(d: Disk, start: nat, lh: seq<nat>, cache: Disk, home: Disk, committed: seq<seq<Rec>>, trace: seq<Rec>)
    requires Durable(d, start, home, committed) && Head(d, start) == [] && Current(d, start, lh, cache)
    requires Traced(d, cache, trace) && LogsWritten(d, start, lh, cache, |lh|) && start in d
    ensures var d1 := Put(d, start, MakeHead(d[start], lh));
            Durable(d1, start, home, committed + [trace]) && Head(d1, start) == lh
  {
    hide Recovered, Head, LastOf, Replay, GoodDisk, MakeHead;
    CurrentKept(d, d, start, lh, cache);
    CommitPoint(d, start, lh, cache);
    TraceAtHome(d, start, lh, cache, trace);
    OverlayReplay(Recovered(d, start), trace);
    assert (committed + [trace])[..|committed|] == committed;
  }

  lemma CommitHeadKeeps(s: Sys, start: nat, home: Disk)
    requires Sound(s, start, home) && s.pc == Commit(|s.lh|) && |s.lh| > 0
    ensures Sound(CommitHead(s, start), start, home) && CommitHead(s, start).committed == s.committed + [s.trace]
    ensures CommitHead(s, start).first == s.next && CommitHead(s, start).trace == []
  {
    hide Durable, Head, Current, Traced, LogsWritten, MakeHead;
    CurrentKept(s.disk, s.disk, start, s.lh, s.cache);
    CommitHeadDurable(s.disk, start, s.lh, s.cache, home, s.committed, s.trace);
    CurrentKept(s.disk, CommitHead(s, start).disk, start, s.lh, s.cache);
  }

  lemma TraceAtHome(d: Disk, start: nat, lh: seq<nat>, cache: Disk, trace: seq<Rec>)
    requires Head(d, start) == [] && Current(d, start, lh, cache) && Traced(d, cache, trace)
    ensures forall i :: 0 <= i < |trace| ==> trace[i].block in Recovered(d, start)
  {
    forall i | 0 <= i < |trace| ensures trace[i].block in Recovered(d, start) {
      LastOfHas(trace, i);
    }
  }

  lemma {:induction false} LastOfHas(recs: seq<Rec>, i: nat)
    requires i < |recs|
    ensures recs[i].block in LastOf(recs)
    decreases |recs|
  {
    if i < |recs| - 1 { LastOfHas(recs[..|recs| - 1], i); }
  }

  lemma CurrentHead(d: Disk, start: nat, lh: seq<nat>, cache: Disk)
    requires Current(d, start, lh, cache)
    ensures GoodHead(d, start, lh)
  {
  }

  lemma PutKeys(d: Disk, b: nat, x: Block)
    requires b in d
    ensures Put(d, b, x).Keys == d.Keys
  {
  }

  lemma CommitInstallKeeps(s: Sys, start: nat, home: Disk, tail: nat)
    requires Sound(s, start, home) && s.pc == Commit(|s.lh| + 1 + tail) && tail < |s.lh|
    ensures Sound(CommitInstall(s, start, tail), start, home)
  {
    hide Recovered, Head, HomeWritten, GoodDisk, GoodHead, Current, Put, Logging, PinnedOnce, Pins;
    InstallOne(s.disk, start, s.lh, tail);
    CurrentKept(s.disk, s.disk, start, s.lh, s.cache);
    PutKeys(s.disk, s.lh[tail], s.disk[start + tail + 1]);
    CurrentKept(s.disk, CommitInstall(s, start, tail).disk, start, s.lh, s.cache);
    assert GoodHead(s.disk, start, s.lh) by { CurrentHead(s.disk, start, s.lh, s.cache); }
    UnpinOne(s.disk, start, s.pins, s.lh, tail);
  }

  lemma CommitClearKeeps(s: Sys, start: nat, home: Disk)
    requires Sound(s, start, home) && s.pc == Commit(2 * |s.lh| + 1) && 0 < |s.lh|
    ensures Sound(CommitClear(s, start), start, home)
  {
    hide Recovered, Head, Installed, GoodDisk;
    CurrentKept(s.disk, s.disk, start, s.lh, s.cache);
    AlreadyInstalled(s.disk, start, s.lh, |s.lh|);
    ClearStep(s.disk, start, s.lh);
  }

  lemma CommitEmptyKeeps(s: Sys, start: nat, home: Disk, others: nat)
    requires Sound(s, start, home) && s.pc.Commit? && s.lh == []
    ensures Sound(CommitWrite(s, start, s.pc.at, others), start, home)
  {
    hide Recovered, Head;
    assert Head(s.disk, start) == [] by {
      if s.pc.at > 0 { assert Head(s.disk, start) == s.lh; }
    }
    assert s.cache == map[];
  }

  lemma WriteSpace(lh: seq<nat>, outstanding: nat, active: map<nat, set<nat>>, op: nat, b: nat)
    requires Space(lh, outstanding, active) && op in active && |active[op] + {b}| <= MAXOPBLOCKS
    ensures b !in lh ==> |lh| < LOGBLOCKS
    ensures |lh| >= LOGBLOCKS ==> b in active[op]
    ensures Space(if b in lh then lh else lh + [b], outstanding, active[op := active[op] + {b}])
  {
    hide Reserve;
    ReserveAt(active, op);
    ReserveSet(active, op, active[op] + {b});
    if b in active[op] {
      assert active[op] + {b} == active[op];
    } else {
      assert |active[op] + {b}| == |active[op]| + 1;
    }
    assert active[op := active[op] + {b}].Keys == active.Keys;
  }

  /** A log_write within the operation's budget panics exactly when the log is full, and then its block was already logged. */
  lemma LogWritePanics(s: Sys, start: nat, home: Disk, op: nat, b: nat, x: Block)
    requires Inv(s, start, home) && !s.panicked && MayLog(s, start, op, b)
    ensures Next(s, start, LogWrite(op, b, x)).panicked <==> |s.lh| == LOGBLOCKS
    ensures |s.lh| == LOGBLOCKS ==> b in s.active[op] && b in s.lh
    ensures s.pc == Normal && s.outstanding >= 1
  {
    hide Durable, Current, Traced, Head;
    assert s.pc == Normal;
    WriteSpace(s.lh, s.outstanding, s.active, op, b);
  }

  lemma WriteKeeps(s: Sys, start: nat, home: Disk, op: nat, b: nat, x: Block)
    requires Sound(s, start, home)
    ensures Sound(Write(s, start, op, b, x), start, home)
  {
    hide Durable, Head, Current, Traced, Space, PinnedOnce, Pins;
    if MayLog(s, start, op, b) && |s.lh| < LOGBLOCKS && s.outstanding >= 1 {
      assert s.pc == Normal;
      WriteSpace(s.lh, s.outstanding, s.active, op, b);
      WriteTraced(s.disk, s.cache, s.trace, Rec(op, b, x));
      WriteCurrent(s.disk, start, s.lh, s.cache, b, x);
      if b !in s.lh { PinOne(s.pins, s.lh, b); }
    }
  }

  lemma WriteTraced(d: Disk, cache: Disk, trace: seq<Rec>, r: Rec)
    requires Traced(d, cache, trace) && r.block in d
    ensures Traced(d, cache[r.block := r.data], trace + [r])
  {
    AppendRec(trace, r);
  }

  lemma WriteCurrent(d: Disk, start: nat, lh: seq<nat>, cache: Disk, b: nat, x: Block)
    requires Current(d, start, lh, cache) && b in d && !InLog(b, start) && |lh| < LOGBLOCKS
    ensures Current(d, start, if b in lh then lh else lh + [b], cache[b := x])
  {
  }

  // ---------------------------------------------------------------------
  // Atomicity of operations

  lemma AtomicWrite(first: nat, trace: seq<Rec>, committed: seq<seq<Rec>>, history: seq<Rec>, r: Rec)
    requires Atomic(first, trace, committed, history) && first <= r.op
    ensures Atomic(first, trace + [r], committed, history + [r])
  {
    hide Flat;
    forall op: nat ensures OfOp(history + [r], op) == OfOp(history, op) + OfOp([r], op) { OfOpConcat(history, [r], op); }
    forall op: nat ensures OfOp(trace + [r], op) == OfOp(trace, op) + OfOp([r], op) { OfOpConcat(trace, [r], op); }
    forall op: nat | op < first ensures OfOp([r], op) == [] { OfOpNone([r], op); }
  }

  lemma AtomicCommit(first: nat, next: nat, trace: seq<Rec>, committed: seq<seq<Rec>>, history: seq<Rec>)
    requires Atomic(first, trace, committed, history) && first <= next
    requires forall i :: 0 <= i < |history| ==> history[i].op < next
    ensures Atomic(next, [], committed + [trace], history)
  {
    hide Flat, OfOp;
    forall op: nat
      ensures OfOp(Flat(committed + [trace]), op) == OfOp(Flat(committed), op) + OfOp(trace, op)
      ensures op < first ==> OfOp(trace, op) == []
      ensures next <= op ==> OfOp(history, op) == [] && OfOp([], op) == []
    {
      FlatAppend(committed, trace);
      OfOpConcat(Flat(committed), trace, op);
      if op < first { OfOpNone(trace, op); }
      if next <= op {
        OfOpNone(history, op);
        OfOpNone([], op);
      }
    }
  }

  lemma FlatAppend(txns: seq<seq<Rec>>, t: seq<Rec>)
    ensures Flat(txns + [t]) == Flat(txns) + t
  {
    assert (txns + [t])[..|txns|] == txns;
  }

  /** The current transaction is given up. */
  lemma AtomicDrop(first: nat, next: nat, trace: seq<Rec>, committed: seq<seq<Rec>>, history: seq<Rec>)
    requires Atomic(first, trace, committed, history) && first <= next
    requires forall i :: 0 <= i < |history| ==> history[i].op < next
    ensures Atomic(next, [], committed, history)
  {
    hide Flat;
    forall op: nat | next <= op ensures OfOp(history, op) == [] { OfOpNone(history, op); }
  }

  // ---------------------------------------------------------------------
  // Runs

  lemma DiskWriteKeeps(s: Sys, start: nat, home: Disk, others: nat)
    requires Inv(s, start, home)
    ensures Inv(Next(s, start, DiskWrite(others)), start, home)
    ensures Next(s, start, DiskWrite(others)).panicked <==> s.panicked || CommitStarved(s, others)
  {
    hide Durable, Atomic, Phase, CommitLog, CommitHead, CommitInstall, CommitClear, RecoverWrite, NoBuffer;
    if !s.panicked && s.pc.Recover? {
      RecoverKeeps(s, start, home);
      RecoverFields(s, start);
    } else if !s.panicked && s.pc.Commit? {
      var n := |s.lh|;
      var at := s.pc.at;
      CommitAt(s, start);
      if n == 0 {
        CommitEmptyKeeps(s, start, home, others);
        AtomicDrop(s.first, s.next, s.trace, s.committed, s.history);
      } else if NoBuffer(s.pins, others) {
        PanicKeeps(s, start, home);
      } else if at < n {
        CommitLogKeeps(s, start, home);
        LogFields(s, start, at);
      } else if at == n {
        CommitHeadKeeps(s, start, home);
        HeadFields(s, start);
        AtomicCommit(s.first, s.next, s.trace, s.committed, s.history);
      } else if at <= 2 * n {
        CommitInstallKeeps(s, start, home, at - n - 1);
        LogFields(s, start, at - n - 1);
      } else {
        CommitClearKeeps(s, start, home);
        LogFields(s, start, 0);
      }
    }
  }

  /** The next write of the commit in progress finds no buffer. */
  predicate CommitStarved(s: Sys, others: nat) { s.pc.Commit? && s.lh != [] && NoBuffer(s.pins, others) }

  lemma PanicKeeps(s: Sys, start: nat, home: Disk)
    requires Sound(s, start, home)
    ensures Sound(s.(panicked := true), start, home)
  {
    hide Durable;
  }

  lemma RecoverFields(s: Sys, start: nat)
    requires s.pc.Recover?
    ensures SameTxn(s, RecoverWrite(s, start, s.pc.at))
  {
    hide Put, MakeHead;
  }

  lemma CommitAt(s: Sys, start: nat)
    requires Phase(s, start) && s.pc.Commit?
    ensures s.active == map[] && (|s.lh| > 0 ==> s.pc.at <= 2 * |s.lh| + 1)
  {
  }

  ghost predicate SameOps(s: Sys, t: Sys) {
    t.next == s.next && t.active == s.active && t.history == s.history && t.panicked == s.panicked
  }

  ghost predicate SameTxn(s: Sys, t: Sys) {
    SameOps(s, t) && t.first == s.first && t.trace == s.trace && t.committed == s.committed
  }

  lemma LogFields(s: Sys, start: nat, at: nat)
    requires at < |s.lh|
    ensures SameTxn(s, CommitLog(s, start, at)) && SameTxn(s, CommitInstall(s, start, at)) && SameTxn(s, CommitClear(s, start))
  {
    hide Put, MakeHead;
  }

  lemma HeadFields(s: Sys, start: nat)
    ensures SameOps(s, CommitHead(s, start)) && CommitHead(s, start).first in {s.first, s.next}
  {
    hide Put, MakeHead;
  }

  lemma NextKeeps(s: Sys, start: nat, home: Disk, step: Step)
    requires Inv(s, start, home)
    ensures Inv(Next(s, start, step), start, home)
  {
    hide Durable, Atomic, Phase, CommitWrite, RecoverWrite;
    if !s.panicked || step == Crash {
      match step
      case BeginOp => BeginKeeps(s, start, home);
      case LogWrite(op, b, x) =>
        WriteKeeps(s, start, home, op, b, x);
        if MayLog(s, start, op, b) { AtomicWrite(s.first, s.trace, s.committed, s.history, Rec(op, b, x)); }
      case EndOp(op) => EndKeeps(s, start, home, op);
      case DiskWrite(others) => DiskWriteKeeps(s, start, home, others);
      case Crash =>
        CrashKeeps(s, start, home);
        AtomicDrop(s.first, s.next, s.trace, s.committed, s.history);
      case ReadHead => if s.pc.Down? { ReadHeadKeeps(s, start, home); }
    }
  }

  ghost function Run(s: Sys, start: nat, steps: seq<Step>): Sys
    decreases |steps|
  {
    if |steps| == 0 then s else Next(Run(s, start, steps[..|steps| - 1]), start, steps[|steps| - 1])
  }

  /** A machine that has just been switched on. */
  function Boot(d: Disk): Sys {
    Sys(d, Down, [], map[], 0, map[], map[], [], [], [], 0, 0, false)
  }

  /** A disk that a kernel left behind, at rest or in the middle of anything: its log may hold a committed transaction. */
  ghost predicate Bootable(d: Disk, start: nat) {
    GoodDisk(d, start) && start in d && d[start][0] <= LOGBLOCKS
  }

  /** After any run of operations, disk writes and crashes, recovery would yield exactly the committed transactions. */
  lemma {:induction false} RunInvariant(d: Disk, start: nat, steps: seq<Step>)
    requires Bootable(d, start)
    ensures Inv(Run(Boot(d), start, steps), start, Recovered(d, start))
    decreases |steps|
  {
    hide Inv, Next, Recovered;
    if |steps| == 0 {
      BootInv(d, start);
    } else {
      RunInvariant(d, start, steps[..|steps| - 1]);
      NextKeeps(Run(Boot(d), start, steps[..|steps| - 1]), start, Recovered(d, start), steps[|steps| - 1]);
    }
  }

  lemma BootInv(d: Disk, start: nat)
    requires GoodDisk(d, start)
    ensures Inv(Boot(d), start, Recovered(d, start))
  {
  }

  /**
   Crash safety. After any run, with any number of crashes at any point, carrying
   out recovery leaves what the disk held at first, with exactly the committed
   transactions applied, in order; each operation is in them with all its writes
   or with none; and a running system sees those plus the current transaction.
   */
  lemma CrashSafe(d: Disk, start: nat, steps: seq<Step>, op: nat)
    requires Bootable(d, start)
    ensures var s := Run(Boot(d), start, steps);
            && Home(FullRecovery(s.disk, start), start) == ReplayAll(Recovered(d, start), s.committed)
            && Head(FullRecovery(s.disk, start), start) == []
            && (OfOp(Flat(s.committed), op) == [] || OfOp(Flat(s.committed), op) == OfOp(s.history, op))
            && (s.pc == Normal ==> Overlay(Home(s.disk, start), s.cache) == Replay(ReplayAll(Recovered(d, start), s.committed), s.trace))
  {
    hide FullRecovery, Head, Recovered, Overlay, Replay, ReplayAll, OfOp, Flat, Run;
    var s := Run(Boot(d), start, steps);
    RunInvariant(d, start, steps);
    FullRecoveryHome(s.disk, start);
    if s.pc == Normal {
      EmptyHead(s.disk, start);
      TraceAtHome(s.disk, start, s.lh, s.cache, s.trace);
      OverlayReplay(Recovered(s.disk, start), s.trace);
    }
  }

  /** A run, and then recovery, see a transaction only once its header write has happened. */
  lemma CommitsAtHeader(s: Sys, start: nat, step: Step)
    ensures var t := Next(s, start, step);
            t.committed != s.committed ==> step.DiskWrite? && s.pc == Commit(|s.lh|) && t.committed == s.committed + [s.trace]
  {
    hide MakeHead, Put;
  }

  /** Space, pins and exclusion in every reachable state: a logged block has exactly one pin until it is installed. */
  lemma SpaceAndPins(d: Disk, start: nat, steps: seq<Step>, b: nat)
    requires Bootable(d, start)
    ensures var s := Run(Boot(d), start, steps);
            && |s.lh| <= LOGBLOCKS
            && s.outstanding == |s.active|
            && (s.pc != Normal ==> s.active == map[])
            && (s.pc == Normal || s.pc.Commit? ==> Pins(s.pins, b) == if b in s.lh[InstalledSoFar(s)..] then 1 else 0)
  {
    hide Run, Durable, Phase, Atomic, Numbered;
    var s := Run(Boot(d), start, steps);
    RunInvariant(d, start, steps);
    assert GoodDisk(s.disk, start) by { DurableDisk(s, start, Recovered(d, start)); }
    SpacePhase(s, start);
  }

  lemma DurableDisk(s: Sys, start: nat, home: Disk)
    requires Durable(s.disk, start, home, s.committed)
    ensures GoodDisk(s.disk, start)
  {
  }

  /**
   The two ways to a panic, in every reachable state: a block that is already in
   a full log is logged once more, or a commit finds every buffer of the cache
   in use, pinned by its own blocks not yet installed or held by others.
   */
  lemma OnlyPanic(d: Disk, start: nat, steps: seq<Step>, step: Step)
    requires Bootable(d, start)
    ensures var s := Run(Boot(d), start, steps);
            !s.panicked ==>
              (Next(s, start, step).panicked <==>
               || (step.LogWrite? && MayLog(s, start, step.op, step.block) && step.block in s.lh && |s.lh| == LOGBLOCKS)
               || (step.DiskWrite? && s.pc.Commit? && s.lh != [] && |s.lh| - InstalledSoFar(s) + step.others >= BufferCache.NBUF))
  {
    hide Run, Inv, Next, MayLog;
    var s := Run(Boot(d), start, steps);
    RunInvariant(d, start, steps);
    if !s.panicked { PanicOnly(s, start, Recovered(d, start), step); }
  }

  /** How many blocks of the commit in progress are installed. */
  function InstalledSoFar(s: Sys): (k: nat)
    ensures k <= |s.lh|
  {
    if s.pc.Commit? && |s.lh| < s.pc.at && s.pc.at - |s.lh| - 1 <= |s.lh| then s.pc.at - |s.lh| - 1 else 0
  }

  lemma SpacePhase(s: Sys, start: nat)
    requires GoodDisk(s.disk, start) && Phase(s, start)
    ensures |s.lh| <= LOGBLOCKS && s.outstanding == |s.active| && (s.pc != Normal ==> s.active == map[])
    ensures s.pc == Normal || s.pc.Commit? ==> PinnedOnce(s.pins, s.lh, InstalledSoFar(s))
    ensures forall i, j :: 0 <= i < j < |s.lh| ==> s.lh[i] != s.lh[j]
  {
    hide Head;
  }

  lemma PanicOnly(s: Sys, start: nat, home: Disk, step: Step)
    requires Inv(s, start, home) && !s.panicked
    ensures Next(s, start, step).panicked <==>
            || (step.LogWrite? && MayLog(s, start, step.op, step.block) && step.block in s.lh && |s.lh| == LOGBLOCKS)
            || (step.DiskWrite? && s.pc.Commit? && s.lh != [] && |s.lh| - InstalledSoFar(s) + step.others >= BufferCache.NBUF)
  {
    hide Inv, Write, End, CommitWrite, RecoverWrite, NoBuffer, MayLog;
    match step
    case LogWrite(op, b, x) =>
      WriteChanges(s, start, op, b, x);
      if MayLog(s, start, op, b) { LogWritePanics(s, start, home, op, b, x); }
    case EndOp(op) => assert Sound(s, start, home) by { SoundOf(s, start, home); } EndKeeps(s, start, home, op);
    case DiskWrite(others) =>
      DiskWriteKeeps(s, start, home, others);
      StarvedPins(s, start, home, others);
    case _ =>
  }

  /** The pinned buffers are those of the blocks not yet installed. */
  lemma StarvedPins(s: Sys, start: nat, home: Disk, others: nat)
    requires Inv(s, start, home)
    ensures CommitStarved(s, others) <==> s.pc.Commit? && s.lh != [] && |s.lh| - InstalledSoFar(s) + others >= BufferCache.NBUF
  {
    hide Durable, Phase, PinnedOnce;
    if s.pc.Commit? {
      assert GoodDisk(s.disk, start) by { DurableDisk(s, start, home); }
      SpacePhase(s, start);
      BusyPins(s.pins, s.lh, InstalledSoFar(s));
    }
  }

  /** Pins that hold the entries from k on once each keep as many buffers in use. */
  lemma BusyPins(pins: map<nat, nat>, lh: seq<nat>, k: nat)
    requires k <= |lh| && PinnedOnce(pins, lh, k)
    requires forall i, j :: 0 <= i < j < |lh| ==> lh[i] != lh[j]
    ensures Busy(pins) == |lh| - k
  {
    var rest := lh[k..];
    forall b: nat ensures (b in pins && pins[b] > 0) <==> b in rest {
      assert Pins(pins, b) == if b in rest then 1 else 0;
    }
    assert (set b | b in pins && pins[b] > 0) == Elements(rest);
    DistinctCount(rest);
  }

  lemma {:induction false} DistinctCount(l: seq<nat>)
    requires forall i, j :: 0 <= i < j < |l| ==> l[i] != l[j]
    ensures |Elements(l)| == |l|
  {
    if l != [] {
      var most, last := l[..|l| - 1], l[|l| - 1];
      DistinctCount(most);
      assert last !in most && l == most + [last];
      assert Elements(l) == Elements(most) + {last};
    }
  }

  function Elements(l: seq<nat>): set<nat> { set b | b in l }

  lemma SoundOf(s: Sys, start: nat, home: Disk)
    requires Inv(s, start, home)
    ensures Sound(s, start, home)
  {
  }

  lemma WriteChanges(s: Sys, start: nat, op: nat, b: nat, x: Block)
    ensures !MayLog(s, start, op, b) ==> Write(s, start, op, b, x) == s
  {
  }

  // ---------------------------------------------------------------------
  // Commit and recovery come to an end

  /** Disk writes without a crash, with so many buffers held by others at each. */
  ghost function Writes(s: Sys, start: nat, others: seq<nat>): Sys
    decreases |others|
  {
    if others == [] then s else Writes(Next(s, start, DiskWrite(others[0])), start, others[1..])
  }

  lemma {:induction false} WritesPanicked(s: Sys, start: nat, others: seq<nat>)
    requires s.panicked
    ensures Writes(s, start, others) == s
    decreases |others|
  {
    if others != [] { WritesPanicked(s, start, others[1..]); }
  }

  /** Buffers that a commit of n blocks keeps pinned after `at` of its writes. */
  function StillPinned(n: nat, at: nat): nat {
    if at <= n then n else if at <= 2 * n + 1 then 2 * n + 1 - at else 0
  }

  /** Each write of a commit of n blocks, of which `at` are done, finds a buffer. */
  ghost predicate BuffersLeft(n: nat, at: nat, others: seq<nat>) {
    forall i :: 0 <= i < |others| ==> StillPinned(n, at + i) + others[i] < BufferCache.NBUF
  }

  lemma InRange(s: Sys, start: nat, home: Disk)
    requires Inv(s, start, home)
    ensures s.pc.Commit? && |s.lh| > 0 ==> s.pc.at <= 2 * |s.lh| + 1
    ensures s.pc.Recover? ==> s.pc.at <= |s.lh|
  {
    hide Durable, Atomic, Numbered, Traced, Head, HomeWritten, LogsWritten, PinnedOnce;
  }

  /** The next write of a commit in progress, if it finds a buffer. */
  lemma CommitGoesOn(s: Sys, start: nat, home: Disk, others: nat)
    requires Inv(s, start, home) && !s.panicked && s.pc.Commit? && |s.lh| > 0
    ensures var t := Next(s, start, DiskWrite(others));
            if NoBuffer(s.pins, others) then t == s.(panicked := true)
            else
              && !t.panicked
              && (s.pc.at <= 2 * |s.lh| ==> t.pc == Commit(s.pc.at + 1) && t.lh == s.lh)
              && (s.pc.at == 2 * |s.lh| + 1 ==> t.pc == Normal && t.lh == [])
              && t.committed == (if s.pc.at == |s.lh| then s.committed + [s.trace] else s.committed)
              && (s.pc.at < |s.lh| ==> t.trace == s.trace)
  {
    hide Durable, Atomic, Numbered, Traced, Put, MakeHead, Head, HomeWritten, LogsWritten, PinnedOnce, NoBuffer;
    CurrentKept(s.disk, s.disk, start, s.lh, s.cache);
  }

  lemma CommitBuffers(s: Sys, start: nat, home: Disk, others: nat)
    requires Inv(s, start, home) && s.pc.Commit? && |s.lh| > 0 && s.pc.at <= 2 * |s.lh| + 1
    ensures NoBuffer(s.pins, others) <==> StillPinned(|s.lh|, s.pc.at) + others >= BufferCache.NBUF
  {
    hide Inv, NoBuffer;
    StarvedPins(s, start, home, others);
    assert |s.lh| - InstalledSoFar(s) == StillPinned(|s.lh|, s.pc.at);
  }

  /**
   A commit of n logged blocks takes 2n + 2 disk writes: n to the log, the
   header, n home, the header. It completes if and only if each of them finds a
   buffer beside those it still pins and those in use by others; otherwise it
   panics, and the transaction is committed exactly if that happens after the
   first header write.
   */
  lemma {:induction false} CommitCompletes(s: Sys, start: nat, home: Disk, others: seq<nat>)
    requires Inv(s, start, home) && !s.panicked && s.pc.Commit? && |s.lh| > 0
    requires |others| == 2 * |s.lh| + 2 - s.pc.at
    ensures var t := Writes(s, start, others);
            && Inv(t, start, home)
            && (if BuffersLeft(|s.lh|, s.pc.at, others) then t.pc == Normal && t.lh == [] && !t.panicked else t.panicked && t.pc.Commit?)
            && t.committed == if s.pc.at <= |s.lh| && BuffersLeft(|s.lh|, s.pc.at, others[..|s.lh| + 1 - s.pc.at]) then s.committed + [s.trace]
                              else s.committed
    decreases |others|
  {
    hide Inv, Next, NoBuffer, StillPinned;
    var n, at := |s.lh|, s.pc.at;
    InRange(s, start, home);
    CommitGoesOn(s, start, home, others[0]);
    CommitBuffers(s, start, home, others[0]);
    NextKeeps(s, start, home, DiskWrite(others[0]));
    var t := Next(s, start, DiskWrite(others[0]));
    BuffersNext(n, at, others);
    if at <= n { BuffersNext(n, at, others[..n + 1 - at]); }
    if NoBuffer(s.pins, others[0]) {
      WritesPanicked(t, start, others[1..]);
    } else if at <= 2 * n {
      CommitCompletes(t, start, home, others[1..]);
      assert at < n ==> others[..n + 1 - at][1..] == others[1..][..n - at];
      assert at == n ==> others[..1][1..] == [];
    } else {
      assert others[1..] == [];
    }
  }

  lemma BuffersNext(n: nat, at: nat, others: seq<nat>)
    requires others != []
    ensures BuffersLeft(n, at, others) <==> StillPinned(n, at) + others[0] < BufferCache.NBUF && BuffersLeft(n, at + 1, others[1..])
  {
    hide StillPinned;
    if StillPinned(n, at) + others[0] < BufferCache.NBUF && BuffersLeft(n, at + 1, others[1..]) {
      forall i | 0 <= i < |others| ensures StillPinned(n, at + i) + others[i] < BufferCache.NBUF {
        assert i > 0 ==> others[i] == others[1..][i - 1] && StillPinned(n, at + 1 + (i - 1)) + others[1..][i - 1] < BufferCache.NBUF;
      }
    }
    if BuffersLeft(n, at, others) {
      forall i | 0 <= i < |others| - 1 ensures StillPinned(n, at + 1 + i) + others[1..][i] < BufferCache.NBUF {
        assert StillPinned(n, at + (i + 1)) + others[i + 1] < BufferCache.NBUF;
      }
    }
  }

  /**
   With no other buffer in use, a commit completes if and only if it has fewer
   blocks than the cache has buffers. A log of LOGBLOCKS = NBUF blocks panics at
   the first write, with nothing committed.
   */
  lemma CommitAlone(s: Sys, start: nat, home: Disk)
    requires Inv(s, start, home) && !s.panicked && s.pc == Commit(0) && |s.lh| > 0
    ensures var t := Writes(s, start, seq(2 * |s.lh| + 2, _ => 0));
            && (t.pc == Normal && !t.panicked <==> |s.lh| < BufferCache.NBUF)
            && t.committed == (if |s.lh| < BufferCache.NBUF then s.committed + [s.trace] else s.committed)
            && (|s.lh| >= BufferCache.NBUF ==> t == s.(panicked := true))
  {
    hide Inv, Next, NoBuffer, Writes;
    var n := |s.lh|;
    var none := seq(2 * n + 2, _ => 0);
    CommitCompletes(s, start, home, none);
    assert none[0] == 0 && none[..n + 1][0] == 0;
    assert StillPinned(n, 0 + 0) == n;
    if n >= BufferCache.NBUF {
      CommitGoesOn(s, start, home, 0);
      CommitBuffers(s, start, home, 0);
      WritesFirst(s, start, none);
    }
  }

  lemma WritesFirst(s: Sys, start: nat, others: seq<nat>)
    requires others != [] && Next(s, start, DiskWrite(others[0])).panicked
    ensures Writes(s, start, others) == Next(s, start, DiskWrite(others[0]))
  {
    hide Next;
    WritesPanicked(Next(s, start, DiskWrite(others[0])), start, others[1..]);
  }

  /** A recovery of n logged blocks is over after n + 1 disk writes; it runs before any other process. */
  lemma {:induction false} RecoverCompletes(s: Sys, start: nat, home: Disk, others: seq<nat>)
    requires Inv(s, start, home) && !s.panicked && s.pc.Recover? && |others| == |s.lh| + 1 - s.pc.at
    ensures var t := Writes(s, start, others);
            Inv(t, start, home) && t.pc == Normal && t.lh == [] && !t.panicked && t.committed == s.committed
    decreases |others|
  {
    hide Inv, Next;
    InRange(s, start, home);
    RecoverGoesOn(s, start, home, others[0]);
    NextKeeps(s, start, home, DiskWrite(others[0]));
    var t := Next(s, start, DiskWrite(others[0]));
    if s.pc.at < |s.lh| {
      RecoverCompletes(t, start, home, others[1..]);
    } else {
      assert others[1..] == [];
    }
  }

  lemma RecoverGoesOn(s: Sys, start: nat, home: Disk, others: nat)
    requires Inv(s, start, home) && !s.panicked && s.pc.Recover?
    ensures var t := Next(s, start, DiskWrite(others));
            && !t.panicked && t.committed == s.committed
            && (s.pc.at < |s.lh| ==> t.pc == Recover(s.pc.at + 1) && t.lh == s.lh)
            && (s.pc.at == |s.lh| ==> t.pc == Normal && t.lh == [])
  {
    hide Atomic, Numbered, Traced, Put, MakeHead, Head, Recovered;
    assert InLog(start, start);
    assert s.pc.at < |s.lh| ==> InLog(start + s.pc.at + 1, start);
  }

  // ---------------------------------------------------------------------
  // Runs that end in a panic

  function Zero(): Block { seq(WORDS, _ => 0) }

  /** A small disk with an empty log at block 2. */
  function DemoDisk(): Disk { map b: nat | b < 200 && InDemo(b) :: Zero() }

  predicate InDemo(b: nat) { b < 200 }

  /** After recovery, three operations that log ten blocks each. */
  function FillSteps(k: nat): seq<Step> {
    if k == 0 then [ReadHead, DiskWrite(0), BeginOp, BeginOp, BeginOp] else FillSteps(k - 1) + [LogWrite((k - 1) / MAXOPBLOCKS, 100 + k - 1, Zero())]
  }

  ghost predicate Filled(s: Sys, k: nat) {
    && s.pc == Normal && !s.panicked && s.outstanding == 3 && s.disk == DemoDisk()
    && |s.lh| == k && (forall i :: 0 <= i < k ==> s.lh[i] == 100 + i)
    && s.active.Keys == {0, 1, 2} && s.committed == []
    && (forall op: nat, b: nat :: op in s.active && b in s.active[op] ==> 100 + op * MAXOPBLOCKS <= b < 100 + (op + 1) * MAXOPBLOCKS)
    && (k > 0 ==> 100 in s.active[0])
  }

  lemma {:induction false} SmallRange(a: set<nat>, lo: nat, n: nat)
    requires forall b :: b in a ==> lo <= b < lo + n
    ensures |a| <= n
    decreases n
  {
    if n == 0 {
      assert a == {};
    } else {
      SmallRange(a - {lo + n - 1}, lo, n - 1);
      assert |a - {lo + n - 1}| >= |a| - 1;
    }
  }

  lemma FillMay(s: Sys, k: nat, op: nat)
    requires Filled(s, k) && k < LOGBLOCKS && op == k / MAXOPBLOCKS
    ensures MayLog(s, 2, op, 100 + k)
  {
    assert op == 0 || op == 1 || op == 2;
    SmallRange(s.active[op] + {100 + k}, 100 + op * MAXOPBLOCKS, MAXOPBLOCKS);
  }

  lemma FillStep(s: Sys, k: nat, op: nat)
    requires Filled(s, k) && k < LOGBLOCKS && op == k / MAXOPBLOCKS
    ensures Filled(Next(s, 2, LogWrite(op, 100 + k, Zero())), k + 1)
  {
    hide DemoDisk, Zero;
    FillMay(s, k, op);
    hide MayLog;
  }

  lemma RunAppend(s: Sys, start: nat, steps: seq<Step>, step: Step)
    ensures Run(s, start, steps + [step]) == Next(Run(s, start, steps), start, step)
  {
    assert (steps + [step])[..|steps|] == steps;
  }

  ghost predicate Begun(s: Sys, k: nat) {
    && s.pc == Normal && !s.panicked && s.outstanding == k && s.disk == DemoDisk() && s.lh == [] && s.next == k && s.committed == []
    && (forall op: nat :: op in s.active <==> op < k) && (forall op: nat :: op in s.active ==> s.active[op] == {})
  }

  lemma BeginAgain(s: Sys, k: nat)
    requires Begun(s, k) && k < 3
    ensures Begun(Next(s, 2, BeginOp), k + 1)
  {
    hide DemoDisk;
  }

  /** The two steps of a recovery with nothing to install. */
  lemma DemoRecovers()
    ensures Begun(Next(Next(Boot(DemoDisk()), 2, ReadHead), 2, DiskWrite(0)), 0)
  {
    DemoGood();
    var z := Zero();
    assert MakeHead(z, []) == z;
  }

  lemma FillBase()
    ensures Filled(Run(Boot(DemoDisk()), 2, FillSteps(0)), 0)
  {
    hide DemoDisk, Next, Run, Boot;
    var s := Boot(DemoDisk());
    var a, b := [ReadHead], [ReadHead, DiskWrite(0)];
    assert Run(s, 2, []) == s by { RunNone(s); }
    assert [] + [ReadHead] == a && a + [DiskWrite(0)] == b;
    RunAppend(s, 2, [], ReadHead);
    RunAppend(s, 2, a, DiskWrite(0));
    DemoRecovers();
    BeginThree(s, b);
    assert b + [BeginOp] + [BeginOp] + [BeginOp] == FillSteps(0);
  }

  lemma BeginThree(s: Sys, b: seq<Step>)
    requires Begun(Run(s, 2, b), 0)
    ensures Begun(Run(s, 2, b + [BeginOp] + [BeginOp] + [BeginOp]), 3)
  {
    hide Begun, Next, Run;
    RunAppend(s, 2, b, BeginOp);
    BeginAgain(Run(s, 2, b), 0);
    RunAppend(s, 2, b + [BeginOp], BeginOp);
    BeginAgain(Run(s, 2, b + [BeginOp]), 1);
    RunAppend(s, 2, b + [BeginOp] + [BeginOp], BeginOp);
    BeginAgain(Run(s, 2, b + [BeginOp] + [BeginOp]), 2);
  }

  lemma RunNone(s: Sys)
    ensures Run(s, 2, []) == s
  {
  }

  lemma {:induction false} FillRun(k: nat)
    requires k <= LOGBLOCKS
    ensures Filled(Run(Boot(DemoDisk()), 2, FillSteps(k)), k)
    decreases k
  {
    hide Filled, Run, Next, DemoDisk, Zero;
    if k == 0 {
      FillBase();
    } else {
      var s := Boot(DemoDisk());
      FillRun(k - 1);
      FillStep(Run(s, 2, FillSteps(k - 1)), k - 1, (k - 1) / MAXOPBLOCKS);
      RunAppend(s, 2, FillSteps(k - 1), LogWrite((k - 1) / MAXOPBLOCKS, 100 + (k - 1), Zero()));
    }
  }

  lemma DemoGood()
    ensures GoodDisk(DemoDisk(), 2) && Head(DemoDisk(), 2) == []
  {
  }

  lemma DemoBoots()
    ensures Bootable(DemoDisk(), 2)
  {
    DemoGood();
  }

  /** Operations that keep to their budget can still panic: three fill the log, and one logs a block of its own again. */
  lemma AbsorbedWritePanics()
    ensures Bootable(DemoDisk(), 2)
    ensures var s := Run(Boot(DemoDisk()), 2, FillSteps(LOGBLOCKS));
            !s.panicked && 100 in s.lh && MayLog(s, 2, 0, 100) && Next(s, 2, LogWrite(0, 100, Zero())).panicked
  {
    hide Run, FillSteps, Zero;
    DemoBoots();
    FillRun(LOGBLOCKS);
    var s := Run(Boot(DemoDisk()), 2, FillSteps(LOGBLOCKS));
    assert s.lh[0] == 100;
    assert s.active[0] + {100} == s.active[0];
    SmallRange(s.active[0], 100, MAXOPBLOCKS);
  }

  /** And if none does, all three end, and the commit of their thirty blocks panics before it has written anything. */
  lemma FullLogPanics()
    ensures var s := Run(Boot(DemoDisk()), 2, FillSteps(LOGBLOCKS) + [EndOp(0), EndOp(1), EndOp(2)]);
            && !s.panicked && s.pc == Commit(0) && |s.lh| == LOGBLOCKS && s.committed == []
            && Next(s, 2, DiskWrite(0)) == s.(panicked := true)
  {
    hide Run, FillSteps, Zero, DemoDisk, Next, NoBuffer;
    var boot, f := Boot(DemoDisk()), FillSteps(LOGBLOCKS);
    DemoBoots();
    FillRun(LOGBLOCKS);
    RunAppend(boot, 2, f, EndOp(0));
    RunAppend(boot, 2, f + [EndOp(0)], EndOp(1));
    RunAppend(boot, 2, f + [EndOp(0)] + [EndOp(1)], EndOp(2));
    var all := f + [EndOp(0)] + [EndOp(1)] + [EndOp(2)];
    assert all == f + [EndOp(0), EndOp(1), EndOp(2)];
    AllEnd(Run(boot, 2, f));
    var s := Run(boot, 2, all);
    RunInvariant(DemoDisk(), 2, all);
    CommitGoesOn(s, 2, Recovered(DemoDisk(), 2), 0);
    CommitBuffers(s, 2, Recovered(DemoDisk(), 2), 0);
  }

  lemma AllEnd(s: Sys)
    requires Filled(s, LOGBLOCKS)
    ensures var t := Next(Next(Next(s, 2, EndOp(0)), 2, EndOp(1)), 2, EndOp(2));
            !t.panicked && t.pc == Commit(0) && t.lh == s.lh && t.committed == []
  {
    hide DemoDisk;
  }
}
