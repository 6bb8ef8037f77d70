/**
 The log of kernel/log.c as the kernel holds it: the in-memory header with its
 fixed array of block numbers, and the loops that copy blocks between cache,
 log and home. Each loop is proved against the disk functions of RedoLog.
 */
module LogKernel {
  import opened RedoLog
  import opened LogRuns
  import BufferCache

  class Log {
    const start: nat
    const block: array<nat>
    var n: nat
    var outstanding: nat
    var committing: bool
    var panicked: bool

    /** The disk, the modified blocks held in the buffer cache, and the pin counts of their buffers. */
    var disk: Disk
    var cache: Disk
    var pins: map<nat, nat>

    /** The disks that power could have been lost with: the first, and the one after each single write. */
    ghost var trail: seq<Disk>

    /** The running operations, each with the distinct blocks it has logged. */
    ghost var active: map<nat, set<nat>>

    /** The entries in use. */
    ghost function Entries(): seq<nat>
      requires n <= block.Length
      reads this, block
    {
      block[..n]
    }

    /** The trail ends with the disk, and each of its disks is one block write from the one before. */
    ghost predicate Recorded()
      reads this
    {
      |trail| > 0 && trail[|trail| - 1] == disk && Stepwise(trail)
    }

    ghost predicate Valid()
      reads this, block
    {
      && Recorded()
      && block.Length == LOGBLOCKS
      && n <= LOGBLOCKS
      && Current(disk, start, Entries(), cache)
      && PinnedOnce(pins, Entries(), 0)
      && Space(Entries(), outstanding, active)
    }

    /** initlog: the disk is recovered before anything else happens. */
    constructor (d: Disk, logstart: nat)
      requires GoodDisk(d, logstart) && logstart in d && d[logstart][0] <= LOGBLOCKS
      ensures Valid() && start == logstart && fresh(block) && Entries() == []
      ensures disk == FullRecovery(d, logstart) && outstanding == 0 && !committing && !panicked
      ensures trail[0] == d && Yields(trail, start, Recovered(d, start))
    {
      hide FullRecovery, GoodDisk, Head;
      start := logstart;
      block := new nat[LOGBLOCKS];
      n, outstanding, committing, panicked := 0, 0, false, false;
      disk, cache, pins, active, trail := d, map[], map[], map[], [d];
      new;
      Recover();
      assert trail == [d] + trail[1..];
      NothingLogged(disk, start);
    }

    /** bwrite of a block: the only write to the disk. */
    method Bwrite(b: nat, x: Block)
      requires Recorded()
      modifies this`disk, this`trail
      ensures Recorded() && disk == old(disk)[b := x] && trail == old(trail) + [disk]
    {
      disk := disk[b := x];
      trail := trail + [disk];
      OneMoreWrite(old(trail), b, x);
    }

    /** recover_from_log: the committed blocks are home, the log is empty; whenever power is lost on the way, recovery yields the same. */
    method Recover()
      requires Recorded() && block.Length == LOGBLOCKS && GoodDisk(disk, start) && start in disk && disk[start][0] <= LOGBLOCKS && pins == map[]
      modifies this`n, this`disk, this`trail, this`pins, this`panicked, block
      ensures Recorded() && old(trail) <= trail && Yields(trail[|old(trail)|..], start, Recovered(old(disk), start))
      ensures n == 0 && pins == map[] && disk == FullRecovery(old(disk), start) && panicked == old(panicked)
      ensures GoodDisk(disk, start) && Head(disk, start) == []
    {
      hide Installed, MakeHead, InstallTrail, Stepwise, Recovered;
      ghost var d, was := disk, trail;
      ReadHead();
      ghost var lh := Entries();
      InstallTrans(true, 0);
      LogKept(d, start, lh, n);
      n := 0;
      ghost var d1 := disk;
      WriteHead(0);
      assert Entries() == [] && disk == d1[start := MakeHead(d1[start], [])];
      FullRecoveryHome(d, start);
      InstallTrailYields(d, start, lh);
      ClearStep(d, start, lh);
      ghost var rest := InstallTrail(d, start, lh, |lh|);
      YieldsMore(rest, disk, start, Recovered(d, start));
      assert trail == was + (rest + [disk]);
    }

    /** read_head. */
    method ReadHead()
      requires block.Length == LOGBLOCKS && start in disk && disk[start][0] <= LOGBLOCKS
      modifies this`n, block
      ensures n <= LOGBLOCKS && Entries() == Head(disk, start)
    {
      var lh := disk[start];
      n := lh[0];
      var i := 0;
      while i < n
        invariant i <= n == lh[0]
        invariant forall j :: 0 <= j < i ==> block[j] == lh[j + 1]
      {
        block[i] := lh[i + 1];
        i := i + 1;
      }
      assert block[..n] == lh[1..1 + n];
    }

    /** bread of a block of the log area, with so many buffers of the cache held by others. */
    method Bread(others: nat) returns (found: bool)
      modifies this`panicked
      ensures found <==> !NoBuffer(pins, others)
      ensures panicked == (old(panicked) || !found)
    {
      found := !NoBuffer(pins, others);
      if !found { panicked := true; }
    }

    /** write_head: the entries are copied word by word into the header block. */
    method WriteHead(others: nat)
      requires Recorded() && block.Length == LOGBLOCKS && n <= LOGBLOCKS && start in disk
      modifies this`disk, this`trail, this`panicked
      ensures Recorded() && trail == if NoBuffer(pins, others) then old(trail) else old(trail) + [disk]
      ensures panicked == (old(panicked) || NoBuffer(pins, others))
      ensures disk == if NoBuffer(pins, others) then old(disk) else old(disk)[start := MakeHead(old(disk)[start], Entries())]
    {
      hide NoBuffer, Stepwise;
      var found := Bread(others);
      if !found { return; }
      var hb: seq<nat> := disk[start];
      hb := hb[0 := n];
      var i := 0;
      while i < n
        invariant i <= n && |hb| == WORDS && hb[0] == n
        invariant forall j :: 0 <= j < i ==> hb[j + 1] == block[j]
        invariant hb[i + 1..] == disk[start][i + 1..]
      {
        ghost var before := hb;
        hb := hb[i + 1 := block[i]];
        i := i + 1;
        assert hb[i + 1..] == before[i..][1..];
        assert disk[start][i + 1..] == disk[start][i..][1..];
      }
      assert hb[1..n + 1] == block[..n];
      assert hb == [n] + block[..n] + disk[start][n + 1..];
      Bwrite(start, hb);
    }

    /** write_log: every entry's cached block is copied to its place in the log, if the first finds a buffer. */
    method WriteLog(others: nat)
      requires Valid()
      modifies this`disk, this`trail, this`panicked
      ensures Valid()
      ensures trail == old(trail) + LogTrail(old(disk), start, Entries(), cache, if n > 0 && NoBuffer(pins, others) then 0 else n)
      ensures panicked == (old(panicked) || (n > 0 && NoBuffer(pins, others)))
      ensures disk == if n > 0 && NoBuffer(pins, others) then old(disk) else Logged(old(disk), start, Entries(), cache, n)
    {
      hide Current, Logged, Space, NoBuffer, PinnedOnce, LogTrail, Stepwise;
      ghost var lh := Entries();
      var tail := 0;
      LoggedNone(disk, start, lh, cache);
      NoWrites(trail, disk, start, lh, cache);
      while tail < n
        invariant tail <= n && disk == Logged(old(disk), start, lh, cache, tail)
        invariant Recorded() && trail == old(trail) + LogTrail(old(disk), start, lh, cache, tail)
        invariant panicked == old(panicked) && (tail > 0 ==> !NoBuffer(pins, others))
      {
        var found := Bread(others);
        if !found { return; }
        CachedEntry(old(disk), start, lh, cache, tail);
        LogTrailNext(old(disk), start, lh, cache, tail);
        assert block[tail] == lh[tail];
        Bwrite(start + tail + 1, cache[block[tail]]);
        tail := tail + 1;
      }
      LoggedEffect(old(disk), start, lh, cache, n);
    }

    /** install_trans: copy home, unpinning each buffer unless recovering; a buffer for the first block will do for all. */
    method InstallTrans(recovering: bool, others: nat)
      requires Recorded() && block.Length == LOGBLOCKS && n <= LOGBLOCKS && GoodHead(disk, start, Entries())
      requires !recovering ==> PinnedOnce(pins, Entries(), 0)
      modifies this`disk, this`trail, this`pins, this`panicked
      ensures Recorded()
      ensures trail == old(trail) + InstallTrail(old(disk), start, Entries(), if n > 0 && NoBuffer(old(pins), others) then 0 else n)
      ensures panicked == (old(panicked) || (n > 0 && NoBuffer(old(pins), others)))
      ensures n > 0 && NoBuffer(old(pins), others) ==> disk == old(disk) && pins == old(pins)
      ensures n == 0 || !NoBuffer(old(pins), others) ==>
                && disk == Installed(old(disk), start, Entries(), n)
                && if recovering then pins == old(pins) else PinnedOnce(pins, Entries(), n)
    {
      hide Installed, GoodHead, PinnedOnce, Pins, NoBuffer, InstallTrail, Stepwise;
      ghost var lh := Entries();
      var tail := 0;
      InstalledNone(disk, start, lh);
      NoWrites(trail, disk, start, lh, map[]);
      while tail < n
        invariant tail <= n && disk == Installed(old(disk), start, lh, tail)
        invariant Recorded() && trail == old(trail) + InstallTrail(old(disk), start, lh, tail)
        invariant if recovering then pins == old(pins) else PinnedOnce(pins, lh, tail)
        invariant tail == 0 ==> pins == old(pins)
        invariant panicked == old(panicked) && (tail > 0 ==> !NoBuffer(old(pins), others))
      {
        if !recovering { FewerPins(old(disk), start, old(pins), pins, lh, tail, others); }
        var found := Bread(others);
        if !found { return; }
        InstalledNext(old(disk), start, lh, tail);
        InstallTrailNext(old(disk), start, lh, tail);
        assert block[tail] == lh[tail];
        Bwrite(block[tail], disk[start + tail + 1]);
        if !recovering {
          UnpinOne(old(disk), start, pins, lh, tail);
          pins := pins[block[tail] := Pins(pins, block[tail]) - 1];
        }
        tail := tail + 1;
      }
    }

    /**
     commit: unless the pinned blocks and the buffers of others fill the cache,
     the cached blocks reach home, the log is empty again and nothing is pinned.
     Otherwise it panics at its first bread, and the disk is as it was. Whenever
     power is lost on the way, recovery yields all of the blocks or none: none
     of them up to some write, all of them from that write on.
     */
    method DoCommit(others: nat) returns (ghost at: nat)
      requires Valid() && Head(disk, start) == [] && outstanding == 0 && !panicked
      modifies this`disk, this`trail, this`pins, this`n, this`cache, this`panicked
      ensures Valid() && Head(disk, start) == []
      ensures AllOrNothing(old(trail), trail, at, start, Home(old(disk), start), Overlay(Home(old(disk), start), old(cache)))
      ensures panicked == (old(n) > 0 && old(n) + others >= BufferCache.NBUF)
      ensures if old(n) > 0 && old(n) + others >= BufferCache.NBUF
              then disk == old(disk) && cache == old(cache) && pins == old(pins) && Entries() == old(Entries())
              else Entries() == [] && Home(disk, start) == Overlay(Home(old(disk), start), old(cache))
    {
      hide Head, Home, Overlay, PinnedOnce, Reserve, AllOrNothing, Stepwise;
      if n > 0 {
        at := CommitEntries(others);
      } else {
        at := |trail|;
        NothingHappens(trail, start, Home(disk, start), Overlay(Home(disk, start), cache));
        assert Entries() == [];
        NothingCached(disk, start, Entries(), cache);
      }
    }

    /** commit with something to commit. */
    method CommitEntries(others: nat) returns (ghost at: nat)
      requires Valid() && Head(disk, start) == [] && outstanding == 0 && !panicked && n > 0
      modifies this`disk, this`trail, this`pins, this`n, this`cache, this`panicked
      ensures Valid() && Head(disk, start) == []
      ensures AllOrNothing(old(trail), trail, at, start, Home(old(disk), start), Overlay(Home(old(disk), start), old(cache)))
      ensures panicked == (old(n) + others >= BufferCache.NBUF)
      ensures if panicked then disk == old(disk) && cache == old(cache) && pins == old(pins) && Entries() == old(Entries())
              else Entries() == [] && Home(disk, start) == Overlay(Home(old(disk), start), old(cache))
    {
      hide Installed, GoodHead, Head, LogsWritten, MakeHead, Logged, NoBuffer, Space, PinnedOnce, Current, Home, Overlay, GoodDisk, Recovered;
      hide LogTrail, Stepwise, AllOrNothing, Yields;
      CurrentKept(disk, disk, start, Entries(), cache);
      ghost var d0, lh, was, none, all := disk, Entries(), trail, Home(disk, start), Overlay(Home(disk, start), cache);
      EntryPins(disk, start, lh, cache, pins, others);
      WriteLog(others);
      if panicked {
        at := |trail|;
        NoWrites(was, d0, start, lh, cache);
        NothingHappens(was, start, none, all);
        return;
      }
      ghost var d1, before := disk, LogTrail(d0, start, lh, cache, n);
      LogTrailYields(d0, start, lh, cache);
      LoggedEffect(d0, start, lh, cache, n);
      WriteHead(others);
      ghost var d2 := disk;
      CommitWrites(d0, d1, start, lh, cache);
      at := |was| + |before|;
      Finish(others);
      HeaderDecides(was, before, d2, trail[|was + before| + 1..], start, none, all);
      assert trail == was + before + [d2] + trail[|was + before| + 1..];
      Emptied(disk, start, lh, outstanding, active);
    }

    /** The rest of a commit once its header is on the disk. */
    method Finish(others: nat)
      requires Recorded() && block.Length == LOGBLOCKS && n <= LOGBLOCKS && !panicked
      requires GoodDisk(disk, start) && Head(disk, start) == Entries() && PinnedOnce(pins, Entries(), 0) && !NoBuffer(pins, others)
      modifies this`disk, this`trail, this`pins, this`n, this`cache, this`panicked
      ensures Recorded() && n == 0 && cache == map[] && PinnedOnce(pins, [], 0) && !panicked
      ensures GoodDisk(disk, start) && Head(disk, start) == [] && Home(disk, start) == Recovered(old(disk), start)
      ensures old(trail) <= trail && Yields(trail[|old(trail)|..], start, Recovered(old(disk), start))
    {
      hide Installed, MakeHead, InstallTrail, Stepwise, Recovered, NoBuffer, PinnedOnce, Head, Home, Yields;
      ghost var d, was, lh := disk, trail, Entries();
      ghost var rest := InstallTrail(d, start, lh, |lh|);
      StillRoom(pins, lh, others);
      InstallTrans(false, others);
      LogKept(d, start, lh, n);
      n := 0;
      cache := map[];
      NoPins(pins, lh, others);
      ghost var d1 := disk;
      WriteHead(others);
      assert Entries() == [] && disk == d1[start := MakeHead(d1[start], [])];
      ClearStep(d, start, lh);
      InstallTrailYields(d, start, lh);
      YieldsMore(rest, disk, start, Recovered(d, start));
      assert trail == was + (rest + [disk]);
      assert trail[|was|..] == rest + [disk];
    }

    /**
     begin_op, one turn of its loop: false means sleep and try again. An admitted
     operation is sure of MAXOPBLOCKS new blocks beside what the others may still log.
     */
    method BeginOp(ghost op: nat) returns (admitted: bool)
      requires Valid() && op !in active
      modifies this`outstanding, this`active
      ensures Valid() && active == if admitted then old(active)[op := {}] else old(active)
      ensures admitted <==> !committing && n + (old(outstanding) + 1) * MAXOPBLOCKS <= LOGBLOCKS
      ensures admitted ==> n + Reserve(active) <= LOGBLOCKS && Reserve(active) == Reserve(old(active)) + MAXOPBLOCKS
    {
      hide Current, PinnedOnce, Reserve;
      if committing {
        admitted := false;
      } else if n + (outstanding + 1) * MAXOPBLOCKS > LOGBLOCKS {
        admitted := false;
      } else {
        BeginSpace(Entries(), outstanding, active, op);
        ReserveSet(active, op, {});
        assert active - {op} == active;
        outstanding := outstanding + 1;
        admitted := true;
        active := active[op := {}];
      }
    }

    /**
     log_write by operation op of block b, whose modified contents are x. A block
     that is not in the log yet always fits: only a block of its own that the
     operation logs again can meet a full log.
     */
    method LogBlock(ghost op: nat, b: nat, x: Block)
      requires Valid() && b in disk && !InLog(b, start)
      requires outstanding >= 1 ==> op in active && |active[op] + {b}| <= MAXOPBLOCKS
      modifies this`n, this`panicked, this`cache, this`pins, this`active, block
      ensures Valid()
      ensures panicked == (old(panicked) || old(n) == LOGBLOCKS || outstanding < 1)
      ensures old(n) == LOGBLOCKS && outstanding >= 1 ==> b in old(active)[op] && b in old(Entries())
      ensures if old(n) < LOGBLOCKS && outstanding >= 1
              then && cache == old(cache)[b := x] && active == old(active)[op := old(active)[op] + {b}]
                   && Entries() == if b in old(Entries()) then old(Entries()) else old(Entries()) + [b]
              else cache == old(cache) && active == old(active) && Entries() == old(Entries())
    {
      hide Current, PinnedOnce, Reserve;
      if outstanding >= 1 { WriteSpace(Entries(), outstanding, active, op, b); }
      if n >= LOGBLOCKS || outstanding < 1 {
        panicked := true;
      } else {
        Record(op, b, x);
      }
    }

    /** log_write past its two checks. */
    method Record(ghost op: nat, b: nat, x: Block)
      requires Valid() && b in disk && !InLog(b, start) && n < LOGBLOCKS
      requires op in active && |active[op] + {b}| <= MAXOPBLOCKS
      modifies this`n, this`cache, this`pins, this`active, block
      ensures Valid() && cache == old(cache)[b := x] && active == old(active)[op := old(active)[op] + {b}]
      ensures Entries() == if b in old(Entries()) then old(Entries()) else old(Entries()) + [b]
    {
      hide Current, PinnedOnce, Pins, Space;
      ghost var was := Entries();
      WriteCurrent(disk, start, was, cache, b, x);
      WriteSpace(was, outstanding, active, op, b);
      cache := cache[b := x];
      active := active[op := active[op] + {b}];
      var i := Find(b);
      block[i] := b;
      if i == n {
        PinOne(pins, was, b);
        pins := pins[b := Pins(pins, b) + 1];
        n := n + 1;
        assert Entries() == was + [b];
      } else {
        assert Entries() == was;
      }
    }

    /** The search loop of log_write. */
    method Find(b: nat) returns (i: nat)
      requires n <= block.Length
      ensures i <= n && (i < n <==> b in Entries()) && (i < n ==> block[i] == b)
    {
      i := 0;
      while i < n
        invariant i <= n
        invariant b !in block[..i]
      {
        if block[i] == b { return; }
        i := i + 1;
      }
    }

    /** One operation fewer. */
    method Leave(ghost op: nat)
      requires Valid() && op in active
      modifies this`outstanding, this`active
      ensures Valid() && active == old(active) - {op} && (outstanding == 0 <==> old(active) == map[op := old(active)[op]])
    {
      hide Current, PinnedOnce, Space, Stepwise;
      SpaceCount(Entries(), outstanding, active);
      EndSpace(Entries(), outstanding, active, op);
      LastOne(active, op);
      outstanding := outstanding - 1;
      active := active - {op};
    }

    /**
     end_op of operation op: the last one out commits, or panics if its blocks
     and the buffers of others fill the cache. Whenever power is lost on the
     way, recovery yields all of the committed blocks or none.
     */
    method EndOp(ghost op: nat, others: nat) returns (ghost at: nat)
      requires Valid() && Head(disk, start) == [] && op in active && !panicked
      modifies this
      ensures Valid() && Head(disk, start) == [] && active == old(active) - {op}
      ensures var last := !old(committing) && old(active) == map[op := old(active)[op]];
              var starved := last && old(n) > 0 && old(n) + others >= BufferCache.NBUF;
              && panicked == (old(committing) || starved)
              && (if last && !starved
                  then Entries() == [] && !committing && Home(disk, start) == Overlay(Home(old(disk), start), old(cache))
                  else disk == old(disk) && cache == old(cache) && Entries() == old(Entries()))
      ensures AllOrNothing(old(trail), trail, at, start, Home(old(disk), start), Overlay(Home(old(disk), start), old(cache)))
    {
      hide Head, Home, Overlay, AllOrNothing, Stepwise, Current, PinnedOnce, Space;
      at := |trail|;
      NothingHappens(trail, start, Home(disk, start), Overlay(Home(disk, start), cache));
      Leave(op);
      if committing {
        panicked := true;
        return;
      }
      if outstanding == 0 {
        committing := true;
        at := DoCommit(others);
        if panicked { return; }
        committing := false;
      }
    }
  }

  // ---------------------------------------------------------------------
  // The order of the disk writes

  /** One block write leads from disk k - 1 to disk k. */
  ghost predicate OneWrite(ds: seq<Disk>, k: nat)
    requires 0 < k < |ds|
  {
    var d, e := ds[k - 1], ds[k];
    exists b: nat, x: Block :: e == Put(d, b, x)
  }

  ghost predicate Stepwise(ds: seq<Disk>) { forall k: nat :: 0 < k < |ds| ==> OneWrite(ds, k) }

  lemma OneMoreWrite(ds: seq<Disk>, b: nat, x: Block)
    requires |ds| > 0 && Stepwise(ds)
    ensures Stepwise(ds + [ds[|ds| - 1][b := x]])
  {
    var more := ds + [ds[|ds| - 1][b := x]];
    forall k: nat | 0 < k < |more| ensures OneWrite(more, k) {
      if k < |ds| {
        assert OneWrite(ds, k);
        assert more[k - 1] == ds[k - 1] && more[k] == ds[k];
      } else {
        assert more[k] == Put(more[k - 1], b, x);
      }
    }
  }

  /** Recovery from any of the disks yields these home blocks. */
  ghost predicate Yields(ds: seq<Disk>, start: nat, home: Disk) {
    forall k :: 0 <= k < |ds| ==> GoodDisk(ds[k], start) && Recovered(ds[k], start) == home
  }

  lemma YieldsMore(ds: seq<Disk>, d: Disk, start: nat, home: Disk)
    requires Yields(ds, start, home) && GoodDisk(d, start) && Recovered(d, start) == home
    ensures Yields(ds + [d], start, home)
  {
  }

  /** The disks from `was` on yield one set of home blocks up to number `at` and the other from there. */
  ghost predicate AllOrNothing(was: seq<Disk>, now: seq<Disk>, at: nat, start: nat, none: Disk, all: Disk) {
    was <= now && |was| <= at <= |now| && Yields(now[|was|..at], start, none) && Yields(now[at..], start, all)
  }

  /** The disks on the way through write_log and install_trans. */
  ghost function LogTrail(d: Disk, start: nat, lh: seq<nat>, cache: Disk, k: nat): seq<Disk>
    requires k <= |lh|
  {
    seq(k, i requires 0 <= i < k => Logged(d, start, lh, cache, i + 1))
  }

  ghost function InstallTrail(d: Disk, start: nat, lh: seq<nat>, k: nat): seq<Disk>
    requires k <= |lh|
  {
    seq(k, i requires 0 <= i < k => Installed(d, start, lh, i + 1))
  }

  lemma LogTrailNext(d: Disk, start: nat, lh: seq<nat>, cache: Disk, k: nat)
    requires k < |lh|
    ensures LogTrail(d, start, lh, cache, 0) == []
    ensures LogTrail(d, start, lh, cache, k + 1) == LogTrail(d, start, lh, cache, k) + [Logged(d, start, lh, cache, k + 1)]
  {
    hide Logged;
  }

  lemma InstallTrailNext(d: Disk, start: nat, lh: seq<nat>, k: nat)
    requires k < |lh|
    ensures InstallTrail(d, start, lh, k + 1) == InstallTrail(d, start, lh, k) + [Installed(d, start, lh, k + 1)]
  {
    hide Installed;
  }

  /** No block in the log matters while the header is empty. */
  lemma LogTrailYields(d: Disk, start: nat, lh: seq<nat>, cache: Disk)
    requires Current(d, start, lh, cache) && Head(d, start) == []
    ensures Yields(LogTrail(d, start, lh, cache, |lh|), start, Home(d, start))
  {
    hide Current, Logged, LogsWritten;
    CurrentKept(d, d, start, lh, cache);
    var ds := LogTrail(d, start, lh, cache, |lh|);
    forall k: nat | k < |ds| ensures GoodDisk(ds[k], start) && Recovered(ds[k], start) == Home(d, start) {
      LoggedEffect(d, start, lh, cache, k + 1);
      SameHome(d, ds[k], start, lh, cache, k + 1);
    }
  }

  lemma SameHome(d: Disk, d1: Disk, start: nat, lh: seq<nat>, cache: Disk, k: nat)
    requires Current(d1, start, lh, cache) && Head(d, start) == [] && d1.Keys == d.Keys && k <= |lh| && start in d
    requires forall b :: b in d1 && !(start < b <= start + k) ==> d1[b] == d[b]
    ensures GoodDisk(d1, start) && Recovered(d1, start) == Home(d, start)
  {
    assert |lh| <= LOGBLOCKS && d1[start] == d[start];
    assert Head(d1, start) == [];
    assert Home(d1, start) == Home(d, start);
    EmptyHead(d1, start);
  }

  /** Installing changes nothing for recovery, however far it has come. */
  lemma InstallTrailYields(d: Disk, start: nat, lh: seq<nat>)
    requires GoodDisk(d, start) && Head(d, start) == lh
    ensures Yields(InstallTrail(d, start, lh, |lh|), start, Recovered(d, start))
  {
    hide Installed, Recovered, GoodDisk, Head;
    var ds := InstallTrail(d, start, lh, |lh|);
    forall k: nat | k < |ds| ensures GoodDisk(ds[k], start) && Recovered(ds[k], start) == Recovered(d, start) { InstallStep(d, start, lh, k + 1); }
  }

  lemma NoWrites(was: seq<Disk>, d: Disk, start: nat, lh: seq<nat>, cache: Disk)
    ensures was + LogTrail(d, start, lh, cache, 0) == was && was + InstallTrail(d, start, lh, 0) == was
  {
  }

  lemma NothingHappens(was: seq<Disk>, start: nat, none: Disk, all: Disk)
    ensures AllOrNothing(was, was, |was|, start, none, all)
  {
  }

  /** The header write is the one that decides. */
  lemma HeaderDecides(was: seq<Disk>, before: seq<Disk>, d: Disk, after: seq<Disk>, start: nat, none: Disk, all: Disk)
    requires Yields(before, start, none) && GoodDisk(d, start) && Recovered(d, start) == all && Yields(after, start, all)
    ensures AllOrNothing(was, was + before + [d] + after, |was| + |before|, start, none, all)
  {
    hide GoodDisk, Recovered;
    var now, at := was + before + [d] + after, |was| + |before|;
    assert now[|was|..at] == before;
    assert now[at..] == [d] + after;
  }

  lemma SpaceCount(lh: seq<nat>, outstanding: nat, active: map<nat, set<nat>>)
    requires Space(lh, outstanding, active)
    ensures outstanding == |active|
  {
  }

  lemma LastOne(active: map<nat, set<nat>>, op: nat)
    requires op in active
    ensures |active| == 1 <==> active == map[op := active[op]]
  {
    assert (active - {op}).Keys == active.Keys - {op};
    if |active| == 1 {
      assert |active.Keys - {op}| == 0;
      assert active.Keys == {op};
    }
  }

  lemma EntryPins(d: Disk, start: nat, lh: seq<nat>, cache: Disk, pins: map<nat, nat>, others: nat)
    requires Current(d, start, lh, cache) && PinnedOnce(pins, lh, 0)
    ensures NoBuffer(pins, others) <==> |lh| + others >= BufferCache.NBUF
  {
    hide PinnedOnce;
    BusyPins(pins, lh, 0);
  }

  /** Unpinning frees buffers. */
  lemma FewerPins(d: Disk, start: nat, was: map<nat, nat>, pins: map<nat, nat>, lh: seq<nat>, k: nat, others: nat)
    requires GoodHead(d, start, lh) && k <= |lh| && PinnedOnce(was, lh, 0) && PinnedOnce(pins, lh, k)
    ensures NoBuffer(pins, others) ==> NoBuffer(was, others)
  {
    hide PinnedOnce;
    BusyPins(was, lh, 0);
    BusyPins(pins, lh, k);
  }

  lemma NothingLogged(d: Disk, start: nat)
    requires GoodDisk(d, start) && Head(d, start) == []
    ensures Current(d, start, [], map[]) && PinnedOnce(map[], [], 0) && Space([], 0, map[])
  {
  }

  lemma NothingCached(d: Disk, start: nat, lh: seq<nat>, cache: Disk)
    requires Current(d, start, lh, cache) && lh == []
    ensures Overlay(Home(d, start), cache) == Home(d, start)
  {
    assert cache == map[];
  }

  /** The log after a commit. */
  lemma Emptied(d: Disk, start: nat, lh: seq<nat>, outstanding: nat, active: map<nat, set<nat>>)
    requires GoodDisk(d, start) && Head(d, start) == [] && Space(lh, outstanding, active) && outstanding == 0
    ensures Current(d, start, [], map[]) && Space([], outstanding, active)
  {
    assert active == map[];
  }

  lemma StillRoom(pins: map<nat, nat>, lh: seq<nat>, others: nat)
    requires !NoBuffer(pins, others)
    ensures others < BufferCache.NBUF
  {
  }

  lemma NoPins(pins: map<nat, nat>, lh: seq<nat>, others: nat)
    requires PinnedOnce(pins, lh, |lh|)
    ensures PinnedOnce(pins, [], 0) && (NoBuffer(pins, others) <==> others >= BufferCache.NBUF)
  {
    var none: seq<nat> := [];
    assert lh[|lh|..] == none && none[0..] == none;
    assert PinnedOnce(pins, [], 0);
    BusyPins(pins, [], 0);
  }

  /** The disk once the first k entries are in the log. */
  function Logged(d: Disk, start: nat, lh: seq<nat>, cache: Disk, k: nat): Disk
    requires k <= |lh|
    decreases k
  {
    if k == 0 then d
    else if lh[k - 1] in cache then Put(Logged(d, start, lh, cache, k - 1), start + k, cache[lh[k - 1]])
    else Logged(d, start, lh, cache, k - 1)
  }

  lemma LoggedNone(d: Disk, start: nat, lh: seq<nat>, cache: Disk)
    ensures Logged(d, start, lh, cache, 0) == d
  {
  }

  lemma CachedEntry(d: Disk, start: nat, lh: seq<nat>, cache: Disk, k: nat)
    requires Current(d, start, lh, cache) && k < |lh|
    ensures lh[k] in cache
    ensures Logged(d, start, lh, cache, k + 1) == Put(Logged(d, start, lh, cache, k), start + k + 1, cache[lh[k]])
  {
  }

  lemma {:induction false} LoggedAt(d: Disk, start: nat, lh: seq<nat>, cache: Disk, k: nat, b: nat)
    requires Current(d, start, lh, cache) && k <= |lh|
    ensures var d1 := Logged(d, start, lh, cache, k);
            && d1.Keys == d.Keys
            && (b in d && !(start < b <= start + k) ==> d1[b] == d[b])
            && (start < b <= start + k ==> b in d1 && lh[b - start - 1] in cache && d1[b] == cache[lh[b - start - 1]])
    decreases k
  {
    hide Current, Logged;
    if k == 0 {
      LoggedNone(d, start, lh, cache);
    } else {
      var e := Logged(d, start, lh, cache, k - 1);
      LoggedAt(d, start, lh, cache, k - 1, b);
      CachedEntry(d, start, lh, cache, k - 1);
      CurrentKept(d, d, start, lh, cache);
      assert start + (k - 1) + 1 in d;
      PutKeys(e, start + k, cache[lh[k - 1]]);
    }
  }

  /** Exactly the first k log blocks change, each to the cached contents of its entry. */
  lemma LoggedEffect(d: Disk, start: nat, lh: seq<nat>, cache: Disk, k: nat)
    requires Current(d, start, lh, cache) && k <= |lh|
    ensures var d1 := Logged(d, start, lh, cache, k);
            && d1.Keys == d.Keys && LogsWritten(d1, start, lh, cache, k) && Current(d1, start, lh, cache)
            && (forall b :: b in d1 && !(start < b <= start + k) ==> d1[b] == d[b])
  {
    hide Current, Logged;
    var d1 := Logged(d, start, lh, cache, k);
    forall b: nat
      ensures d1.Keys == d.Keys
      ensures b in d && !(start < b <= start + k) ==> d1[b] == d[b]
      ensures start < b <= start + k ==> b in d1 && lh[b - start - 1] in cache && d1[b] == cache[lh[b - start - 1]]
    {
      LoggedAt(d, start, lh, cache, k, b);
    }
    LoggedAt(d, start, lh, cache, k, 0);
    CurrentKept(d, d1, start, lh, cache);
    forall i | 0 <= i < k ensures EntryLogged(d1, start + i + 1, lh[i], cache) {
      LoggedAt(d, start, lh, cache, k, start + i + 1);
    }
  }

  lemma InstalledNone(d: Disk, start: nat, lh: seq<nat>)
    ensures Installed(d, start, lh, 0) == d
  {
  }

  lemma InstalledNext(d: Disk, start: nat, lh: seq<nat>, k: nat)
    requires GoodHead(d, start, lh) && k < |lh|
    ensures var d1 := Installed(d, start, lh, k);
            start + k + 1 in d1 && Put(d1, lh[k], d1[start + k + 1]) == Installed(d, start, lh, k + 1)
  {
    LogKept(d, start, lh, k);
    assert InLog(start + k + 1, start);
  }

  /** write_log and the header write, as one step of what recovery would yield. */
  lemma CommitWrites(d0: Disk, d1: Disk, start: nat, lh: seq<nat>, cache: Disk)
    requires Current(d0, start, lh, cache) && Head(d0, start) == [] && start in d0
    requires d1.Keys == d0.Keys && LogsWritten(d1, start, lh, cache, |lh|)
    requires forall b :: b in d1 && !(start < b <= start + |lh|) ==> d1[b] == d0[b]
    ensures start in d1
    ensures var d2 := d1[start := MakeHead(d1[start], lh)];
            && GoodDisk(d2, start) && Head(d2, start) == lh && GoodHead(d2, start, lh)
            && Recovered(d2, start) == Overlay(Home(d0, start), cache)
  {
    CurrentKept(d0, d1, start, lh, cache);
    CurrentKept(d0, d0, start, lh, cache);
    assert Head(d1, start) == [];
    assert Home(d1, start) == Home(d0, start);
    CommitPoint(d1, start, lh, cache);
    EmptyHead(d1, start);
  }
}
