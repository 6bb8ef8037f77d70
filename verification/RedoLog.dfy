/**
 The on-disk redo log of kernel/log.c: what recovery makes of a disk, and
 why no single block write of a commit or of a recovery changes it, except
 the one that writes the header.
 */
module RedoLog {
  const LOGBLOCKS: nat := 30
  const MAXOPBLOCKS: nat := 10

  /** A block of BSIZE bytes as 256 words; word 0 of the header block is n, words 1..n are block[]. */
  const WORDS: nat := 256

  type Block = b: seq<nat> | |b| == WORDS witness seq(WORDS, _ => 0)

  type Disk = map<nat, Block>

  predicate InLog(b: nat, start: nat) { start <= b <= start + LOGBLOCKS }

  /** read_head. */
  function Head(d: Disk, start: nat): seq<nat> {
    if start in d && d[start][0] <= LOGBLOCKS then d[start][1..1 + d[start][0]] else []
  }

  /** write_head: words beyond the entries stay as they were. */
  function MakeHead(before: Block, lh: seq<nat>): Block
    requires |lh| <= LOGBLOCKS
  {
    [|lh|] + lh + before[|lh| + 1..]
  }

  lemma HeadRoundTrip(d: Disk, start: nat, lh: seq<nat>)
    requires start in d && |lh| <= LOGBLOCKS
    ensures Head(d[start := MakeHead(d[start], lh)], start) == lh
  {
    var b := MakeHead(d[start], lh);
    assert b[0] == |lh|;
    assert b[1..1 + |lh|] == lh;
  }

  // ---------------------------------------------------------------------
  // Installing

  /** The disk once the first k logged blocks are copied home. */
  function Installed(d: Disk, start: nat, lh: seq<nat>, k: nat): Disk
    requires k <= |lh|
    decreases k
  {
    if k == 0 then d
    else if start + k in d then Installed(d, start, lh, k - 1)[lh[k - 1] := d[start + k]]
    else Installed(d, start, lh, k - 1)
  }

  /** Log entries name distinct home blocks, and the log area exists. */
  ghost predicate GoodHead(d: Disk, start: nat, lh: seq<nat>) {
    && |lh| <= LOGBLOCKS
    && (forall i :: 0 <= i < |lh| ==> !InLog(lh[i], start) && lh[i] in d)
    && (forall i, j :: 0 <= i < j < |lh| ==> lh[i] != lh[j])
    && (forall b :: InLog(b, start) ==> b in d)
  }

  /** Every home block after the first k installs. */
  lemma {:induction false} InstalledAt(d: Disk, start: nat, lh: seq<nat>, k: nat, b: nat)
    requires GoodHead(d, start, lh) && k <= |lh|
    ensures Installed(d, start, lh, k).Keys == d.Keys
    ensures forall i :: 0 <= i < k && lh[i] == b ==> Installed(d, start, lh, k)[b] == d[start + i + 1]
    ensures (forall i :: 0 <= i < k ==> lh[i] != b) && b in d ==> Installed(d, start, lh, k)[b] == d[b]
    decreases k
  {
    if k > 0 {
      assert InLog(start + k, start);
      InstalledAt(d, start, lh, k - 1, b);
    }
  }

  /** Home blocks only: the log area is not part of what the file system sees. */
  ghost function Home(d: Disk, start: nat): Disk {
    map b | b in d && !InLog(b, start) :: d[b]
  }

  /** The home blocks that a completed recovery leaves. */
  ghost function Recovered(d: Disk, start: nat): Disk {
    Home(Installed(d, start, Head(d, start), |Head(d, start)|), start)
  }

  ghost predicate GoodDisk(d: Disk, start: nat) { GoodHead(d, start, Head(d, start)) }

  lemma LogKept(d: Disk, start: nat, lh: seq<nat>, k: nat)
    requires GoodHead(d, start, lh) && k <= |lh|
    ensures Installed(d, start, lh, k).Keys == d.Keys
    ensures forall b :: InLog(b, start) ==> Installed(d, start, lh, k)[b] == d[b]
    ensures Head(Installed(d, start, lh, k), start) == Head(d, start)
  {
    InstalledAt(d, start, lh, k, start);
    forall b | InLog(b, start) ensures b in d && Installed(d, start, lh, k)[b] == d[b] { InstalledAt(d, start, lh, k, b); }
    assert InLog(start, start);
  }

  /** Installing some blocks first changes nothing about the result of installing all. */
  lemma InstallAgain(d: Disk, start: nat, lh: seq<nat>, k: nat)
    requires GoodHead(d, start, lh) && k <= |lh|
    ensures GoodHead(Installed(d, start, lh, k), start, lh)
    ensures Installed(Installed(d, start, lh, k), start, lh, |lh|) == Installed(d, start, lh, |lh|)
  {
    var d1 := Installed(d, start, lh, k);
    var n := |lh|;
    LogKept(d, start, lh, k);
    InstalledAt(d, start, lh, n, 0);
    InstalledAt(d1, start, lh, n, 0);
    forall b | b in d ensures Installed(d1, start, lh, n)[b] == Installed(d, start, lh, n)[b] {
      InstallAgainAt(d, start, lh, k, b);
    }
  }

  lemma InstallAgainAt(d: Disk, start: nat, lh: seq<nat>, k: nat, b: nat)
    requires GoodHead(d, start, lh) && k <= |lh| && b in d
    requires GoodHead(Installed(d, start, lh, k), start, lh)
    ensures b in Installed(Installed(d, start, lh, k), start, lh, |lh|) && b in Installed(d, start, lh, |lh|)
    ensures Installed(Installed(d, start, lh, k), start, lh, |lh|)[b] == Installed(d, start, lh, |lh|)[b]
  {
    var d1 := Installed(d, start, lh, k);
    LogKept(d, start, lh, k);
    InstalledAt(d, start, lh, k, b);
    InstalledAt(d, start, lh, |lh|, b);
    InstalledAt(d1, start, lh, |lh|, b);
    if i :| 0 <= i < |lh| && lh[i] == b {
      assert InLog(start + i + 1, start);
    }
  }

  // ---------------------------------------------------------------------
  // Single writes

  /** An install during a commit or a recovery: nothing changes for recovery. */
  lemma InstallStep(d: Disk, start: nat, lh: seq<nat>, k: nat)
    requires GoodDisk(d, start) && Head(d, start) == lh && k <= |lh|
    ensures var d1 := Installed(d, start, lh, k);
            GoodDisk(d1, start) && Head(d1, start) == lh && Recovered(d1, start) == Recovered(d, start)
  {
    LogKept(d, start, lh, k);
    InstallAgain(d, start, lh, k);
  }

  /** Clearing the header once everything is installed. */
  lemma ClearStep(d: Disk, start: nat, lh: seq<nat>)
    requires GoodDisk(d, start) && Head(d, start) == lh
    ensures var d1 := Installed(d, start, lh, |lh|);
            start in d1
            && var d2 := d1[start := MakeHead(d1[start], [])];
            GoodDisk(d2, start) && Head(d2, start) == [] && Recovered(d2, start) == Recovered(d, start) && Home(d2, start) == Recovered(d, start)
  {
    var d1 := Installed(d, start, lh, |lh|);
    LogKept(d, start, lh, |lh|);
    assert InLog(start, start);
    HeadRoundTrip(d1, start, []);
    var d2 := d1[start := MakeHead(d1[start], [])];
    assert Home(d2, start) == Home(d1, start);
  }

  /** Writing a log block while the header is empty. */
  lemma LogBlockStep(d: Disk, start: nat, i: nat, x: Block)
    requires GoodDisk(d, start) && Head(d, start) == [] && i < LOGBLOCKS
    ensures var d1 := d[start + i + 1 := x];
            GoodDisk(d1, start) && Head(d1, start) == [] && Recovered(d1, start) == Recovered(d, start) && Home(d1, start) == Home(d, start)
  {
    var d1 := d[start + i + 1 := x];
    assert InLog(start + i + 1, start);
    assert Head(d1, start) == [];
    assert Home(d1, start) == Home(d, start);
  }

  /** The home blocks with the cached blocks written over them. */
  ghost function Overlay(home: Disk, cache: Disk): Disk {
    map b | b in home :: if b in cache then cache[b] else home[b]
  }

  /** Writing the header is the one write that changes what recovery yields: all logged blocks at once. */
  lemma CommitPoint(d: Disk, start: nat, lh: seq<nat>, cache: Disk)
    requires GoodDisk(d, start) && Head(d, start) == [] && GoodHead(d, start, lh)
    requires forall b :: b in cache <==> b in lh
    requires forall i :: 0 <= i < |lh| ==> d[start + i + 1] == cache[lh[i]]
    ensures var d1 := d[start := MakeHead(d[start], lh)];
            GoodDisk(d1, start) && Head(d1, start) == lh && Recovered(d1, start) == Overlay(Recovered(d, start), cache)
  {
    hide Installed, MakeHead, Head;
    assert InLog(start, start);
    HeadRoundTrip(d, start, lh);
    var d1 := d[start := MakeHead(d[start], lh)];
    assert GoodHead(d1, start, lh);
    InstalledAt(d1, start, lh, |lh|, 0);
    EmptyHead(d, start);
    var d2 := Installed(d1, start, lh, |lh|);
    forall b | b in d && !InLog(b, start) ensures b in d2 && d2[b] == if b in cache then cache[b] else d[b] {
      CommitPointAt(d, d1, start, lh, cache, b);
    }
    assert Home(d2, start) == Overlay(Home(d, start), cache);
  }

  lemma EmptyHead(d: Disk, start: nat)
    requires Head(d, start) == []
    ensures Recovered(d, start) == Home(d, start)
  {
  }

  lemma CommitPointAt(d: Disk, d1: Disk, start: nat, lh: seq<nat>, cache: Disk, b: nat)
    requires GoodHead(d1, start, lh) && b in d && !InLog(b, start)
    requires d1.Keys == d.Keys && (forall c :: c in d && c != start ==> d1[c] == d[c])
    requires forall c :: c in cache <==> c in lh
    requires forall i :: 0 <= i < |lh| ==> start + i + 1 in d && d[start + i + 1] == cache[lh[i]]
    ensures b in Installed(d1, start, lh, |lh|) && Installed(d1, start, lh, |lh|)[b] == if b in cache then cache[b] else d[b]
  {
    hide Installed;
    InstalledAt(d1, start, lh, |lh|, b);
    if b in lh {
      var i :| 0 <= i < |lh| && lh[i] == b;
      assert d1[start + i + 1] == d[start + i + 1];
    }
  }

  // ---------------------------------------------------------------------
  // recover_from_log

  function FullRecovery(d: Disk, start: nat): Disk {
    var lh := Head(d, start);
    var d1 := Installed(d, start, lh, |lh|);
    if start in d1 then d1[start := MakeHead(d1[start], [])] else d1
  }

  lemma FullRecoveryHome(d: Disk, start: nat)
    requires GoodDisk(d, start)
    ensures Home(FullRecovery(d, start), start) == Recovered(d, start) && Head(FullRecovery(d, start), start) == []
    ensures GoodDisk(FullRecovery(d, start), start)
  {
    ClearStep(d, start, Head(d, start));
  }
}
