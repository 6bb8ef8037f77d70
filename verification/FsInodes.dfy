/**
 Truncating, freeing and reclaiming inodes (kernel/fs.c), on the ownership
 invariant of FsBlocks. An inode here is both the table entry and its disk
 copy: every operation ends with iupdate.
 */
module FsInodes {
  import opened Common
  import opened FsBlocks

  /** Block b is in some slot of inode i. */
  predicate Mine(fs: Fs, i: nat, b: nat)
    requires i < |fs.inodes| && |fs.inodes[i].addrs| == NDIRECT + 1
  {
    b != 0 && exists s: nat :: s < SLOTS && SlotAt(fs, i, s) == b
  }

  function NoAddrs(): seq<nat> { seq(NDIRECT + 1, _ => 0) }

  /** itrunc: exactly the blocks in i's slots become free. */
  function Truncated(fs: Fs, i: nat): Fs
    requires i < |fs.inodes| && |fs.inodes[i].addrs| == NDIRECT + 1
  {
    fs.(bitmap := seq(|fs.bitmap|, b requires 0 <= b < |fs.bitmap| => fs.bitmap[b] && !Mine(fs, i, b)),
        inodes := fs.inodes[i := fs.inodes[i].(addrs := NoAddrs(), size := 0)])
  }

  lemma TruncatedSlot(fs: Fs, i: nat, x: Slot)
    requires i < |fs.inodes| && |fs.inodes[i].addrs| == NDIRECT + 1 && IsSlot(fs, x)
    ensures IsSlot(Truncated(fs, i), x) && At(Truncated(fs, i), x) == if x.inum == i then 0 else At(fs, x)
  {
  }

  lemma MineOwned(fs: Fs, i: nat, b: nat)
    requires i < |fs.inodes| && |fs.inodes[i].addrs| == NDIRECT + 1 && Mine(fs, i, b)
    ensures exists x: Slot :: x.inum == i && OwnedBy(fs, x, b)
  {
    var s: nat :| s < SLOTS && SlotAt(fs, i, s) == b;
    assert OwnedBy(fs, Slot(i, s), b);
  }

  lemma OwnedMine(fs: Fs, x: Slot, b: nat)
    requires OwnedBy(fs, x, b)
    ensures Mine(fs, x.inum, b)
  {
    assert SlotAt(fs, x.inum, x.s) == b;
  }

  lemma TruncatedOwned(fs: Fs, i: nat, b: nat)
    requires Owners(fs, {}) && i < |fs.inodes|
    ensures Owned(Truncated(fs, i), b) <==> Owned(fs, b) && !Mine(fs, i, b)
  {
    var t := Truncated(fs, i);
    if Owned(t, b) {
      var x :| OwnedBy(t, x, b);
      TruncatedSlot(fs, i, x);
      assert OwnedBy(fs, x, b);
      if Mine(fs, i, b) { MineOwned(fs, i, b); }
    }
    if Owned(fs, b) && !Mine(fs, i, b) {
      var x :| OwnedBy(fs, x, b);
      OwnedMine(fs, x, b);
      TruncatedSlot(fs, i, x);
      assert OwnedBy(t, x, b);
    }
  }

  /** itrunc empties the inode and keeps ownership exact, so all its blocks are free; every other inode and every block's contents stay. */
  lemma TruncatedOwners(fs: Fs, i: nat)
    requires Owners(fs, {}) && i < |fs.inodes|
    ensures var t, x := Truncated(fs, i), fs.inodes[i];
            && Owners(t, {}) && |t.inodes| == |fs.inodes| && t.blocks == fs.blocks
            && t.inodes[i].kind == x.kind && t.inodes[i].nlink == x.nlink && t.inodes[i].size == 0
            && (forall k :: 0 <= k < |t.inodes[i].addrs| ==> t.inodes[i].addrs[k] == 0)
            && (forall j :: 0 <= j < |fs.inodes| && j != i ==> t.inodes[j] == fs.inodes[j])
  {
    hide Mine;
    var t := Truncated(fs, i);
    forall x | IsSlot(t, x) ensures InRange(t, At(t, x)) {
      TruncatedSlot(fs, i, x);
      assert InRange(fs, At(fs, x));
    }
    forall x, y, b | OwnedBy(t, x, b) && OwnedBy(t, y, b) ensures x == y {
      TruncatedSlot(fs, i, x);
      TruncatedSlot(fs, i, y);
      assert OwnedBy(fs, x, b) && OwnedBy(fs, y, b);
    }
    forall b: nat | b < |t.bitmap| ensures t.bitmap[b] <==> b < t.start || Owned(t, b) {
      TruncatedOwned(fs, i, b);
      MineRange(fs, i, b);
    }
  }

  lemma MineRange(fs: Fs, i: nat, b: nat)
    requires Owners(fs, {}) && i < |fs.inodes|
    ensures Mine(fs, i, b) ==> fs.start <= b < |fs.bitmap| && fs.bitmap[b]
  {
    if Mine(fs, i, b) {
      MineOwned(fs, i, b);
      var x: Slot :| x.inum == i && OwnedBy(fs, x, b);
      assert InRange(fs, At(fs, x)) && Owned(fs, b);
    }
  }

  // ---------------------------------------------------------------------
  // iput and ireclaim

  /** The freeing branch of iput. */
  function FreeInode(fs: Fs, i: nat): Fs
    requires i < |fs.inodes| && |fs.inodes[i].addrs| == NDIRECT + 1
  {
    var t := Truncated(fs, i);
    t.(inodes := t.inodes[i := t.inodes[i].(kind := 0)])
  }

  lemma SameSlotsOwners(fs: Fs, t: Fs)
    requires Owners(fs, {}) && t.start == fs.start && t.bitmap == fs.bitmap && t.blocks == fs.blocks && |t.inodes| == |fs.inodes|
    requires forall i :: 0 <= i < |fs.inodes| ==> t.inodes[i].addrs == fs.inodes[i].addrs
    ensures Owners(t, {})
  {
    assert forall x :: IsSlot(t, x) <==> IsSlot(fs, x);
    assert forall x :: IsSlot(fs, x) ==> At(t, x) == At(fs, x);
    assert forall x, b :: OwnedBy(t, x, b) <==> OwnedBy(fs, x, b);
    forall b: nat ensures Owned(t, b) <==> Owned(fs, b) {
      if Owned(fs, b) {
        var x :| OwnedBy(fs, x, b);
        assert OwnedBy(t, x, b);
      }
    }
  }

  /** A free inode without content: type 0, size 0 and no block address. */
  predicate Cleared(x: Inode) { x.kind == 0 && x.size == 0 && |x.addrs| == NDIRECT + 1 && forall k :: 0 <= k < |x.addrs| ==> x.addrs[k] == 0 }

  /** iput's freeing branch clears the inode and keeps ownership exact, so all its blocks are free; every other inode and every block's contents stay. */
  lemma FreeInodeOwners(fs: Fs, i: nat)
    requires Owners(fs, {}) && i < |fs.inodes|
    ensures var t := FreeInode(fs, i);
            && Owners(t, {}) && |t.inodes| == |fs.inodes| && t.blocks == fs.blocks && t.start == fs.start && |t.bitmap| == |fs.bitmap|
            && Cleared(t.inodes[i]) && t.inodes[i].nlink == fs.inodes[i].nlink
            && (forall j :: 0 <= j < |fs.inodes| && j != i ==> t.inodes[j] == fs.inodes[j])
            && (forall b: nat :: b < |fs.bitmap| ==> (t.bitmap[b] <==> fs.bitmap[b] && !Mine(fs, i, b)))
  {
    hide Owners, Mine;
    assert |fs.inodes[i].addrs| == NDIRECT + 1 by { SizedOf(fs, {}); }
    TruncatedOwners(fs, i);
    SameSlotsOwners(Truncated(fs, i), FreeInode(fs, i));
  }

  predicate Orphan(x: Inode) { x.kind != 0 && x.nlink == 0 }

  /** ireclaim from inode k on. */
  function Reclaim(fs: Fs, k: nat): Fs
    requires forall i :: 0 <= i < |fs.inodes| ==> |fs.inodes[i].addrs| == NDIRECT + 1
    decreases |fs.inodes| - k
  {
    if k >= |fs.inodes| then fs
    else Reclaim(if Orphan(fs.inodes[k]) then FreeInode(fs, k) else fs, k + 1)
  }

  /** ireclaim clears exactly the allocated inodes from k on without links; every other inode is as before, and ownership is exact, so their blocks are free. */
  lemma {:induction false} ReclaimEffect(fs: Fs, k: nat)
    requires Owners(fs, {})
    ensures var t := Reclaim(fs, k);
            && Owners(t, {}) && |t.inodes| == |fs.inodes|
            && (forall i :: k <= i < |t.inodes| && Orphan(fs.inodes[i]) ==> Cleared(t.inodes[i]) && t.inodes[i].nlink == 0)
            && (forall i :: 0 <= i < |t.inodes| && (i < k || !Orphan(fs.inodes[i])) ==> t.inodes[i] == fs.inodes[i])
    decreases |fs.inodes| - k
  {
    hide Owners;
    SizedOf(fs, {});
    if k < |fs.inodes| {
      var u := if Orphan(fs.inodes[k]) then FreeInode(fs, k) else fs;
      FreeInodeOwners(fs, k);
      ReclaimEffect(u, k + 1);
      assert Orphan(fs.inodes[k]) ==> Cleared(u.inodes[k]) && u.inodes[k].nlink == 0 && !Orphan(u.inodes[k]);
    }
  }

  /** ialloc: the first free inode from k on becomes an empty inode of the given kind. */
  function Ialloc(fs: Fs, k: nat, kind: int): (Fs, nat)
    decreases |fs.inodes| - k
  {
    if k >= |fs.inodes| then (fs, 0)
    else if fs.inodes[k].kind == 0 then (fs.(inodes := fs.inodes[k := Inode(kind, 0, 0, NoAddrs())]), k)
    else Ialloc(fs, k + 1, kind)
  }

  /** ialloc returns the first free inode from k on, now empty and of the kind asked for, and changes nothing else; 0 means that none was free. */
  lemma {:induction false} IallocFirst(fs: Fs, k: nat, kind: int)
    requires k > 0
    ensures var (t, r) := Ialloc(fs, k, kind);
            && (r == 0 <==> forall i :: k <= i < |fs.inodes| ==> fs.inodes[i].kind != 0)
            && (r == 0 ==> t == fs)
            && (r != 0 ==>
                && k <= r < |fs.inodes| && fs.inodes[r].kind == 0 && (forall i :: k <= i < r ==> fs.inodes[i].kind != 0)
                && |t.inodes| == |fs.inodes| && t == fs.(inodes := fs.inodes[r := t.inodes[r]])
                && t.inodes[r].kind == kind && t.inodes[r].nlink == 0 && Cleared(t.inodes[r].(kind := 0)))
    decreases |fs.inodes| - k
  {
    if k < |fs.inodes| && fs.inodes[k].kind != 0 { IallocFirst(fs, k + 1, kind); }
  }

  /** Free inodes hold no blocks. */
  ghost predicate FreeEmpty(fs: Fs) { forall i :: 0 <= i < |fs.inodes| && fs.inodes[i].kind == 0 ==> fs.inodes[i].addrs == NoAddrs() }

  lemma {:induction false} IallocOwners(fs: Fs, k: nat, kind: int)
    requires Owners(fs, {}) && FreeEmpty(fs) && kind != 0
    ensures Owners(Ialloc(fs, k, kind).0, {}) && FreeEmpty(Ialloc(fs, k, kind).0)
    decreases |fs.inodes| - k
  {
    hide Owners;
    if k < |fs.inodes| {
      if fs.inodes[k].kind == 0 {
        SameSlotsOwners(fs, Ialloc(fs, k, kind).0);
      } else {
        IallocOwners(fs, k + 1, kind);
      }
    }
  }
}
