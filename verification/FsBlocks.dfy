/**
 Block allocation and block maps of kernel/fs.c: the free bitmap, the inodes'
 direct addresses and indirect tables, and who owns which block. Blocks are
 bytes; an indirect block holds 256 little-endian words.
 */
module FsBlocks {
  import opened Common

  const BSIZE: nat := 1024
  const NDIRECT: nat := 12
  const NINDIRECT: nat := 256
  const MAXFILE: nat := 268
  const TWO32: nat := 0x1_0000_0000

  /** Slots of an inode: the direct addresses, the indirect table, and the table's entries. */
  const TABLE: nat := 12
  const SLOTS: nat := 269

  type Block = b: seq<Byte> | |b| == BSIZE witness seq(BSIZE, _ => 0)

  function Zero(): Block { seq(BSIZE, _ => 0) }

  datatype Inode = Inode(kind: int, nlink: int, size: nat, addrs: seq<nat>)

  datatype Fs = Fs(start: nat, bitmap: seq<bool>, blocks: seq<Block>, inodes: seq<Inode>)

  // ---------------------------------------------------------------------
  // Words

  function Word(b: Block, j: nat): nat
    requires j < NINDIRECT
  {
    var b0: int, b1: int, b2: int, b3: int := b[4 * j], b[4 * j + 1], b[4 * j + 2], b[4 * j + 3];
    b0 + 256 * b1 + 65536 * b2 + 16777216 * b3
  }

  function SetWord(b: Block, j: nat, v: nat): Block
    requires j < NINDIRECT && v < TWO32
  {
    b[4 * j := v % 256][4 * j + 1 := (v / 256) % 256][4 * j + 2 := (v / 65536) % 256][4 * j + 3 := v / 16777216]
  }

  lemma WordOfSet(b: Block, j: nat, v: nat, k: nat)
    requires j < NINDIRECT && v < TWO32 && k < NINDIRECT
    ensures Word(SetWord(b, j, v), k) == if k == j then v else Word(b, k)
  {
    if k == j { Digits(v); }
  }

  lemma Digits(v: nat)
    ensures v % 256 + 256 * ((v / 256) % 256) + 65536 * ((v / 65536) % 256) + 16777216 * (v / 16777216) == v
  {
    assert v == v % 256 + 256 * (v / 256);
    var q := v / 256;
    assert q == q % 256 + 256 * (q / 256);
    assert q / 256 == v / 65536;
    var r := v / 65536;
    assert r == r % 256 + 256 * (r / 256);
    assert r / 256 == v / 16777216;
  }

  lemma ZeroWord(j: nat)
    requires j < NINDIRECT
    ensures Word(Zero(), j) == 0
  {
  }

  // ---------------------------------------------------------------------
  // Slots and ownership

  ghost predicate Sized(fs: Fs) {
    && |fs.bitmap| == |fs.blocks| < TWO32 && 0 < fs.start <= |fs.bitmap|
    && (forall i :: 0 <= i < |fs.inodes| ==> |fs.inodes[i].addrs| == NDIRECT + 1)
  }

  /** The block number in slot s of inode i, 0 if there is none. */
  function SlotAt(fs: Fs, i: nat, s: nat): nat
    requires i < |fs.inodes| && |fs.inodes[i].addrs| == NDIRECT + 1 && s < SLOTS
  {
    var a := fs.inodes[i].addrs;
    if s <= TABLE then a[s]
    else if 0 < a[TABLE] < |fs.blocks| then Word(fs.blocks[a[TABLE]], s - TABLE - 1) else 0
  }

  /** A slot of an existing inode. */
  datatype Slot = Slot(inum: nat, s: nat)

  predicate IsSlot(fs: Fs, x: Slot) { x.inum < |fs.inodes| && x.s < SLOTS && |fs.inodes[x.inum].addrs| == NDIRECT + 1 }

  function At(fs: Fs, x: Slot): nat
    requires IsSlot(fs, x)
  {
    SlotAt(fs, x.inum, x.s)
  }

  ghost predicate OwnedBy(fs: Fs, x: Slot, b: nat) { IsSlot(fs, x) && At(fs, x) == b && b != 0 }

  ghost predicate Owned(fs: Fs, b: nat) { exists x :: OwnedBy(fs, x, b) }

  /** Slot values are data blocks. */
  predicate InRange(fs: Fs, b: nat) { b == 0 || fs.start <= b < |fs.bitmap| }

  /**
   A bit is set exactly for metadata, for blocks owned by some slot, and for
   the spare blocks that an operation has just taken; no block has two owners.
   */
  ghost predicate Owners(fs: Fs, spare: set<nat>) {
    && Sized(fs)
    && (forall x :: IsSlot(fs, x) ==> InRange(fs, At(fs, x)))
    && (forall x, y, b :: OwnedBy(fs, x, b) && OwnedBy(fs, y, b) ==> x == y)
    && (forall b: nat :: b < |fs.bitmap| ==> (fs.bitmap[b] <==> b < fs.start || Owned(fs, b) || b in spare))
    && (forall b: nat :: b in spare ==> fs.start <= b < |fs.bitmap| && !Owned(fs, b))
  }

  // ---------------------------------------------------------------------
  // balloc

  /** The first clear bit from i on. */
  function FirstClear(bitmap: seq<bool>, i: nat): (r: nat)
    requires i <= |bitmap|
    ensures i <= r <= |bitmap| && (r < |bitmap| ==> !bitmap[r]) && (forall j :: i <= j < r ==> bitmap[j])
    decreases |bitmap| - i
  {
    if i == |bitmap| || !bitmap[i] then i else FirstClear(bitmap, i + 1)
  }

  /** A zeroed block, or 0 if the disk is full. */
  function Balloc(fs: Fs): (Fs, nat)
    requires |fs.blocks| == |fs.bitmap|
  {
    var b := FirstClear(fs.bitmap, 0);
    if b == |fs.bitmap| then (fs, 0)
    else (fs.(bitmap := fs.bitmap[b := true], blocks := fs.blocks[b := Zero()]), b)
  }

  lemma BallocOwners(fs: Fs)
    requires Owners(fs, {})
    ensures var (t, b) := Balloc(fs);
            if b == 0 then t == fs && forall c: nat :: c < |fs.bitmap| ==> fs.bitmap[c]
            else Owners(t, {b}) && t.blocks[b] == Zero() && t.inodes == fs.inodes && t.start == fs.start && !Owned(fs, b)
                 && (forall x :: IsSlot(fs, x) ==> At(t, x) == At(fs, x))
                 && |t.blocks| == |fs.blocks| && (forall c: nat :: c < |fs.blocks| && c != b ==> t.blocks[c] == fs.blocks[c])
  {
    var (t, b) := Balloc(fs);
    assert fs.bitmap[0];
    if b != 0 {
      assert !Owned(fs, b);
      forall x | IsSlot(fs, x) ensures At(t, x) == At(fs, x) { TableKept(fs, t, b, x); }
      SameSlots(fs, t, b);
    }
  }

  /** Changing the contents of a block that is no table changes no slot. */
  lemma TableKept(fs: Fs, t: Fs, b: nat, x: Slot)
    requires Sized(fs) && IsSlot(fs, x) && t.inodes == fs.inodes && |t.blocks| == |fs.blocks|
    requires forall c: nat :: c < |fs.blocks| && c != b ==> t.blocks[c] == fs.blocks[c]
    requires !OwnedBy(fs, Slot(x.inum, TABLE), b)
    ensures At(t, x) == At(fs, x)
  {
    assert At(fs, Slot(x.inum, TABLE)) == fs.inodes[x.inum].addrs[TABLE];
  }

  lemma SameSlots(fs: Fs, t: Fs, b: nat)
    requires Owners(fs, {}) && 0 < b < |fs.bitmap| && !fs.bitmap[b]
    requires t.inodes == fs.inodes && t.start == fs.start && t.bitmap == fs.bitmap[b := true] && |t.blocks| == |fs.blocks|
    requires forall x :: IsSlot(fs, x) ==> At(t, x) == At(fs, x)
    ensures Owners(t, {b})
  {
    assert forall x, c :: OwnedBy(t, x, c) <==> OwnedBy(fs, x, c);
    forall c: nat ensures Owned(t, c) <==> Owned(fs, c) {
      if Owned(fs, c) {
        var x :| OwnedBy(fs, x, c);
        assert OwnedBy(t, x, c);
      }
    }
  }

  // ---------------------------------------------------------------------
  // Giving a spare block to an empty slot

  /** Slot x now holds b; every other slot is as before. */
  ghost predicate Assigned(fs: Fs, t: Fs, x: Slot, b: nat) {
    && IsSlot(fs, x) && At(fs, x) == 0 && b != 0
    && t.start == fs.start && t.bitmap == fs.bitmap && |t.blocks| == |fs.blocks| && |t.inodes| == |fs.inodes|
    && (forall i :: 0 <= i < |t.inodes| ==> |t.inodes[i].addrs| == NDIRECT + 1)
    && (forall y :: IsSlot(fs, y) ==> At(t, y) == if y == x then b else At(fs, y))
  }

  lemma AssignedOwners(fs: Fs, t: Fs, x: Slot, b: nat)
    requires Owners(fs, {b}) && Assigned(fs, t, x, b)
    ensures Owners(t, {})
  {
    assert forall y :: IsSlot(t, y) <==> IsSlot(fs, y);
    forall y, c ensures OwnedBy(t, y, c) <==> OwnedBy(fs, y, c) || (y == x && c == b) {}
    forall c: nat ensures Owned(t, c) <==> Owned(fs, c) || c == b {
      if Owned(fs, c) {
        var y :| OwnedBy(fs, y, c);
        assert OwnedBy(t, y, c);
      }
      if c == b { assert OwnedBy(t, x, b); }
    }
  }

  function SetAddr(fs: Fs, i: nat, s: nat, b: nat): Fs
    requires i < |fs.inodes| && |fs.inodes[i].addrs| == NDIRECT + 1 && s <= TABLE
  {
    fs.(inodes := fs.inodes[i := fs.inodes[i].(addrs := fs.inodes[i].addrs[s := b])])
  }

  lemma SetAddrAssigned(fs: Fs, i: nat, s: nat, b: nat)
    requires Owners(fs, {b}) && i < |fs.inodes| && s <= TABLE && fs.inodes[i].addrs[s] == 0 && fs.blocks[b] == Zero()
    ensures Assigned(fs, SetAddr(fs, i, s, b), Slot(i, s), b)
  {
    var t, x := SetAddr(fs, i, s, b), Slot(i, s);
    forall y | IsSlot(fs, y) ensures At(t, y) == if y == x then b else At(fs, y) {
      if y.inum == i && y.s > TABLE { ZeroWord(y.s - TABLE - 1); }
    }
  }

  function SetEntry(fs: Fs, i: nat, j: nat, b: nat): Fs
    requires i < |fs.inodes| && |fs.inodes[i].addrs| == NDIRECT + 1 && fs.inodes[i].addrs[TABLE] < |fs.blocks| && j < NINDIRECT && b < TWO32
  {
    var a := fs.inodes[i].addrs[TABLE];
    fs.(blocks := fs.blocks[a := SetWord(fs.blocks[a], j, b)])
  }

  lemma SetEntryAssigned(fs: Fs, i: nat, j: nat, b: nat)
    requires Owners(fs, {b}) && i < |fs.inodes| && j < NINDIRECT && fs.inodes[i].addrs[TABLE] != 0
    requires At(fs, Slot(i, TABLE + 1 + j)) == 0
    ensures 0 < fs.inodes[i].addrs[TABLE] < |fs.blocks| && b < TWO32
    ensures Assigned(fs, SetEntry(fs, i, j, b), Slot(i, TABLE + 1 + j), b)
  {
    var a := fs.inodes[i].addrs[TABLE];
    assert At(fs, Slot(i, TABLE)) == a;
    assert InRange(fs, At(fs, Slot(i, TABLE)));
    var t, x := SetEntry(fs, i, j, b), Slot(i, TABLE + 1 + j);
    forall y | IsSlot(fs, y) ensures At(t, y) == if y == x then b else At(fs, y) { EntrySlot(fs, i, j, b, y); }
  }

  lemma EntrySlot(fs: Fs, i: nat, j: nat, b: nat, y: Slot)
    requires Owners(fs, {b}) && i < |fs.inodes| && j < NINDIRECT && 0 < fs.inodes[i].addrs[TABLE] < |fs.blocks| && b < TWO32 && IsSlot(fs, y)
    ensures var t := SetEntry(fs, i, j, b); IsSlot(t, y) && At(t, y) == if y == Slot(i, TABLE + 1 + j) then b else At(fs, y)
  {
    var a := fs.inodes[i].addrs[TABLE];
    if y.inum == i {
      if y.s > TABLE { WordOfSet(fs.blocks[a], j, b, y.s - TABLE - 1); }
    } else {
      assert OwnedBy(fs, Slot(i, TABLE), a);
      assert !OwnedBy(fs, Slot(y.inum, TABLE), a);
      TableKept(fs, SetEntry(fs, i, j, b), a, y);
    }
  }

  // ---------------------------------------------------------------------
  // bmap

  /** The slot that holds file block bn. */
  function DataSlot(bn: nat): nat { if bn < NDIRECT then bn else bn + 1 }

  /** The inode with its indirect table, which is allocated if need be; 0 if the disk is full. */
  function WithTable(fs: Fs, i: nat): (Fs, nat)
    requires |fs.blocks| == |fs.bitmap| && i < |fs.inodes| && |fs.inodes[i].addrs| == NDIRECT + 1
  {
    if fs.inodes[i].addrs[TABLE] != 0 then (fs, fs.inodes[i].addrs[TABLE])
    else
      var (t, b) := Balloc(fs);
      if b == 0 then (t, 0) else (SetAddr(t, i, TABLE, b), b)
  }

  /** The address of file block bn, which is allocated if need be; 0 if the disk is full. */
  function Bmap(fs: Fs, i: nat, bn: nat): (Fs, nat)
    requires |fs.blocks| == |fs.bitmap| < TWO32 && i < |fs.inodes| && |fs.inodes[i].addrs| == NDIRECT + 1 && bn < MAXFILE
  {
    if bn < NDIRECT then
      if fs.inodes[i].addrs[bn] != 0 then (fs, fs.inodes[i].addrs[bn])
      else
        var (t, b) := Balloc(fs);
        if b == 0 then (t, 0) else (SetAddr(t, i, bn, b), b)
    else
      var (u, a) := WithTable(fs, i);
      if a == 0 || a >= |u.blocks| then (u, 0)
      else
        var addr := Word(u.blocks[a], bn - NDIRECT);
        if addr != 0 then (u, addr)
        else
          var (t, b) := Balloc(u);
          if b == 0 then (t, 0) else (SetEntry(t, i, bn - NDIRECT, b), b)
  }

  /** Nothing is lost from fs to t: held blocks stay where they are, data blocks keep their contents, and only inode i may get more. */
  ghost predicate Grown(fs: Fs, t: Fs, i: nat) {
    && t.start == fs.start && |t.blocks| == |fs.blocks| && |t.bitmap| == |fs.bitmap| && |t.inodes| == |fs.inodes|
    && (forall j :: 0 <= j < |fs.inodes| ==> SameAttrs(fs.inodes[j], t.inodes[j]))
    && (forall x :: IsSlot(fs, x) ==> IsSlot(t, x) && SlotKept(At(fs, x), At(t, x), x.inum != i))
    && (forall x :: IsSlot(fs, x) && x.s != TABLE ==> BlockKept(fs, t, At(fs, x)))
  }

  predicate SameAttrs(p: Inode, q: Inode) { q == p.(addrs := q.addrs) }

  predicate SlotKept(b: nat, c: nat, exact: bool) { b != 0 || exact ==> c == b }

  predicate BlockKept(fs: Fs, t: Fs, b: nat) { 0 < b < |fs.blocks| && b < |t.blocks| ==> t.blocks[b] == fs.blocks[b] }

  /** Of the data slots only x may be different, and only from empty to a block of zeros. */
  ghost predicate Filled(fs: Fs, t: Fs, x: Slot) {
    && (forall y :: IsSlot(fs, y) && y.s != TABLE && y != x ==> IsSlot(t, y) && At(t, y) == At(fs, y))
    && (IsSlot(fs, x) && At(fs, x) == 0 ==> IsSlot(t, x) && Blank(t, At(t, x)))
  }

  predicate Blank(t: Fs, b: nat) { b == 0 || (b < |t.blocks| && t.blocks[b] == Zero()) }

  lemma GrownTrans(fs: Fs, t: Fs, u: Fs, i: nat)
    requires Grown(fs, t, i) && Grown(t, u, i)
    ensures Grown(fs, u, i)
  {
    forall j | 0 <= j < |fs.inodes| ensures SameAttrs(fs.inodes[j], u.inodes[j]) {
      assert SameAttrs(fs.inodes[j], t.inodes[j]) && SameAttrs(t.inodes[j], u.inodes[j]);
    }
    forall x | IsSlot(fs, x) ensures IsSlot(u, x) && SlotKept(At(fs, x), At(u, x), x.inum != i) {
      assert IsSlot(t, x) && SlotKept(At(fs, x), At(t, x), x.inum != i) && SlotKept(At(t, x), At(u, x), x.inum != i);
    }
    forall x | IsSlot(fs, x) && x.s != TABLE ensures BlockKept(fs, u, At(fs, x)) {
      assert IsSlot(t, x) && SlotKept(At(fs, x), At(t, x), x.inum != i);
      assert BlockKept(fs, t, At(fs, x)) && BlockKept(t, u, At(t, x));
    }
  }

  lemma GrownSelf(fs: Fs, i: nat)
    ensures Grown(fs, fs, i)
  {
  }

  lemma BallocGrown(fs: Fs, i: nat)
    requires Owners(fs, {})
    ensures Grown(fs, Balloc(fs).0, i)
  {
    BallocOwners(fs);
    hide Owners, Owned;
    var (t, b) := Balloc(fs);
    if b == 0 {
      GrownSelf(fs, i);
    } else {
      forall x | IsSlot(fs, x) && x.s != TABLE ensures BlockKept(fs, t, At(fs, x)) {
        if At(fs, x) == b { NotOwned(fs, x, b); }
      }
    }
  }

  lemma NotOwned(fs: Fs, x: Slot, b: nat)
    requires !Owned(fs, b) && b != 0 && IsSlot(fs, x)
    ensures At(fs, x) != b
  {
    assert !OwnedBy(fs, x, b);
  }

  lemma SetAddrGrown(fs: Fs, i: nat, s: nat, b: nat)
    requires Sized(fs) && i < |fs.inodes| && s <= TABLE && Assigned(fs, SetAddr(fs, i, s, b), Slot(i, s), b)
    ensures Grown(fs, SetAddr(fs, i, s, b), i)
  {
  }

  lemma SetEntryGrown(fs: Fs, i: nat, j: nat, b: nat)
    requires Owners(fs, {b}) && i < |fs.inodes| && j < NINDIRECT && 0 < fs.inodes[i].addrs[TABLE] < |fs.blocks| && b < TWO32
    requires Assigned(fs, SetEntry(fs, i, j, b), Slot(i, TABLE + 1 + j), b)
    ensures Grown(fs, SetEntry(fs, i, j, b), i)
  {
    var t, a := SetEntry(fs, i, j, b), fs.inodes[i].addrs[TABLE];
    forall x | IsSlot(fs, x) && x.s != TABLE ensures BlockKept(fs, t, At(fs, x)) {
      OnlyTable(fs, {b}, i, x);
    }
  }

  /** No data slot holds a table block. */
  lemma OnlyTable(fs: Fs, spare: set<nat>, i: nat, x: Slot)
    requires Owners(fs, spare) && i < |fs.inodes| && IsSlot(fs, x) && x.s != TABLE && fs.inodes[i].addrs[TABLE] != 0
    ensures At(fs, x) != fs.inodes[i].addrs[TABLE]
  {
    var a := fs.inodes[i].addrs[TABLE];
    assert OwnedBy(fs, Slot(i, TABLE), a);
    assert !OwnedBy(fs, x, a);
  }

  /** A fresh block in direct slot s or as the table. */
  lemma AddrStep(fs: Fs, i: nat, s: nat)
    requires Owners(fs, {}) && i < |fs.inodes| && s <= TABLE && fs.inodes[i].addrs[s] == 0
    ensures var (t, b) := Balloc(fs);
            b != 0 ==> && Owners(SetAddr(t, i, s, b), {}) && Grown(fs, SetAddr(t, i, s, b), i) && At(SetAddr(t, i, s, b), Slot(i, s)) == b
                       && (forall y :: IsSlot(fs, y) && y != Slot(i, s) ==> At(SetAddr(t, i, s, b), y) == At(fs, y))
                       && Filled(fs, SetAddr(t, i, s, b), Slot(i, s))
  {
    hide Owners, Assigned, Grown;
    SizedOf(fs, {});
    BallocOwners(fs);
    BallocGrown(fs, i);
    var (t, b) := Balloc(fs);
    if b != 0 {
      SizedOf(t, {b});
      SetAddrAssigned(t, i, s, b);
      AssignedOwners(t, SetAddr(t, i, s, b), Slot(i, s), b);
      SetAddrGrown(t, i, s, b);
      GrownTrans(fs, t, SetAddr(t, i, s, b), i);
      AssignedAt(fs, t, SetAddr(t, i, s, b), Slot(i, s), b);
    }
  }

  lemma SizedOf(fs: Fs, spare: set<nat>)
    requires Owners(fs, spare)
    ensures Sized(fs)
  {
  }

  lemma AssignedAt(fs: Fs, t: Fs, u: Fs, x: Slot, b: nat)
    requires Assigned(t, u, x, b) && t.inodes == fs.inodes && (forall y :: IsSlot(fs, y) ==> At(t, y) == At(fs, y))
    ensures IsSlot(u, x) && At(u, x) == b
    ensures forall y :: IsSlot(fs, y) && y != x ==> IsSlot(u, y) && At(u, y) == At(fs, y)
  {
    forall y | IsSlot(fs, y) && y != x ensures IsSlot(u, y) && At(u, y) == At(fs, y) { assert IsSlot(t, y) && At(t, y) == At(fs, y); }
  }

  /** A fresh block as entry j of the table. */
  lemma EntryStep(fs: Fs, i: nat, j: nat)
    requires Owners(fs, {}) && i < |fs.inodes| && j < NINDIRECT && fs.inodes[i].addrs[TABLE] != 0 && At(fs, Slot(i, TABLE + 1 + j)) == 0
    ensures var (t, b) := Balloc(fs);
            b != 0 ==> && t.inodes == fs.inodes && t.inodes[i].addrs[TABLE] < |t.blocks| && b < TWO32
                       && Owners(SetEntry(t, i, j, b), {}) && Grown(fs, SetEntry(t, i, j, b), i)
                       && At(SetEntry(t, i, j, b), Slot(i, TABLE + 1 + j)) == b && Filled(fs, SetEntry(t, i, j, b), Slot(i, TABLE + 1 + j))
  {
    hide Owners, Assigned, Grown;
    SizedOf(fs, {});
    BallocOwners(fs);
    BallocGrown(fs, i);
    var (t, b) := Balloc(fs);
    var x := Slot(i, TABLE + 1 + j);
    if b != 0 {
      SizedOf(t, {b});
      assert IsSlot(fs, x) && At(t, x) == At(fs, x);
      SetEntryAssigned(t, i, j, b);
      AssignedOwners(t, SetEntry(t, i, j, b), x, b);
      SetEntryGrown(t, i, j, b);
      GrownTrans(fs, t, SetEntry(t, i, j, b), i);
      AssignedAt(fs, t, SetEntry(t, i, j, b), x, b);
      NotOwned(fs, Slot(i, TABLE), b);
      assert At(fs, Slot(i, TABLE)) == fs.inodes[i].addrs[TABLE];
      assert SetEntry(t, i, j, b).blocks[b] == Zero();
    }
  }

  /** The table is there afterwards unless the disk is full. */
  lemma TableStep(fs: Fs, i: nat)
    requires Owners(fs, {}) && i < |fs.inodes|
    ensures var (u, a) := WithTable(fs, i);
            && Owners(u, {}) && Grown(fs, u, i) && (forall y :: IsSlot(fs, y) && y.s != TABLE ==> IsSlot(u, y) && At(u, y) == At(fs, y))
            && (a != 0 ==> u.inodes[i].addrs[TABLE] == a < |u.blocks|)
            && (a == 0 ==> u == fs && forall c: nat :: c < |fs.bitmap| ==> fs.bitmap[c])
  {
    hide Owners, Grown;
    SizedOf(fs, {});
    if fs.inodes[i].addrs[TABLE] != 0 {
      GrownSelf(fs, i);
      TableRange(fs, i);
    } else {
      BallocOwners(fs);
      AddrStep(fs, i, TABLE);
      var (t, b) := Balloc(fs);
      if b == 0 { GrownSelf(fs, i); } else { TableRange(SetAddr(t, i, TABLE, b), i); }
    }
  }

  lemma TableRange(fs: Fs, i: nat)
    requires Owners(fs, {}) && i < |fs.inodes|
    ensures |fs.inodes[i].addrs| == NDIRECT + 1 && fs.inodes[i].addrs[TABLE] < |fs.blocks|
  {
    assert At(fs, Slot(i, TABLE)) == fs.inodes[i].addrs[TABLE];
    assert InRange(fs, At(fs, Slot(i, TABLE)));
  }

  /**
   bmap: the file block has an address afterwards unless the disk is full; no
   block that any inode had is lost, moved or changed; ownership stays exact.
   */
  lemma BmapEffect(fs: Fs, i: nat, bn: nat)
    requires Owners(fs, {}) && i < |fs.inodes| && bn < MAXFILE
    ensures var (t, addr) := Bmap(fs, i, bn);
            && Owners(t, {}) && Grown(fs, t, i)
            && (addr != 0 ==> IsSlot(t, Slot(i, DataSlot(bn))) && At(t, Slot(i, DataSlot(bn))) == addr)
            && (addr == 0 ==> |t.bitmap| == |fs.bitmap| && forall c: nat :: c < |t.bitmap| ==> t.bitmap[c])
            && (At(fs, Slot(i, DataSlot(bn))) != 0 ==> t == fs)
            && Filled(fs, t, Slot(i, DataSlot(bn)))
  {
    hide Owners, Grown;
    SizedOf(fs, {});
    BallocOwners(fs);
    if bn < NDIRECT {
      if fs.inodes[i].addrs[bn] != 0 { GrownSelf(fs, i); } else { AddrStep(fs, i, bn); GrownSelf(fs, i); }
    } else {
      BmapIndirect(fs, i, bn);
    }
  }

  lemma BmapIndirect(fs: Fs, i: nat, bn: nat)
    requires Owners(fs, {}) && i < |fs.inodes| && NDIRECT <= bn < MAXFILE
    ensures var (t, addr) := Bmap(fs, i, bn);
            && Owners(t, {}) && Grown(fs, t, i)
            && (addr != 0 ==> IsSlot(t, Slot(i, DataSlot(bn))) && At(t, Slot(i, DataSlot(bn))) == addr)
            && (addr == 0 ==> |t.bitmap| == |fs.bitmap| && forall c: nat :: c < |t.bitmap| ==> t.bitmap[c])
            && (At(fs, Slot(i, DataSlot(bn))) != 0 ==> t == fs)
            && Filled(fs, t, Slot(i, DataSlot(bn)))
  {
    hide Owners, Grown;
    SizedOf(fs, {});
    TableStep(fs, i);
    var (u, a) := WithTable(fs, i);
    GrownLen(fs, u, i);
    SizedOf(u, {});
    if a != 0 {
      var x := Slot(i, DataSlot(bn));
      assert IsSlot(u, x) && At(u, x) == Word(u.blocks[a], bn - NDIRECT);
      if At(u, x) == 0 {
        BallocOwners(u);
        EntryStep(u, i, bn - NDIRECT);
        var (t, b) := Balloc(u);
        if b != 0 {
          GrownTrans(fs, u, SetEntry(t, i, bn - NDIRECT, b), i);
        }
      }
      assert At(fs, x) != 0 ==> fs.inodes[i].addrs[TABLE] != 0;
    }
  }

  lemma GrownLen(fs: Fs, t: Fs, i: nat)
    requires Grown(fs, t, i)
    ensures |t.inodes| == |fs.inodes| && |t.bitmap| == |fs.bitmap| && |t.blocks| == |fs.blocks|
  {
  }
}
