/**
 kernel/fs.c in its own form: arrays for the bitmap, the blocks and the
 inodes, and the scanning, truncating, reading and writing loops over them,
 each proved against the functions of FsBlocks, FsInodes and FsFiles.
 */
module FsKernel {
  import opened Common
  import opened FsBlocks
  import opened FsFiles
  import opened FsInodes

  /** Bitmap bits per block. */
  const BPB: nat := 8192

  class Disk {
    const start: nat
    const bitmap: array<bool>
    const blocks: array<Block>
    const inodes: array<Inode>
    var panicked: bool

    ghost function Now(): Fs
      reads this, bitmap, blocks, inodes
    {
      Fs(start, bitmap[..], blocks[..], inodes[..])
    }

    constructor (start: nat, bits: array<bool>, data: array<Block>, table: array<Inode>)
      requires Owners(Fs(start, bits[..], data[..], table[..]), {})
      ensures Now() == Fs(start, bits[..], data[..], table[..]) && !panicked && bitmap == bits && blocks == data && inodes == table
    {
      this.start, bitmap, blocks, inodes, panicked := start, bits, data, table, false;
    }

    /** balloc: one loop over bitmap blocks, one over the bits of a block. */
    method AllocBlock() returns (r: nat)
      requires bitmap.Length == blocks.Length
      modifies bitmap, blocks
      ensures (Now(), r) == Balloc(old(Now()))
    {
      ghost var fs := Now();
      var b := 0;
      while b < bitmap.Length
        invariant b <= bitmap.Length + BPB && Now() == fs
        invariant forall j :: 0 <= j < b && j < bitmap.Length ==> bitmap[j]
      {
        var bi := 0;
        while bi < BPB && b + bi < bitmap.Length
          invariant bi <= BPB && b + bi <= bitmap.Length && Now() == fs
          invariant forall j :: 0 <= j < b + bi ==> bitmap[j]
        {
          if !bitmap[b + bi] {
            FirstClearIs(fs.bitmap, 0, b + bi);
            bitmap[b + bi] := true;
            blocks[b + bi] := Zero();
            return b + bi;
          }
          bi := bi + 1;
        }
        b := b + BPB;
      }
      FirstClearIs(fs.bitmap, 0, bitmap.Length);
      r := 0;
    }

    /** bfree: panics on a block that is already free. */
    method FreeBlock(b: nat)
      requires b < bitmap.Length
      modifies this`panicked, bitmap
      ensures panicked == (old(panicked) || !old(bitmap[b])) && bitmap[..] == old(bitmap[..])[b := false]
    {
      if !bitmap[b] { panicked := true; }
      bitmap[b] := false;
    }

    /** bmap; the panic for a block number out of range cannot be reached from readi or writei. */
    method MapBlock(i: nat, bn: nat) returns (addr: nat)
      requires Owners(Now(), {}) && i < inodes.Length && bn < MAXFILE
      modifies bitmap, blocks, inodes
      ensures (Now(), addr) == Bmap(old(Now()), i, bn) && Owners(Now(), {})
    {
      hide Owners;
      SizedOf(Now(), {});
      BmapEffect(Now(), i, bn);
      assert |inodes[i].addrs| == NDIRECT + 1;
      if bn < NDIRECT {
        addr := inodes[i].addrs[bn];
        if addr == 0 {
          addr := AllocBlock();
          if addr == 0 { return; }
          inodes[i] := inodes[i].(addrs := inodes[i].addrs[bn := addr]);
        }
        return;
      }
      ghost var fs := Now();
      TableStep(fs, i);
      var table := inodes[i].addrs[TABLE];
      if table == 0 {
        table := AllocBlock();
        if table == 0 { return 0; }
        inodes[i] := inodes[i].(addrs := inodes[i].addrs[TABLE := table]);
      }
      assert (Now(), table) == WithTable(fs, i);
      SizedOf(Now(), {});
      addr := Word(blocks[table], bn - NDIRECT);
      if addr == 0 {
        EntryRoom(Now(), i, bn - NDIRECT);
        addr := AllocBlock();
        if addr != 0 { blocks[table] := SetWord(blocks[table], bn - NDIRECT, addr); }
      }
    }

    /** writei. */
    method WriteFile(i: nat, src: seq<Byte>, offset: nat, n: nat) returns (r: int)
      requires Owners(Now(), {}) && i < inodes.Length && offset < TWO32 && n < TWO32
      modifies bitmap, blocks, inodes
      ensures (Now(), r) == Writei(old(Now()), i, src, offset, n)
    {
      hide Owners, WriteLoop, Bmap;
      ghost var fs := Now();
      if offset > inodes[i].size || (offset + n) % TWO32 < offset { return -1; }
      if offset + n > MAXBYTES { return -1; }
      ghost var p := WriteLoop(fs, i, src, n, 0, offset);
      WriteLoopEffect(fs, i, src, n, 0, offset);
      var tot: nat, off: nat := 0, offset;
      while tot < n
        invariant tot <= n && off + (n - tot) <= MAXBYTES && Owners(Now(), {}) && off == offset + tot
        invariant WriteLoop(Now(), i, src, n, tot, off) == p
      {
        SizedOf(Now(), {});
        WriteNext(Now(), i, src, n, tot, off);
        var addr := MapBlock(i, off / BSIZE);
        if addr == 0 { break; }
        var m := ChunkLen(n, tot, off);
        if tot + m > |src| { break; }
        blocks[addr] := PutBytes(blocks[addr], off % BSIZE, src[tot..tot + m]);
        tot, off := tot + m, off + m;
      }
      if tot == n { WriteEnd(Now(), i, src, n, off); }
      assert p == Progress(Now(), tot, off);
      if off > inodes[i].size { inodes[i] := inodes[i].(size := off); }
      assert Now() == SetSize(p.fs, i, Max(p.fs.inodes[i].size, off));
      r := tot;
    }

    /** readi; bytes is what reached the caller's memory. */
    method ReadFile(i: nat, room: nat, offset: nat, count: nat) returns (bytes: seq<Byte>, r: int)
      requires Owners(Now(), {}) && i < inodes.Length && offset < TWO32 && count < TWO32 && inodes[i].size <= MAXBYTES
      modifies bitmap, blocks, inodes
      ensures Got(Now(), bytes, r) == Readi(old(Now()), i, room, offset, count)
    {
      hide Owners, ReadLoop, Bmap;
      ghost var fs := Now();
      bytes := [];
      if offset > inodes[i].size || (offset + count) % TWO32 < offset { return [], 0; }
      var n := count;
      if offset + n > inodes[i].size { n := inodes[i].size - offset; }
      ghost var g := ReadLoop(fs, i, room, n, 0, offset);
      var tot: nat, off: nat := 0, offset;
      while tot < n
        invariant tot <= n && off + (n - tot) <= MAXBYTES && Owners(Now(), {})
        invariant Prepend(bytes, ReadLoop(Now(), i, room, n, tot, off)) == g
      {
        SizedOf(Now(), {});
        ReadNext(Now(), i, room, n, tot, off, bytes);
        var addr := MapBlock(i, off / BSIZE);
        if addr == 0 { return bytes, tot; }
        var m := ChunkLen(n, tot, off);
        if tot + m > room { return bytes, -1; }
        bytes := bytes + blocks[addr][off % BSIZE..off % BSIZE + m];
        tot, off := tot + m, off + m;
      }
      ReadNone(Now(), i, room, n, off);
      r := tot;
    }

    /** itrunc: frees every block of inode i, none of them twice, so without a panic. */
    method Itrunc(i: nat)
      requires Owners(Now(), {}) && i < inodes.Length
      modifies this`panicked, bitmap, inodes
      ensures Now() == Truncated(old(Now()), i) && panicked == old(panicked)
    {
      hide Owners, Truncated, BitsAfter;
      ghost var fs := Now();
      SizedOf(fs, {});
      NothingGone(fs, i);
      var addrs := inodes[i].addrs;
      var k := 0;
      while k < NDIRECT
        invariant k <= NDIRECT && panicked == old(panicked) && inodes[..] == fs.inodes && |addrs| == NDIRECT + 1
        invariant forall j :: 0 <= j <= TABLE ==> addrs[j] == if j < k then 0 else fs.inodes[i].addrs[j]
        invariant BitsAfter(fs, i, bitmap[..], k)
      {
        GoneNext(fs, i, bitmap[..], k);
        if addrs[k] != 0 {
          FreeBlock(addrs[k]);
          addrs := addrs[k := 0];
        }
        k := k + 1;
      }
      if addrs[TABLE] != 0 {
        TableRange(fs, i);
        var table := blocks[addrs[TABLE]];
        var j := 0;
        while j < NINDIRECT
          invariant j <= NINDIRECT && panicked == old(panicked) && inodes[..] == fs.inodes
          invariant BitsAfter(fs, i, bitmap[..], NDIRECT + j)
        {
          GoneNext(fs, i, bitmap[..], NDIRECT + j);
          if Word(table, j) != 0 { FreeBlock(Word(table, j)); }
          j := j + 1;
        }
        GoneTable(fs, i, bitmap[..]);
        FreeBlock(addrs[TABLE]);
        addrs := addrs[TABLE := 0];
      } else {
        GoneNoTable(fs, i, bitmap[..]);
      }
      assert addrs == NoAddrs();
      inodes[i] := inodes[i].(addrs := addrs, size := 0);
      TruncatedIs(fs, i, Now());
    }

    /** ireclaim: every orphan is truncated and freed. */
    method Ireclaim()
      requires Owners(Now(), {})
      modifies this`panicked, bitmap, inodes
      ensures Now() == Reclaim(old(Now()), 1) && Owners(Now(), {}) && panicked == old(panicked)
      ensures forall i :: 0 <= i < inodes.Length ==>
                if i >= 1 && Orphan(old(inodes[i])) then Cleared(inodes[i]) else inodes[i] == old(inodes[i])
    {
      hide Owners, Reclaim, Truncated;
      ghost var fs := Now();
      ReclaimEffect(fs, 1);
      SizedOf(fs, {});
      var inum := 1;
      while inum < inodes.Length
        invariant 1 <= inum && Owners(Now(), {}) && Sized(Now()) && panicked == old(panicked)
        invariant Reclaim(Now(), inum) == Reclaim(fs, 1)
        decreases inodes.Length - inum
      {
        ReclaimStep(Now(), inum);
        if inodes[inum].kind != 0 && inodes[inum].nlink == 0 {
          ghost var u := Now();
          FreeInodeOwners(u, inum);
          Itrunc(inum);
          inodes[inum] := inodes[inum].(kind := 0);
          assert Now() == FreeInode(u, inum);
          SizedOf(Now(), {});
        }
        inum := inum + 1;
      }
      ReclaimEnd(Now(), inum);
    }
  }

  lemma {:induction false} FirstClearIs(bitmap: seq<bool>, i: nat, r: nat)
    requires i <= r <= |bitmap| && (forall j :: i <= j < r ==> bitmap[j]) && (r < |bitmap| ==> !bitmap[r])
    ensures FirstClear(bitmap, i) == r
    decreases r - i
  {
    if i < r { FirstClearIs(bitmap, i + 1, r); }
  }

  lemma EntryRoom(fs: Fs, i: nat, j: nat)
    requires Owners(fs, {}) && i < |fs.inodes| && j < NINDIRECT && |fs.inodes[i].addrs| == NDIRECT + 1
    ensures var (t, b) := Balloc(fs); b < TWO32 && |t.blocks| == |fs.blocks| && t.inodes == fs.inodes
  {
  }

  // ---------------------------------------------------------------------
  // Truncation, block by block: the data blocks first, then the table

  /** Block b is among the first q data blocks of inode i. */
  predicate Gone(fs: Fs, i: nat, b: nat, q: nat)
    requires i < |fs.inodes| && |fs.inodes[i].addrs| == NDIRECT + 1 && q <= MAXFILE
  {
    b != 0 && exists r: nat :: r < q && SlotAt(fs, i, DataSlot(r)) == b
  }

  /** The bitmap once the first q data blocks of inode i are free. */
  ghost predicate BitsAfter(fs: Fs, i: nat, bits: seq<bool>, q: nat) {
    && i < |fs.inodes| && |fs.inodes[i].addrs| == NDIRECT + 1 && q <= MAXFILE && |bits| == |fs.bitmap|
    && forall b: nat :: b < |bits| ==> (bits[b] <==> fs.bitmap[b] && !Gone(fs, i, b, q))
  }

  lemma NothingGone(fs: Fs, i: nat)
    requires Sized(fs) && i < |fs.inodes|
    ensures BitsAfter(fs, i, fs.bitmap, 0)
  {
  }

  /** The next data block is still in use, and freeing it is the next step; without one there is nothing to do. */
  lemma GoneNext(fs: Fs, i: nat, bits: seq<bool>, q: nat)
    requires Owners(fs, {}) && i < |fs.inodes| && q < MAXFILE && BitsAfter(fs, i, bits, q)
    ensures var b := SlotAt(fs, i, DataSlot(q));
            && (b != 0 ==> b < |bits| && bits[b] && BitsAfter(fs, i, bits[b := false], q + 1))
            && (b == 0 ==> BitsAfter(fs, i, bits, q + 1))
  {
    var b := SlotAt(fs, i, DataSlot(q));
    forall c: nat ensures Gone(fs, i, c, q + 1) <==> Gone(fs, i, c, q) || (c == b && b != 0) { GoneMore(fs, i, c, q); }
    if b != 0 {
      assert OwnedBy(fs, Slot(i, DataSlot(q)), b);
      assert InRange(fs, At(fs, Slot(i, DataSlot(q)))) && Owned(fs, b);
      OnceOnly(fs, i, b, q);
    }
  }

  lemma GoneMore(fs: Fs, i: nat, c: nat, q: nat)
    requires i < |fs.inodes| && |fs.inodes[i].addrs| == NDIRECT + 1 && q < MAXFILE
    ensures Gone(fs, i, c, q + 1) <==> Gone(fs, i, c, q) || (c == SlotAt(fs, i, DataSlot(q)) && c != 0)
  {
  }

  lemma OnceOnly(fs: Fs, i: nat, b: nat, q: nat)
    requires Owners(fs, {}) && i < |fs.inodes| && q < MAXFILE && OwnedBy(fs, Slot(i, DataSlot(q)), b)
    ensures !Gone(fs, i, b, q)
  {
    if r: nat :| r < q && SlotAt(fs, i, DataSlot(r)) == b { assert OwnedBy(fs, Slot(i, DataSlot(r)), b); }
  }

  /** All slots: the data blocks and the table. */
  lemma MineIs(fs: Fs, i: nat, b: nat)
    requires i < |fs.inodes| && |fs.inodes[i].addrs| == NDIRECT + 1
    ensures Mine(fs, i, b) <==> Gone(fs, i, b, MAXFILE) || (b != 0 && b == fs.inodes[i].addrs[TABLE])
  {
    if b != 0 {
      if s: nat :| s < SLOTS && SlotAt(fs, i, s) == b {
        if s != TABLE {
          var r := if s < TABLE then s else s - 1;
          assert DataSlot(r) == s;
        }
      }
      if r: nat :| r < MAXFILE && SlotAt(fs, i, DataSlot(r)) == b { assert DataSlot(r) < SLOTS; }
      assert SlotAt(fs, i, TABLE) == fs.inodes[i].addrs[TABLE];
    }
  }

  lemma GoneTable(fs: Fs, i: nat, bits: seq<bool>)
    requires Owners(fs, {}) && i < |fs.inodes| && BitsAfter(fs, i, bits, MAXFILE) && fs.inodes[i].addrs[TABLE] != 0
    ensures var b := fs.inodes[i].addrs[TABLE];
            b < |bits| && bits[b] && forall c: nat :: c < |bits| ==> (bits[b := false][c] <==> fs.bitmap[c] && !Mine(fs, i, c))
  {
    var b, x := fs.inodes[i].addrs[TABLE], Slot(i, TABLE);
    assert OwnedBy(fs, x, b);
    assert InRange(fs, At(fs, x)) && Owned(fs, b);
    forall c: nat ensures Mine(fs, i, c) <==> Gone(fs, i, c, MAXFILE) || (c != 0 && c == b) { MineIs(fs, i, c); }
    assert !Gone(fs, i, b, MAXFILE) by {
      forall r: nat | r < MAXFILE ensures SlotAt(fs, i, DataSlot(r)) != b { OnlyTable(fs, {}, i, Slot(i, DataSlot(r))); }
    }
  }

  lemma GoneNoTable(fs: Fs, i: nat, bits: seq<bool>)
    requires Owners(fs, {}) && i < |fs.inodes| && BitsAfter(fs, i, bits, NDIRECT) && fs.inodes[i].addrs[TABLE] == 0
    ensures forall c: nat :: c < |bits| ==> (bits[c] <==> fs.bitmap[c] && !Mine(fs, i, c))
  {
    forall c: nat | c < |bits| ensures Mine(fs, i, c) <==> Gone(fs, i, c, NDIRECT) {
      MineIs(fs, i, c);
      assert forall r: nat :: NDIRECT <= r < MAXFILE ==> SlotAt(fs, i, DataSlot(r)) == 0;
    }
  }

  lemma TruncatedIs(fs: Fs, i: nat, t: Fs)
    requires i < |fs.inodes| && |fs.inodes[i].addrs| == NDIRECT + 1 && t.start == fs.start && t.blocks == fs.blocks
    requires |t.bitmap| == |fs.bitmap| && forall c: nat :: c < |fs.bitmap| ==> (t.bitmap[c] <==> fs.bitmap[c] && !Mine(fs, i, c))
    requires t.inodes == fs.inodes[i := fs.inodes[i].(addrs := NoAddrs(), size := 0)]
    ensures t == Truncated(fs, i)
  {
    assert t.bitmap == Truncated(fs, i).bitmap;
  }

  lemma ReclaimStep(fs: Fs, k: nat)
    requires Sized(fs) && k < |fs.inodes|
    ensures Reclaim(fs, k) == Reclaim(if Orphan(fs.inodes[k]) then FreeInode(fs, k) else fs, k + 1)
  {
  }

  lemma ReclaimEnd(fs: Fs, k: nat)
    requires Sized(fs) && k >= |fs.inodes|
    ensures Reclaim(fs, k) == fs
  {
  }

  // ---------------------------------------------------------------------
  // The loops of readi and writei, one turn at a time

  lemma WriteNext(fs: Fs, i: nat, src: seq<Byte>, n: nat, tot: nat, off: nat)
    requires Owners(fs, {}) && i < |fs.inodes| && tot < n && off + (n - tot) <= MAXBYTES
    ensures var (t, addr) := Bmap(fs, i, off / BSIZE);
            var m := ChunkLen(n, tot, off);
            var p := WriteLoop(fs, i, src, n, tot, off);
            if addr == 0 || tot + m > |src| then p == Progress(t, tot, off)
            else
              && addr < |t.blocks| && |t.inodes| == |fs.inodes|
              && Owners(StoreChunk(t, addr, off % BSIZE, src[tot..tot + m]), {})
              && p == WriteLoop(StoreChunk(t, addr, off % BSIZE, src[tot..tot + m]), i, src, n, tot + m, off + m)
  {
    hide Owners;
    SizedOf(fs, {});
    var (t, addr) := Bmap(fs, i, off / BSIZE);
    var m := ChunkLen(n, tot, off);
    if addr != 0 && tot + m <= |src| { ChunkReady(fs, i, off, src[tot..tot + m]); }
  }

  lemma WriteEnd(fs: Fs, i: nat, src: seq<Byte>, n: nat, off: nat)
    requires Owners(fs, {}) && i < |fs.inodes| && off <= MAXBYTES
    ensures WriteLoop(fs, i, src, n, n, off) == Progress(fs, n, off)
  {
  }

  function Prepend(bytes: seq<Byte>, g: Got): Got { g.(bytes := bytes + g.bytes) }

  lemma ReadNext(fs: Fs, i: nat, room: nat, n: nat, tot: nat, off: nat, bytes: seq<Byte>)
    requires Owners(fs, {}) && i < |fs.inodes| && tot < n && off + (n - tot) <= MAXBYTES
    ensures var (t, addr) := Bmap(fs, i, off / BSIZE);
            var m := ChunkLen(n, tot, off);
            var g := Prepend(bytes, ReadLoop(fs, i, room, n, tot, off));
            && Owners(t, {}) && |t.inodes| == |fs.inodes| && addr < |t.blocks|
            && (if addr == 0 then g == Got(t, bytes, tot)
                else if tot + m > room then g == Got(t, bytes, -1)
                else g == Prepend(bytes + t.blocks[addr][off % BSIZE..off % BSIZE + m], ReadLoop(t, i, room, n, tot + m, off + m)))
  {
    hide Owners, Bmap, ReadLoop;
    SizedOf(fs, {});
    ReadTurn(fs, i, room, n, tot, off);
    var (t, addr) := Bmap(fs, i, off / BSIZE);
    var m := ChunkLen(n, tot, off);
    if addr != 0 && tot + m <= room {
      var part, rest := t.blocks[addr][off % BSIZE..off % BSIZE + m], ReadLoop(t, i, room, n, tot + m, off + m).bytes;
      assert bytes + (part + rest) == bytes + part + rest;
    }
  }
}
