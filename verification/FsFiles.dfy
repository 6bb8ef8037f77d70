/**
 File contents (kernel/fs.c): readi and writei over the block maps of
 FsBlocks refine reading and splicing a byte sequence. A chunk is copied from
 the caller completely or not at all.
 */
module FsFiles {
  import opened Common
  import opened FsBlocks

  const MAXBYTES: nat := MAXFILE * BSIZE

  /** File block bn of inode i has an address. */
  predicate Mapped(fs: Fs, i: nat, bn: nat) {
    bn < MAXFILE && IsSlot(fs, Slot(i, DataSlot(bn))) && At(fs, Slot(i, DataSlot(bn))) != 0
  }

  /** Every block below the size is there. */
  ghost predicate NoHoles(fs: Fs, i: nat)
    requires i < |fs.inodes|
  {
    forall bn: nat :: bn * BSIZE < fs.inodes[i].size ==> Mapped(fs, i, bn)
  }

  ghost predicate Sizes(fs: Fs) { forall i: nat :: i < |fs.inodes| ==> fs.inodes[i].size <= MAXBYTES }

  /** Ownership is exact and no file is larger than a file can be. */
  ghost predicate Sound(fs: Fs) { Owners(fs, {}) && Sizes(fs) }

  /** And no file has holes. */
  ghost predicate FsOk(fs: Fs) { Sound(fs) && forall i: nat :: i < |fs.inodes| ==> NoHoles(fs, i) }

  /** Byte k of the blocks of inode i, whether or not k is below the file's size; 0 in a hole. */
  function ByteOf(fs: Fs, i: nat, k: nat): Byte
    requires k < MAXBYTES
  {
    var x := Slot(i, DataSlot(k / BSIZE));
    if IsSlot(fs, x) && 0 < At(fs, x) < |fs.blocks| then fs.blocks[At(fs, x)][k % BSIZE] else 0
  }

  /** The file's bytes. */
  ghost function Contents(fs: Fs, i: nat): (c: seq<Byte>)
    requires i < |fs.inodes| && fs.inodes[i].size <= MAXBYTES
    ensures |c| == fs.inodes[i].size
  {
    seq(fs.inodes[i].size, k requires 0 <= k < fs.inodes[i].size => ByteOf(fs, i, k))
  }

  // ---------------------------------------------------------------------
  // One chunk

  function PutBytes(b: Block, at: nat, bytes: seq<Byte>): Block
    requires at + |bytes| <= BSIZE
  {
    b[..at] + bytes + b[at + |bytes|..]
  }

  function StoreChunk(fs: Fs, addr: nat, at: nat, bytes: seq<Byte>): Fs
    requires addr < |fs.blocks| && at + |bytes| <= BSIZE
  {
    fs.(blocks := fs.blocks[addr := PutBytes(fs.blocks[addr], at, bytes)])
  }

  /** Storing into a data block changes no slot. */
  lemma ChunkSlots(fs: Fs, i: nat, bn: nat, t: Fs)
    requires Owners(fs, {}) && Mapped(fs, i, bn) && t.inodes == fs.inodes && |t.blocks| == |fs.blocks|
    requires var addr := At(fs, Slot(i, DataSlot(bn))); forall c: nat :: c < |fs.blocks| && c != addr ==> t.blocks[c] == fs.blocks[c]
    ensures forall x :: IsSlot(fs, x) ==> IsSlot(t, x) && At(t, x) == At(fs, x)
  {
    var y := Slot(i, DataSlot(bn));
    var addr := At(fs, y);
    forall x | IsSlot(fs, x) ensures IsSlot(t, x) && At(t, x) == At(fs, x) {
      assert OwnedBy(fs, y, addr);
      assert !OwnedBy(fs, Slot(x.inum, TABLE), addr);
      TableKept(fs, t, addr, x);
    }
  }

  lemma ChunkOwners(fs: Fs, t: Fs)
    requires Owners(fs, {}) && t == fs.(blocks := t.blocks) && |t.blocks| == |fs.blocks|
    requires forall x :: IsSlot(fs, x) ==> IsSlot(t, x) && At(t, x) == At(fs, x)
    ensures Owners(t, {})
  {
    assert forall x :: IsSlot(t, x) <==> IsSlot(fs, x);
    assert forall x, b :: OwnedBy(t, x, b) <==> OwnedBy(fs, x, b);
    forall b: nat ensures Owned(t, b) <==> Owned(fs, b) {
      if Owned(fs, b) {
        var x :| OwnedBy(fs, x, b);
        assert OwnedBy(t, x, b);
      }
    }
  }

  /** The chunk at file offset off of inode i, and nothing else, changes. */
  lemma ChunkByte(fs: Fs, i: nat, off: nat, bytes: seq<Byte>, j: nat, k: nat)
    requires Owners(fs, {}) && off < MAXBYTES && Mapped(fs, i, off / BSIZE) && off % BSIZE + |bytes| <= BSIZE && k < MAXBYTES
    requires var addr := At(fs, Slot(i, DataSlot(off / BSIZE))); addr < |fs.blocks|
    ensures var t := StoreChunk(fs, At(fs, Slot(i, DataSlot(off / BSIZE))), off % BSIZE, bytes);
            ByteOf(t, j, k) == if j == i && off <= k < off + |bytes| then bytes[k - off] else ByteOf(fs, j, k)
  {
    var bn := off / BSIZE;
    var y := Slot(i, DataSlot(bn));
    var addr := At(fs, y);
    var t := StoreChunk(fs, addr, off % BSIZE, bytes);
    ChunkSlots(fs, i, bn, t);
    var x := Slot(j, DataSlot(k / BSIZE));
    if j == i && off <= k < off + |bytes| {
      assert k / BSIZE == bn && k % BSIZE == off % BSIZE + (k - off);
    } else if IsSlot(fs, x) && At(fs, x) == addr {
      assert OwnedBy(fs, y, addr) && OwnedBy(fs, x, addr);
      assert j == i && k / BSIZE == bn;
    }
  }

  // ---------------------------------------------------------------------
  // writei

  datatype Progress = Progress(fs: Fs, tot: nat, off: nat)

  function ChunkLen(n: nat, tot: nat, off: nat): (m: nat)
    requires tot < n
    ensures 0 < m <= n - tot && off % BSIZE + m <= BSIZE
  {
    if n - tot < BSIZE - off % BSIZE then n - tot else BSIZE - off % BSIZE
  }

  /** writei's loop; src is what copyin can read at the source address. */
  ghost function WriteLoop(fs: Fs, i: nat, src: seq<Byte>, n: nat, tot: nat, off: nat): Progress
    requires Owners(fs, {}) && i < |fs.inodes| && tot <= n && off + (n - tot) <= MAXBYTES
    decreases n - tot
  {
    if tot == n then Progress(fs, tot, off)
    else
      BmapEffect(fs, i, off / BSIZE);
      var (t, addr) := Bmap(fs, i, off / BSIZE);
      var m := ChunkLen(n, tot, off);
      if addr == 0 || tot + m > |src| then Progress(t, tot, off)
      else
        ChunkReady(fs, i, off, src[tot..tot + m]);
        WriteLoop(StoreChunk(t, addr, off % BSIZE, src[tot..tot + m]), i, src, n, tot + m, off + m)
  }

  lemma ChunkReady(fs: Fs, i: nat, off: nat, bytes: seq<Byte>)
    requires Owners(fs, {}) && i < |fs.inodes| && off < MAXBYTES && off % BSIZE + |bytes| <= BSIZE && Bmap(fs, i, off / BSIZE).1 != 0
    ensures var (t, addr) := Bmap(fs, i, off / BSIZE);
            && Owners(t, {}) && |t.inodes| == |fs.inodes| && addr < |t.blocks| && Mapped(t, i, off / BSIZE)
            && At(t, Slot(i, DataSlot(off / BSIZE))) == addr && Owners(StoreChunk(t, addr, off % BSIZE, bytes), {})
            && |StoreChunk(t, addr, off % BSIZE, bytes).inodes| == |fs.inodes|
  {
    var bn := off / BSIZE;
    BmapEffect(fs, i, bn);
    var (t, addr) := Bmap(fs, i, bn);
    assert InRange(t, At(t, Slot(i, DataSlot(bn))));
    var u := StoreChunk(t, addr, off % BSIZE, bytes);
    ChunkSlots(t, i, bn, u);
    ChunkOwners(t, u);
  }

  /** From fs to t byte k of inode i became src[k + shift] for off <= k < off + len; no other byte of any inode changed, and no block was given up. */
  ghost predicate Wrote(fs: Fs, t: Fs, i: nat, src: seq<Byte>, shift: int, off: nat, len: nat) {
    && |t.inodes| == |fs.inodes|
    && (forall j :: 0 <= j < |fs.inodes| ==> SameAttrs(fs.inodes[j], t.inodes[j]))
    && (forall j: nat, k: nat :: j < |fs.inodes| && k < MAXBYTES && !(j == i && off <= k < off + len) ==> ByteOf(t, j, k) == ByteOf(fs, j, k))
    && (forall k: nat :: off <= k < off + len ==> Stored(t, i, k, src, shift))
    && (forall j: nat, bn: nat :: Mapped(fs, j, bn) ==> Mapped(t, j, bn))
  }

  ghost predicate Stored(t: Fs, i: nat, k: nat, src: seq<Byte>, shift: int) {
    0 <= k + shift < |src| && k < MAXBYTES && Mapped(t, i, k / BSIZE) && ByteOf(t, i, k) == src[k + shift]
  }

  /** bmap changes no byte: a block that fills a hole is zeroed. */
  lemma FilledByte(fs: Fs, t: Fs, i: nat, bn: nat, j: nat, k: nat)
    requires Grown(fs, t, i) && Filled(fs, t, Slot(i, DataSlot(bn))) && Sized(fs) && j < |fs.inodes| && k < MAXBYTES
    ensures ByteOf(t, j, k) == ByteOf(fs, j, k)
  {
    var x := Slot(j, DataSlot(k / BSIZE));
    assert IsSlot(fs, x) && x.s != TABLE;
    assert SlotKept(At(fs, x), At(t, x), x.inum != i) && BlockKept(fs, t, At(fs, x));
    if At(fs, x) == 0 && x == Slot(i, DataSlot(bn)) { assert Blank(t, At(t, x)); }
  }

  lemma GrownMapped(fs: Fs, t: Fs, i: nat, j: nat, bn: nat)
    requires Grown(fs, t, i) && Mapped(fs, j, bn)
    ensures Mapped(t, j, bn)
  {
    var x := Slot(j, DataSlot(bn));
    assert SlotKept(At(fs, x), At(t, x), x.inum != i);
  }

  lemma WroteNothing(fs: Fs, t: Fs, i: nat, bn: nat, src: seq<Byte>, shift: int, off: nat)
    requires Grown(fs, t, i) && Filled(fs, t, Slot(i, DataSlot(bn))) && Sized(fs)
    ensures Wrote(fs, t, i, src, shift, off, 0)
  {
    hide Grown, Filled, ByteOf, Mapped;
    GrownAttrs(fs, t, i);
    forall j: nat, k: nat | j < |fs.inodes| && k < MAXBYTES ensures ByteOf(t, j, k) == ByteOf(fs, j, k) { FilledByte(fs, t, i, bn, j, k); }
    forall j: nat, n: nat | Mapped(fs, j, n) ensures Mapped(t, j, n) { GrownMapped(fs, t, i, j, n); }
  }

  lemma ChunkWrote(fs: Fs, i: nat, src: seq<Byte>, tot: nat, off: nat, m: nat)
    requires Owners(fs, {}) && i < |fs.inodes| && off < MAXBYTES && off % BSIZE + m <= BSIZE && tot + m <= |src|
    requires Bmap(fs, i, off / BSIZE).1 != 0
    ensures var (t, addr) := Bmap(fs, i, off / BSIZE);
            addr < |t.blocks| && Wrote(fs, StoreChunk(t, addr, off % BSIZE, src[tot..tot + m]), i, src, tot - off, off, m)
  {
    hide Owners, Grown, ByteOf, Filled, Mapped;
    SizedOf(fs, {});
    var bytes := src[tot..tot + m];
    ChunkReady(fs, i, off, bytes);
    BmapEffect(fs, i, off / BSIZE);
    var (t, addr) := Bmap(fs, i, off / BSIZE);
    var u := StoreChunk(t, addr, off % BSIZE, bytes);
    forall j: nat, k: nat | j < |fs.inodes| && k < MAXBYTES && !(j == i && off <= k < off + m) ensures ByteOf(u, j, k) == ByteOf(fs, j, k) {
      FilledByte(fs, t, i, off / BSIZE, j, k);
      ChunkByte(t, i, off, bytes, j, k);
    }
    forall j: nat, n: nat | Mapped(fs, j, n) ensures Mapped(u, j, n) {
      GrownMapped(fs, t, i, j, n);
      ChunkMapped(t, i, off / BSIZE, u, j, n);
    }
    var shift := tot - off;
    forall k: nat | off <= k < off + m ensures Stored(u, i, k, src, shift) {
      InFile(off, m, k);
      ChunkByte(t, i, off, bytes, i, k);
      ChunkMapped(t, i, off / BSIZE, u, i, off / BSIZE);
    }
    GrownAttrs(fs, t, i);
  }

  lemma InFile(off: nat, m: nat, k: nat)
    requires off < MAXBYTES && off % BSIZE + m <= BSIZE && off <= k < off + m
    ensures k < MAXBYTES && k / BSIZE == off / BSIZE
  {
  }

  lemma ChunkMapped(fs: Fs, i: nat, bn: nat, t: Fs, j: nat, n: nat)
    requires Owners(fs, {}) && Mapped(fs, i, bn) && t.inodes == fs.inodes && |t.blocks| == |fs.blocks| && Mapped(fs, j, n)
    requires var addr := At(fs, Slot(i, DataSlot(bn))); forall c: nat :: c < |fs.blocks| && c != addr ==> t.blocks[c] == fs.blocks[c]
    ensures Mapped(t, j, n)
  {
    hide Owners;
    ChunkSlots(fs, i, bn, t);
  }

  lemma GrownAttrs(fs: Fs, t: Fs, i: nat)
    requires Grown(fs, t, i)
    ensures |t.inodes| == |fs.inodes| && forall j :: 0 <= j < |fs.inodes| ==> SameAttrs(fs.inodes[j], t.inodes[j])
  {
  }

  lemma WroteMore(fs: Fs, t: Fs, u: Fs, i: nat, src: seq<Byte>, shift: int, off: nat, m: nat, len: nat)
    requires Wrote(fs, t, i, src, shift, off, m) && Wrote(t, u, i, src, shift, off + m, len) && i < |fs.inodes|
    ensures Wrote(fs, u, i, src, shift, off, m + len)
  {
    hide ByteOf, Mapped;
    forall j | 0 <= j < |fs.inodes| ensures SameAttrs(fs.inodes[j], u.inodes[j]) {
      assert SameAttrs(fs.inodes[j], t.inodes[j]) && SameAttrs(t.inodes[j], u.inodes[j]);
    }
    forall k: nat | off <= k < off + (m + len) ensures Stored(u, i, k, src, shift) {
      if k < off + m { assert Stored(t, i, k, src, shift); }
    }
  }

  ghost predicate DiskFull(fs: Fs) { forall c: nat :: c < |fs.bitmap| ==> fs.bitmap[c] }

  /** The loop writes exactly the bytes it reports, and stops short only for the caller's memory or a full disk. */
  lemma {:induction false} WriteLoopEffect(fs: Fs, i: nat, src: seq<Byte>, n: nat, tot: nat, off: nat)
    requires Owners(fs, {}) && i < |fs.inodes| && tot <= n && tot <= |src| && off + (n - tot) <= MAXBYTES
    ensures var p := WriteLoop(fs, i, src, n, tot, off);
            && Owners(p.fs, {}) && tot <= p.tot <= n && p.tot <= |src| && p.off == off + (p.tot - tot)
            && Wrote(fs, p.fs, i, src, tot - off, off, p.tot - tot)
            && (p.tot < n ==> p.tot + ChunkLen(n, p.tot, p.off) > |src| || DiskFull(p.fs))
    decreases n - tot
  {
    hide Owners, Grown, Wrote, Bmap, StoreChunk, ChunkLen, Filled;
    SizedOf(fs, {});
    if tot == n {
      GrownSelf(fs, i);
      FilledSelf(fs, i);
      WroteNothing(fs, fs, i, 0, src, tot - off, off);
    } else {
      BmapEffect(fs, i, off / BSIZE);
      var (t, addr) := Bmap(fs, i, off / BSIZE);
      var m := ChunkLen(n, tot, off);
      if addr == 0 || tot + m > |src| {
        WroteNothing(fs, t, i, off / BSIZE, src, tot - off, off);
      } else {
        ChunkReady(fs, i, off, src[tot..tot + m]);
        ChunkWrote(fs, i, src, tot, off, m);
        var u := StoreChunk(t, addr, off % BSIZE, src[tot..tot + m]);
        WriteLoopEffect(u, i, src, n, tot + m, off + m);
        var p := WriteLoop(u, i, src, n, tot + m, off + m);
        WroteMore(fs, u, p.fs, i, src, tot - off, off, m, p.tot - tot - m);
      }
    }
  }

  function SetSize(fs: Fs, i: nat, size: nat): Fs
    requires i < |fs.inodes|
  {
    fs.(inodes := fs.inodes[i := fs.inodes[i].(size := size)])
  }

  /** writei: the new file system and the return value; offsets and counts are 32-bit. */
  ghost function Writei(fs: Fs, i: nat, src: seq<Byte>, off: nat, n: nat): (Fs, int)
    requires Owners(fs, {}) && i < |fs.inodes| && off < TWO32 && n < TWO32
  {
    if off > fs.inodes[i].size || (off + n) % TWO32 < off || off + n > MAXBYTES then
      var failed: int := -1;
      (fs, failed)
    else
      var p := WriteLoop(fs, i, src, n, 0, off);
      WriteLoopEffect(fs, i, src, n, 0, off);
      var r: int := p.tot;
      (SetSize(p.fs, i, Max(p.fs.inodes[i].size, p.off)), r)
  }

  /** c with the bytes from off on replaced, and extended if they reach beyond its end. */
  function Spliced(c: seq<Byte>, off: nat, bytes: seq<Byte>): seq<Byte>
    requires off <= |c|
  {
    c[..off] + bytes + if off + |bytes| < |c| then c[off + |bytes|..] else []
  }

  lemma FilledSelf(fs: Fs, i: nat)
    ensures Filled(fs, fs, Slot(i, DataSlot(0)))
  {
  }

  lemma SetSizeOwners(fs: Fs, i: nat, size: nat)
    requires Owners(fs, {}) && i < |fs.inodes|
    ensures Owners(SetSize(fs, i, size), {}) && SameBlocks(fs, SetSize(fs, i, size))
  {
    var t := SetSize(fs, i, size);
    assert forall x :: IsSlot(t, x) <==> IsSlot(fs, x);
    assert forall x :: IsSlot(fs, x) ==> At(t, x) == At(fs, x);
    assert forall x, b :: OwnedBy(t, x, b) <==> OwnedBy(fs, x, b);
    forall b: nat ensures Owned(t, b) <==> Owned(fs, b) {
      if Owned(fs, b) {
        var x :| OwnedBy(fs, x, b);
        assert OwnedBy(t, x, b);
      }
    }
  }

  /** The inodes' blocks are the same, with the same bytes. */
  ghost predicate SameBlocks(fs: Fs, t: Fs) {
    && |t.inodes| == |fs.inodes|
    && (forall j: nat, k: nat :: j < |fs.inodes| && k < MAXBYTES ==> ByteOf(t, j, k) == ByteOf(fs, j, k))
    && (forall j: nat, bn: nat :: Mapped(t, j, bn) <==> Mapped(fs, j, bn))
  }

  /**
   A write that returns r >= 0 puts exactly the first r source bytes at off and
   extends the file accordingly, whatever direct or indirect blocks that
   takes; every other file keeps its contents; r is short only if the next
   chunk of the source cannot be read or the disk is full. A write that returns -1 changes
   nothing, and it does so exactly for an offset beyond the end, a count that
   overflows 32 bits, or an end beyond the largest file. No write makes a hole.
   */
  lemma WriteEffect(fs: Fs, i: nat, src: seq<Byte>, off: nat, n: nat)
    requires Sound(fs) && i < |fs.inodes| && off < TWO32 && n < TWO32
    ensures var (t, r) := Writei(fs, i, src, off, n);
            && Sound(t) && (FsOk(fs) ==> FsOk(t)) && |t.inodes| == |fs.inodes|
            && (r == -1 <==> off > fs.inodes[i].size || off + n >= TWO32 || off + n > MAXBYTES)
            && (r == -1 ==> t == fs)
            && (r != -1 ==> 0 <= r <= n && r <= |src|
                            && t.inodes[i].size <= MAXBYTES && fs.inodes[i].size <= MAXBYTES
                            && Contents(t, i) == Spliced(Contents(fs, i), off, src[..r])
                            && AllMapped(t, i, off, r)
                            && (r < n ==> r + ChunkLen(n, r, off + r) > |src| || DiskFull(t)))
            && (forall j: nat :: j < |fs.inodes| && j != i ==> SameFile(fs, t, j))
  {
    hide Owners, WriteLoop, ByteOf, NoHoles, Contents, SameFile, Mapped;
    var (t, r) := Writei(fs, i, src, off, n);
    if off > fs.inodes[i].size || off + n >= TWO32 || off + n > MAXBYTES {
      forall j: nat | j < |fs.inodes| && j != i ensures SameFile(fs, t, j) { SameSelf(fs, j); }
    } else {
      WriteDone(fs, i, src, off, n);
    }
  }

  /** File j has the same attributes and bytes. */
  ghost predicate SameFile(fs: Fs, t: Fs, j: nat) {
    && j < |fs.inodes| && j < |t.inodes| && fs.inodes[j].size <= MAXBYTES && SameAttrs(fs.inodes[j], t.inodes[j])
    && Contents(t, j) == Contents(fs, j)
  }

  lemma SameSelf(fs: Fs, j: nat)
    requires j < |fs.inodes| && fs.inodes[j].size <= MAXBYTES
    ensures SameFile(fs, fs, j)
  {
  }

  lemma WriteDone(fs: Fs, i: nat, src: seq<Byte>, off: nat, n: nat)
    requires Sound(fs) && i < |fs.inodes| && off <= fs.inodes[i].size && off + n < TWO32 && off + n <= MAXBYTES
    ensures var (t, r) := Writei(fs, i, src, off, n);
            && Sound(t) && (FsOk(fs) ==> FsOk(t)) && |t.inodes| == |fs.inodes| && 0 <= r <= n && r <= |src|
            && t.inodes[i].size <= MAXBYTES && fs.inodes[i].size <= MAXBYTES
            && Contents(t, i) == Spliced(Contents(fs, i), off, src[..r])
            && AllMapped(t, i, off, r)
            && (r < n ==> r + ChunkLen(n, r, off + r) > |src| || DiskFull(t))
            && (forall j: nat :: j < |fs.inodes| && j != i ==> SameFile(fs, t, j))
  {
    hide Owners, WriteLoop, ByteOf, NoHoles, Contents, SameFile, Wrote, Spliced, Mapped, SameBlocks;
    WriteLoopEffect(fs, i, src, n, 0, off);
    var p := WriteLoop(fs, i, src, n, 0, off);
    WroteAttrs(fs, p.fs, i, src, 0 - off, off, p.tot);
    var size := Max(fs.inodes[i].size, off + p.tot);
    var t := SetSize(p.fs, i, size);
    SetSizeOwners(p.fs, i, size);
    assert Writei(fs, i, src, off, n) == (t, p.tot);
    assert Resized(p.fs, t, i);
    forall j: nat | j < |fs.inodes| && j != i ensures SameFile(fs, t, j) && (NoHoles(fs, j) ==> NoHoles(t, j)) {
      OtherFile(fs, p.fs, t, i, src, off, p.tot, j);
    }
    ThisFile(fs, p.fs, t, i, src, off, p.tot);
    StillMapped(fs, p.fs, t, i, src, off, p.tot);
  }

  lemma WroteAttrs(fs: Fs, t: Fs, i: nat, src: seq<Byte>, shift: int, off: nat, len: nat)
    requires Wrote(fs, t, i, src, shift, off, len)
    ensures |t.inodes| == |fs.inodes| && forall j :: 0 <= j < |fs.inodes| ==> SameAttrs(fs.inodes[j], t.inodes[j])
  {
  }

  /** t is p with the size of inode i set. */
  ghost predicate Resized(p: Fs, t: Fs, i: nat) {
    && |t.inodes| == |p.inodes| && i < |p.inodes|
    && (forall j :: 0 <= j < |p.inodes| && j != i ==> t.inodes[j] == p.inodes[j])
    && SameBlocks(p, t)
  }

  lemma OtherFile(fs: Fs, p: Fs, t: Fs, i: nat, src: seq<Byte>, off: nat, len: nat, j: nat)
    requires Sizes(fs) && Wrote(fs, p, i, src, 0 - off, off, len) && Resized(p, t, i) && j < |fs.inodes| && j != i
    ensures SameFile(fs, t, j) && (NoHoles(fs, j) ==> NoHoles(t, j))
  {
    hide ByteOf, Mapped;
    var size := fs.inodes[j].size;
    assert SameAttrs(fs.inodes[j], p.inodes[j]);
    forall k: nat | k < size ensures ByteOf(t, j, k) == ByteOf(fs, j, k) { assert ByteOf(p, j, k) == ByteOf(fs, j, k); }
    assert Contents(t, j) == Contents(fs, j);
    if NoHoles(fs, j) {
      forall bn: nat | bn * BSIZE < size ensures Mapped(t, j, bn) { assert Mapped(fs, j, bn) && Mapped(p, j, bn); }
    }
  }

  lemma ThisFile(fs: Fs, p: Fs, t: Fs, i: nat, src: seq<Byte>, off: nat, len: nat)
    requires Wrote(fs, p, i, src, 0 - off, off, len) && Resized(p, t, i) && i < |fs.inodes|
    requires off <= fs.inodes[i].size <= MAXBYTES && off + len <= MAXBYTES && len <= |src|
    requires t.inodes[i].size == Max(fs.inodes[i].size, off + len)
    ensures Contents(t, i) == Spliced(Contents(fs, i), off, src[..len])
  {
    hide ByteOf, Mapped;
    var size := t.inodes[i].size;
    var c := Spliced(Contents(fs, i), off, src[..len]);
    assert |c| == size;
    forall k: nat | k < size ensures ByteOf(t, i, k) == c[k] {
      if off <= k < off + len { assert Stored(p, i, k, src, 0 - off); } else { assert ByteOf(p, i, k) == ByteOf(fs, i, k); }
    }
    assert Contents(t, i) == c;
  }

  lemma StillMapped(fs: Fs, p: Fs, t: Fs, i: nat, src: seq<Byte>, off: nat, len: nat)
    requires Wrote(fs, p, i, src, 0 - off, off, len) && Resized(p, t, i) && i < |fs.inodes| && off <= fs.inodes[i].size
    requires t.inodes[i].size == Max(fs.inodes[i].size, off + len)
    ensures AllMapped(t, i, off, len)
    ensures NoHoles(fs, i) ==> NoHoles(t, i)
  {
    hide ByteOf, Mapped;
    forall k: nat | off <= k < off + len ensures Mapped(t, i, k / BSIZE) { assert Stored(p, i, k, src, 0 - off); }
    if NoHoles(fs, i) {
      forall bn: nat | bn * BSIZE < t.inodes[i].size ensures Mapped(t, i, bn) {
        if bn * BSIZE < fs.inodes[i].size {
          assert Mapped(fs, i, bn) && Mapped(p, i, bn);
        } else {
          assert bn * BSIZE / BSIZE == bn;
        }
      }
    }
  }

  // ---------------------------------------------------------------------
  // readi

  datatype Got = Got(fs: Fs, bytes: seq<Byte>, ret: int)

  /** readi's loop; copyout can write `room` bytes at the destination. */
  ghost function ReadLoop(fs: Fs, i: nat, room: nat, n: nat, tot: nat, off: nat): Got
    requires Owners(fs, {}) && i < |fs.inodes| && tot <= n && off + (n - tot) <= MAXBYTES
    decreases n - tot
  {
    if tot == n then Got(fs, [], tot)
    else
      BmapEffect(fs, i, off / BSIZE);
      var (t, addr) := Bmap(fs, i, off / BSIZE);
      GrownLen(fs, t, i);
      var m := ChunkLen(n, tot, off);
      if addr == 0 || addr >= |t.blocks| then Got(t, [], tot)
      else if tot + m > room then Got(t, [], -1)
      else
        var rest := ReadLoop(t, i, room, n, tot + m, off + m);
        Got(rest.fs, t.blocks[addr][off % BSIZE..off % BSIZE + m] + rest.bytes, rest.ret)
  }

  ghost function Readi(fs: Fs, i: nat, room: nat, off: nat, n: nat): Got
    requires Owners(fs, {}) && i < |fs.inodes| && off < TWO32 && n < TWO32 && fs.inodes[i].size <= MAXBYTES
  {
    if off > fs.inodes[i].size || (off + n) % TWO32 < off then Got(fs, [], 0)
    else ReadLoop(fs, i, room, if off + n > fs.inodes[i].size then fs.inodes[i].size - off else n, 0, off)
  }

  /** A chunk found at its address is the bytes of the file there. */
  lemma ChunkRead(fs: Fs, i: nat, off: nat, m: nat, addr: nat)
    requires i < |fs.inodes| && fs.inodes[i].size <= MAXBYTES && 0 < m && off + m <= fs.inodes[i].size && off % BSIZE + m <= BSIZE
    requires IsSlot(fs, Slot(i, DataSlot(off / BSIZE))) && At(fs, Slot(i, DataSlot(off / BSIZE))) == addr && 0 < addr < |fs.blocks|
    ensures fs.blocks[addr][off % BSIZE..off % BSIZE + m] == Contents(fs, i)[off..off + m]
  {
    var part, want := fs.blocks[addr][off % BSIZE..off % BSIZE + m], Contents(fs, i)[off..off + m];
    forall k | 0 <= k < m ensures part[k] == want[k] {
      assert want[k] == ByteOf(fs, i, off + k);
      assert (off + k) / BSIZE == off / BSIZE && (off + k) % BSIZE == off % BSIZE + k;
    }
  }

  lemma BmapFound(fs: Fs, i: nat, bn: nat)
    requires Owners(fs, {}) && Mapped(fs, i, bn)
    ensures Bmap(fs, i, bn) == (fs, At(fs, Slot(i, DataSlot(bn))))
  {
    if bn >= NDIRECT { TableRange(fs, i); }
  }

  /** One turn of the loop, in general. */
  lemma ReadTurn(fs: Fs, i: nat, room: nat, n: nat, tot: nat, off: nat)
    requires Owners(fs, {}) && i < |fs.inodes| && tot < n && off + (n - tot) <= MAXBYTES
    ensures var (t, addr) := Bmap(fs, i, off / BSIZE);
            var m := ChunkLen(n, tot, off);
            && Owners(t, {}) && |t.inodes| == |fs.inodes| && addr < |t.blocks|
            && ReadLoop(fs, i, room, n, tot, off) ==
               if addr == 0 then Got(t, [], tot)
               else if tot + m > room then Got(t, [], -1)
               else
                 var rest := ReadLoop(t, i, room, n, tot + m, off + m);
                 Got(rest.fs, t.blocks[addr][off % BSIZE..off % BSIZE + m] + rest.bytes, rest.ret)
  {
    hide Owners, Bmap, Grown;
    SizedOf(fs, {});
    BmapEffect(fs, i, off / BSIZE);
    var (t, addr) := Bmap(fs, i, off / BSIZE);
    GrownLen(fs, t, i);
    SizedOf(t, {});
    if addr != 0 { ChunkReady(fs, i, off, []); }
  }

  /** Every file reads the same. */
  ghost predicate SameFiles(fs: Fs, t: Fs) {
    |t.inodes| == |fs.inodes| && forall j: nat :: j < |fs.inodes| ==> SameFile(fs, t, j)
  }

  /** Looking up a block changes no file. */
  lemma BmapFiles(fs: Fs, i: nat, bn: nat)
    requires Sound(fs) && i < |fs.inodes| && bn < MAXFILE
    ensures var t := Bmap(fs, i, bn).0; Sound(t) && SameFiles(fs, t) && (forall j: nat, n: nat :: Mapped(fs, j, n) ==> Mapped(t, j, n))
  {
    hide Owners, Grown, Bmap, ByteOf, Filled, Mapped;
    SizedOf(fs, {});
    BmapEffect(fs, i, bn);
    var t := Bmap(fs, i, bn).0;
    GrownAttrs(fs, t, i);
    forall j: nat, n: nat | Mapped(fs, j, n) ensures Mapped(t, j, n) { GrownMapped(fs, t, i, j, n); }
    forall j: nat | j < |fs.inodes| ensures SameFile(fs, t, j) {
      assert SameAttrs(fs.inodes[j], t.inodes[j]);
      forall k: nat | k < fs.inodes[j].size ensures ByteOf(t, j, k) == ByteOf(fs, j, k) { FilledByte(fs, t, i, bn, j, k); }
      assert Contents(t, j) == Contents(fs, j);
    }
  }

  lemma SameFilesTrans(fs: Fs, t: Fs, u: Fs)
    requires SameFiles(fs, t) && SameFiles(t, u)
    ensures SameFiles(fs, u)
  {
    hide Contents;
    forall j: nat | j < |fs.inodes| ensures SameFile(fs, u, j) { assert SameFile(fs, t, j) && SameFile(t, u, j); }
  }

  lemma SameFileAt(fs: Fs, t: Fs, j: nat)
    requires SameFiles(fs, t) && j < |fs.inodes|
    ensures j < |t.inodes| && fs.inodes[j].size == t.inodes[j].size <= MAXBYTES && Contents(t, j) == Contents(fs, j)
  {
    assert SameFile(fs, t, j);
  }

  /** File blocks from byte `from` on for len bytes are there. */
  ghost predicate AllMapped(fs: Fs, i: nat, from: nat, len: nat) {
    forall k: nat :: from <= k < from + len ==> Mapped(fs, i, k / BSIZE)
  }

  /**
   The bytes delivered are those reported; they are short only for the caller's
   memory, or at a hole for which there is no block; no file changes, and
   nothing at all unless there is a hole.
   */
  ghost predicate ReadOk(fs: Fs, i: nat, room: nat, n: nat, tot: nat, off: nat, g: Got)
    requires i < |fs.inodes| && tot <= n && off + (n - tot) <= fs.inodes[i].size <= MAXBYTES
  {
    && Sound(g.fs) && SameFiles(fs, g.fs) && |g.bytes| <= n - tot && g.bytes == Contents(fs, i)[off..off + |g.bytes|]
    && (g.ret == -1 || g.ret == tot + |g.bytes|)
    && (g.ret == -1 ==> room < n)
    && (g.ret == n ==> n <= room || tot == n)
    && (g.ret != -1 && g.ret < n ==> DiskFull(g.fs) && !Mapped(fs, i, (off + |g.bytes|) / BSIZE))
    && (AllMapped(fs, i, off, n - tot) ==> g.fs == fs)
  }

  lemma {:induction false} ReadLoopEffect(fs: Fs, i: nat, room: nat, n: nat, tot: nat, off: nat)
    requires Sound(fs) && i < |fs.inodes| && tot <= n && off + (n - tot) <= fs.inodes[i].size
    ensures fs.inodes[i].size <= MAXBYTES && ReadOk(fs, i, room, n, tot, off, ReadLoop(fs, i, room, n, tot, off))
    decreases n - tot
  {
    hide Sound, Bmap, Contents, ReadLoop, SameFiles, Mapped, DiskFull, AllMapped;
    SoundParts(fs);
    if tot < n {
      var m := ChunkLen(n, tot, off);
      var (t, addr) := Bmap(fs, i, off / BSIZE);
      ReadTurn(fs, i, room, n, tot, off);
      BmapFiles(fs, i, off / BSIZE);
      BmapHole(fs, i, off / BSIZE);
      if AllMapped(fs, i, off, n - tot) { RestMapped(fs, i, off, n - tot, m); }
      if addr != 0 && tot + m <= room {
        hide ReadOk;
        SameFileAt(fs, t, i);
        ReadLoopEffect(t, i, room, n, tot + m, off + m);
        ReadMore(fs, i, room, n, tot, off, ReadLoop(t, i, room, n, tot + m, off + m));
      }
    } else {
      ReadNone(fs, i, room, n, off);
      SameFilesSelf(fs);
    }
  }

  /** A chunk and what the rest of the loop delivers. */
  lemma ReadMore(fs: Fs, i: nat, room: nat, n: nat, tot: nat, off: nat, rest: Got)
    requires Sound(fs) && i < |fs.inodes| && tot < n && off + (n - tot) <= fs.inodes[i].size
    requires Owners(fs, {}) && fs.inodes[i].size <= MAXBYTES && Bmap(fs, i, off / BSIZE).1 != 0
    requires var m, t := ChunkLen(n, tot, off), Bmap(fs, i, off / BSIZE).0;
             && tot + m <= room && i < |t.inodes| && t.inodes[i].size == fs.inodes[i].size && ReadOk(t, i, room, n, tot + m, off + m, rest)
    ensures var m := ChunkLen(n, tot, off);
            var (t, addr) := Bmap(fs, i, off / BSIZE);
            addr < |t.blocks| && ReadOk(fs, i, room, n, tot, off, Got(rest.fs, t.blocks[addr][off % BSIZE..off % BSIZE + m] + rest.bytes, rest.ret))
  {
    hide Sound, Bmap, Contents, SameFiles, Mapped, DiskFull, Owners, AllMapped;
    SizedOf(fs, {});
    var m := ChunkLen(n, tot, off);
    var (t, addr) := Bmap(fs, i, off / BSIZE);
    BmapFiles(fs, i, off / BSIZE);
    BmapHole(fs, i, off / BSIZE);
    BmapThere(fs, i, off / BSIZE);
    SameFileAt(fs, t, i);
    ChunkRead(t, i, off, m, addr);
    SameFilesTrans(fs, t, rest.fs);
    var c := Contents(fs, i);
    assert c[off..off + m] + c[off + m..off + m + |rest.bytes|] == c[off..off + m + |rest.bytes|];
    if AllMapped(fs, i, off, n - tot) { RestMapped(fs, i, off, n - tot, m); }
  }

  lemma RestMapped(fs: Fs, i: nat, off: nat, len: nat, m: nat)
    requires AllMapped(fs, i, off, len) && 0 < m <= len
    ensures Mapped(fs, i, off / BSIZE) && AllMapped(fs, i, off + m, len - m)
  {
  }

  lemma SoundParts(fs: Fs)
    requires Sound(fs)
    ensures Owners(fs, {}) && forall j: nat :: j < |fs.inodes| ==> fs.inodes[j].size <= MAXBYTES
  {
  }

  lemma SameFilesSelf(fs: Fs)
    requires Sound(fs)
    ensures SameFiles(fs, fs)
  {
    forall j: nat | j < |fs.inodes| ensures SameFile(fs, fs, j) { SameSelf(fs, j); }
  }

  /** No address is found only for a hole on a full disk, and something changes only for a hole. */
  lemma BmapHole(fs: Fs, i: nat, bn: nat)
    requires Owners(fs, {}) && i < |fs.inodes| && bn < MAXFILE
    ensures var (t, addr) := Bmap(fs, i, bn);
            && (addr == 0 ==> DiskFull(t) && !Mapped(fs, i, bn)) && (Mapped(fs, i, bn) ==> t == fs)
  {
    hide Owners, Grown, Bmap, Filled;
    SizedOf(fs, {});
    BmapEffect(fs, i, bn);
    if Mapped(fs, i, bn) { BmapFound(fs, i, bn); }
  }

  lemma BmapThere(fs: Fs, i: nat, bn: nat)
    requires Owners(fs, {}) && i < |fs.inodes| && bn < MAXFILE && Bmap(fs, i, bn).1 != 0
    ensures var (t, addr) := Bmap(fs, i, bn); IsSlot(t, Slot(i, DataSlot(bn))) && At(t, Slot(i, DataSlot(bn))) == addr < |t.blocks|
  {
    hide Bmap;
    BmapEffect(fs, i, bn);
    var (t, addr) := Bmap(fs, i, bn);
    assert InRange(t, At(t, Slot(i, DataSlot(bn))));
  }

  lemma ReadNone(fs: Fs, i: nat, room: nat, n: nat, off: nat)
    requires Owners(fs, {}) && i < |fs.inodes| && off <= MAXBYTES
    ensures ReadLoop(fs, i, room, n, n, off) == Got(fs, [], n)
  {
  }

  /**
   A read delivers exactly the slice of the contents clipped to the size, or
   returns -1 if the caller's memory cannot take it. It changes no file, also
   where it fills a hole; it is short only at a hole for which the disk has no
   block, and without holes it changes nothing at all.
   */
  lemma ReadEffect(fs: Fs, i: nat, room: nat, off: nat, n: nat)
    requires Sound(fs) && i < |fs.inodes| && off < TWO32 && n < TWO32
    ensures fs.inodes[i].size <= MAXBYTES
    ensures var g, c := Readi(fs, i, room, off, n), Contents(fs, i);
            var len := if off > |c| || off + n >= TWO32 then 0 else if off + n > |c| then |c| - off else n;
            && Sound(g.fs) && SameFiles(fs, g.fs)
            && |g.bytes| <= len && (len > 0 ==> g.bytes == c[off..off + |g.bytes|])
            && (g.ret == -1 || g.ret == |g.bytes|)
            && (g.ret == -1 ==> room < len)
            && (g.ret == len ==> len <= room)
            && (g.ret != -1 && g.ret < len ==> DiskFull(g.fs) && !Mapped(fs, i, (off + g.ret) / BSIZE))
            && (AllMapped(fs, i, off, len) ==> g.fs == fs && g.ret == if len <= room then len else -1)
  {
    hide Sound, ReadLoop, Contents, Mapped, SameFiles, DiskFull;
    SoundParts(fs);
    SameFilesSelf(fs);
    if off <= fs.inodes[i].size && off + n < TWO32 {
      ReadLoopEffect(fs, i, room, if off + n > fs.inodes[i].size then fs.inodes[i].size - off else n, 0, off);
    }
  }

  /** What a write stored is read back. */
  lemma WriteThenRead(fs: Fs, i: nat, src: seq<Byte>, off: nat, n: nat, room: nat)
    requires Sound(fs) && i < |fs.inodes| && off < TWO32 && n < TWO32
    requires Writei(fs, i, src, off, n).1 > 0 && room >= n
    ensures var (t, r) := Writei(fs, i, src, off, n);
            && r <= |src| && r <= n && Sound(t) && i < |t.inodes| && t.inodes[i].size <= MAXBYTES
            && Readi(t, i, room, off, r).ret == r && Readi(t, i, room, off, r).bytes == src[..r] && Readi(t, i, room, off, r).fs == t
  {
    hide Sound, Contents, FsOk, Mapped, SameFiles, AllMapped;
    SoundParts(fs);
    WriteEffect(fs, i, src, off, n);
    var (t, r) := Writei(fs, i, src, off, n);
    ReadEffect(t, i, room, off, r);
    var c := Contents(fs, i);
    assert Spliced(c, off, src[..r])[off..off + r] == src[..r];
  }
}
