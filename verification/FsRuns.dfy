/**
 Runs of file system operations (kernel/fs.c): ownership of blocks, absence
 of holes and file contents over any sequence of them.
 */
module FsRuns {
  import opened Common
  import opened FsBlocks
  import opened FsFiles
  import opened FsInodes

  datatype Op =
    | Write(i: nat, src: seq<Byte>, off: nat, n: nat)
    | Read(i: nat, room: nat, off: nat, n: nat)
    | Truncate(i: nat)
    | Put(i: nat)              // iput of the last reference to inode i
    | Alloc(kind: int)
    | SetLinks(i: nat, nlink: int)
    | ReclaimAll

  ghost predicate Valid(fs: Fs) { Sound(fs) && FreeEmpty(fs) }

  /** What an operation on an inode in use demands of its caller. */
  predicate Fits(fs: Fs, i: nat, off: nat, n: nat) { i < |fs.inodes| && fs.inodes[i].kind != 0 && off < TWO32 && n < TWO32 }

  ghost function Do(fs: Fs, op: Op): Fs
    requires Valid(fs)
  {
    match op
    case Write(i, src, off, n) => if Fits(fs, i, off, n) then Writei(fs, i, src, off, n).0 else fs
    case Read(i, room, off, n) => if Fits(fs, i, off, n) then Readi(fs, i, room, off, n).fs else fs
    case Truncate(i) => if i < |fs.inodes| then Truncated(fs, i) else fs
    case Put(i) => if i < |fs.inodes| && fs.inodes[i].nlink == 0 then FreeInode(fs, i) else fs
    case Alloc(kind) => if kind != 0 then Ialloc(fs, 1, kind).0 else fs
    case SetLinks(i, nlink) => if i < |fs.inodes| then fs.(inodes := fs.inodes[i := fs.inodes[i].(nlink := nlink)]) else fs
    case ReclaimAll => Reclaim(fs, 1)
  }

  /** Inodes other than i keep their slots and sizes, and i is emptied. */
  lemma EmptiedOk(fs: Fs, t: Fs, i: nat)
    requires Sound(fs) && Owners(t, {}) && i < |fs.inodes| == |t.inodes| && t.blocks == fs.blocks && t.inodes[i].size == 0
    requires forall j :: 0 <= j < |fs.inodes| && j != i ==> t.inodes[j] == fs.inodes[j]
    ensures Sound(t) && (FsOk(fs) ==> FsOk(t))
  {
    hide Owners;
    if FsOk(fs) {
      forall j: nat | j < |t.inodes| ensures NoHoles(t, j) {
        if j != i {
          assert NoHoles(fs, j);
          forall bn: nat | bn * BSIZE < t.inodes[j].size ensures Mapped(t, j, bn) { assert Mapped(fs, j, bn); }
        }
      }
    }
  }

  lemma TruncateOk(fs: Fs, i: nat)
    requires Valid(fs) && i < |fs.inodes|
    ensures Valid(Truncated(fs, i)) && (FsOk(fs) ==> FsOk(Truncated(fs, i)))
    ensures Valid(FreeInode(fs, i)) && (FsOk(fs) ==> FsOk(FreeInode(fs, i)))
  {
    hide Owners, NoHoles, Mine;
    SizedOf(fs, {});
    TruncatedOwners(fs, i);
    FreeInodeOwners(fs, i);
    EmptiedOk(fs, Truncated(fs, i), i);
    EmptiedOk(fs, FreeInode(fs, i), i);
  }

  lemma {:induction false} ReclaimOk(fs: Fs, k: nat)
    requires Valid(fs)
    ensures Valid(Reclaim(fs, k)) && (FsOk(fs) ==> FsOk(Reclaim(fs, k)))
    decreases |fs.inodes| - k
  {
    hide FsOk, Sound, FreeEmpty, FreeInode;
    assert Sized(fs) by { ValidSized(fs); }
    if k < |fs.inodes| {
      TruncateOk(fs, k);
      var u := if Orphan(fs.inodes[k]) then FreeInode(fs, k) else fs;
      FreeInodeLen(fs, k);
      ReclaimOk(u, k + 1);
    }
  }

  lemma ValidSized(fs: Fs)
    requires Valid(fs)
    ensures Sized(fs) && Owners(fs, {})
  {
  }

  lemma FreeInodeLen(fs: Fs, k: nat)
    requires k < |fs.inodes| && |fs.inodes[k].addrs| == NDIRECT + 1
    ensures |FreeInode(fs, k).inodes| == |fs.inodes|
  {
  }

  lemma {:induction false} AllocOk(fs: Fs, k: nat, kind: int)
    requires Valid(fs) && kind != 0
    ensures Valid(Ialloc(fs, k, kind).0) && (FsOk(fs) ==> FsOk(Ialloc(fs, k, kind).0))
    decreases |fs.inodes| - k
  {
    hide Owners, NoHoles;
    if k < |fs.inodes| {
      if fs.inodes[k].kind == 0 {
        IallocOwners(fs, k, kind);
        EmptiedOk(fs, Ialloc(fs, k, kind).0, k);
      } else {
        AllocOk(fs, k + 1, kind);
      }
    }
  }

  lemma LinksOk(fs: Fs, i: nat, nlink: int)
    requires Valid(fs) && i < |fs.inodes|
    ensures var t := fs.(inodes := fs.inodes[i := fs.inodes[i].(nlink := nlink)]); Valid(t) && (FsOk(fs) ==> FsOk(t))
  {
    hide Owners;
    var t := fs.(inodes := fs.inodes[i := fs.inodes[i].(nlink := nlink)]);
    SameSlotsOwners(fs, t);
    if FsOk(fs) {
      forall j: nat | j < |t.inodes| ensures NoHoles(t, j) {
        assert NoHoles(fs, j);
        forall bn: nat | bn * BSIZE < t.inodes[j].size ensures Mapped(t, j, bn) { assert Mapped(fs, j, bn); }
      }
    }
  }

  lemma WriteOk(fs: Fs, i: nat, src: seq<Byte>, off: nat, n: nat)
    requires Valid(fs) && Fits(fs, i, off, n)
    ensures var t := Writei(fs, i, src, off, n).0; Valid(t) && (FsOk(fs) ==> FsOk(t))
  {
    hide Owners, NoHoles, SameFile, Writei, Sizes, FreeEmpty, AllMapped;
    WriteEffect(fs, i, src, off, n);
    WriteFree(fs, i, src, off, n);
  }

  /** A write gives no block to a free inode. */
  lemma WriteFree(fs: Fs, i: nat, src: seq<Byte>, off: nat, n: nat)
    requires Valid(fs) && Fits(fs, i, off, n)
    ensures FreeEmpty(Writei(fs, i, src, off, n).0)
  {
    hide Owners, Wrote, WriteLoop;
    if !(off > fs.inodes[i].size || (off + n) % TWO32 < off || off + n > MAXBYTES) {
      WriteLoopOthers(fs, i, src, n, 0, off);
      WriteLoopEffect(fs, i, src, n, 0, off);
    }
  }

  /** The same inodes are in use, and only inode i may have other blocks. */
  ghost predicate OthersSame(fs: Fs, t: Fs, i: nat) {
    && |t.inodes| == |fs.inodes| && i < |fs.inodes| && t.inodes[i].kind == fs.inodes[i].kind
    && (forall j :: 0 <= j < |fs.inodes| && j != i ==> t.inodes[j] == fs.inodes[j])
  }

  lemma {:induction false} WriteLoopOthers(fs: Fs, i: nat, src: seq<Byte>, n: nat, tot: nat, off: nat)
    requires Owners(fs, {}) && i < |fs.inodes| && tot <= n && off + (n - tot) <= MAXBYTES
    ensures OthersSame(fs, WriteLoop(fs, i, src, n, tot, off).fs, i)
    decreases n - tot
  {
    hide Owners, Grown, Filled, Bmap;
    SizedOf(fs, {});
    if tot < n {
      BmapEffect(fs, i, off / BSIZE);
      BmapOthers(fs, i, off / BSIZE);
      var (t, addr) := Bmap(fs, i, off / BSIZE);
      var m := ChunkLen(n, tot, off);
      if addr != 0 && tot + m <= |src| {
        ChunkReady(fs, i, off, src[tot..tot + m]);
        WriteLoopOthers(StoreChunk(t, addr, off % BSIZE, src[tot..tot + m]), i, src, n, tot + m, off + m);
      }
    }
  }

  lemma {:induction false} ReadLoopOthers(fs: Fs, i: nat, room: nat, n: nat, tot: nat, off: nat)
    requires Owners(fs, {}) && i < |fs.inodes| && tot <= n && off + (n - tot) <= MAXBYTES
    ensures OthersSame(fs, ReadLoop(fs, i, room, n, tot, off).fs, i)
    decreases n - tot
  {
    hide Owners, Grown, Filled, Bmap, ReadLoop;
    SizedOf(fs, {});
    if tot < n {
      ReadTurn(fs, i, room, n, tot, off);
      BmapOthers(fs, i, off / BSIZE);
      var m := ChunkLen(n, tot, off);
      ReadLoopOthers(Bmap(fs, i, off / BSIZE).0, i, room, n, tot + m, off + m);
    } else {
      ReadNone(fs, i, room, n, off);
    }
  }

  lemma ReadOk(fs: Fs, i: nat, room: nat, off: nat, n: nat)
    requires Valid(fs) && Fits(fs, i, off, n)
    ensures fs.inodes[i].size <= MAXBYTES
    ensures var t := Readi(fs, i, room, off, n).fs; Valid(t) && (FsOk(fs) ==> t == fs)
  {
    hide Owners, SameFiles, ReadLoop, Contents, Mapped, DiskFull, NoHoles;
    ReadEffect(fs, i, room, off, n);
    if off <= fs.inodes[i].size && off + n < TWO32 {
      var len := if off + n > fs.inodes[i].size then fs.inodes[i].size - off else n;
      ReadLoopOthers(fs, i, room, len, 0, off);
      if FsOk(fs) { HoleFree(fs, i, off, len); }
    }
  }

  lemma HoleFree(fs: Fs, i: nat, off: nat, len: nat)
    requires i < |fs.inodes| && NoHoles(fs, i) && off + len <= fs.inodes[i].size
    ensures AllMapped(fs, i, off, len)
  {
    forall k: nat | off <= k < off + len ensures Mapped(fs, i, k / BSIZE) { assert (k / BSIZE) * BSIZE < fs.inodes[i].size; }
  }

  lemma BmapOthers(fs: Fs, i: nat, bn: nat)
    requires Sized(fs) && i < |fs.inodes| && bn < MAXFILE
    ensures OthersSame(fs, Bmap(fs, i, bn).0, i)
  {
  }

  lemma DoOk(fs: Fs, op: Op)
    requires Valid(fs)
    ensures Valid(Do(fs, op)) && (FsOk(fs) ==> FsOk(Do(fs, op)))
  {
    hide FsOk, Sound, FreeEmpty, Writei, Readi;
    ValidSized(fs);
    match op
    case Write(i, src, off, n) => if Fits(fs, i, off, n) { WriteOk(fs, i, src, off, n); }
    case Read(i, room, off, n) => if Fits(fs, i, off, n) { ReadOk(fs, i, room, off, n); }
    case Truncate(i) => if i < |fs.inodes| { TruncateOk(fs, i); }
    case Put(i) => if i < |fs.inodes| { TruncateOk(fs, i); }
    case Alloc(kind) => if kind != 0 { AllocOk(fs, 1, kind); }
    case SetLinks(i, nlink) => if i < |fs.inodes| { LinksOk(fs, i, nlink); }
    case ReclaimAll => ReclaimOk(fs, 1);
  }

  ghost function Run(fs: Fs, ops: seq<Op>): (t: Fs)
    requires Valid(fs)
    ensures Valid(t)
    decreases |ops|
  {
    if |ops| == 0 then fs
    else
      var t := Run(fs, ops[..|ops| - 1]);
      DoOk(t, ops[|ops| - 1]);
      Do(t, ops[|ops| - 1])
  }

  /**
   From any sound image, after any operations: a bit is set exactly
   for metadata and owned blocks, every owned block has one owner, so freeing
   the block in any slot frees a block that is in use.
   */
  lemma OwnershipExact(fs: Fs, ops: seq<Op>, b: nat, x: Slot, y: Slot)
    requires Valid(fs)
    ensures var t := Run(fs, ops);
            && (b < |t.bitmap| ==> (t.bitmap[b] <==> b < t.start || Owned(t, b)))
            && (OwnedBy(t, x, b) && OwnedBy(t, y, b) ==> x == y)
            && (OwnedBy(t, x, b) ==> b < |t.bitmap| && t.bitmap[b])
  {
    var t := Run(fs, ops);
    if OwnedBy(t, x, b) {
      assert InRange(t, At(t, x));
      assert Owned(t, b);
    }
  }

  /** Operations make no holes: from an image without any, every file has all its blocks, and no read allocates. */
  lemma {:induction false} NoHolesEver(fs: Fs, ops: seq<Op>)
    requires FsOk(fs) && FreeEmpty(fs)
    ensures FsOk(Run(fs, ops))
    decreases |ops|
  {
    hide FsOk, FreeEmpty, Do;
    assert Valid(fs) by { FsOkValid(fs); }
    if |ops| > 0 {
      NoHolesEver(fs, ops[..|ops| - 1]);
      DoOk(Run(fs, ops[..|ops| - 1]), ops[|ops| - 1]);
    }
  }

  lemma FsOkValid(fs: Fs)
    requires FsOk(fs) && FreeEmpty(fs)
    ensures Valid(fs)
  {
  }

  /** After ireclaim every inode that was allocated without links is cleared, and every other inode is as before; so no allocated inode has link count 0. */
  lemma NoOrphans(fs: Fs, ops: seq<Op>, i: nat)
    requires Valid(fs)
    ensures var s, t := Run(fs, ops), Run(fs, ops + [ReclaimAll]);
            && |t.inodes| == |s.inodes|
            && (1 <= i < |t.inodes| && Orphan(s.inodes[i]) ==> Cleared(t.inodes[i]))
            && (i < |t.inodes| && (i == 0 || !Orphan(s.inodes[i])) ==> t.inodes[i] == s.inodes[i])
            && (1 <= i < |t.inodes| ==> !Orphan(t.inodes[i]))
  {
    hide Sound, FreeEmpty;
    assert (ops + [ReclaimAll])[..|ops|] == ops;
    ValidSized(Run(fs, ops));
    ReclaimEffect(Run(fs, ops), 1);
  }

  /** iput of the last reference: an inode without links is cleared and the others stay as they were; an inode with links, like everything else, is left alone. */
  lemma PutEffect(fs: Fs, ops: seq<Op>, i: nat, j: nat)
    requires Valid(fs)
    ensures var s, t := Run(fs, ops), Run(fs, ops + [Put(i)]);
            && |t.inodes| == |s.inodes| && t.blocks == s.blocks
            && (i < |s.inodes| && s.inodes[i].nlink == 0 ==> Cleared(t.inodes[i]) && (j < |s.inodes| && j != i ==> t.inodes[j] == s.inodes[j]))
            && (i < |s.inodes| && s.inodes[i].nlink != 0 ==> t == s)
  {
    hide Sound, FreeEmpty, FreeInode;
    assert (ops + [Put(i)])[..|ops|] == ops;
    var s := Run(fs, ops);
    ValidSized(s);
    if i < |s.inodes| && s.inodes[i].nlink == 0 { FreeInodeOwners(s, i); }
  }

  lemma RunMore(fs: Fs, ops: seq<Op>, op: Op)
    requires Valid(fs)
    ensures Run(fs, ops + [op]) == Do(Run(fs, ops), op)
  {
    hide Valid, Do;
    assert (ops + [op])[..|ops|] == ops;
  }

  lemma AllocIs(fs: Fs, kind: int)
    requires Valid(fs) && kind != 0
    ensures Do(fs, Alloc(kind)) == Ialloc(fs, 1, kind).0
  {
  }

  /** An inode that has been put without links is handed out again by ialloc, unless an earlier one is free. */
  lemma PutThenAlloc(fs: Fs, ops: seq<Op>, i: nat, kind: int)
    requires Valid(fs) && 1 <= i < |Run(fs, ops).inodes| && Run(fs, ops).inodes[i].nlink == 0 && kind != 0
    ensures var u := Run(fs, ops + [Put(i)]);
            var (t, r) := Ialloc(u, 1, kind);
            && 1 <= r <= i && t == Run(fs, ops + [Put(i)] + [Alloc(kind)]) && r < |t.inodes| && t.inodes[r].kind == kind
            && ((forall k :: 1 <= k < i ==> Run(fs, ops).inodes[k].kind != 0) ==> r == i)
  {
    hide Run, Do, Valid, Ialloc;
    var s, more := Run(fs, ops), ops + [Put(i)];
    var u := Run(fs, more);
    PutEffect(fs, ops, i, i);
    forall k | 1 <= k < i ensures u.inodes[k] == s.inodes[k] { PutEffect(fs, ops, i, k); }
    RunMore(fs, more, Alloc(kind));
    AllocIs(u, kind);
    IallocFirst(u, 1, kind);
  }
}
