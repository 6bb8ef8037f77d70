/**
 The file system of kernel/fs.c as plain files: every run of its operations,
 on bitmap, inodes and blocks, is a run on a table of files that are just byte
 sequences with a type and a link count.
 */
module FsHistory {
  import opened Common
  import opened FsBlocks
  import opened FsFiles
  import opened FsInodes
  import opened FsRuns

  datatype File = File(kind: int, nlink: int, bytes: seq<Byte>)

  ghost function FileOf(fs: Fs, i: nat): File
    requires i < |fs.inodes| && fs.inodes[i].size <= MAXBYTES
  {
    File(fs.inodes[i].kind, fs.inodes[i].nlink, Contents(fs, i))
  }

  ghost function FilesOf(fs: Fs): (f: seq<File>)
    requires Sizes(fs)
    ensures |f| == |fs.inodes|
  {
    seq(|fs.inodes|, i requires 0 <= i < |fs.inodes| => FileOf(fs, i))
  }

  /** The first file from k on whose type is 0, |f| for none. */
  function FirstFree(f: seq<File>, k: nat): (r: nat)
    ensures k < |f| ==> k <= r <= |f|
    decreases |f| - k
  {
    if k >= |f| || f[k].kind == 0 then k else FirstFree(f, k + 1)
  }

  const NOFILE := File(0, 0, [])

  /** The same operation on plain files; r is what writei returned. */
  function PlainDo(f: seq<File>, op: Op, r: int): (t: seq<File>)
    ensures |t| == |f|
  {
    match op
    case Write(i, src, off, n) =>
      if i < |f| && f[i].kind != 0 && 0 <= r <= |src| && off <= |f[i].bytes|
      then f[i := f[i].(bytes := Spliced(f[i].bytes, off, src[..r]))] else f
    case Read(_, _, _, _) => f
    case Truncate(i) => if i < |f| then f[i := f[i].(bytes := [])] else f
    case Put(i) => if i < |f| && f[i].nlink == 0 then f[i := NOFILE] else f
    case Alloc(kind) => if kind != 0 && FirstFree(f, 1) < |f| then f[FirstFree(f, 1) := File(kind, 0, [])] else f
    case SetLinks(i, nlink) => if i < |f| then f[i := f[i].(nlink := nlink)] else f
    case ReclaimAll => seq(|f|, i requires 0 <= i < |f| => if i > 0 && f[i].kind != 0 && f[i].nlink == 0 then NOFILE else f[i])
  }

  /** What writei returns; -1 if it is not called. */
  ghost function Returned(fs: Fs, op: Op): int
    requires Valid(fs)
  {
    if op.Write? && Fits(fs, op.i, op.off, op.n) then Writei(fs, op.i, op.src, op.off, op.n).1 else -1
  }

  // ---------------------------------------------------------------------
  // One operation

  lemma FileAt(fs: Fs, i: nat)
    requires Sizes(fs) && i < |fs.inodes|
    ensures FilesOf(fs)[i] == FileOf(fs, i) && |FilesOf(fs)[i].bytes| == fs.inodes[i].size
  {
  }

  /** The same inode and the same blocks make the same file; an inode of size 0 makes an empty one. */
  lemma SameBytes(fs: Fs, t: Fs, i: nat)
    requires i < |fs.inodes| && i < |t.inodes| && t.blocks == fs.blocks && fs.inodes[i].size <= MAXBYTES
    requires t.inodes[i].addrs == fs.inodes[i].addrs && t.inodes[i].size == fs.inodes[i].size
    ensures Contents(t, i) == Contents(fs, i)
  {
    forall k: nat | k < fs.inodes[i].size ensures ByteOf(t, i, k) == ByteOf(fs, i, k) {}
  }

  lemma WriteAttrs(fs: Fs, i: nat, src: seq<Byte>, off: nat, n: nat)
    requires Owners(fs, {}) && i < |fs.inodes| && off < TWO32 && n < TWO32
    ensures var t := Writei(fs, i, src, off, n).0;
            |t.inodes| == |fs.inodes| && t.inodes[i].kind == fs.inodes[i].kind && t.inodes[i].nlink == fs.inodes[i].nlink
  {
    hide Owners, WriteLoop, ByteOf, Mapped, Stored;
    if !(off > fs.inodes[i].size || (off + n) % TWO32 < off || off + n > MAXBYTES) { WriteLoopEffect(fs, i, src, n, 0, off); }
  }

  lemma WriteStep(fs: Fs, i: nat, src: seq<Byte>, off: nat, n: nat)
    requires Sound(fs) && Fits(fs, i, off, n)
    ensures var (t, r) := Writei(fs, i, src, off, n);
            Sizes(t) && FilesOf(t) == PlainDo(FilesOf(fs), Write(i, src, off, n), r)
  {
    hide Owners, Writei, Contents, Mapped, AllMapped, DiskFull, NoHoles, Spliced;
    WriteEffect(fs, i, src, off, n);
    WriteAttrs(fs, i, src, off, n);
    var (t, r) := Writei(fs, i, src, off, n);
    var f, g := FilesOf(fs), PlainDo(FilesOf(fs), Write(i, src, off, n), r);
    forall j: nat | j < |f| ensures FilesOf(t)[j] == g[j] { if j != i { assert SameFile(fs, t, j); } }
  }

  lemma ReadStep(fs: Fs, i: nat, room: nat, off: nat, n: nat)
    requires Sound(fs) && i < |fs.inodes| && off < TWO32 && n < TWO32
    ensures fs.inodes[i].size <= MAXBYTES
    ensures var t := Readi(fs, i, room, off, n).fs; Sizes(t) && FilesOf(t) == FilesOf(fs)
  {
    hide Owners, Readi, Contents, Mapped, AllMapped, DiskFull, NoHoles;
    ReadEffect(fs, i, room, off, n);
    var t := Readi(fs, i, room, off, n).fs;
    forall j: nat | j < |fs.inodes| ensures FilesOf(t)[j] == FilesOf(fs)[j] { assert SameFile(fs, t, j); }
  }

  /** Blocks stay, and every inode stays or becomes the given one of size 0. */
  lemma InodeStep(fs: Fs, t: Fs, i: nat)
    requires Sizes(fs) && i < |fs.inodes| == |t.inodes| && t.blocks == fs.blocks && t.inodes[i].size == 0
    requires forall j :: 0 <= j < |fs.inodes| && j != i ==> t.inodes[j] == fs.inodes[j]
    ensures Sizes(t) && FilesOf(t) == FilesOf(fs)[i := File(t.inodes[i].kind, t.inodes[i].nlink, [])]
  {
    hide Contents;
    assert Sizes(t);
    assert Contents(t, i) == [];
    forall j: nat | j < |fs.inodes| && j != i ensures FilesOf(t)[j] == FilesOf(fs)[j] { SameBytes(fs, t, j); }
  }

  lemma LinksStep(fs: Fs, i: nat, nlink: int)
    requires Sizes(fs) && i < |fs.inodes|
    ensures var t := fs.(inodes := fs.inodes[i := fs.inodes[i].(nlink := nlink)]);
            Sizes(t) && FilesOf(t) == FilesOf(fs)[i := FilesOf(fs)[i].(nlink := nlink)]
  {
    hide Contents;
    var t := fs.(inodes := fs.inodes[i := fs.inodes[i].(nlink := nlink)]);
    forall j: nat | j < |fs.inodes| ensures Contents(t, j) == Contents(fs, j) { SameBytes(fs, t, j); }
  }

  lemma {:induction false} ReclaimBlocks(fs: Fs, k: nat)
    requires Owners(fs, {}) && Sized(fs)
    ensures Reclaim(fs, k).blocks == fs.blocks
    decreases |fs.inodes| - k
  {
    hide Owners;
    if k < |fs.inodes| {
      FreeInodeOwners(fs, k);
      SizedOf(FreeInode(fs, k), {});
      ReclaimBlocks(if Orphan(fs.inodes[k]) then FreeInode(fs, k) else fs, k + 1);
    }
  }

  lemma ReclaimStep(fs: Fs)
    requires Owners(fs, {}) && Sizes(fs) && Sized(fs)
    ensures var t := Reclaim(fs, 1); Sizes(t) && FilesOf(t) == PlainDo(FilesOf(fs), ReclaimAll, -1)
  {
    hide Owners, Contents, Reclaim;
    var t := Reclaim(fs, 1);
    ReclaimEffect(fs, 1);
    ReclaimBlocks(fs, 1);
    var f, g := FilesOf(fs), PlainDo(FilesOf(fs), ReclaimAll, -1);
    forall j: nat | j < |f| ensures t.inodes[j].size <= MAXBYTES && FileOf(t, j) == g[j] {
      if j >= 1 && Orphan(fs.inodes[j]) { assert Cleared(t.inodes[j]); } else { SameBytes(fs, t, j); }
    }
  }

  lemma FirstFreeIs(fs: Fs, k: nat)
    requires Sizes(fs)
    ensures var r := FirstFree(FilesOf(fs), k);
            && (k <= |fs.inodes| ==> k <= r <= |fs.inodes|)
            && (k <= r < |fs.inodes| ==> fs.inodes[r].kind == 0)
            && (forall i :: k <= i < r && i < |fs.inodes| ==> fs.inodes[i].kind != 0)
    decreases |fs.inodes| - k
  {
    hide Contents;
    if k < |fs.inodes| && fs.inodes[k].kind != 0 { FirstFreeIs(fs, k + 1); }
  }

  lemma AllocStep(fs: Fs, kind: int)
    requires Sizes(fs) && kind != 0
    ensures var t := Ialloc(fs, 1, kind).0; Sizes(t) && FilesOf(t) == PlainDo(FilesOf(fs), Alloc(kind), -1)
  {
    hide Contents, Ialloc, FirstFree;
    var (t, r) := Ialloc(fs, 1, kind);
    IallocFirst(fs, 1, kind);
    FirstFreeIs(fs, 1);
    if r != 0 { InodeStep(fs, t, r); }
  }

  lemma TruncateStep(fs: Fs, i: nat)
    requires Owners(fs, {}) && Sizes(fs) && i < |fs.inodes|
    ensures |fs.inodes[i].addrs| == NDIRECT + 1
    ensures Sizes(Truncated(fs, i)) && FilesOf(Truncated(fs, i)) == PlainDo(FilesOf(fs), Truncate(i), -1)
    ensures fs.inodes[i].nlink == 0 ==> Sizes(FreeInode(fs, i)) && FilesOf(FreeInode(fs, i)) == PlainDo(FilesOf(fs), Put(i), -1)
  {
    hide Owners, Contents, Truncated, FreeInode, Mine;
    SizedOf(fs, {});
    TruncatedOwners(fs, i);
    FreeInodeOwners(fs, i);
    InodeStep(fs, Truncated(fs, i), i);
    InodeStep(fs, FreeInode(fs, i), i);
  }

  lemma ValidParts(fs: Fs)
    requires Valid(fs)
    ensures Owners(fs, {}) && Sizes(fs) && Sized(fs) && Sound(fs)
  {
  }

  /** Every operation is the same operation on plain files. */
  lemma DoIsPlain(fs: Fs, op: Op)
    requires Valid(fs)
    ensures Sizes(fs) && Sizes(Do(fs, op)) && FilesOf(Do(fs, op)) == PlainDo(FilesOf(fs), op, Returned(fs, op))
  {
    hide Valid, Sound, Owners, Sizes, FilesOf, Contents, Writei, Readi, Truncated, FreeInode, Ialloc, Reclaim;
    ValidParts(fs);
    match op
    case Write(i, src, off, n) => if Fits(fs, i, off, n) { WriteStep(fs, i, src, off, n); }
    case Read(i, room, off, n) => if Fits(fs, i, off, n) { ReadStep(fs, i, room, off, n); }
    case Truncate(i) => if i < |fs.inodes| { TruncateStep(fs, i); }
    case Put(i) => if i < |fs.inodes| { TruncateStep(fs, i); FileAt(fs, i); }
    case Alloc(kind) => if kind != 0 { AllocStep(fs, kind); }
    case SetLinks(i, nlink) => if i < |fs.inodes| { LinksStep(fs, i, nlink); }
    case ReclaimAll => ReclaimStep(fs);
  }

  // ---------------------------------------------------------------------
  // Runs

  /** What the writes of a run returned. */
  ghost function Results(fs: Fs, ops: seq<Op>): (rs: seq<int>)
    requires Valid(fs)
    ensures |rs| == |ops|
    decreases |ops|
  {
    if |ops| == 0 then [] else Results(fs, ops[..|ops| - 1]) + [Returned(Run(fs, ops[..|ops| - 1]), ops[|ops| - 1])]
  }

  function PlainRun(f: seq<File>, ops: seq<Op>, rs: seq<int>): seq<File>
    requires |rs| == |ops|
    decreases |ops|
  {
    if |ops| == 0 then f else PlainDo(PlainRun(f, ops[..|ops| - 1], rs[..|ops| - 1]), ops[|ops| - 1], rs[|ops| - 1])
  }

  /**
   Every run on bitmap, inodes and blocks is a run on plain files, in which a
   write that returned r replaced r bytes. Reads change nothing, whatever holes
   they fill.
   */
  lemma {:induction false} RunIsPlain(fs: Fs, ops: seq<Op>)
    requires Valid(fs)
    ensures Sizes(fs) && Sizes(Run(fs, ops)) && FilesOf(Run(fs, ops)) == PlainRun(FilesOf(fs), ops, Results(fs, ops))
    decreases |ops|
  {
    hide Valid, Do, FilesOf, PlainDo, Returned, Sizes;
    ValidParts(fs);
    if |ops| > 0 {
      var most, last := ops[..|ops| - 1], ops[|ops| - 1];
      RunIsPlain(fs, most);
      DoIsPlain(Run(fs, most), last);
      var rs := Results(fs, ops);
      assert rs[..|ops| - 1] == Results(fs, most);
    }
  }

  /** A read after any run of an image without holes returns the bytes of the plain file. */
  lemma ReadsPlain(fs: Fs, ops: seq<Op>, i: nat, off: nat, n: nat, room: nat)
    requires FsOk(fs) && FreeEmpty(fs) && i < |fs.inodes| && off < TWO32 && n < TWO32 && n <= room
    ensures Valid(fs) && Sizes(fs) && i < |Run(fs, ops).inodes| && Run(fs, ops).inodes[i].size <= MAXBYTES && Owners(Run(fs, ops), {})
    ensures Run(fs, ops).inodes[i].kind != 0 ==> Run(fs, ops + [Read(i, room, off, n)]) == Readi(Run(fs, ops), i, room, off, n).fs
    ensures var c := PlainRun(FilesOf(fs), ops, Results(fs, ops));
            && i < |c|
            && var b := c[i].bytes;
            && Readi(Run(fs, ops), i, room, off, n).bytes
               == if off > |b| || off + n >= TWO32 then [] else if off + n > |b| then b[off..] else b[off..off + n]
  {
    hide Valid, PlainDo, Returned, Owners, Readi, Run, NoHoles, Results, PlainRun, Contents;
    FsOkValid(fs);
    RunMore(fs, ops, Read(i, room, off, n));
    RunIsPlain(fs, ops);
    NoHolesEver(fs, ops);
    var t := Run(fs, ops);
    RunLength(fs, ops);
    FileAt(t, i);
    ReadEffect(t, i, room, off, n);
    var len := if off > t.inodes[i].size || off + n >= TWO32 then 0 else if off + n > t.inodes[i].size then t.inodes[i].size - off else n;
    if off + len <= t.inodes[i].size { HoleFree(t, i, off, len); }
  }

  lemma {:induction false} RunLength(fs: Fs, ops: seq<Op>)
    requires Valid(fs)
    ensures |Run(fs, ops).inodes| == |fs.inodes|
    decreases |ops|
  {
    hide Valid, Do;
    if |ops| > 0 {
      RunLength(fs, ops[..|ops| - 1]);
      DoIsPlain(Run(fs, ops[..|ops| - 1]), ops[|ops| - 1]);
    }
  }
}
