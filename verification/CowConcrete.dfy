/**
 What the page tables of PageTables and the counts of PageAllocator mean for
 CowMemory: the abstraction from page-table words, trees, counts and page
 contents to the state on which copy-on-write fork is proved correct, and the
 abstract step that each concrete change stands for.
 */
module CowConcrete {
  import opened Common
  import opened CowMemory
  import opened PageAllocator
  import opened PageTables
  import opened Sv39
  import CowInvariant

  /** What a process keeps of its memory: page table, trapframe page and size. */
  datatype Task = Task(root: nat, trapframe: nat, sz: nat)

  datatype Raw = Raw(tables: Tables, trees: map<nat, Dir>, ref: seq<int>, end: nat, pages: map<nat, Page>, tasks: map<nat, Task>)

  const WRITE: nat := 4
  const USER: nat := 16
  const COW: nat := 256

  predicate Bit(e: nat, k: nat)
    requires k > 0
  {
    (e / k) % 2 == 1
  }

  function PteOf(e: nat): Pte { Pte(Ppn(e), Bit(e, WRITE), Bit(e, COW), Bit(e, USER)) }

  // ---------------------------------------------------------------------
  // Flags

  /** PTE_R | PTE_U, and PTE_W if w. */
  function UserPerm(w: bool): nat { if w then 22 else 18 }

  /** uvmcopy: a writable page loses PTE_W and gets PTE_COW. */
  function SharedFlags(f: nat): nat
    requires f < 1024
  {
    if Bit(f, WRITE) then (if Bit(f, COW) then f - WRITE else f - WRITE + COW) else f
  }

  /** vmfault on a page with one reference: PTE_W is set, PTE_COW cleared. */
  function OwnFlags(f: nat): nat
    requires f < 1024
  {
    var g := if Bit(f, COW) then f - COW else f;
    if Bit(g, WRITE) then g else g + WRITE
  }

  /** A leaf that hardware lets the user read. */
  predicate Readable(e: nat) { V(e) && Bit(e, 2) }

  lemma EvenPart(x: int, y: int)
    ensures (2 * x + y) % 2 == y % 2
  {
  }

  lemma BitOfMake(ppn: nat, f: nat, k: nat, m: nat)
    requires f < 1024 && (k, m) in {(2, 256), (4, 128), (16, 32), (256, 2)}
    ensures Bit(Make(ppn, f), k) == Bit(f, k)
  {
    var e := Make(ppn, f);
    assert e / k == 2 * (m * ppn) + f / k by {
      if k == 2 { assert e == 2 * (512 * ppn) + f; }
      else if k == 4 { assert e == 4 * (256 * ppn) + f; }
      else if k == 16 { assert e == 16 * (64 * ppn) + f; }
      else { assert e == 256 * (4 * ppn) + f; }
    }
    EvenPart(m * ppn, f / k);
  }

  lemma BitsOfMake(ppn: nat, f: nat)
    requires f < 1024
    ensures Ppn(Make(ppn, f)) == ppn && Flags(Make(ppn, f)) == f
    ensures Bit(Make(ppn, f), 2) == Bit(f, 2) && Bit(Make(ppn, f), WRITE) == Bit(f, WRITE)
    ensures Bit(Make(ppn, f), USER) == Bit(f, USER) && Bit(Make(ppn, f), COW) == Bit(f, COW)
    ensures V(Make(ppn, f)) == V(f) && NoRwx(Make(ppn, f)) == NoRwx(f)
  {
    hide Bit, Make, Ppn, Flags, NoRwx;
    MakeParts(ppn, f);
    BitOfMake(ppn, f, 2, 256);
    BitOfMake(ppn, f, 4, 128);
    BitOfMake(ppn, f, 16, 32);
    BitOfMake(ppn, f, 256, 2);
  }

  lemma MakeOf(e: nat)
    ensures Flags(e) < 1024 && e == Make(Ppn(e), Flags(e))
  {
  }

  lemma UserBits(ppn: nat, w: bool)
    ensures !NoRwx(UserPerm(w)) && UserPerm(w) < 1024 && WithV(UserPerm(w)) == UserPerm(w) + 1
    ensures Readable(Make(ppn, WithV(UserPerm(w)))) && PteOf(Make(ppn, WithV(UserPerm(w)))) == Pte(ppn, w, false, true)
  {
    hide Bit, Make, Ppn, Flags, V;
    BitsOfMake(ppn, UserPerm(w) + 1);
    SomeBits();
  }

  /** PTE_V, PTE_R and PTE_U, without and with PTE_W. */
  lemma SomeBits()
    ensures V(19) && Bit(19, 2) && !Bit(19, WRITE) && Bit(19, USER) && !Bit(19, COW) && !NoRwx(19)
    ensures V(23) && Bit(23, 2) && Bit(23, WRITE) && Bit(23, USER) && !Bit(23, COW) && !NoRwx(23)
  {
  }

  /** Adding or taking away k flips bit k, if it was clear or set, and no lower bit; j is the weight of a lower bit. */
  lemma LowBit(f: int, k: int, j: int)
    requires (k, j) in {(4, 1), (4, 2), (256, 1), (256, 2), (256, 4), (256, 16)}
    ensures ((f + k) / j) % 2 == (f / j) % 2
  {
    assert (f + k) / j == f / j + k / j;
  }

  /** And no higher bit: f is q times k and a rest. */
  lemma HighBit(q: int)
    requires q % 2 == 0
    ensures (q + 1) / 4 == q / 4 && (q + 1) / 64 == q / 64 && (q + 1) % 2 == 1
  {
    var h := q / 2;
    assert q == 2 * h;
    assert q / 4 == h / 2 && (q + 1) / 4 == h / 2;
    assert q / 64 == h / 32 && (q + 1) / 64 == h / 32;
  }

  lemma SetWrite(f: nat)
    requires f < 1024 && !Bit(f, WRITE)
    ensures f + 4 < 1024 && Bit(f + 4, 4) && V(f + 4) == V(f) && Bit(f + 4, 2) == Bit(f, 2)
    ensures Bit(f + 4, 16) == Bit(f, 16) && Bit(f + 4, 256) == Bit(f, 256)
  {
    var q := f / 4;
    assert (f + 4) / 4 == q + 1 && f / 16 == q / 4 && (f + 4) / 16 == (q + 1) / 4 && f / 256 == q / 64 && (f + 4) / 256 == (q + 1) / 64;
    LowBit(f, 4, 1);
    LowBit(f, 4, 2);
    HighBit(q);
  }

  lemma SetCow(f: nat)
    requires f < 1024 && !Bit(f, COW)
    ensures f + 256 < 1024 && Bit(f + 256, 256) && V(f + 256) == V(f)
    ensures Bit(f + 256, 2) == Bit(f, 2) && Bit(f + 256, 4) == Bit(f, 4) && Bit(f + 256, 16) == Bit(f, 16)
  {
    assert (f + 256) / 256 == f / 256 + 1;
    LowBit(f, 256, 1);
    LowBit(f, 256, 2);
    LowBit(f, 256, 4);
    LowBit(f, 256, 16);
  }

  lemma ClearedWrite(f: nat)
    requires f < 1024 && Bit(f, WRITE)
    ensures f >= 4 && !Bit(f - 4, 4) && V(f - 4) == V(f) && Bit(f - 4, 2) == Bit(f, 2) && Bit(f - 4, 16) == Bit(f, 16) && Bit(f - 4, 256) == Bit(f, 256)
  {
    assert (f - 4) / 4 == f / 4 - 1;
    SetWrite(f - 4);
  }

  lemma NoRwxBits(f: nat)
    ensures Bit(f, 2) || Bit(f, 4) ==> !NoRwx(f)
  {
    assert (f / 2) / 2 == f / 4;
  }

  /** What uvmcopy writes to both page tables. */
  lemma SharedBits(e: nat)
    requires Readable(e)
    ensures var f, p := SharedFlags(Flags(e)), PteOf(e);
            && f < 1024 && !NoRwx(f) && WithV(f) == f && Readable(Make(Ppn(e), f)) && V(Make(Ppn(e), f)) && !NoRwx(Make(Ppn(e), f)) && Ppn(Make(Ppn(e), f)) == Ppn(e)
            && PteOf(Make(Ppn(e), f)) == if p.w then p.(w := false, cow := true) else p
    ensures !PteOf(e).w ==> Make(Ppn(e), SharedFlags(Flags(e))) == e
  {
    hide Bit, Make, Ppn, Flags, NoRwx;
    var f := Flags(e);
    MakeOf(e);
    BitsOfMake(Ppn(e), f);
    if Bit(f, WRITE) {
      ClearedWrite(f);
      if !Bit(f, COW) { SetCow(f - 4); }
    }
    BitsOfMake(Ppn(e), SharedFlags(f));
    NoRwxBits(SharedFlags(f));
  }

  lemma ClearedCow(f: nat)
    requires f < 1024 && Bit(f, COW)
    ensures f >= 256 && !Bit(f - 256, 256) && V(f - 256) == V(f)
    ensures Bit(f - 256, 2) == Bit(f, 2) && Bit(f - 256, 4) == Bit(f, 4) && Bit(f - 256, 16) == Bit(f, 16)
  {
    assert (f - 256) / 256 == f / 256 - 1;
    SetCow(f - 256);
  }

  /** What vmfault writes for a page with one reference. */
  lemma OwnBits(e: nat)
    requires Readable(e) && PteOf(e).cow && !PteOf(e).w
    ensures var f := OwnFlags(Flags(e));
            f < 1024 && Readable(Make(Ppn(e), f)) && V(Make(Ppn(e), f)) && !NoRwx(Make(Ppn(e), f)) && PteOf(Make(Ppn(e), f)) == PteOf(e).(w := true, cow := false)
  {
    hide Bit, Make, Ppn, Flags, NoRwx;
    var f := Flags(e);
    MakeOf(e);
    BitsOfMake(Ppn(e), f);
    ClearedCow(f);
    SetWrite(f - 256);
    BitsOfMake(Ppn(e), OwnFlags(f));
    NoRwxBits(OwnFlags(f));
  }

  // ---------------------------------------------------------------------
  // The abstraction

  /** The leaf entry of user page v, or 0. */
  function Leaf(t: Tables, root: nat, v: nat): nat { LeafAt(t, root, v * PGSIZE) }

  ghost function PtOf(t: Tables, root: nat): map<nat, Pte> {
    map v: nat | v < TRAPVPN && Leaf(t, root, v) != 0 :: PteOf(Leaf(t, root, v))
  }

  /** The pages of a process's tree, and its trapframe. */
  ghost function TablesOf(trees: map<nat, Dir>, k: Task): set<nat> {
    (if k.root in trees then trees[k.root].Values else {}) + {k.trapframe}
  }

  ghost predicate IsTable(r: Raw, a: nat) { exists p :: p in r.tasks && a in TablesOf(r.trees, r.tasks[p]) }

  ghost function ProcOf(r: Raw, k: Task): Proc { Proc(k.sz, PtOf(r.tables, k.root), TablesOf(r.trees, k)) }

  predicate InMemory(a: nat, end: nat) { end <= a < PHYSPAGE }

  ghost function Managed(end: nat): set<nat> { set a: nat | a < PHYSPAGE && InMemory(a, end) }

  ghost function RefOf(r: Raw, a: nat): nat { if a < |r.ref| && r.ref[a] >= 0 then r.ref[a] else 0 }

  /** Free pages hold junk, and what table pages hold is not seen as bytes. */
  ghost function Shown(r: Raw, a: nat): Page {
    if RefOf(r, a) == 0 then Fill(1) else if IsTable(r, a) then Fill(0) else if a in r.pages then r.pages[a] else Fill(0)
  }

  ghost function Abs(r: Raw): State {
    State(map a | a in Managed(r.end) :: Shown(r, a),
          map a | a in Managed(r.end) :: RefOf(r, a),
          Avail(r.ref, r.end),
          map p | p in r.tasks :: ProcOf(r, r.tasks[p]),
          false)
  }

  ghost predicate TaskOk(r: Raw, k: Task) {
    && k.root in r.trees && k.trapframe !in r.tables && InMemory(k.trapframe, r.end)
    && RefOf(r, k.trapframe) == 1 && k.sz <= TRAPVPN * PGSIZE
  }

  ghost predicate Fine(r: Raw) {
    && |r.ref| == PHYSPAGE && 0 < r.end && (forall a :: 0 <= a < PHYSPAGE ==> r.ref[a] >= 0)
    && Forest(r.tables, Avail(r.ref, r.end), r.trees) && Backed(r.ref, r.end, r.tables)
    && (forall p :: p in r.tasks ==> TaskOk(r, r.tasks[p]))
    && (forall p, q :: p in r.tasks && q in r.tasks && p != q ==> r.tasks[p].root != r.tasks[q].root && r.tasks[p].trapframe != r.tasks[q].trapframe)
    && Owned(r)
  }

  /** Every page-table page is in the tree of a process. */
  ghost predicate Owned(r: Raw) { forall a :: a in r.tables ==> IsTable(r, a) }

  /** Table pages are in use, once. */
  lemma TableUsed(r: Raw, a: nat)
    requires Fine(r) && IsTable(r, a)
    ensures RefOf(r, a) == 1 && InMemory(a, r.end)
  {
    hide Forest, Tree, PtOf;
    var p :| p in r.tasks && a in TablesOf(r.trees, r.tasks[p]);
    var k := r.tasks[p];
    assert TaskOk(r, k);
    if a != k.trapframe { ForestKeys(r.tables, Avail(r.ref, r.end), r.trees, k.root); }
  }

  lemma ForestFree(t: Tables, free: set<nat>, free': set<nat>, trees: map<nat, Dir>)
    requires Forest(t, free, trees) && free' !! t.Keys && 0 !in free'
    ensures Forest(t, free', trees)
  {
    hide Tree;
  }

  lemma FineForest(r: Raw)
    requires Fine(r)
    ensures Forest(r.tables, Avail(r.ref, r.end), r.trees) && Backed(r.ref, r.end, r.tables) && Avail(r.ref, r.end) !! r.tables.Keys
  {
    hide Tree;
  }

  lemma FineSizes(r: Raw)
    requires Fine(r)
    ensures |r.ref| == PHYSPAGE && 0 < r.end && (forall a :: 0 <= a < PHYSPAGE ==> r.ref[a] >= 0)
    ensures forall a :: a in r.tables ==> a < PHYSPAGE && r.ref[a] == 1
  {
    hide Forest;
  }

  /** Only counts and contents differ, and neither on tables. */
  ghost predicate SameTrees(r: Raw, r1: Raw) {
    && r1 == r.(ref := r1.ref, pages := r1.pages) && |r1.ref| == |r.ref|
    && (forall a :: 0 <= a < |r1.ref| ==> r1.ref[a] >= 0)
    && (forall a: nat :: IsTable(r, a) ==> RefOf(r1, a) == RefOf(r, a))
  }

  lemma StaysFine(r: Raw, r1: Raw)
    requires Fine(r) && SameTrees(r, r1)
    ensures Fine(r1) && (forall a: nat :: IsTable(r1, a) <==> IsTable(r, a)) && Abs(r1).procs == Abs(r).procs
  {
    hide PtOf, Forest, IsTable, TablesOf, Backed, Avail, Shown;
    SameTables(r, r1);
    StaysBacked(r, r1);
    forall p | p in r1.tasks ensures TaskOk(r1, r1.tasks[p]) {
      assert TaskOk(r, r.tasks[p]);
      TrapframeIs(r, p);
    }
  }

  lemma TrapframeIs(r: Raw, p: nat)
    requires p in r.tasks
    ensures IsTable(r, r.tasks[p].trapframe)
  {
    assert r.tasks[p].trapframe in TablesOf(r.trees, r.tasks[p]);
  }

  lemma StaysBacked(r: Raw, r1: Raw)
    requires Fine(r) && SameTrees(r, r1)
    ensures Backed(r1.ref, r1.end, r1.tables) && Forest(r1.tables, Avail(r1.ref, r1.end), r1.trees)
  {
    hide Forest, IsTable;
    FineForest(r);
    forall a | a in r.tables ensures r1.ref[a] == 1 { assert IsTable(r, a) && RefOf(r1, a) == RefOf(r, a); }
    ForestFree(r.tables, Avail(r.ref, r.end), Avail(r1.ref, r1.end), r.trees);
  }

  /** Nothing but page a differs. */
  ghost predicate OneDiffers(r: Raw, r1: Raw, a: nat) {
    && InMemory(a, r.end) && r1.end == r.end
    && forall b: nat :: b != a ==> RefOf(r1, b) == RefOf(r, b) && SameBytes(r, r1, b)
  }

  predicate SameBytes(r: Raw, r1: Raw, b: nat) { (b in r1.pages <==> b in r.pages) && (b in r.pages ==> r1.pages[b] == r.pages[b]) }

  lemma AbsPages(r: Raw, r1: Raw, a: nat)
    requires OneDiffers(r, r1, a) && forall b: nat :: IsTable(r1, b) <==> IsTable(r, b)
    ensures Abs(r1).pages == Abs(r).pages[a := Shown(r1, a)]
  {
    hide IsTable, ProcOf, Avail, RefOf, Fill;
    forall b: nat | b != a ensures Shown(r1, b) == Shown(r, b) { assert SameBytes(r, r1, b); }
  }

  lemma AbsRef(r: Raw, r1: Raw, a: nat)
    requires OneDiffers(r, r1, a)
    ensures Abs(r1).ref == Abs(r).ref[a := RefOf(r1, a)]
  {
    hide Shown, ProcOf, Avail, RefOf, SameBytes;
  }

  lemma AbsOne(r: Raw, r1: Raw, a: nat)
    requires Fine(r) && SameTrees(r, r1) && OneDiffers(r, r1, a)
    ensures Fine(r1) && Abs(r1) == Abs(r).(pages := Abs(r).pages[a := Shown(r1, a)], ref := Abs(r).ref[a := RefOf(r1, a)], free := Avail(r1.ref, r1.end))
  {
    hide Fine, SameTrees, IsTable, ProcOf, Avail, OneDiffers, RefOf, Shown;
    StaysFine(r, r1);
    AbsPages(r, r1, a);
    AbsRef(r, r1, a);
  }

  // ---------------------------------------------------------------------
  // Counts and contents

  function Take(r: Raw, a: nat, page: Page): Raw
    requires a < |r.ref|
  {
    r.(ref := r.ref[a := 1], pages := r.pages[a := page])
  }

  /** kalloc, and what is then stored in the page. */
  lemma AbsTake(r: Raw, a: nat, page: Page)
    requires Fine(r) && a in Avail(r.ref, r.end)
    ensures a < |r.ref| && Fine(Take(r, a, page))
    ensures Kalloc(Abs(r), Some(a)).1 == Some(a) && Abs(Take(r, a, page)) == SetBytes(Kalloc(Abs(r), Some(a)).0, a, page)
  {
    hide Fine, IsTable, ProcOf, Fill;
    var r1 := Take(r, a, page);
    FineSizes(r);
    assert !IsTable(r, a) by { if IsTable(r, a) { TableUsed(r, a); } }
    AbsOne(r, r1, a);
    StaysFine(r, r1);
    TookOne(r.ref, r.end, a);
    Overwritten(Abs(r).pages, a, Fill(5), page);
  }

  lemma Overwritten(m: map<nat, Page>, a: nat, x: Page, y: Page)
    ensures m[a := x][a := y] == m[a := y]
  {
  }

  function Counted(r: Raw, a: nat, n: nat): Raw
    requires a < |r.ref|
  {
    r.(ref := r.ref[a := n])
  }

  /** A page in use that is no table. */
  ghost predicate UserPage(r: Raw, a: nat) { InMemory(a, r.end) && RefOf(r, a) > 0 && !IsTable(r, a) }

  /** incref, decref, and kfree of a page with further references. */
  lemma AbsCount(r: Raw, a: nat, n: nat)
    requires Fine(r) && UserPage(r, a) && n > 0
    ensures a < |r.ref| && Fine(Counted(r, a, n)) && Abs(Counted(r, a, n)) == Abs(r).(ref := Abs(r).ref[a := n])
  {
    hide Fine, IsTable, ProcOf, Fill;
    var r1 := Counted(r, a, n);
    FineSizes(r);
    AbsOne(r, r1, a);
    StaysFine(r, r1);
    AvailKept(r.ref, r.end, a, n);
    Unwritten(Abs(r).pages, a);
  }

  lemma Unwritten(m: map<nat, Page>, a: nat)
    requires a in m
    ensures m[a := m[a]] == m
  {
  }

  /** kfree of a page's last reference. */
  lemma AbsFree(r: Raw, a: nat)
    requires Fine(r) && UserPage(r, a)
    ensures a < |r.ref| && Fine(Counted(r, a, 0))
    ensures Abs(Counted(r, a, 0)) == Abs(r).(ref := Abs(r).ref[a := 0], free := Abs(r).free + {a}, pages := Abs(r).pages[a := Fill(1)])
  {
    hide Fine, IsTable, ProcOf, Fill;
    var r1 := Counted(r, a, 0);
    FineSizes(r);
    AbsOne(r, r1, a);
    AvailFreed(r.ref, r.end, a);
  }

  lemma AvailFreed(ref: seq<int>, end: nat, a: nat)
    requires a < |ref| && InMemory(a, end)
    ensures Avail(ref[a := 0], end) == Avail(ref, end) + {a}
  {
  }

  lemma AvailKept(ref: seq<int>, end: nat, a: nat, n: int)
    requires a < |ref| && ref[a] != 0 && n != 0
    ensures Avail(ref[a := n], end) == Avail(ref, end)
  {
  }

  /** A store. */
  lemma AbsStore(r: Raw, a: nat, page: Page)
    requires Fine(r) && UserPage(r, a)
    ensures Fine(r.(pages := r.pages[a := page])) && Abs(r.(pages := r.pages[a := page])) == SetBytes(Abs(r), a, page)
  {
    hide Fine, IsTable, ProcOf, Fill;
    var r1 := r.(pages := r.pages[a := page]);
    FineSizes(r);
    AbsOne(r, r1, a);
    StaysFine(r, r1);
    assert Abs(r).ref[a := RefOf(r, a)] == Abs(r).ref;
  }

  // ---------------------------------------------------------------------
  // Page tables

  /** A page table with one leaf changed. */
  lemma PtSet(t: Tables, t': Tables, root: nat, v: nat, e: nat)
    requires LeafSet(t, t', root, v, e) && v < TRAPVPN
    ensures PtOf(t', root) == if e == 0 then PtOf(t, root) - {v} else PtOf(t, root)[v := PteOf(e)]
  {
    hide LeafAt, PteOf;
    forall u: nat | u < TRAPVPN ensures Leaf(t', root, u) == if u == v then e else Leaf(t, root, u) {
      assert u * PGSIZE < MAXVA && u * PGSIZE / PGSIZE == u;
    }
  }

  lemma PtSame(t: Tables, t': Tables, root: nat)
    requires SelfSame(t, t', root)
    ensures PtOf(t', root) == PtOf(t, root)
  {
    hide LeafAt, PteOf;
    forall u: nat | u < TRAPVPN ensures Leaf(t', root, u) == Leaf(t, root, u) {}
  }

  lemma PtOther(t: Tables, t': Tables, trees: map<nat, Dir>, root: nat, r: nat)
    requires OthersSame(t, t', trees, root) && r in trees && r != root
    ensures PtOf(t', r) == PtOf(t, r)
  {
    hide LeafAt, PteOf;
    forall u: nat | u < TRAPVPN ensures Leaf(t', r, u) == Leaf(t, r, u) {}
  }

  /** The tree of process p has grown by free pages, and its leaves may have changed; everything else is as it was. */
  ghost predicate TreeStep(r: Raw, r1: Raw, p: nat, added: set<nat>) {
    && r1 == r.(tables := r1.tables, trees := r1.trees, ref := r1.ref) && p in r.tasks
    && Forest(r1.tables, Avail(r1.ref, r1.end), r1.trees) && Backed(r1.ref, r1.end, r1.tables)
    && TreeGrown(r.trees, r1.trees, r.tasks[p].root, added) && TookPages(r.ref, r1.ref, r.end, added)
    && r1.tables.Keys == r.tables.Keys + added && OthersSame(r.tables, r1.tables, r.trees, r.tasks[p].root)
  }

  lemma StepTables(r: Raw, r1: Raw, p: nat, added: set<nat>, q: nat)
    requires Fine(r) && TreeStep(r, r1, p, added) && q in r.tasks
    ensures TablesOf(r1.trees, r1.tasks[q]) == TablesOf(r.trees, r.tasks[q]) + if q == p then added else {}
  {
    hide Forest, Backed, OthersSame, TookPages;
    assert TaskOk(r, r.tasks[q]);
    if q != p { assert r.tasks[q].root != r.tasks[p].root; }
  }

  lemma StepFine(r: Raw, r1: Raw, p: nat, added: set<nat>)
    requires Fine(r) && TreeStep(r, r1, p, added)
    ensures Fine(r1)
  {
    hide Forest, OthersSame, TablesOf, IsTable;
    StepIsTable(r, r1, p, added);
    forall q | q in r1.tasks ensures TaskOk(r1, r1.tasks[q]) { assert TaskOk(r, r.tasks[q]); }
  }

  lemma StepIsTable(r: Raw, r1: Raw, p: nat, added: set<nat>)
    requires Fine(r) && TreeStep(r, r1, p, added)
    ensures forall a: nat :: IsTable(r1, a) <==> IsTable(r, a) || a in added
  {
    hide Fine, TreeStep, TablesOf;
    StepHas(r, r1, p, added);
    forall q | q in r.tasks ensures TablesOf(r1.trees, r1.tasks[q]) == TablesOf(r.trees, r.tasks[q]) + if q == p then added else {} {
      StepTables(r, r1, p, added, q);
    }
    forall a: nat ensures IsTable(r1, a) <==> IsTable(r, a) || a in added {
      if IsTable(r, a) {
        var q :| q in r.tasks && a in TablesOf(r.trees, r.tasks[q]);
        assert a in TablesOf(r1.trees, r1.tasks[q]);
      }
      if a in added { assert a in TablesOf(r1.trees, r1.tasks[p]); }
    }
  }

  lemma StepProc(r: Raw, r1: Raw, p: nat, added: set<nat>, q: nat)
    requires Fine(r) && TreeStep(r, r1, p, added) && q in r.tasks
    ensures r1.tasks == r.tasks && p in r.tasks
    ensures ProcOf(r1, r1.tasks[q]) ==
            if q == p then Proc(r.tasks[p].sz, PtOf(r1.tables, r.tasks[p].root), TablesOf(r.trees, r.tasks[p]) + added) else ProcOf(r, r.tasks[q])
  {
    hide Forest, Backed, OthersSame, TablesOf, PtOf, TookPages, TreeGrown;
    StepTables(r, r1, p, added, q);
    assert TaskOk(r, r.tasks[q]);
    if q != p {
      assert r.tasks[q].root != r.tasks[p].root;
      PtOther(r.tables, r1.tables, r.trees, r.tasks[p].root, r.tasks[q].root);
    }
  }

  lemma StepProcs(r: Raw, r1: Raw, p: nat, added: set<nat>)
    requires Fine(r) && TreeStep(r, r1, p, added)
    ensures p in r.tasks
    ensures var pr := Abs(r).procs[p];
            Abs(r1).procs == Abs(r).procs[p := Proc(pr.sz, PtOf(r1.tables, r.tasks[p].root), pr.tables + added)]
  {
    hide Fine, TablesOf, PtOf, Shown, RefOf, Avail, TreeStep;
    StepHas(r, r1, p, added);
    forall q | q in r.tasks
      ensures ProcOf(r1, r1.tasks[q]) ==
              if q == p then Proc(r.tasks[p].sz, PtOf(r1.tables, r.tasks[p].root), TablesOf(r.trees, r.tasks[p]) + added) else ProcOf(r, r.tasks[q])
    {
      StepProc(r, r1, p, added, q);
    }
  }

  lemma StepHas(r: Raw, r1: Raw, p: nat, added: set<nat>)
    requires TreeStep(r, r1, p, added)
    ensures r1.tasks == r.tasks && p in r.tasks && r1.end == r.end && r1.pages == r.pages && TookPages(r.ref, r1.ref, r.end, added)
  {
  }

  lemma StepFree(ref: seq<int>, ref1: seq<int>, end: nat, added: set<nat>)
    requires TookPages(ref, ref1, end, added)
    ensures Avail(ref1, end) == Avail(ref, end) - added && added <= Avail(ref, end)
  {
  }

  lemma StepRef(r: Raw, r1: Raw, added: set<nat>)
    requires |r.ref| == PHYSPAGE && r1.end == r.end && TookPages(r.ref, r1.ref, r.end, added)
    ensures forall a: nat :: RefOf(r1, a) == if a in added then 1 else RefOf(r, a)
    ensures Abs(r1).ref == map a | a in Abs(r).ref :: if a in added then 1 else Abs(r).ref[a]
  {
    hide Shown, ProcOf;
  }

  lemma StepPages(r: Raw, r1: Raw, added: set<nat>)
    requires r1.end == r.end && r1.pages == r.pages
    requires forall a: nat :: IsTable(r1, a) <==> IsTable(r, a) || a in added
    requires forall a: nat :: RefOf(r1, a) == if a in added then 1 else RefOf(r, a)
    ensures Abs(r1).pages == map a | a in Abs(r).pages :: if a in added then Fill(0) else Abs(r).pages[a]
  {
    hide IsTable, RefOf, ProcOf, Fill, Avail;
    forall a: nat ensures Shown(r1, a) == if a in added then Fill(0) else Shown(r, a) {}
  }

  /** AddTables and SetPt, field by field. */
  lemma StepState(s: State, s1: State, p: nat, added: set<nat>, pt: map<nat, Pte>)
    requires p in s.procs && added <= s.free && s1.free == s.free - added && s1.panicked == s.panicked
    requires s1.ref == map a | a in s.ref :: if a in added then 1 else s.ref[a]
    requires s1.pages == map a | a in s.pages :: if a in added then Fill(0) else s.pages[a]
    requires s1.procs == s.procs[p := Proc(s.procs[p].sz, pt, s.procs[p].tables + added)]
    ensures s1 == SetPt(AddTables(s, p, added), p, pt)
  {
    hide Fill;
    assert added * s.free == added;
  }

  /** mappages, a change of a leaf, or both. */
  lemma AbsStep(r: Raw, r1: Raw, p: nat, added: set<nat>)
    requires Fine(r) && TreeStep(r, r1, p, added)
    ensures Fine(r1) && Abs(r1) == SetPt(AddTables(Abs(r), p, added), p, PtOf(r1.tables, r.tasks[p].root))
  {
    hide Fine, TreeStep, PtOf, Shown, RefOf, Avail, TablesOf, Fill, IsTable, AddTables, SetPt;
    StepFine(r, r1, p, added);
    StepIsTable(r, r1, p, added);
    StepProcs(r, r1, p, added);
    StepHas(r, r1, p, added);
    FineSizes(r);
    StepFree(r.ref, r1.ref, r.end, added);
    StepRef(r, r1, added);
    StepPages(r, r1, added);
    StepState(Abs(r), Abs(r1), p, added, PtOf(r1.tables, r.tasks[p].root));
  }

  // ---------------------------------------------------------------------
  // Processes

  function Resized(r: Raw, p: nat, sz: nat): Raw
    requires p in r.tasks
  {
    r.(tasks := r.tasks[p := r.tasks[p].(sz := sz)])
  }

  lemma SizeFine(r: Raw, p: nat, sz: nat)
    requires Fine(r) && p in r.tasks && sz <= TRAPVPN * PGSIZE
    ensures Fine(Resized(r, p, sz))
  {
    hide Forest, Backed, Avail, IsTable;
    var r1 := Resized(r, p, sz);
    SizeTables(r, p, sz);
    forall q | q in r1.tasks ensures TaskOk(r1, r1.tasks[q]) { assert TaskOk(r, r.tasks[q]); }
  }

  lemma SizeTables(r: Raw, p: nat, sz: nat)
    requires p in r.tasks
    ensures forall a: nat :: IsTable(Resized(r, p, sz), a) <==> IsTable(r, a)
  {
    var r1 := Resized(r, p, sz);
    forall q | q in r.tasks ensures TablesOf(r1.trees, r1.tasks[q]) == TablesOf(r.trees, r.tasks[q]) {}
    forall a: nat ensures IsTable(r1, a) <==> IsTable(r, a) {
      if IsTable(r, a) {
        var q :| q in r.tasks && a in TablesOf(r.trees, r.tasks[q]);
        assert a in TablesOf(r1.trees, r1.tasks[q]);
      }
    }
  }

  /** Another size. */
  lemma AbsSize(r: Raw, p: nat, sz: nat)
    requires Fine(r) && p in r.tasks && sz <= TRAPVPN * PGSIZE
    ensures Fine(Resized(r, p, sz)) && Abs(Resized(r, p, sz)) == SetSz(Abs(r), p, sz)
  {
    hide Fine, PtOf, Fill, Avail, IsTable, Shown, RefOf;
    SizeFine(r, p, sz);
    SizeTables(r, p, sz);
    SizePages(r, Resized(r, p, sz));
    assert Abs(Resized(r, p, sz)).procs == SetSz(Abs(r), p, sz).procs;
  }

  lemma SizePages(r: Raw, r1: Raw)
    requires r1 == r.(tasks := r1.tasks) && forall a: nat :: IsTable(r1, a) <==> IsTable(r, a)
    ensures Abs(r1).pages == Abs(r).pages && Abs(r1).ref == Abs(r).ref
  {
    hide IsTable, Fill, ProcOf;
    forall a: nat ensures Shown(r1, a) == Shown(r, a) && RefOf(r1, a) == RefOf(r, a) {}
  }

  lemma SameFine(r: Raw, r1: Raw)
    requires Fine(r) && r1 == r.(tables := r1.tables) && r1.tables.Keys == r.tables.Keys
    requires Forest(r1.tables, Avail(r1.ref, r1.end), r1.trees)
    ensures Fine(r1) && forall a: nat :: IsTable(r1, a) <==> IsTable(r, a)
  {
    hide Forest, TablesOf, IsTable, Avail;
    forall q | q in r1.tasks ensures TaskOk(r1, r1.tasks[q]) { assert TaskOk(r, r.tasks[q]); }
    SameTables(r, r1);
  }

  lemma SameTables(r: Raw, r1: Raw)
    requires r1.tasks == r.tasks && r1.trees == r.trees
    ensures forall a: nat :: IsTable(r1, a) <==> IsTable(r, a)
  {
    hide TablesOf;
    forall a: nat ensures IsTable(r1, a) <==> IsTable(r, a) {}
  }

  /** Table pages that read the same for every process. */
  lemma AbsSame(r: Raw, r1: Raw)
    requires Fine(r) && r1 == r.(tables := r1.tables) && r1.tables.Keys == r.tables.Keys
    requires Forest(r1.tables, Avail(r1.ref, r1.end), r1.trees)
    requires forall p :: p in r.tasks ==> PtOf(r1.tables, r.tasks[p].root) == PtOf(r.tables, r.tasks[p].root)
    ensures Fine(r1) && Abs(r1) == Abs(r)
  {
    hide Forest, PtOf, Fill, TablesOf, Fine, IsTable, Shown, RefOf, Avail;
    SameFine(r, r1);
    SamePages(r, r1);
    assert Abs(r1).procs == Abs(r).procs;
  }

  lemma SamePages(r: Raw, r1: Raw)
    requires r1 == r.(tables := r1.tables) && forall a: nat :: IsTable(r1, a) <==> IsTable(r, a)
    ensures Abs(r1).pages == Abs(r).pages && Abs(r1).ref == Abs(r).ref && Abs(r1).free == Abs(r).free
  {
    hide IsTable, Fill, ProcOf;
    forall a: nat ensures Shown(r1, a) == Shown(r, a) && RefOf(r1, a) == RefOf(r, a) {}
  }

  /** A process with an empty page table is added; its tree and trapframe are free pages taken for it. */
  ghost predicate SpawnStep(r: Raw, r1: Raw, c: nat, k: Task) {
    && c !in r.tasks && r1 == r.(tables := r1.tables, trees := r1.trees, ref := r1.ref, tasks := r.tasks[c := k]) && k.sz == 0
    && Forest(r1.tables, Avail(r1.ref, r1.end), r1.trees) && Backed(r1.ref, r1.end, r1.tables)
    && k.root !in r.trees && r1.trees == r.trees[k.root := Tree1(r1, k)]
    && TookPages(r.ref, r1.ref, r.end, TablesOf(r1.trees, k))
    && r1.tables.Keys == r.tables.Keys + Tree1(r1, k).Values && k.trapframe !in r1.tables
    && OthersSame(r.tables, r1.tables, r.trees, k.root) && PtOf(r1.tables, k.root) == map[]
  }

  ghost function Tree1(r1: Raw, k: Task): Dir { if k.root in r1.trees then r1.trees[k.root] else map[] }

  lemma SpawnTask(r: Raw, r1: Raw, c: nat, k: Task, q: nat)
    requires Fine(r) && SpawnStep(r, r1, c, k) && q in r.tasks
    ensures TaskOk(r1, r.tasks[q]) && r.tasks[q].root != k.root && r.tasks[q].trapframe != k.trapframe
    ensures ProcOf(r1, r.tasks[q]) == ProcOf(r, r.tasks[q]) && TablesOf(r1.trees, r.tasks[q]) == TablesOf(r.trees, r.tasks[q])
  {
    hide Forest, OthersSame, PtOf;
    assert TaskOk(r, r.tasks[q]);
    PtOther(r.tables, r1.tables, r.trees, k.root, r.tasks[q].root);
    assert k.trapframe in TablesOf(r1.trees, k);
    assert Tree1(r1, k).Values <= TablesOf(r1.trees, k);
  }

  lemma SpawnNew(r: Raw, r1: Raw, c: nat, k: Task)
    requires Fine(r) && SpawnStep(r, r1, c, k)
    ensures TaskOk(r1, k) && ProcOf(r1, k) == Proc(0, map[], TablesOf(r1.trees, k)) && Tree1(r1, k).Values <= TablesOf(r1.trees, k)
  {
    hide Forest, OthersSame, PtOf;
    assert k.trapframe in TablesOf(r1.trees, k);
  }

  lemma SpawnFine(r: Raw, r1: Raw, c: nat, k: Task)
    requires Fine(r) && SpawnStep(r, r1, c, k)
    ensures Fine(r1)
  {
    hide Forest, OthersSame, PtOf, Backed, TablesOf, TaskOk, ProcOf, Shown, Tree1, IsTable;
    SpawnNew(r, r1, c, k);
    SpawnTables(r, r1, c, k);
    forall q | q in r.tasks ensures TaskOk(r1, r.tasks[q]) && r.tasks[q].root != k.root && r.tasks[q].trapframe != k.trapframe {
      SpawnTask(r, r1, c, k, q);
    }
  }

  lemma SpawnTables(r: Raw, r1: Raw, c: nat, k: Task)
    requires Fine(r) && SpawnStep(r, r1, c, k)
    ensures forall a: nat :: IsTable(r1, a) <==> IsTable(r, a) || a in TablesOf(r1.trees, k)
  {
    hide Fine, Forest, OthersSame, PtOf, Backed, TablesOf, TookPages, Tree1;
    forall q | q in r.tasks ensures TablesOf(r1.trees, r.tasks[q]) == TablesOf(r.trees, r.tasks[q]) { SpawnTask(r, r1, c, k, q); }
    forall a: nat ensures IsTable(r1, a) <==> IsTable(r, a) || a in TablesOf(r1.trees, k) {
      if IsTable(r, a) {
        var q :| q in r.tasks && a in TablesOf(r.trees, r.tasks[q]);
        assert a in TablesOf(r1.trees, r1.tasks[q]);
      }
      if a in TablesOf(r1.trees, k) { assert a in TablesOf(r1.trees, r1.tasks[c]); }
    }
  }

  lemma SpawnProcs(r: Raw, r1: Raw, c: nat, k: Task)
    requires Fine(r) && SpawnStep(r, r1, c, k)
    ensures Abs(r1).procs == Abs(r).procs[c := Proc(0, map[], TablesOf(r1.trees, k))]
  {
    hide Fine, Forest, OthersSame, PtOf, Backed, TablesOf, TookPages, Tree1, ProcOf, Shown, RefOf, Avail;
    SpawnNew(r, r1, c, k);
    forall q | q in r.tasks ensures ProcOf(r1, r.tasks[q]) == ProcOf(r, r.tasks[q]) { SpawnTask(r, r1, c, k, q); }
  }

  lemma SpawnHas(r: Raw, r1: Raw, c: nat, k: Task)
    requires SpawnStep(r, r1, c, k)
    ensures c !in r.tasks && r1.end == r.end && r1.pages == r.pages && TookPages(r.ref, r1.ref, r.end, TablesOf(r1.trees, k))
  {
  }

  lemma SpawnState(s: State, s1: State, c: nat, t: set<nat>)
    requires c !in s.procs && t <= s.free && s1.free == s.free - t && s1.panicked == s.panicked
    requires s1.ref == map a | a in s.ref :: if a in t then 1 else s.ref[a]
    requires s1.pages == map a | a in s.pages :: if a in t then Fill(0) else s.pages[a]
    requires s1.procs == s.procs[c := Proc(0, map[], t)]
    ensures s1 == NewProc(s, c, t)
  {
    hide Fill;
    assert t * s.free == t && {} + t == t;
  }

  /** allocproc. */
  lemma AbsSpawn(r: Raw, r1: Raw, c: nat, k: Task)
    requires Fine(r) && SpawnStep(r, r1, c, k)
    ensures Fine(r1) && Abs(r1) == NewProc(Abs(r), c, TablesOf(r1.trees, k))
  {
    hide Fine, SpawnStep, TablesOf, IsTable, Shown, RefOf, Avail, Fill, ProcOf, NewProc;
    var t := TablesOf(r1.trees, k);
    SpawnHas(r, r1, c, k);
    SpawnFine(r, r1, c, k);
    SpawnTables(r, r1, c, k);
    SpawnProcs(r, r1, c, k);
    FineSizes(r);
    StepFree(r.ref, r1.ref, r.end, t);
    StepRef(r, r1, t);
    StepPages(r, r1, t);
    SpawnState(Abs(r), Abs(r1), c, t);
  }

  /** A process without leaves goes; its tree and trapframe are given back. */
  ghost predicate ReapStep(r: Raw, r1: Raw, p: nat) {
    && p in r.tasks && r1 == r.(tables := r1.tables, trees := r1.trees, ref := r1.ref, tasks := r.tasks - {p})
    && Forest(r1.tables, Avail(r1.ref, r1.end), r1.trees) && Backed(r1.ref, r1.end, r1.tables)
    && r1.trees == r.trees - {r.tasks[p].root} && GaveBack(r.ref, r1.ref, TablesOf(r.trees, r.tasks[p]))
    && r1.tables.Keys == r.tables.Keys - TablesOf(r.trees, r.tasks[p]) && OthersSame(r.tables, r1.tables, r.trees, r.tasks[p].root)
    && PtOf(r.tables, r.tasks[p].root) == map[]
  }

  lemma Apart(r: Raw, p: nat, q: nat)
    requires Fine(r) && p in r.tasks && q in r.tasks && p != q
    ensures TablesOf(r.trees, r.tasks[p]) !! TablesOf(r.trees, r.tasks[q])
  {
    hide Forest, Backed, Avail, Owned;
    var a, b := r.tasks[p], r.tasks[q];
    assert TaskOk(r, a) && TaskOk(r, b) && a.root != b.root;
    ForestApart(r.tables, Avail(r.ref, r.end), r.trees, a.root, b.root);
    PlusOneApart(r.trees[a.root].Values, a.trapframe, r.trees[b.root].Values, b.trapframe);
  }

  lemma ForestApart(t: Tables, free: set<nat>, trees: map<nat, Dir>, a: nat, b: nat)
    requires Forest(t, free, trees) && a in trees && b in trees && a != b
    ensures trees[a].Values !! trees[b].Values && trees[a].Values <= t.Keys && trees[b].Values <= t.Keys
  {
    hide Tree;
    TreePages(t, a, trees[a]);
    TreePages(t, b, trees[b]);
  }

  lemma PlusOneApart(a: set<nat>, x: nat, b: set<nat>, y: nat)
    requires a !! b && x !in b && y !in a && x != y
    ensures a + {x} !! b + {y}
  {
  }

  lemma ReapTask(r: Raw, r1: Raw, p: nat, q: nat)
    requires Fine(r) && ReapStep(r, r1, p) && q in r.tasks && q != p
    ensures TaskOk(r1, r.tasks[q]) && ProcOf(r1, r.tasks[q]) == ProcOf(r, r.tasks[q])
    ensures TablesOf(r1.trees, r.tasks[q]) == TablesOf(r.trees, r.tasks[q])
  {
    hide Forest, OthersSame, PtOf, Backed;
    assert TaskOk(r, r.tasks[q]) && r.tasks[q].root != r.tasks[p].root;
    PtOther(r.tables, r1.tables, r.trees, r.tasks[p].root, r.tasks[q].root);
    Apart(r, p, q);
    assert r.tasks[q].trapframe in TablesOf(r.trees, r.tasks[q]);
  }

  lemma ReapFine(r: Raw, r1: Raw, p: nat)
    requires Fine(r) && ReapStep(r, r1, p)
    ensures Fine(r1) && (forall a: nat :: IsTable(r1, a) <==> IsTable(r, a) && a !in TablesOf(r.trees, r.tasks[p]))
    ensures Abs(r1).procs == Abs(r).procs - {p}
  {
    hide Forest, OthersSame, PtOf, Backed, TablesOf, TaskOk, ProcOf, Shown;
    forall q | q in r.tasks && q != p
      ensures TaskOk(r1, r.tasks[q]) && ProcOf(r1, r.tasks[q]) == ProcOf(r, r.tasks[q])
      ensures TablesOf(r1.trees, r.tasks[q]) == TablesOf(r.trees, r.tasks[q]) && TablesOf(r.trees, r.tasks[p]) !! TablesOf(r.trees, r.tasks[q])
    {
      ReapTask(r, r1, p, q);
      Apart(r, p, q);
    }
    forall a: nat ensures IsTable(r1, a) <==> IsTable(r, a) && a !in TablesOf(r.trees, r.tasks[p]) {
      if IsTable(r, a) && a !in TablesOf(r.trees, r.tasks[p]) {
        var q :| q in r.tasks && a in TablesOf(r.trees, r.tasks[q]);
        assert q in r1.tasks && a in TablesOf(r1.trees, r1.tasks[q]);
      }
      if IsTable(r1, a) {
        var q :| q in r1.tasks && a in TablesOf(r1.trees, r1.tasks[q]);
        assert q in r.tasks && a in TablesOf(r.trees, r.tasks[q]);
      }
    }
  }

  lemma ReapHas(r: Raw, r1: Raw, p: nat)
    requires Fine(r) && ReapStep(r, r1, p)
    ensures p in r.tasks && r1.end == r.end && r1.pages == r.pages && GaveBack(r.ref, r1.ref, TablesOf(r.trees, r.tasks[p]))
    ensures Abs(r).procs[p].pt == map[] && Abs(r).procs[p].tables == TablesOf(r.trees, r.tasks[p])
    ensures forall a :: a in TablesOf(r.trees, r.tasks[p]) ==> RefOf(r, a) == 1 && InMemory(a, r.end)
  {
    hide Forest, OthersSame, PtOf, Backed, TablesOf, TaskOk, Shown, Fine;
    forall a | a in TablesOf(r.trees, r.tasks[p]) ensures RefOf(r, a) == 1 && InMemory(a, r.end) {
      assert IsTable(r, a);
      TableUsed(r, a);
    }
  }

  lemma ReapMemory(r: Raw, r1: Raw, t: set<nat>)
    requires |r.ref| == PHYSPAGE && r1.end == r.end && r1.pages == r.pages && GaveBack(r.ref, r1.ref, t)
    requires forall a: nat :: IsTable(r1, a) <==> IsTable(r, a) && a !in t
    requires forall a :: a in t ==> RefOf(r, a) == 1 && InMemory(a, r.end)
    ensures Abs(r1).free == Abs(r).free + t
    ensures forall a: nat :: RefOf(r1, a) == if a in t then 0 else RefOf(r, a)
    ensures forall a: nat :: Shown(r1, a) == if a in t then Fill(1) else Shown(r, a)
  {
    hide IsTable, ProcOf, Fill;
  }

  /** freeproc, once the user pages are unmapped. */
  lemma AbsReap(r: Raw, r1: Raw, p: nat)
    requires Fine(r) && ReapStep(r, r1, p)
    ensures Fine(r1) && p in Abs(r).procs
    ensures var s1 := FreeTables(Abs(r), p); Abs(r1) == s1.(procs := s1.procs - {p})
  {
    hide Fine, ReapStep, TablesOf, IsTable, Shown, RefOf, Avail, Fill, ProcOf, GaveBack;
    ReapHas(r, r1, p);
    ReapFine(r, r1, p);
    FineSizes(r);
    var t := TablesOf(r.trees, r.tasks[p]);
    ReapMemory(r, r1, t);
    var s := Abs(r);
    assert forall a :: a in t ==> Count(s, a) == 1;
    assert (set a | a in t && s.ref[a] == 1) == t;
    var s1 := FreeTables(s, p);
    assert s1.procs - {p} == s.procs - {p};
    assert Abs(r1).ref == s1.ref;
    assert Abs(r1).pages == s1.pages;
  }

  // ---------------------------------------------------------------------
  // Steps of one process

  /** A user leaf can be read; trapframe and trampoline are not for the user. */
  predicate LeafOk(v: nat, e: nat) { e == 0 || if v < TRAPVPN then Readable(e) else !Bit(e, USER) }

  ghost predicate Leaves(r: Raw) {
    forall p, v: nat :: p in r.tasks && v < MAXVPN ==> LeafOk(v, Leaf(r.tables, r.tasks[p].root, v))
  }

  /** One leaf of process p changes. */
  ghost predicate LeafStep(r: Raw, r1: Raw, p: nat, v: nat, e: nat) {
    && r1 == r.(tables := r1.tables) && p in r.tasks && v < TRAPVPN && (e == 0 || Readable(e))
    && Forest(r1.tables, Avail(r1.ref, r1.end), r1.trees) && Backed(r1.ref, r1.end, r1.tables)
    && r1.tables.Keys == r.tables.Keys && OthersSame(r.tables, r1.tables, r.trees, r.tasks[p].root)
    && LeafSet(r.tables, r1.tables, r.tasks[p].root, v, e)
  }

  lemma NothingAdded(s: State, p: nat)
    requires p in s.procs
    ensures AddTables(s, p, {}) == s
  {
    hide Fill;
    var s1 := AddTables(s, p, {});
    assert {} * s.free == {};
    assert s1.ref == s.ref;
    assert s1.pages == s.pages;
    assert s.procs[p].tables + {} == s.procs[p].tables;
    assert s1.procs == s.procs;
  }

  lemma LeafIsStep(r: Raw, r1: Raw, p: nat, v: nat, e: nat)
    requires Fine(r) && LeafStep(r, r1, p, v, e)
    ensures TreeStep(r, r1, p, {})
  {
    hide Forest, Backed, OthersSame, LeafSet;
    assert TaskOk(r, r.tasks[p]);
    GrownNone(r.trees, r.tasks[p].root);
    TookNone(r.ref, r.end);
  }

  /** A leaf is written or cleared. */
  lemma AbsLeaf(r: Raw, r1: Raw, p: nat, v: nat, e: nat)
    requires Fine(r) && LeafStep(r, r1, p, v, e)
    ensures Fine(r1) && p in Abs(r).procs
    ensures var pt := Abs(r).procs[p].pt; Abs(r1) == SetPt(Abs(r), p, if e == 0 then pt - {v} else pt[v := PteOf(e)])
  {
    hide Fine, TreeStep, PtOf, Abs, AddTables, PteOf, LeafSet, Forest, Backed;
    LeafIsStep(r, r1, p, v, e);
    AbsStep(r, r1, p, {});
    PtSet(r.tables, r1.tables, r.tasks[p].root, v, e);
    ProcIs(r, p);
    NothingAdded(Abs(r), p);
  }

  lemma ProcIs(r: Raw, p: nat)
    requires p in r.tasks
    ensures Abs(r).procs.Keys == r.tasks.Keys && Abs(r).procs[p] == Proc(r.tasks[p].sz, PtOf(r.tables, r.tasks[p].root), TablesOf(r.trees, r.tasks[p]))
  {
    hide PtOf, TablesOf, Shown, RefOf, Avail;
  }

  lemma LeafLeaves(r: Raw, r1: Raw, p: nat, v: nat, e: nat)
    requires Fine(r) && LeafStep(r, r1, p, v, e) && Leaves(r)
    ensures Leaves(r1)
  {
    hide Forest, Backed, LeafAt, Readable;
    forall q, u: nat | q in r1.tasks && u < MAXVPN ensures LeafOk(u, Leaf(r1.tables, r1.tasks[q].root, u)) {
      assert TaskOk(r, r.tasks[q]);
      assert u * PGSIZE < MAXVA && u * PGSIZE / PGSIZE == u;
      if q != p { assert r.tasks[q].root != r.tasks[p].root; }
      assert LeafOk(u, Leaf(r.tables, r.tasks[q].root, u));
    }
  }

  lemma LeafIn(r: Raw, p: nat, v: nat)
    requires p in r.tasks && v < TRAPVPN
    ensures p in Abs(r).procs && (v in Abs(r).procs[p].pt <==> Leaf(r.tables, r.tasks[p].root, v) != 0)
    ensures v in Abs(r).procs[p].pt ==> Abs(r).procs[p].pt[v] == PteOf(Leaf(r.tables, r.tasks[p].root, v))
  {
    hide Leaf, PteOf, Shown, RefOf, Avail, TablesOf;
  }

  /** The page of a user leaf is in use and no table. */
  lemma UserLeaf(r: Raw, p: nat, v: nat)
    requires Fine(r) && CowInvariant.Inv(Abs(r)) && p in r.tasks && v < TRAPVPN && Leaf(r.tables, r.tasks[p].root, v) != 0
    ensures var a := Ppn(Leaf(r.tables, r.tasks[p].root, v)); UserPage(r, a) && RefOf(r, a) == Count(Abs(r), a)
  {
    hide Fine, CowInvariant.Inv, Leaf, Ppn, Abs;
    var s, a := Abs(r), Ppn(Leaf(r.tables, r.tasks[p].root, v));
    LeafIn(r, p, v);
    CowInvariant.LeafHolds(s, p, v);
    CountIs(r, a);
    assert !IsTable(r, a) by {
      if IsTable(r, a) {
        var q :| q in r.tasks && a in TablesOf(r.trees, r.tasks[q]);
        ProcIs(r, q);
        CowInvariant.LeafNoTree(s, p, v, q);
      }
    }
  }

  lemma CountIs(r: Raw, a: nat)
    ensures a in Abs(r).ref <==> InMemory(a, r.end)
    ensures a in Abs(r).ref ==> Abs(r).ref[a] == RefOf(r, a)
  {
    hide Shown, RefOf, ProcOf, Avail;
  }

  /** kfree of a user page. */
  lemma AbsKfree(r: Raw, a: nat)
    requires Fine(r) && UserPage(r, a)
    ensures a < |r.ref| && r.ref[a] > 0 && Fine(Counted(r, a, r.ref[a] - 1)) && Abs(Counted(r, a, r.ref[a] - 1)) == Kfree(Abs(r), a)
  {
    hide Fine, Abs, IsTable, Fill;
    FineSizes(r);
    CountIs(r, a);
    if r.ref[a] > 1 { AbsCount(r, a, r.ref[a] - 1); } else { AbsFree(r, a); }
  }

  /** mappages for page v of process p: pages are added to the tree, and the leaf is written if it succeeds. */
  ghost predicate MapStep(r: Raw, r1: Raw, p: nat, v: nat, e: nat, added: set<nat>, ok: bool) {
    && TreeStep(r, r1, p, added) && v < TRAPVPN && Readable(e)
    && if ok then LeafSet(r.tables, r1.tables, r.tasks[p].root, v, e) else SelfSame(r.tables, r1.tables, r.tasks[p].root)
  }

  lemma AbsMap(r: Raw, r1: Raw, p: nat, v: nat, e: nat, added: set<nat>, ok: bool, mem: Option<nat>)
    requires Fine(r) && MapStep(r, r1, p, v, e, added, ok) && p in Abs(r).procs && v !in Abs(r).procs[p].pt
    ensures Fine(r1) && (Abs(r1), ok) == MapPage(Abs(r), p, v, PteOf(e), Choice(mem, added, ok))
  {
    hide Fine, TreeStep, PtOf, Abs, PteOf, LeafSet, SelfSame, Fill, Readable;
    StepHas(r, r1, p, added);
    AbsStep(r, r1, p, added);
    ProcIs(r, p);
    NotZero(e);
    if ok {
      PtSet(r.tables, r1.tables, r.tasks[p].root, v, e);
    } else {
      PtSame(r.tables, r1.tables, r.tasks[p].root);
      PtKept(AddTables(Abs(r), p, added), p);
    }
  }

  lemma PtKept(s: State, p: nat)
    requires p in s.procs
    ensures SetPt(s, p, s.procs[p].pt) == s
  {
    assert s.procs[p := s.procs[p]] == s.procs;
  }

  lemma NotZero(e: nat)
    ensures Readable(e) ==> e != 0
  {
  }

  lemma MapLeaves(r: Raw, r1: Raw, p: nat, v: nat, e: nat, added: set<nat>, ok: bool)
    requires Fine(r) && MapStep(r, r1, p, v, e, added, ok) && Leaves(r)
    ensures Leaves(r1)
  {
    hide Forest, Backed, LeafAt, Readable, TookPages, TreeGrown;
    forall q, u: nat | q in r1.tasks && u < MAXVPN ensures LeafOk(u, Leaf(r1.tables, r1.tasks[q].root, u)) {
      assert TaskOk(r, r.tasks[q]);
      assert u * PGSIZE < MAXVA && u * PGSIZE / PGSIZE == u;
      if q != p { assert r.tasks[q].root != r.tasks[p].root; }
      assert LeafOk(u, Leaf(r.tables, r.tasks[q].root, u));
    }
  }
}
