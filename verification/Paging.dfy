/**
 Pages (kernel/memory.c): virtual address bitmaps, pools of physical frames, and page tables that are
 reached through their own mapping (two-level 32-bit paging, section 4.3 of the Intel Software
 Developer's Manual, volume 3A).
 */
module Paging {
  import opened Bitmap

  // ----- the self-mapped page tables

  /** A page-table entry: the frame it names and its present bit. */
  datatype Pte = Pte(frame: nat, present: bool)

  /** The page directory and the page tables, by the physical address they lie at. */
  datatype Space = Space(dirAt: nat, tables: map<nat, seq<Pte>>)

  /** PDE_IDX: the ten high bits of an address. */
  function PdeIdx(v: nat): (k: nat) {
    v / 0x40_0000
  }

  /** PTE_IDX: the ten bits in the middle. */
  function PteIdx(v: nat): (j: nat)
    ensures j < 1024
  {
    v / 0x1000 % 1024
  }

  /** pte_ptr: the virtual address of the page-table entry of `v`. */
  function PtePtr(v: nat): (p: nat) {
    0xffc0_0000 + PdeIdx(v) * 0x1000 + PteIdx(v) * 4
  }

  /** pde_ptr: the virtual address of the page-directory entry of `v`. */
  function PdePtr(v: nat): (p: nat) {
    0xffff_f000 + PdeIdx(v) * 4
  }

  /** The directory entry of an address is the table entry of its table entry. */
  lemma PdeIsPteOfPte(v: nat)
    requires v < 0x1_0000_0000
    ensures PtePtr(v) < 0x1_0000_0000 && PdePtr(v) == PtePtr(PtePtr(v))
  {
    PtePtrParts(v);
  }

  lemma PtePtrParts(v: nat)
    requires v < 0x1_0000_0000
    ensures PdeIdx(v) < 1024
    ensures PdeIdx(PtePtr(v)) == 1023 && PteIdx(PtePtr(v)) == PdeIdx(v) && PtePtr(v) % 0x1000 == 4 * PteIdx(v)
    ensures PdeIdx(PdePtr(v)) == 1023 && PteIdx(PdePtr(v)) == 1023 && PdePtr(v) % 0x1000 == 4 * PdeIdx(v)
  {
  }

  /** The last entry of the directory is the directory itself, and every present entry of the
      directory names a table. */
  ghost predicate SelfMapped(s: Space) {
    && s.dirAt in s.tables && s.dirAt % 0x1000 == 0
    && (forall f {:trigger s.tables[f]} :: f in s.tables ==> |s.tables[f]| == 1024)
    && s.tables[s.dirAt][1023] == Pte(s.dirAt, true)
    && forall k {:trigger TableOk(s, k)} :: 0 <= k < 1024 ==> TableOk(s, k)
  }

  ghost predicate TableOk(s: Space, k: nat)
    requires k < 1024 && s.dirAt in s.tables && |s.tables[s.dirAt]| == 1024
  {
    s.tables[s.dirAt][k].present ==> s.tables[s.dirAt][k].frame in s.tables && s.tables[s.dirAt][k].frame % 0x1000 == 0
  }

  /** A physical address, or a page fault. */
  datatype Phys = Fault | At(addr: nat)

  /** What the processor does with an address. */
  function Translate(s: Space, v: nat): (r: Phys)
    requires SelfMapped(s) && v < 0x1_0000_0000
  {
    var pde := s.tables[s.dirAt][PdeIdx(v)];
    assert TableOk(s, PdeIdx(v));
    if !pde.present then Fault
    else
      var pte := s.tables[pde.frame][PteIdx(v)];
      if !pte.present then Fault else At(pte.frame + v % 0x1000)
  }

  /** pde_ptr always reaches the entry in the directory. */
  lemma PdePtrWorks(s: Space, v: nat)
    requires SelfMapped(s) && v < 0x1_0000_0000
    ensures PdePtr(v) < 0x1_0000_0000 && PdeIdx(v) < 1024
    ensures Translate(s, PdePtr(v)) == At(s.dirAt + 4 * PdeIdx(v))
  {
    PtePtrParts(v);
  }

  /** pte_ptr reaches the entry in the table exactly when the directory has the table. */
  lemma PtePtrWorks(s: Space, v: nat)
    requires SelfMapped(s) && v < 0x1_0000_0000
    ensures PtePtr(v) < 0x1_0000_0000 && PdeIdx(v) < 1024
    ensures var pde := s.tables[s.dirAt][PdeIdx(v)];
            Translate(s, PtePtr(v)) == if pde.present then At(pde.frame + 4 * PteIdx(v)) else Fault
  {
    PtePtrParts(v);
    assert TableOk(s, 1023);
  }

  /** The entry at a physical address in a table. */
  function EntryAt(s: Space, a: nat): (e: Pte)
    requires SelfMapped(s) && a - a % 0x1000 in s.tables
  {
    s.tables[a - a % 0x1000][a % 0x1000 / 4]
  }

  /** addr_v2p: reading the entry through its virtual address gives what the processor would. */
  lemma AddrV2p(s: Space, v: nat)
    requires SelfMapped(s) && v < 0x1_0000_0000 && Translate(s, v).At?
    ensures Translate(s, PtePtr(v)).At? && Translate(s, PtePtr(v)).addr - Translate(s,
            PtePtr(v)).addr % 0x1000 in s.tables
    ensures EntryAt(s, Translate(s, PtePtr(v)).addr).frame + v % 0x1000 == Translate(s, v).addr
  {
    PtePtrWorks(s, v);
    assert TableOk(s, PdeIdx(v));
    var t := s.tables[s.dirAt][PdeIdx(v)].frame;
    var a := t + 4 * PteIdx(v);
    InFrame(t, 4 * PteIdx(v));
  }

  lemma InFrame(t: nat, off: nat)
    requires t % 0x1000 == 0 && off < 0x1000
    ensures (t + off) % 0x1000 == off
  {
  }

  // ----- pages

  /** The directory entry for the 4 MB that page `p` lies in. */
  function Pde(s: Space, k: nat): (e: Pte)
    requires SelfMapped(s) && k < 1024
  {
    s.tables[s.dirAt][k]
  }

  /** The entry of page `p`; a page without a table is not present. */
  function Page(s: Space, p: nat): (e: Pte)
    requires SelfMapped(s) && p < 0x10_0000
  {
    var pde := Pde(s, p / 1024);
    assert TableOk(s, p / 1024);
    if pde.present then s.tables[pde.frame][p % 1024] else Pte(0, false)
  }

  /** A page that is not in the first or the last 4 MB: the first table is also the table of the
      kernel, and the last one is the directory. */
  predicate Plain(p: nat) {
    1024 <= p < 1023 * 1024
  }

  /** No two plain parts of the address space share a table, and none has the directory as a table. */
  ghost predicate NoAlias(s: Space)
    requires SelfMapped(s)
  {
    forall a, b {:trigger Apart(s, a, b)} :: 1 <= a < 1023 && 1 <= b < 1023 ==> Apart(s, a, b)
  }

  ghost predicate Apart(s: Space, a: nat, b: nat)
    requires SelfMapped(s) && a < 1024 && b < 1024
  {
    Pde(s, a).present ==> Pde(s, a).frame != s.dirAt
                          && (Pde(s, b).present && Pde(s, a).frame == Pde(s, b).frame ==> a == b)
  }

  ghost predicate SpaceOk(s: Space) {
    SelfMapped(s) && NoAlias(s)
  }

  /** The translation of the first byte of a page. */
  lemma PageTranslate(s: Space, p: nat)
    requires SelfMapped(s) && p < 0x10_0000
    ensures 0x1000 * p < 0x1_0000_0000
    ensures Translate(s, 0x1000 * p) == if Page(s, p).present then At(Page(s, p).frame) else Fault
  {
    assert PdeIdx(0x1000 * p) == p / 1024 && PteIdx(0x1000 * p) == p % 1024;
  }

  /** A write to the table entry of page `p`, through its virtual address. */
  function SetPte(s: Space, p: nat, e: Pte): (s1: Space)
    requires SelfMapped(s) && p < 0x10_0000 && Pde(s, p / 1024).present
  {
    assert TableOk(s, p / 1024);
    var t := Pde(s, p / 1024).frame;
    s.(tables := s.tables[t := s.tables[t][p % 1024 := e]])
  }

  /** The write goes to the physical address that pte_ptr translates to. */
  lemma SetPteWhere(s: Space, p: nat)
    requires SelfMapped(s) && p < 0x10_0000 && Pde(s, p / 1024).present
    ensures 0x1000 * p < 0x1_0000_0000 && PtePtr(0x1000 * p) < 0x1_0000_0000
    ensures Translate(s, PtePtr(0x1000 * p)) == At(Pde(s, p / 1024).frame + 4 * (p % 1024))
  {
    PtePtrWorks(s, 0x1000 * p);
    assert PdeIdx(0x1000 * p) == p / 1024 && PteIdx(0x1000 * p) == p % 1024;
  }

  /** Writing one entry changes one page. */
  lemma SetPteOk(s: Space, p: nat, e: Pte)
    requires SpaceOk(s) && Plain(p) && Pde(s, p / 1024).present
    ensures var s1 := SetPte(s, p, e);
            SpaceOk(s1) && (forall k :: 0 <= k < 1024 ==> Pde(s1, k) == Pde(s, k)) && Page(s1, p) == e
    ensures forall q: nat :: Plain(q) && q != p ==> Page(SetPte(s, p, e), q) == Page(s, q)
  {
    var s1 := SetPte(s, p, e);
    var k := p / 1024;
    assert Apart(s, k, k) && TableOk(s, k);
    forall a | 0 <= a < 1024 ensures TableOk(s1, a) {
      assert TableOk(s, a);
    }
    forall a, b | 1 <= a < 1023 && 1 <= b < 1023 ensures Apart(s1, a, b) {
      assert Apart(s, a, b);
    }
    forall q: nat | Plain(q) && q != p ensures Page(s1, q) == Page(s, q) {
      assert Apart(s, q / 1024, k) && TableOk(s, q / 1024);
      assert q == 1024 * (q / 1024) + q % 1024 && p == 1024 * k + p % 1024;
    }
  }

  // ----- pools of frames

  /** struct pool: frames from `start` on, one bit each, and pool_size. */
  datatype Pool = Pool(start: nat, bits: seq<bool>, size: nat)

  /** Frame number `i` of a pool. */
  function Frame(pool: Pool, i: nat): (f: nat) {
    pool.start + 0x1000 * i
  }

  /** The frame is not free in the pool: it lies elsewhere or its bit is set. */
  ghost predicate Held(pool: Pool, f: nat) {
    forall i :: 0 <= i < |pool.bits| && f == Frame(pool, i) ==> pool.bits[i]
  }

  /** Free frames of a pool. */
  function Frames(pool: Pool): (n: nat) {
    CountFree(pool.bits, |pool.bits|)
  }

  /** palloc; without a free frame bitmap_scan stops the kernel. */
  method Palloc(pool: Pool) returns (ok: bool, pool1: Pool, ghost i: nat, f: nat)
    ensures ok <==> Frames(pool) > 0
    ensures ok ==> Frames(pool1) == Frames(pool) - 1
    ensures ok ==> i < |pool.bits| && Leftmost(pool.bits, 1, i) && f == Frame(pool, i) && !Held(pool, f)
    ensures ok ==> pool1 == pool.(bits := pool.bits[i := true])
    ensures !ok ==> pool1 == pool
  {
    var halts, b := ScanBits(pool.bits, 1);
    OneBit(pool.bits, b);
    SomeFree(pool.bits, |pool.bits|);
    ok, pool1, i, f := !halts, pool, 0, 0;
    if ok {
      TakeOne(pool.bits, |pool.bits|, b);
      pool1, i, f := pool.(bits := pool.bits[b := true]), b, pool.start + 0x1000 * b;
    }
  }

  // ----- page_table_add

  function NoEntries(): (es: seq<Pte>) {
    seq(1024, _ => Pte(0, false))
  }

  /** The space with an empty table at `t` for directory entry `k`. */
  function WithTable(s: Space, k: nat, t: nat): (s1: Space)
    requires SelfMapped(s) && k < 1024
  {
    s.(tables := s.tables[t := NoEntries()][s.dirAt := s.tables[s.dirAt][k := Pte(t, true)]])
  }

  /** Frame `t` is no page table. */
  ghost predicate NoTable(s: Space, t: nat)
    requires SelfMapped(s)
  {
    forall a {:trigger Pde(s, a)} :: 0 <= a < 1024 && Pde(s, a).present ==> Pde(s, a).frame != t
  }

  lemma WithTableMapped(s: Space, k: nat, t: nat)
    requires SpaceOk(s) && 1 <= k < 1023 && t % 0x1000 == 0 && NoTable(s, t)
    ensures var s1 := WithTable(s, k, t);
            && SelfMapped(s1) && Pde(s1, k) == Pte(t, true)
            && forall a {:trigger Pde(s1, a)} :: 0 <= a < 1024 && a != k ==> Pde(s1, a) == Pde(s, a)
  {
    var s1 := WithTable(s, k, t);
    assert Pde(s, 1023).frame == s.dirAt != t;
    forall a | 0 <= a < 1024 ensures TableOk(s1, a) {
      assert TableOk(s, a);
    }
  }

  /** A new empty table changes no page. */
  lemma WithTableOk(s: Space, k: nat, t: nat)
    requires SpaceOk(s) && 1 <= k < 1023 && t % 0x1000 == 0 && NoTable(s, t) && !Pde(s, k).present
    ensures SpaceOk(WithTable(s, k, t)) && Pde(WithTable(s, k, t), k) == Pte(t, true)
    ensures forall a {:trigger Pde(WithTable(s, k, t), a)} :: 0 <= a < 1024 && a != k ==>
            Pde(WithTable(s, k, t), a) == Pde(s, a)
    ensures forall q: nat :: Plain(q) ==> Page(WithTable(s, k, t), q) == Page(s, q)
  {
    var s1 := WithTable(s, k, t);
    WithTableMapped(s, k, t);
    assert Pde(s, 1023).frame == s.dirAt != t;
    forall a, b | 1 <= a < 1023 && 1 <= b < 1023 ensures Apart(s1, a, b) {
      assert Apart(s, a, b);
    }
    forall q: nat | Plain(q) ensures Page(s1, q) == Page(s, q) {
      var c := q / 1024;
      assert TableOk(s, c) && Apart(s, c, c);
    }
  }

  /** The other branch of page_table_add: `*pde` names the new frame, whose old contents show up as
      entries until the frame is cleared through the self-mapping. */
  method AddTable(s: Space, p: nat, t: nat, stale: seq<Pte>) returns (s1: Space)
    requires SpaceOk(s) && Plain(p) && t % 0x1000 == 0 && NoTable(s, t) && !Pde(s, p / 1024).present && |stale| == 1024
    ensures s1 == WithTable(s, p / 1024, t)
  {
    var k := p / 1024;
    PdePtrWorks(s, 0x1000 * p);
    s1 := s.(tables := s.tables[t := stale][s.dirAt := s.tables[s.dirAt][k := Pte(t, true)]]);
    assert Pde(s, 1023).frame == s.dirAt != t;
    s1 := s1.(tables := s1.tables[t := NoEntries()]);
    assert s1.tables == WithTable(s, k, t).tables;
  }

  /** The tables are held in the kernel pool or lie outside of it. */
  ghost predicate TablesHeld(s: Space, pool: Pool)
    requires SelfMapped(s)
  {
    forall a {:trigger Pde(s, a)} :: 0 <= a < 1024 && Pde(s, a).present ==> Held(pool, Pde(s, a).frame)
  }

  /** What page_table_add promises: page `p` gets frame `f`, all other pages stay, and a table is taken
      from the kernel pool exactly when there was none. */
  ghost predicate Mapped(s: Space, pool: Pool, s1: Space, pool1: Pool, p: nat, f: nat)
    requires SelfMapped(s) && SelfMapped(s1) && Plain(p)
  {
    && Page(s1, p) == Pte(f, true)
    && (forall q: nat :: Plain(q) && q != p ==> Page(s1, q) == Page(s, q))
    && Grew(s, pool, s1, pool1, p / 1024)
  }

  /** At most one table was added, for directory entry `k`, with a frame that was free. */
  ghost predicate Grew(s: Space, pool: Pool, s1: Space, pool1: Pool, k: nat)
    requires SelfMapped(s) && SelfMapped(s1) && k < 1024
  {
    && (forall a {:trigger Pde(s1, a)} :: 0 <= a < 1024 && a != k ==> Pde(s1, a) == Pde(s, a))
    && (Pde(s, k).present ==> Pde(s1, k) == Pde(s, k) && pool1 == pool)
    && (!Pde(s, k).present ==>
          exists i: nat :: i < |pool.bits| && !pool.bits[i] && Pde(s1, k) == Pte(Frame(pool, i), true)
                           && pool1 == pool.(bits := pool.bits[i := true]))
  }

  /** The tables that directory entry `k` is short of. */
  function TablesFor(s: Space, k: nat): (n: nat)
    requires SelfMapped(s) && k < 1024
  {
    if Pde(s, k).present then 0 else 1
  }

  /** page_table_add */
  method PageTableAdd(s: Space, pool: Pool, p: nat, f: nat, stale: seq<Pte>) returns (ok: bool, s1: Space, pool1: Pool)
    requires SpaceOk(s) && Plain(p) && !Page(s, p).present && TablesHeld(s, pool) && pool.start % 0x1000 == 0
    requires |stale| == 1024
    ensures ok <==> TablesFor(s, p / 1024) <= Frames(pool)
    ensures ok ==> SpaceOk(s1) && Mapped(s, pool, s1, pool1, p, f)
                   && Frames(pool1) == Frames(pool) - TablesFor(s, p / 1024)
  {
    ok, s1, pool1 := true, s, pool;
    var k := p / 1024;
    if !Pde(s, k).present {
      ghost var i;
      var t;
      ok, pool1, i, t := Palloc(pool);
      if !ok {
        return;
      }
      FrameAligned(pool, i);
      s1 := AddTable(s, p, t, stale);
      WithTableOk(s, k, t);
    }
    assert !Page(s1, p).present;
    SetPteWhere(s1, p);
    SetPteOk(s1, p, Pte(f, true));
    s1 := SetPte(s1, p, Pte(f, true));
  }

  lemma FrameAligned(pool: Pool, i: nat)
    requires pool.start % 0x1000 == 0
    ensures Frame(pool, i) % 0x1000 == 0
  {
  }

  // ----- memory

  /** struct virtual_addr: pages from page number `first` on, one bit each. */
  datatype Area = Area(first: nat, bits: seq<bool>)

  /** An address space, the two pools of frames, and the two areas that pages are given out from. */
  datatype Mem = Mem(space: Space, kernel: Pool, user: Pool, kheap: Area, uheap: Area)

  /** The pool and the area that PF_KERNEL or PF_USER stands for. */
  function PoolOf(m: Mem, kern: bool): (pool: Pool) {
    if kern then m.kernel else m.user
  }

  function AreaOf(m: Mem, kern: bool): (area: Area) {
    if kern then m.kheap else m.uheap
  }

  function WithPool(m: Mem, kern: bool, pool: Pool): (m1: Mem) {
    if kern then m.(kernel := pool) else m.(user := pool)
  }

  function WithArea(m: Mem, kern: bool, area: Area): (m1: Mem) {
    if kern then m.(kheap := area) else m.(uheap := area)
  }

  /** The kernel pool ends before the user pool starts. */
  ghost predicate PoolsOk(m: Mem) {
    && m.kernel.start % 0x1000 == 0 && m.user.start % 0x1000 == 0
    && 0x10_2000 <= m.kernel.start && Frame(m.kernel, |m.kernel.bits|) <= m.user.start
  }

  /** The page tables are sound and taken from the kernel pool or from below. */
  ghost predicate Core(m: Mem) {
    && SpaceOk(m.space) && PoolsOk(m) && TablesHeld(m.space, m.kernel)
    && forall a {:trigger Pde(m.space, a)} :: 0 <= a < 1024 && Pde(m.space, a).present ==>
       Pde(m.space, a).frame < m.user.start
  }

  /** The frame belongs to the pool and its bit is set. */
  ghost predicate Taken(pool: Pool, f: nat) {
    exists n: nat :: n < |pool.bits| && f == Frame(pool, n) && pool.bits[n]
  }

  /** `bits1` is `bits` with the positions in `more` set, which were clear. */
  ghost predicate SetMore(bits: seq<bool>, bits1: seq<bool>, more: set<nat>) {
    && |bits1| == |bits|
    && (forall n :: n in more ==> n < |bits| && !bits[n])
    && forall n :: 0 <= n < |bits| ==> (bits1[n] <==> bits[n] || n in more)
  }

  /** The pools are where they were, and as large. */
  predicate SamePlaces(m: Mem, m1: Mem) {
    && m1.kernel.start == m.kernel.start && m1.user.start == m.user.start
    && m1.kernel.size == m.kernel.size && m1.user.size == m.user.size
  }

  /** One more page is mapped: page `p`, to frame number `x` of the pool, perhaps with a table. */
  ghost predicate OneMore(m: Mem, m1: Mem, kern: bool, p: nat, x: nat, tabs: set<nat>)
    requires Core(m) && Core(m1) && Plain(p)
  {
    && x < |PoolOf(m, kern).bits| && !PoolOf(m, kern).bits[x]
    && Page(m1.space, p) == Pte(Frame(PoolOf(m, kern), x), true)
    && (forall q: nat :: Plain(q) && q != p ==> Page(m1.space, q) == Page(m.space, q))
    && m1.kheap == m.kheap && m1.uheap == m.uheap
    && SamePlaces(m, m1)
    && SetMore(m.kernel.bits, m1.kernel.bits, if kern then tabs + {x} else tabs)
    && SetMore(m.user.bits, m1.user.bits, if kern then {} else {x})
    && (kern ==> x !in tabs) && (Pde(m.space, p / 1024).present ==> tabs == {})
    && (forall a {:trigger Pde(m1.space, a)} :: 0 <= a < 1024 ==> DirKept(m, m1, tabs, a))
  }

  /** Directory entry `a` stays, or names a frame that was taken for a table. */
  ghost predicate DirKept(m: Mem, m1: Mem, tabs: set<nat>, a: nat)
    requires SelfMapped(m.space) && SelfMapped(m1.space) && a < 1024
  {
    || Pde(m1.space, a) == Pde(m.space, a)
    || (!Pde(m.space, a).present && exists y :: y in tabs && Pde(m1.space, a) == Pte(Frame(m.kernel, y), true))
  }

  lemma StillHeld(pool: Pool, bits: seq<bool>, more: set<nat>, f: nat)
    requires Held(pool, f) && SetMore(pool.bits, bits, more)
    ensures Held(pool.(bits := bits), f)
  {
    forall i | 0 <= i < |bits| && f == Frame(pool.(bits := bits), i) ensures bits[i] {
      assert f == Frame(pool, i);
    }
  }

  /** Taking a frame keeps the core. */
  lemma PallocCore(m: Mem, kern: bool, x: nat)
    requires Core(m) && x < |PoolOf(m, kern).bits| && !PoolOf(m, kern).bits[x]
    ensures var pool := PoolOf(m, kern);
            Core(WithPool(m, kern, pool.(bits := pool.bits[x := true])))
  {
    var pool := PoolOf(m, kern);
    var m1 := WithPool(m, kern, pool.(bits := pool.bits[x := true]));
    forall a | 0 <= a < 1024 && Pde(m.space, a).present ensures Held(m1.kernel, Pde(m.space, a).frame) {
      if kern {
        StillHeld(m.kernel, m1.kernel.bits, {x}, Pde(m.space, a).frame);
      }
    }
  }

  ghost predicate SamePde(s: Space, s1: Space, but: nat, k: nat)
    requires SelfMapped(s) && SelfMapped(s1) && k < 1024
  {
    k == but || Pde(s1, k) == Pde(s, k)
  }

  /** The directory entries are the same, but for one. */
  ghost predicate OtherPdes(s: Space, s1: Space, but: nat)
    requires SelfMapped(s) && SelfMapped(s1)
  {
    forall k {:trigger SamePde(s, s1, but, k)} :: 0 <= k < 1024 ==> SamePde(s, s1, but, k)
  }

  /** There are frames for `pages` pages, from the pool they come from, and for `tables` page tables,
      from the kernel pool. */
  predicate HasFrames(m: Mem, kern: bool, pages: nat, tables: nat) {
    if kern then pages + tables <= Frames(m.kernel) else pages <= Frames(m.user) && tables <= Frames(m.kernel)
  }

  /** So many frames went to pages and to page tables. */
  predicate Spent(m: Mem, m1: Mem, kern: bool, pages: nat, tables: nat) {
    && Frames(m1.kernel) == Frames(m.kernel) - tables - (if kern then pages else 0)
    && Frames(m1.user) == Frames(m.user) - if kern then 0 else pages
  }

  /** There are frames for page `p` and for the table it may need. */
  predicate CanMap(m: Mem, kern: bool, p: nat)
    requires SelfMapped(m.space) && p < 0x10_0000
  {
    HasFrames(m, kern, 1, TablesFor(m.space, p / 1024))
  }

  /** Those frames are spent, and no other part of the address space has a new table. */
  ghost predicate SpentFor(m: Mem, m1: Mem, kern: bool, p: nat)
    requires SelfMapped(m.space) && SelfMapped(m1.space) && p < 0x10_0000
  {
    && Spent(m, m1, kern, 1, TablesFor(m.space, p / 1024))
    && Pde(m1.space, p / 1024).present && OtherPdes(m.space, m1.space, p / 1024)
  }

  /** One round of the loop of malloc_page: a frame, and its entry in the page table.  It comes back
      exactly if there are frames for the page and for the table it may need. */
  method MapPage(m: Mem, kern: bool, p: nat, stale: seq<Pte>)
    returns (ok: bool, m1: Mem, ghost x: nat, ghost tabs: set<nat>)
    requires Core(m) && Plain(p) && !Page(m.space, p).present && |stale| == 1024
    ensures ok <==> CanMap(m, kern, p)
    ensures ok ==> Core(m1) && OneMore(m, m1, kern, p, x, tabs) && SpentFor(m, m1, kern, p)
  {
    var pool, f, m0;
    ok, pool, x, f := Palloc(PoolOf(m, kern));
    m1, tabs := m, {};
    if ok {
      PallocCore(m, kern, x);
      m0 := WithPool(m, kern, pool);
      var s, kpool;
      ok, s, kpool := PageTableAdd(m0.space, m0.kernel, p, f, stale);
      if ok {
        m1 := m0.(space := s, kernel := kpool);
        tabs := AddedTable(m, m0, m1, kern, p, x, f);
      }
    }
  }

  /** The state after page_table_add, put together. */
  lemma AddedTable(m: Mem, m0: Mem, m1: Mem, kern: bool, p: nat, x: nat, f: nat) returns (tabs: set<nat>)
    requires Core(m) && x < |PoolOf(m, kern).bits| && !PoolOf(m, kern).bits[x] && f == Frame(PoolOf(m, kern), x)
    requires Plain(p)
    requires m0 == WithPool(m, kern, PoolOf(m, kern).(bits := PoolOf(m, kern).bits[x := true])) && Core(m0)
    requires SpaceOk(m1.space) && m1 == m0.(space := m1.space, kernel := m1.kernel)
    requires Mapped(m0.space, m0.kernel, m1.space, m1.kernel, p, f)
    ensures Core(m1) && OneMore(m, m1, kern, p, x, tabs)
  {
    var k := p / 1024;
    tabs := {};
    if !Pde(m.space, k).present {
      var y: nat :| y < |m0.kernel.bits| && !m0.kernel.bits[y] && Pde(m1.space, k) == Pte(Frame(m0.kernel, y), true)
        && m1.kernel == m0.kernel.(bits := m0.kernel.bits[y := true]);
      tabs := {y};
      assert y in tabs && Pde(m1.space, k) == Pte(Frame(m.kernel, y), true);
    }
    GrownCore(m0, m1, k);
    forall a | 0 <= a < 1024 ensures DirKept(m, m1, tabs, a) {
      if a != k {
        assert Pde(m1.space, a) == Pde(m0.space, a);
      }
    }
  }

  lemma GrownCore(m0: Mem, m1: Mem, k: nat)
    requires Core(m0) && SpaceOk(m1.space) && m1 == m0.(space := m1.space, kernel := m1.kernel) && 1 <= k < 1023
    requires Grew(m0.space, m0.kernel, m1.space, m1.kernel, k)
    ensures Core(m1)
  {
    forall a | 0 <= a < 1024 && Pde(m1.space, a).present ensures Held(m1.kernel, Pde(m1.space, a).frame)
      && Pde(m1.space, a).frame < m1.user.start {
      if Pde(m0.space, k).present {
        assert Pde(m1.space, a) == Pde(m0.space, a);
      } else {
        var y: nat :| y < |m0.kernel.bits| && !m0.kernel.bits[y] && Pde(m1.space, k) == Pte(Frame(m0.kernel, y), true)
          && m1.kernel == m0.kernel.(bits := m0.kernel.bits[y := true]);
        if a != k {
          StillHeld(m0.kernel, m1.kernel.bits, {y}, Pde(m0.space, a).frame);
        }
      }
    }
  }

  // ----- the rule

  /** The page that bit `i` of an area stands for. */
  function PageNo(m: Mem, kern: bool, i: nat): (p: nat) {
    AreaOf(m, kern).first + i
  }

  /** All pages of the area are plain. */
  predicate AreaFits(area: Area) {
    1024 <= area.first && area.first + |area.bits| <= 1023 * 1024
  }

  /** The bit of a page is set exactly when its entry is present, except from `lo` to `hi`, where pages
      are about to be mapped or were just unmapped.  A present page has a frame of the right pool whose
      bit is set, and that is not a page table. */
  ghost predicate PageOk(m: Mem, kern: bool, i: nat, lo: nat, hi: nat)
    requires Core(m) && AreaFits(AreaOf(m, kern)) && i < |AreaOf(m, kern).bits|
  {
    var e := Page(m.space, PageNo(m, kern, i));
    && (e.present <==> AreaOf(m, kern).bits[i] && !(lo <= i < hi))
    && (e.present ==> Taken(PoolOf(m, kern), e.frame) && NoTable(m.space, e.frame))
  }

  /** Different pages have different frames. */
  ghost predicate Differ(m: Mem, kern: bool, i: nat, j: nat)
    requires Core(m) && AreaFits(AreaOf(m, kern)) && i < |AreaOf(m, kern).bits| && j < |AreaOf(m, kern).bits|
  {
    var e, f := Page(m.space, PageNo(m, kern, i)), Page(m.space, PageNo(m, kern, j));
    e.present && f.present && e.frame == f.frame ==> i == j
  }

  /** An area, with holes from `lo` to `hi`. */
  ghost predicate AreaOk(m: Mem, kern: bool, lo: nat, hi: nat)
    requires Core(m)
  {
    && AreaFits(AreaOf(m, kern))
    && (forall i {:trigger PageOk(m, kern, i, lo, hi)} ::
          0 <= i < |AreaOf(m, kern).bits| ==> PageOk(m, kern, i, lo, hi))
    && (forall i, j {:trigger Differ(m, kern, i, j)} ::
          0 <= i < |AreaOf(m, kern).bits| && 0 <= j < |AreaOf(m, kern).bits| ==> Differ(m, kern, i, j))
  }

  /** The rule, with holes from `lo` to `hi` in one of the two areas. */
  ghost predicate MemOk(m: Mem, kern: bool, lo: nat, hi: nat) {
    && Core(m) && AreaOk(m, kern, lo, hi) && AreaOk(m, !kern, 0, 0)
    && m.uheap.first + |m.uheap.bits| <= m.kheap.first
  }

  /** Frames of the kernel pool lie below those of the user pool. */
  lemma KernelBelow(m: Mem, x: nat)
    requires PoolsOk(m) && x < |m.kernel.bits|
    ensures Frame(m.kernel, x) < m.user.start
  {
  }

  lemma StillTaken(pool: Pool, bits: seq<bool>, more: set<nat>, f: nat)
    requires Taken(pool, f) && SetMore(pool.bits, bits, more)
    ensures Taken(pool.(bits := bits), f)
  {
    var n: nat :| n < |pool.bits| && f == Frame(pool, n) && pool.bits[n];
    assert f == Frame(pool.(bits := bits), n);
  }

  /** A frame that was free is not the frame of a page. */
  lemma FreeNotTaken(pool: Pool, x: nat, f: nat)
    requires x < |pool.bits| && !pool.bits[x] && Taken(pool, f)
    ensures f != Frame(pool, x)
  {
  }

  /** A page that stays keeps its frame away from the tables. */
  lemma OtherNoTable(m: Mem, m1: Mem, kern: bool, p: nat, x: nat, tabs: set<nat>, of: bool, f: nat)
    requires Core(m) && Core(m1) && Plain(p) && OneMore(m, m1, kern, p, x, tabs)
    requires Taken(PoolOf(m, of), f) && NoTable(m.space, f)
    ensures NoTable(m1.space, f)
  {
    forall a | 0 <= a < 1024 && Pde(m1.space, a).present ensures Pde(m1.space, a).frame != f {
      assert DirKept(m, m1, tabs, a);
      if Pde(m1.space, a) != Pde(m.space, a) {
        var y :| y in tabs && Pde(m1.space, a) == Pte(Frame(m.kernel, y), true);
        KernelBelow(m, y);
        if of {
          FreeNotTaken(m.kernel, y, f);
        }
      }
    }
  }

  lemma OtherTaken(m: Mem, m1: Mem, kern: bool, p: nat, x: nat, tabs: set<nat>, of: bool, f: nat)
    requires Core(m) && Core(m1) && Plain(p) && OneMore(m, m1, kern, p, x, tabs) && Taken(PoolOf(m, of), f)
    ensures Taken(PoolOf(m1, of), f)
  {
    if of {
      StillTaken(m.kernel, m1.kernel.bits, if kern then tabs + {x} else tabs, f);
    } else {
      StillTaken(m.user, m1.user.bits, if kern then {} else {x}, f);
    }
  }

  /** The frame of the new page is no table either. */
  lemma NewNoTable(m: Mem, m1: Mem, kern: bool, p: nat, x: nat, tabs: set<nat>)
    requires Core(m) && Core(m1) && Plain(p) && OneMore(m, m1, kern, p, x, tabs)
    ensures NoTable(m1.space, Frame(PoolOf(m, kern), x))
  {
    var f := Frame(PoolOf(m, kern), x);
    forall a | 0 <= a < 1024 && Pde(m1.space, a).present ensures Pde(m1.space, a).frame != f {
      assert DirKept(m, m1, tabs, a);
      if Pde(m1.space, a) != Pde(m.space, a) {
        var y :| y in tabs && Pde(m1.space, a) == Pte(Frame(m.kernel, y), true);
        KernelBelow(m, y);
      } else if kern {
        assert Held(m.kernel, Pde(m.space, a).frame);
      }
    }
  }

  /** A page of either area that was not the one mapped. */
  lemma PageKept(m: Mem, m1: Mem, kern: bool, p: nat, x: nat, tabs: set<nat>, of: bool, i: nat, lo: nat,
      hi: nat, lo1: nat)
    requires Core(m) && Core(m1) && Plain(p) && OneMore(m, m1, kern, p, x, tabs)
    requires AreaFits(AreaOf(m, of)) && i < |AreaOf(m, of).bits| && PageOk(m, of, i, lo, hi) && PageNo(m, of, i) != p
    requires lo <= i < hi <==> lo1 <= i < hi
    ensures PageOk(m1, of, i, lo1, hi)
  {
    var e := Page(m.space, PageNo(m, of, i));
    if e.present {
      OtherNoTable(m, m1, kern, p, x, tabs, of, e.frame);
      OtherTaken(m, m1, kern, p, x, tabs, of, e.frame);
    }
    SamePageOk(m, m1, of, i, lo, hi, lo1, e);
  }

  lemma SamePageOk(m: Mem, m1: Mem, of: bool, i: nat, lo: nat, hi: nat, lo1: nat, e: Pte)
    requires Core(m) && Core(m1) && AreaFits(AreaOf(m, of)) && i < |AreaOf(m, of).bits| && PageOk(m, of, i, lo, hi)
    requires AreaOf(m1, of) == AreaOf(m, of) && e == Page(m.space, PageNo(m, of, i)) == Page(m1.space, PageNo(m, of, i))
    requires e.present ==> Taken(PoolOf(m1, of), e.frame) && NoTable(m1.space, e.frame)
    requires lo <= i < hi <==> lo1 <= i < hi
    ensures PageOk(m1, of, i, lo1, hi)
  {
  }

  lemma NewPageOk(m: Mem, m1: Mem, kern: bool, i: nat, x: nat, tabs: set<nat>, hi: nat)
    requires Core(m) && Core(m1) && AreaFits(AreaOf(m, kern)) && i < |AreaOf(m, kern).bits| && AreaOf(m, kern).bits[i]
    requires OneMore(m, m1, kern, PageNo(m, kern, i), x, tabs)
    ensures PageOk(m1, kern, i, i + 1, hi)
  {
    NewNoTable(m, m1, kern, PageNo(m, kern, i), x, tabs);
    var f := Frame(PoolOf(m, kern), x);
    assert f == Frame(PoolOf(m1, kern), x) && PoolOf(m1, kern).bits[x];
  }

  /** Page `a` of an area is as before, with a taken frame, or is page `p` and got frame number `x`. */
  ghost predicate SameOrNew(m: Mem, m1: Mem, pool: Pool, p: nat, x: nat, a: nat)
    requires Core(m) && Core(m1) && Plain(a)
  {
    if a == p then Page(m1.space, a) == Pte(Frame(pool, x), true)
    else Page(m1.space, a) == Page(m.space, a) && (Page(m.space, a).present ==> Taken(pool, Page(m.space, a).frame))
  }

  lemma DifferKept(m: Mem, m1: Mem, of: bool, p: nat, x: nat, i: nat, j: nat)
    requires Core(m) && Core(m1) && AreaFits(AreaOf(m, of)) && AreaOf(m1, of) == AreaOf(m, of)
    requires i < |AreaOf(m, of).bits| && j < |AreaOf(m, of).bits| && Differ(m, of, i, j) && x < |PoolOf(m, of).bits|
    requires !PoolOf(m, of).bits[x]
    requires SameOrNew(m, m1, PoolOf(m, of), p, x, PageNo(m, of, i))
    requires SameOrNew(m, m1, PoolOf(m, of), p, x, PageNo(m, of, j))
    ensures Differ(m1, of, i, j)
  {
  }

  lemma DifferSame(m: Mem, m1: Mem, of: bool, i: nat, j: nat)
    requires Core(m) && Core(m1) && AreaFits(AreaOf(m, of)) && AreaOf(m1, of) == AreaOf(m, of)
    requires i < |AreaOf(m, of).bits| && j < |AreaOf(m, of).bits| && Differ(m, of, i, j)
    requires Page(m1.space, PageNo(m, of, i)) == Page(m.space, PageNo(m, of, i))
    requires Page(m1.space, PageNo(m, of, j)) == Page(m.space, PageNo(m, of, j))
    ensures Differ(m1, of, i, j)
  {
  }

  /** The area a page was mapped in. */
  lemma SameArea(m: Mem, m1: Mem, kern: bool, i: nat, x: nat, tabs: set<nat>, next: nat, hi: nat)
    requires Core(m) && Core(m1) && AreaOk(m, kern, i, hi) && i < hi <= |AreaOf(m, kern).bits|
    requires AreaOf(m, kern).bits[i] && next == i + 1
    requires OneMore(m, m1, kern, PageNo(m, kern, i), x, tabs)
    ensures AreaOk(m1, kern, next, hi)
  {
    var p := PageNo(m, kern, i);
    forall j | 0 <= j < |AreaOf(m, kern).bits| ensures PageOk(m1, kern, j, next, hi) {
      if j == i {
        NewPageOk(m, m1, kern, i, x, tabs, hi);
      } else {
        assert PageOk(m, kern, j, i, hi);
        PageKept(m, m1, kern, p, x, tabs, kern, j, i, hi, next);
      }
    }
    forall j, k | 0 <= j < |AreaOf(m, kern).bits| && 0 <= k < |AreaOf(m, kern).bits| ensures Differ(m1, kern, j, k) {
      assert PageOk(m, kern, j, i, hi) && PageOk(m, kern, k, i, hi) && Differ(m, kern, j, k);
      assert SameOrNew(m, m1, PoolOf(m, kern), p, x, PageNo(m, kern, j))
             && SameOrNew(m, m1, PoolOf(m, kern), p, x, PageNo(m, kern, k));
      DifferKept(m, m1, kern, p, x, j, k);
    }
  }

  /** The other area. */
  lemma OtherArea(m: Mem, m1: Mem, kern: bool, of: bool, p: nat, x: nat, tabs: set<nat>)
    requires Core(m) && Core(m1) && Plain(p) && of != kern && AreaOk(m, of, 0, 0) && OneMore(m, m1, kern, p, x, tabs)
    requires forall j :: 0 <= j < |AreaOf(m, of).bits| ==> PageNo(m, of, j) != p
    ensures AreaOk(m1, of, 0, 0)
  {
    forall j | 0 <= j < |AreaOf(m, of).bits| ensures PageOk(m1, of, j, 0, 0) {
      assert PageOk(m, of, j, 0, 0);
      PageKept(m, m1, kern, p, x, tabs, of, j, 0, 0, 0);
    }
    forall j, k | 0 <= j < |AreaOf(m, of).bits| && 0 <= k < |AreaOf(m, of).bits| ensures Differ(m1, of, j, k) {
      assert Differ(m, of, j, k);
      DifferSame(m, m1, of, j, k);
    }
  }

  /** One round of the loop keeps the rule with one hole less. */
  lemma OneMoreOk(m: Mem, m1: Mem, kern: bool, i: nat, x: nat, tabs: set<nat>, hi: nat)
    requires MemOk(m, kern, i, hi) && Core(m1) && i < hi <= |AreaOf(m, kern).bits| && AreaOf(m, kern).bits[i]
    requires OneMore(m, m1, kern, PageNo(m, kern, i), x, tabs)
    ensures MemOk(m1, kern, i + 1, hi)
  {
    SameArea(m, m1, kern, i, x, tabs, i + 1, hi);
    OtherArea(m, m1, kern, !kern, PageNo(m, kern, i), x, tabs);
  }

  // ----- malloc_page

  /** `bits` with the `cnt` bits from `r` on replaced. */
  function Filled(bits: seq<bool>, r: nat, cnt: nat, b: bool): (bits1: seq<bool>)
    requires r + cnt <= |bits|
    ensures |bits1| == |bits| && forall i :: 0 <= i < |bits| ==> bits1[i] == if r <= i < r + cnt then b else bits[i]
  {
    bits[..r] + seq(cnt, _ => b) + bits[r + cnt..]
  }

  /** vaddr_get: the leftmost run of free pages, now taken.  Without any free page bitmap_scan halts the
      kernel; with free pages but no run the answer is NULL. */
  method VaddrGet(area: Area, cnt: nat) returns (halts: bool, r: int, area1: Area)
    requires cnt > 0
    ensures halts <==> Full(area.bits)
    ensures Leftmost(area.bits, cnt, r) && (halts ==> r == -1)
    ensures r == -1 ==> area1 == area
    ensures r != -1 ==> 0 <= r && r + cnt <= |area.bits| && area1 == area.(bits := Filled(area.bits, r, cnt, true))
  {
    halts, r := ScanBits(area.bits, cnt);
    area1 := area;
    if r != -1 {
      var bits := SetRun(area.bits, r, cnt, true);
      area1 := area.(bits := bits);
    }
  }

  /** The bitmap_set loops of vaddr_get and vaddr_remove. */
  method SetRun(bits0: seq<bool>, r: nat, cnt: nat, b: bool) returns (bits: seq<bool>)
    requires r + cnt <= |bits0|
    ensures bits == Filled(bits0, r, cnt, b)
  {
    bits := bits0;
    var i := 0;
    while i < cnt
      invariant 0 <= i <= cnt && |bits| == |bits0|
      invariant forall j :: 0 <= j < |bits| ==> bits[j] == if r <= j < r + i then b else bits0[j]
    {
      bits := bits[r + i := b];
      i := i + 1;
    }
  }

  /** The frame numbers in a list. */
  ghost function Nums(got: seq<nat>): (ns: set<nat>) {
    set x | x in got
  }

  /** Pages from `a` on got the frames `got`, and frames `tabs` became page tables; nothing else of the
      address space or the pools changed. */
  ghost predicate Gave(m: Mem, m1: Mem, kern: bool, a: nat, got: seq<nat>, tabs: set<nat>)
    requires Core(m) && Core(m1) && 1024 <= a && a + |got| <= 1023 * 1024
  {
    && (forall q: nat :: a <= q < a + |got| ==> Page(m1.space, q) == Pte(Frame(PoolOf(m, kern), got[q - a]), true))
    && (forall q: nat :: Plain(q) && !(a <= q < a + |got|) ==> Page(m1.space, q) == Page(m.space, q))
    && (forall i, j :: 0 <= i < j < |got| ==> got[i] != got[j])
    && SamePlaces(m, m1)
    && SetMore(m.kernel.bits, m1.kernel.bits, if kern then tabs + Nums(got) else tabs)
    && SetMore(m.user.bits, m1.user.bits, if kern then {} else Nums(got))
    && (kern ==> tabs !! Nums(got))
    && (forall k {:trigger Pde(m1.space, k)} :: 0 <= k < 1024 ==> DirKept(m, m1, tabs, k))
  }

  lemma SetMoreTwice(a: seq<bool>, b: seq<bool>, c: seq<bool>, x: set<nat>, y: set<nat>)
    requires SetMore(a, b, x) && SetMore(b, c, y)
    ensures SetMore(a, c, x + y) && x !! y
  {
  }

  lemma DirKeptTwice(m: Mem, m1: Mem, m2: Mem, tabs: set<nat>, more: set<nat>, k: nat)
    requires SelfMapped(m.space) && SelfMapped(m1.space) && SelfMapped(m2.space) && k < 1024
    requires m1.kernel.start == m.kernel.start
    requires DirKept(m, m1, tabs, k) && DirKept(m1, m2, more, k)
    ensures DirKept(m, m2, tabs + more, k)
  {
    if Pde(m1.space, k) != Pde(m.space, k) {
      var y :| y in tabs && Pde(m1.space, k) == Pte(Frame(m.kernel, y), true);
      assert y in tabs + more;
    } else if Pde(m2.space, k) != Pde(m1.space, k) {
      var y :| y in more && Pde(m2.space, k) == Pte(Frame(m1.kernel, y), true);
      assert y in tabs + more && Frame(m1.kernel, y) == Frame(m.kernel, y);
    }
  }

  /** The pool bits after one more page. */
  lemma GaveBits(m: Mem, m1: Mem, m2: Mem, kern: bool, a: nat, got: seq<nat>, tabs: set<nat>, x: nat, more: set<nat>)
    requires Core(m) && Core(m1) && Core(m2) && 1024 <= a && a + |got| < 1023 * 1024
    requires Gave(m, m1, kern, a, got, tabs) && OneMore(m1, m2, kern, a + |got|, x, more)
    ensures SetMore(m.kernel.bits, m2.kernel.bits, if kern then tabs + more + Nums(got + [x]) else tabs + more)
    ensures SetMore(m.user.bits, m2.user.bits, if kern then {} else Nums(got + [x]))
    ensures x !in got && (kern ==> tabs + more !! Nums(got + [x]))
  {
    assert Nums(got + [x]) == Nums(got) + {x};
    if kern {
      SetMoreTwice(m.kernel.bits, m1.kernel.bits, m2.kernel.bits, tabs + Nums(got), more + {x});
      assert tabs + Nums(got) + (more + {x}) == tabs + more + Nums(got + [x]);
      SetMoreTwice(m.user.bits, m1.user.bits, m2.user.bits, {}, {});
    } else {
      SetMoreTwice(m.kernel.bits, m1.kernel.bits, m2.kernel.bits, tabs, more);
      SetMoreTwice(m.user.bits, m1.user.bits, m2.user.bits, Nums(got), {x});
    }
  }

  /** The pages after one more page. */
  lemma GavePages(m: Mem, m1: Mem, m2: Mem, kern: bool, a: nat, got: seq<nat>, x: nat, f: nat)
    requires Core(m) && Core(m1) && Core(m2) && 1024 <= a && a + |got| < 1023 * 1024 && f == Frame(PoolOf(m, kern), x)
    requires forall q: nat :: a <= q < a + |got| ==> Page(m1.space, q) == Pte(Frame(PoolOf(m, kern), got[q - a]), true)
    requires forall q: nat :: Plain(q) && !(a <= q < a + |got|) ==> Page(m1.space, q) == Page(m.space, q)
    requires Page(m2.space, a + |got|) == Pte(f, true)
    requires forall q: nat :: Plain(q) && q != a + |got| ==> Page(m2.space, q) == Page(m1.space, q)
    ensures forall q: nat :: a <= q < a + |got + [x]| ==>
            Page(m2.space, q) == Pte(Frame(PoolOf(m, kern), (got + [x])[q - a]), true)
    ensures forall q: nat :: Plain(q) && !(a <= q < a + |got + [x]|) ==> Page(m2.space, q) == Page(m.space, q)
  {
  }

  lemma GaveMore(m: Mem, m1: Mem, m2: Mem, kern: bool, a: nat, got: seq<nat>, tabs: set<nat>, p: nat, x: nat,
      more: set<nat>)
    requires Core(m) && Core(m1) && Core(m2) && 1024 <= a && p == a + |got| < 1023 * 1024
    requires Gave(m, m1, kern, a, got, tabs) && OneMore(m1, m2, kern, p, x, more)
    ensures Gave(m, m2, kern, a, got + [x], tabs + more)
  {
    GaveBits(m, m1, m2, kern, a, got, tabs, x, more);
    GavePages(m, m1, m2, kern, a, got, x, Frame(PoolOf(m1, kern), x));
    forall k | 0 <= k < 1024 ensures DirKept(m, m2, tabs + more, k) {
      DirKeptTwice(m, m1, m2, tabs, more, k);
    }
  }

  /** Setting the bits of a free run leaves the rule with holes there. */
  lemma OpenHoles(m: Mem, m1: Mem, kern: bool, r: nat, cnt: nat)
    requires MemOk(m, kern, 0, 0) && IsRun(AreaOf(m, kern).bits, r, cnt)
    requires m1 == WithArea(m, kern, AreaOf(m, kern).(bits := Filled(AreaOf(m, kern).bits, r, cnt, true)))
    ensures MemOk(m1, kern, r, r + cnt)
  {
    HolesOpened(m, m1, kern, r, r + cnt);
    AreaUntouched(m, m1, !kern);
  }

  lemma HolesOpened(m: Mem, m1: Mem, kern: bool, lo: nat, hi: nat)
    requires Core(m) && Core(m1) && AreaOk(m, kern, 0, 0) && lo <= hi <= |AreaOf(m, kern).bits|
    requires IsRun(AreaOf(m, kern).bits, lo, hi - lo)
    requires m1.space == m.space && PoolOf(m1, kern) == PoolOf(m, kern)
    requires AreaOf(m1, kern).first == AreaOf(m, kern).first
    requires AreaOf(m1, kern).bits == Filled(AreaOf(m, kern).bits, lo, hi - lo, true)
    ensures AreaOk(m1, kern, lo, hi)
  {
    forall i | 0 <= i < |AreaOf(m1, kern).bits| ensures PageOk(m1, kern, i, lo, hi) {
      assert PageOk(m, kern, i, 0, 0);
    }
    forall i, j | 0 <= i < |AreaOf(m1, kern).bits| && 0 <= j < |AreaOf(m1, kern).bits| ensures Differ(m1, kern, i, j) {
      assert Differ(m, kern, i, j);
    }
  }

  lemma AreaUntouched(m: Mem, m1: Mem, of: bool)
    requires Core(m) && Core(m1) && AreaOk(m, of, 0, 0)
    requires m1.space == m.space && PoolOf(m1, of) == PoolOf(m, of) && AreaOf(m1, of) == AreaOf(m, of)
    ensures AreaOk(m1, of, 0, 0)
  {
    forall i | 0 <= i < |AreaOf(m, of).bits| ensures PageOk(m1, of, i, 0, 0) {
      assert PageOk(m, of, i, 0, 0);
    }
    forall i, j | 0 <= i < |AreaOf(m, of).bits| && 0 <= j < |AreaOf(m, of).bits| ensures Differ(m1, of, i, j) {
      assert Differ(m, of, i, j);
    }
  }

  /** No holes left. */
  lemma HolesClosed(m: Mem, kern: bool, n: nat)
    requires MemOk(m, kern, n, n)
    ensures MemOk(m, kern, 0, 0)
  {
    forall i | 0 <= i < |AreaOf(m, kern).bits| ensures PageOk(m, kern, i, 0, 0) {
      assert PageOk(m, kern, i, n, n);
    }
  }

  lemma GaveNothing(m: Mem, kern: bool, a: nat)
    requires Core(m) && 1024 <= a <= 1023 * 1024
    ensures Gave(m, m, kern, a, [], {})
  {
    forall k | 0 <= k < 1024 ensures DirKept(m, m, {}, k) {
    }
  }

  // ----- the frames that a run of pages needs

  /** The directory entry behind those of the `n` pages from `a` on. */
  function PdeEnd(a: nat, n: nat): (k: nat) {
    if n == 0 then a / 1024 else (a + n - 1) / 1024 + 1
  }

  /** Directory entries from `lo` to `hi` without a table. */
  function Missing(s: Space, lo: nat, hi: nat): (n: nat)
    requires SelfMapped(s) && hi <= 1024
  {
    if hi <= lo then 0 else Missing(s, lo, hi - 1) + TablesFor(s, hi - 1)
  }

  /** The page tables that the `n` pages from `a` on are short of. */
  function TablesShort(s: Space, a: nat, n: nat): (t: nat)
    requires SelfMapped(s) && a + n <= 1023 * 1024
  {
    Missing(s, a / 1024, PdeEnd(a, n))
  }

  /** The next page lies in the part of the last one, or in the next part. */
  lemma PdeNext(a: nat, n: nat)
    ensures PdeEnd(a, n) <= (a + n) / 1024 + 1 == PdeEnd(a, n + 1) <= PdeEnd(a, n) + 1
    ensures a / 1024 <= (a + n) / 1024 && a / 1024 <= PdeEnd(a, n)
  {
  }

  lemma {:induction false} MissingMono(s: Space, lo: nat, hi: nat, more: nat)
    requires SelfMapped(s) && hi <= more <= 1024
    ensures Missing(s, lo, hi) <= Missing(s, lo, more)
  {
    if hi < more { MissingMono(s, lo, hi, more - 1); }
  }

  lemma {:induction false} PdeEndMono(a: nat, n: nat, more: nat)
    requires n <= more
    ensures PdeEnd(a, n) <= PdeEnd(a, more)
    decreases more - n
  {
    if n < more {
      PdeNext(a, n);
      PdeEndMono(a, n + 1, more);
    }
  }

  /** There are frames for the `n` pages from `a` on and for the tables they are short of. */
  predicate Enough(m: Mem, kern: bool, a: nat, n: nat)
    requires SelfMapped(m.space) && a + n <= 1023 * 1024
  {
    HasFrames(m, kern, n, TablesShort(m.space, a, n))
  }

  /** More pages need no fewer frames. */
  lemma FewerFrames(m: Mem, kern: bool, a: nat, n: nat, cnt: nat)
    requires SelfMapped(m.space) && n <= cnt && a + cnt <= 1023 * 1024
    ensures Enough(m, kern, a, cnt) ==> Enough(m, kern, a, n)
  {
    PdeEndMono(a, n, cnt);
    MissingMono(m.space, a / 1024, PdeEnd(a, n), PdeEnd(a, cnt));
  }

  /** Directory entry `k` once the parts from `lo` to `hi` have tables. */
  ghost predicate PdeAfter(s: Space, s1: Space, lo: nat, hi: nat, k: nat)
    requires SelfMapped(s) && SelfMapped(s1) && k < 1024
  {
    Pde(s1, k).present <==> Pde(s, k).present || lo <= k < hi
  }

  /** The directory after `n` pages from `a` on: their parts have tables now. */
  ghost predicate DirAfter(s: Space, s1: Space, a: nat, n: nat)
    requires SelfMapped(s) && SelfMapped(s1)
  {
    forall k {:trigger PdeAfter(s, s1, a / 1024, PdeEnd(a, n), k)} :: 0 <= k < 1024 ==>
      PdeAfter(s, s1, a / 1024, PdeEnd(a, n), k)
  }

  /** Where the loop of malloc_page stands after `n` pages from `a` on. */
  ghost predicate Progress(m: Mem, m1: Mem, kern: bool, a: nat, n: nat)
    requires SelfMapped(m.space) && SelfMapped(m1.space) && a + n <= 1023 * 1024
  {
    && DirAfter(m.space, m1.space, a, n) && Spent(m, m1, kern, n, TablesShort(m.space, a, n))
    && Enough(m, kern, a, n)
  }

  /** The table that one more page needs is the one it adds to the count. */
  lemma OneMoreTable(s: Space, s1: Space, a: nat, n: nat)
    requires SelfMapped(s) && SelfMapped(s1) && a + n < 1023 * 1024 && DirAfter(s, s1, a, n)
    ensures TablesShort(s, a, n + 1) == TablesShort(s, a, n) + TablesFor(s1, (a + n) / 1024)
  {
    PdeNext(a, n);
    assert PdeAfter(s, s1, a / 1024, PdeEnd(a, n), (a + n) / 1024);
  }

  /** One more page can be had exactly if there were frames for all of them. */
  lemma NextFrames(m: Mem, m1: Mem, kern: bool, a: nat, n: nat, next: nat, p: nat)
    requires SelfMapped(m.space) && SelfMapped(m1.space) && p == a + n < 1023 * 1024 && next == n + 1
    requires Progress(m, m1, kern, a, n)
    ensures CanMap(m1, kern, p) <==> Enough(m, kern, a, next)
  {
    OneMoreTable(m.space, m1.space, a, n);
  }

  lemma NextProgress(m: Mem, m1: Mem, m2: Mem, kern: bool, a: nat, n: nat, next: nat, p: nat)
    requires SelfMapped(m.space) && SelfMapped(m1.space) && SelfMapped(m2.space)
    requires p == a + n < 1023 * 1024 && next == n + 1 && Progress(m, m1, kern, a, n)
    requires Enough(m, kern, a, next) && SpentFor(m1, m2, kern, p)
    ensures Progress(m, m2, kern, a, next)
  {
    OneMoreTable(m.space, m1.space, a, n);
    PdeNext(a, n);
    forall k | 0 <= k < 1024 ensures PdeAfter(m.space, m2.space, a / 1024, PdeEnd(a, next), k) {
      assert PdeAfter(m.space, m1.space, a / 1024, PdeEnd(a, n), k) && SamePde(m1.space, m2.space, p / 1024, k);
    }
  }

  lemma NoProgress(m: Mem, kern: bool, a: nat)
    requires SelfMapped(m.space) && a <= 1023 * 1024
    ensures Progress(m, m, kern, a, 0)
  {
    forall k | 0 <= k < 1024 ensures PdeAfter(m.space, m.space, a / 1024, PdeEnd(a, 0), k) {
    }
  }

  /** The loop of malloc_page before page `i`, when it started in state `m` with page `r`. */
  ghost predicate Mapping(m: Mem, m1: Mem, kern: bool, r: nat, i: nat, hi: nat, got: seq<nat>, tabs: set<nat>)
    requires Core(m) && AreaFits(AreaOf(m, kern))
  {
    && r + |got| == i <= hi <= |AreaOf(m, kern).bits| && m1.kheap == m.kheap && m1.uheap == m.uheap
    && MemOk(m1, kern, i, hi) && Gave(m, m1, kern, PageNo(m, kern, r), got, tabs)
    && Progress(m, m1, kern, PageNo(m, kern, r), |got|)
  }

  /** One round of the loop of malloc_page: page number `n`, counted from one. */
  method MapOne(ghost m: Mem, m1: Mem, kern: bool, ghost r: nat, i: nat, ghost next: nat, ghost hi: nat,
      ghost got: seq<nat>, ghost tabs: set<nat>, ghost n: nat, stale: seq<Pte>)
    returns (ok: bool, m2: Mem, ghost got1: seq<nat>, ghost tabs1: set<nat>)
    requires Core(m) && AreaFits(AreaOf(m, kern)) && Mapping(m, m1, kern, r, i, hi, got, tabs)
    requires i < hi && AreaOf(m, kern).bits[i] && |stale| == 1024 && next == i + 1 && n == |got| + 1
    ensures ok <==> Enough(m, kern, PageNo(m, kern, r), n)
    ensures ok ==> Mapping(m, m2, kern, r, next, hi, got1, tabs1)
  {
    ghost var x, more;
    got1, tabs1 := got, tabs;
    assert PageOk(m1, kern, i, i, hi);
    ghost var a, p := PageNo(m, kern, r), PageNo(m, kern, i);
    assert p == PageNo(m1, kern, i) == a + |got|;
    NextFrames(m, m1, kern, a, |got|, n, p);
    ok, m2, x, more := MapPage(m1, kern, PageNo(m1, kern, i), stale);
    if ok {
      NextProgress(m, m1, m2, kern, a, |got|, n, p);
      OneMoreOk(m1, m2, kern, i, x, more, hi);
      GaveMore(m, m1, m2, kern, a, got, tabs, p, x, more);
      got1, tabs1 := got + [x], tabs + more;
    }
  }

  /** One round of the loop of malloc_page on the way to `cnt` pages. */
  method MapNext(ghost m: Mem, m1: Mem, kern: bool, ghost r: nat, i: nat, ghost next: nat, ghost hi: nat,
      ghost got: seq<nat>, ghost tabs: set<nat>, ghost cnt: nat, stale: seq<Pte>)
    returns (ok: bool, m2: Mem, ghost got1: seq<nat>, ghost tabs1: set<nat>)
    requires Core(m) && AreaFits(AreaOf(m, kern)) && Mapping(m, m1, kern, r, i, hi, got, tabs)
    requires i < hi && AreaOf(m, kern).bits[i] && |stale| == 1024 && next == i + 1 && hi == r + cnt
    ensures !ok ==> !Enough(m, kern, PageNo(m, kern, r), cnt)
    ensures ok ==> Mapping(m, m2, kern, r, next, hi, got1, tabs1)
  {
    FewerFrames(m, kern, PageNo(m, kern, r), |got| + 1, cnt);
    ok, m2, got1, tabs1 := MapOne(m, m1, kern, r, i, next, hi, got, tabs, |got| + 1, stale);
  }

  lemma StartMapping(m: Mem, kern: bool, r: nat, hi: nat)
    requires MemOk(m, kern, r, hi) && r <= hi <= |AreaOf(m, kern).bits|
    ensures Mapping(m, m, kern, r, r, hi, [], {})
  {
    GaveNothing(m, kern, PageNo(m, kern, r));
    NoProgress(m, kern, PageNo(m, kern, r));
  }

  /** What the loop of malloc_page has done in the end. */
  ghost predicate MappedAll(m: Mem, m1: Mem, kern: bool, r: nat, cnt: nat, got: seq<nat>, tabs: set<nat>)
    requires Core(m) && AreaFits(AreaOf(m, kern)) && r + cnt <= |AreaOf(m, kern).bits|
  {
    && MemOk(m1, kern, 0, 0) && m1.kheap == m.kheap && m1.uheap == m.uheap && |got| == cnt
    && Gave(m, m1, kern, PageNo(m, kern, r), got, tabs)
    && Spent(m, m1, kern, cnt, TablesShort(m.space, PageNo(m, kern, r), cnt))
  }

  lemma EndMapping(m: Mem, m1: Mem, kern: bool, r: nat, hi: nat, cnt: nat, got: seq<nat>, tabs: set<nat>)
    requires Core(m) && AreaFits(AreaOf(m, kern)) && hi == r + cnt <= |AreaOf(m, kern).bits|
    requires Mapping(m, m1, kern, r, hi, hi, got, tabs)
    ensures MappedAll(m, m1, kern, r, cnt, got, tabs) && Enough(m, kern, PageNo(m, kern, r), cnt)
  {
    HolesClosed(m1, kern, hi);
  }

  /** The loop of malloc_page: a frame for each page from `r` to `r + cnt`.  It comes back exactly if
      there are frames for the pages and for the tables they are short of. */
  method MapPages(m: Mem, kern: bool, r: nat, cnt: nat, stale: seq<Pte>)
    returns (ok: bool, m1: Mem, ghost got: seq<nat>, ghost tabs: set<nat>)
    requires MemOk(m, kern, r, r + cnt) && r + cnt <= |AreaOf(m, kern).bits| && |stale| == 1024
    requires forall i :: r <= i < r + cnt ==> AreaOf(m, kern).bits[i]
    ensures ok <==> Enough(m, kern, PageNo(m, kern, r), cnt)
    ensures ok ==> MappedAll(m, m1, kern, r, cnt, got, tabs)
  {
    ok, m1, got, tabs := true, m, [], {};
    var i, hi := r, r + cnt;
    StartMapping(m, kern, r, hi);
    while i < hi
      invariant ok && i <= hi && Mapping(m, m1, kern, r, i, hi, got, tabs)
    {
      var next := i + 1;
      ok, m1, got, tabs := MapNext(m, m1, kern, r, i, next, hi, got, tabs, cnt, stale);
      if !ok {
        return;
      }
      i := next;
    }
    EndMapping(m, m1, kern, r, hi, cnt, got, tabs);
  }

  /** The outcome of malloc_page: the number of the first page, NULL for want of a run of free pages, or
      no return for want of any free page or of frames. */
  datatype Pages = Null | Got(page: nat) | Stopped

  /** There are frames for `cnt` pages from bit `r` of the area on. */
  predicate FramesFor(m: Mem, kern: bool, r: nat, cnt: nat)
    requires Core(m) && AreaFits(AreaOf(m, kern)) && r + cnt <= |AreaOf(m, kern).bits|
  {
    Enough(m, kern, PageNo(m, kern, r), cnt)
  }

  /** What malloc_page does once it has the run at `r`. */
  ghost predicate Given(m: Mem, m1: Mem, kern: bool, r: nat, cnt: nat, got: seq<nat>, tabs: set<nat>)
    requires MemOk(m, kern, 0, 0) && r + cnt <= |AreaOf(m, kern).bits|
  {
    && MemOk(m1, kern, 0, 0) && |got| == cnt && Gave(m, m1, kern, PageNo(m, kern, r), got, tabs)
    && Spent(m, m1, kern, cnt, TablesShort(m.space, PageNo(m, kern, r), cnt))
    && AreaOf(m1, kern) == AreaOf(m, kern).(bits := Filled(AreaOf(m, kern).bits, r, cnt, true))
    && AreaOf(m1, !kern) == AreaOf(m, !kern)
  }

  /** malloc_page.  `r` is the leftmost run of free pages, if there is one. */
  method MallocPage(m: Mem, kern: bool, cnt: nat, stale: seq<Pte>)
    returns (p: Pages, m1: Mem, ghost r: int, ghost got: seq<nat>, ghost tabs: set<nat>)
    requires MemOk(m, kern, 0, 0) && 0 < cnt < 3840 && |stale| == 1024
    ensures Leftmost(AreaOf(m, kern).bits, cnt, r) && (r != -1 ==> 0 <= r && r + cnt <= |AreaOf(m, kern).bits|)
    ensures p.Null? <==> r == -1 && !Full(AreaOf(m, kern).bits)
    ensures p.Got? <==> r != -1 && FramesFor(m, kern, r, cnt)
    ensures !p.Got? ==> m1 == m
    ensures p.Got? ==> p.page == PageNo(m, kern, r) && Given(m, m1, kern, r, cnt, got, tabs)
  {
    m1, got, tabs := m, [], {};
    var halts, at, area := VaddrGet(AreaOf(m, kern), cnt);
    r := at;
    if at == -1 {
      return if halts then Stopped else Null, m, r, got, tabs;
    }
    var m0 := WithArea(m, kern, area);
    OpenHoles(m, m0, kern, at, cnt);
    p := Stopped;
    var ok, m2;
    ok, m2, got, tabs := MapPages(m0, kern, at, cnt, stale);
    RunFrames(m, m0, kern, at, cnt);
    if ok {
      RunGiven(m, m0, m2, kern, at, cnt, got, tabs);
      m1 := m2;
      p := Got(AreaOf(m, kern).first + at);
    }
  }

  /** The bits of the area do not matter for the frames. */
  lemma RunFrames(m: Mem, m0: Mem, kern: bool, r: nat, cnt: nat)
    requires Core(m) && Core(m0) && AreaFits(AreaOf(m, kern)) && r + cnt <= |AreaOf(m, kern).bits|
    requires m0 == WithArea(m, kern, AreaOf(m0, kern)) && AreaOf(m0, kern).first == AreaOf(m, kern).first
    ensures FramesFor(m, kern, r, cnt) <==> Enough(m0, kern, PageNo(m0, kern, r), cnt)
  {
  }

  lemma RunGiven(m: Mem, m0: Mem, m1: Mem, kern: bool, r: nat, cnt: nat, got: seq<nat>, tabs: set<nat>)
    requires MemOk(m, kern, 0, 0) && r + cnt <= |AreaOf(m, kern).bits| && Core(m0)
    requires m0 == WithArea(m, kern, AreaOf(m, kern).(bits := Filled(AreaOf(m, kern).bits, r, cnt, true)))
    requires AreaFits(AreaOf(m0, kern)) && MappedAll(m0, m1, kern, r, cnt, got, tabs)
    ensures Given(m, m1, kern, r, cnt, got, tabs)
  {
    GaveFrom(m, m0, m1, kern, PageNo(m, kern, r), got, tabs);
  }

  /** malloc_page gives `cnt` pages: there is a run of free pages, and there are frames for its leftmost
      one. */
  ghost predicate Gives(m: Mem, kern: bool, cnt: nat)
    requires Core(m) && AreaFits(AreaOf(m, kern))
  {
    exists r: nat :: Leftmost(AreaOf(m, kern).bits, cnt, r) && r + cnt <= |AreaOf(m, kern).bits|
                     && FramesFor(m, kern, r, cnt)
  }

  /** malloc_page answers NULL: there are free pages, but no run of `cnt`. */
  ghost predicate Refuses(m: Mem, kern: bool, cnt: nat) {
    Leftmost(AreaOf(m, kern).bits, cnt, -1) && !Full(AreaOf(m, kern).bits)
  }

  /** The answers of malloc_page, whichever run it found. */
  lemma GivesOrNot(m: Mem, kern: bool, cnt: nat, r: int)
    requires Core(m) && AreaFits(AreaOf(m, kern)) && Leftmost(AreaOf(m, kern).bits, cnt, r) && r >= -1
    ensures r != -1 ==> r + cnt <= |AreaOf(m, kern).bits|
    ensures Gives(m, kern, cnt) <==> r != -1 && FramesFor(m, kern, r, cnt)
    ensures Refuses(m, kern, cnt) <==> r == -1 && !Full(AreaOf(m, kern).bits)
  {
    assert r != -1 ==> IsRun(AreaOf(m, kern).bits, r, cnt);
    forall q: nat | Leftmost(AreaOf(m, kern).bits, cnt, q) ensures q == r {
      assert r == -1 ==> !IsRun(AreaOf(m, kern).bits, q, cnt);
      assert q < r ==> !IsRun(AreaOf(m, kern).bits, q, cnt);
      assert r < q ==> !IsRun(AreaOf(m, kern).bits, r, cnt);
    }
  }

  /** A single page is never refused: a free page is a run of one. */
  lemma OnePage(m: Mem, kern: bool)
    ensures !Refuses(m, kern, 1)
  {
    if Refuses(m, kern, 1) {
      OneBit(AreaOf(m, kern).bits, -1);
    }
  }

  /** Areas do not matter for what was given. */
  lemma GaveFrom(m: Mem, m0: Mem, m1: Mem, kern: bool, a: nat, got: seq<nat>, tabs: set<nat>)
    requires Core(m) && Core(m0) && Core(m1) && 1024 <= a && a + |got| <= 1023 * 1024
    requires m0.space == m.space && m0.kernel == m.kernel && m0.user == m.user && Gave(m0, m1, kern, a, got, tabs)
    ensures Gave(m, m1, kern, a, got, tabs)
  {
    forall k | 0 <= k < 1024 ensures DirKept(m, m1, tabs, k) {
      assert DirKept(m0, m1, tabs, k);
    }
  }

  // ----- mfree_page

  /** One page is unmapped: its entry keeps the frame number and loses the present bit, and the frame,
      number `n` of the pool, is free again. */
  ghost predicate OneLess(m: Mem, m1: Mem, kern: bool, p: nat, n: nat)
    requires SpaceOk(m.space) && SpaceOk(m1.space) && Plain(p)
  {
    && n < |PoolOf(m, kern).bits| && Page(m.space, p) == Pte(Frame(PoolOf(m, kern), n), true)
    && Page(m1.space, p) == Pte(Frame(PoolOf(m, kern), n), false)
    && (forall q: nat :: Plain(q) && q != p ==> Page(m1.space, q) == Page(m.space, q))
    && (forall a {:trigger Pde(m1.space, a)} :: 0 <= a < 1024 ==> Pde(m1.space, a) == Pde(m.space, a))
    && m1 == WithPool(m, kern, PoolOf(m, kern).(bits := PoolOf(m, kern).bits[n := false])).(space := m1.space)
  }

  /** pfree: the pool is told by the address of the frame. */
  method Pfree(m: Mem, f: nat, ghost kern: bool, ghost n: nat) returns (m1: Mem)
    requires PoolsOk(m) && n < |PoolOf(m, kern).bits| && f == Frame(PoolOf(m, kern), n)
    ensures m1 == WithPool(m, kern, PoolOf(m, kern).(bits := PoolOf(m, kern).bits[n := false]))
  {
    if f >= m.user.start {
      var i := (f - m.user.start) / 0x1000;
      assert i == n;
      m1 := m.(user := m.user.(bits := m.user.bits[i := false]));
    } else {
      var i := (f - m.kernel.start) / 0x1000;
      assert i == n;
      m1 := m.(kernel := m.kernel.(bits := m.kernel.bits[i := false]));
    }
  }

  /** One round of the loops of mfree_page, with their assertions. */
  method UnmapPage(m: Mem, ghost kern: bool, p: nat) returns (m1: Mem, ghost n: nat)
    requires Core(m) && Plain(p) && Page(m.space, p).present && Taken(PoolOf(m, kern), Page(m.space, p).frame)
    ensures SpaceOk(m1.space) && OneLess(m, m1, kern, p, n)
  {
    n :| n < |PoolOf(m, kern).bits| && Page(m.space, p).frame == Frame(PoolOf(m, kern), n) && PoolOf(m, kern).bits[n];
    var f := Page(m.space, p).frame;
    PageTranslate(m.space, p);
    AddrV2p(m.space, 0x1000 * p);
    FrameAligned(PoolOf(m, kern), n);
    assert f % 0x1000 == 0 && f >= 0x10_2000;
    assert kern <==> f < m.user.start;
    m1 := Pfree(m, f, kern, n);
    SetPteOk(m.space, p, Pte(f, false));
    m1 := m1.(space := SetPte(m.space, p, Pte(f, false)));
  }

  lemma OneLessCore(m: Mem, m1: Mem, kern: bool, p: nat, n: nat)
    requires Core(m) && SpaceOk(m1.space) && Plain(p) && OneLess(m, m1, kern, p, n)
    requires NoTable(m.space, Page(m.space, p).frame)
    ensures Core(m1)
  {
    forall a | 0 <= a < 1024 && Pde(m1.space, a).present ensures Held(m1.kernel, Pde(m1.space, a).frame) {
      var t := Pde(m.space, a).frame;
      assert Held(m.kernel, t);
      forall i | 0 <= i < |m1.kernel.bits| && t == Frame(m1.kernel, i) ensures m1.kernel.bits[i] {
        assert t == Frame(m.kernel, i);
      }
    }
  }

  /** A page of either area that was not the one unmapped. */
  lemma PageLeft(m: Mem, m1: Mem, kern: bool, p: nat, n: nat, of: bool, i: nat, lo: nat, hi: nat, hi1: nat)
    requires Core(m) && Core(m1) && Plain(p) && OneLess(m, m1, kern, p, n)
    requires AreaFits(AreaOf(m, of)) && i < |AreaOf(m, of).bits| && PageOk(m, of, i, lo, hi) && PageNo(m, of, i) != p
    requires of == kern && Page(m.space, PageNo(m, of, i)).present ==>
             Page(m.space, PageNo(m, of, i)).frame != Page(m.space, p).frame
    requires lo <= i < hi <==> lo <= i < hi1
    ensures PageOk(m1, of, i, lo, hi1)
  {
    var e := Page(m.space, PageNo(m, of, i));
    if e.present {
      forall a | 0 <= a < 1024 && Pde(m1.space, a).present ensures Pde(m1.space, a).frame != e.frame {
        assert Pde(m.space, a).frame != e.frame;
      }
      var k: nat :| k < |PoolOf(m, of).bits| && e.frame == Frame(PoolOf(m, of), k) && PoolOf(m, of).bits[k];
      assert e.frame == Frame(PoolOf(m1, of), k) && PoolOf(m1, of).bits[k];
    }
  }

  lemma SameAreaLess(m: Mem, m1: Mem, kern: bool, lo: nat, i: nat, next: nat, n: nat)
    requires Core(m) && Core(m1) && AreaOk(m, kern, lo, i) && lo <= i < |AreaOf(m, kern).bits| && next == i + 1
    requires AreaOf(m, kern).bits[i]
    requires OneLess(m, m1, kern, PageNo(m, kern, i), n)
    ensures AreaOk(m1, kern, lo, next)
  {
    var p := PageNo(m, kern, i);
    forall j | 0 <= j < |AreaOf(m, kern).bits| ensures PageOk(m1, kern, j, lo, next) {
      assert PageOk(m, kern, j, lo, i) && Differ(m, kern, i, j);
      if j != i {
        PageLeft(m, m1, kern, p, n, kern, j, lo, i, next);
      }
    }
    forall j, k | 0 <= j < |AreaOf(m, kern).bits| && 0 <= k < |AreaOf(m, kern).bits| ensures Differ(m1, kern, j, k) {
      assert Differ(m, kern, j, k);
    }
  }

  lemma OtherAreaLess(m: Mem, m1: Mem, kern: bool, of: bool, p: nat, n: nat)
    requires Core(m) && Core(m1) && Plain(p) && of != kern && AreaOk(m, of, 0, 0) && OneLess(m, m1, kern, p, n)
    requires forall j :: 0 <= j < |AreaOf(m, of).bits| ==> PageNo(m, of, j) != p
    ensures AreaOk(m1, of, 0, 0)
  {
    forall j | 0 <= j < |AreaOf(m, of).bits| ensures PageOk(m1, of, j, 0, 0) {
      assert PageOk(m, of, j, 0, 0);
      PageLeft(m, m1, kern, p, n, of, j, 0, 0, 0);
    }
    forall j, k | 0 <= j < |AreaOf(m, of).bits| && 0 <= k < |AreaOf(m, of).bits| ensures Differ(m1, of, j, k) {
      assert Differ(m, of, j, k);
      DifferSame(m, m1, of, j, k);
    }
  }

  lemma OneLessOk(m: Mem, m1: Mem, kern: bool, lo: nat, i: nat, n: nat)
    requires MemOk(m, kern, lo, i) && SpaceOk(m1.space) && lo <= i < |AreaOf(m, kern).bits| && AreaOf(m, kern).bits[i]
    requires OneLess(m, m1, kern, PageNo(m, kern, i), n)
    ensures MemOk(m1, kern, lo, i + 1)
  {
    assert PageOk(m, kern, i, lo, i);
    OneLessCore(m, m1, kern, PageNo(m, kern, i), n);
    SameAreaLess(m, m1, kern, lo, i, i + 1, n);
    OtherAreaLess(m, m1, kern, !kern, PageNo(m, kern, i), n);
  }

  /** `bits1` is `bits` with the positions in `less` cleared. */
  ghost predicate ClearMore(bits: seq<bool>, bits1: seq<bool>, less: set<nat>) {
    |bits1| == |bits| && forall n :: 0 <= n < |bits| ==> (bits1[n] <==> bits[n] && n !in less)
  }

  /** Pages from `a` on lost the frames `gone`; nothing else of the address space or the pools changed. */
  ghost predicate Took(m: Mem, m1: Mem, kern: bool, a: nat, gone: seq<nat>)
    requires SpaceOk(m.space) && SpaceOk(m1.space) && 1024 <= a && a + |gone| <= 1023 * 1024
  {
    && (forall q: nat :: a <= q < a + |gone| ==>
          Page(m.space, q) == Pte(Frame(PoolOf(m, kern), gone[q - a]), true) && !Page(m1.space, q).present)
    && (forall q: nat :: Plain(q) && !(a <= q < a + |gone|) ==> Page(m1.space, q) == Page(m.space, q))
    && (forall k {:trigger Pde(m1.space, k)} :: 0 <= k < 1024 ==> Pde(m1.space, k) == Pde(m.space, k))
    && SamePlaces(m, m1) && ClearMore(PoolOf(m, kern).bits, PoolOf(m1, kern).bits, Nums(gone))
    && PoolOf(m1, !kern) == PoolOf(m, !kern)
  }

  lemma TookMore(m: Mem, m1: Mem, m2: Mem, kern: bool, a: nat, gone: seq<nat>, n: nat)
    requires SpaceOk(m.space) && SpaceOk(m1.space) && SpaceOk(m2.space) && 1024 <= a && a + |gone| < 1023 * 1024
    requires Took(m, m1, kern, a, gone) && OneLess(m1, m2, kern, a + |gone|, n)
    ensures Took(m, m2, kern, a, gone + [n])
  {
    assert Nums(gone + [n]) == Nums(gone) + {n};
    forall k | 0 <= k < 1024 ensures Pde(m2.space, k) == Pde(m.space, k) {
      assert Pde(m2.space, k) == Pde(m1.space, k);
    }
  }

  /** One round of the loop of mfree_page, `m` being the state before the first one. */
  method UnmapNext(ghost m: Mem, m1: Mem, kern: bool, ghost r: nat, i: nat, ghost next: nat, ghost a: nat,
      ghost gone: seq<nat>)
    returns (m2: Mem, ghost gone1: seq<nat>)
    requires SpaceOk(m.space) && MemOk(m1, kern, r, i) && i < |AreaOf(m1, kern).bits| && AreaOf(m1, kern).bits[i]
    requires i == r + |gone| && next == i + 1 && a == PageNo(m1, kern, r) && 1024 <= a && Took(m, m1, kern, a, gone)
    ensures MemOk(m2, kern, r, next) && m2.kheap == m1.kheap && m2.uheap == m1.uheap
    ensures |gone1| == |gone| + 1 && Took(m, m2, kern, a, gone1)
  {
    ghost var n;
    assert PageOk(m1, kern, i, r, i);
    m2, n := UnmapPage(m1, kern, PageNo(m1, kern, i));
    OneLessOk(m1, m2, kern, r, i, n);
    TookMore(m, m1, m2, kern, a, gone, n);
    gone1 := gone + [n];
  }

  lemma TookNothing(m: Mem, kern: bool, a: nat)
    requires SpaceOk(m.space) && 1024 <= a <= 1023 * 1024
    ensures Took(m, m, kern, a, [])
  {
  }

  lemma HolesStart(m: Mem, kern: bool, n: nat)
    requires MemOk(m, kern, 0, 0)
    ensures MemOk(m, kern, n, n)
  {
    forall i | 0 <= i < |AreaOf(m, kern).bits| ensures PageOk(m, kern, i, n, n) {
      assert PageOk(m, kern, i, 0, 0);
    }
  }

  /** Clearing the bits of unmapped pages restores the rule. */
  lemma HolesCleared(m: Mem, kern: bool, r: nat, cnt: nat)
    requires MemOk(m, kern, r, r + cnt) && r + cnt <= |AreaOf(m, kern).bits|
    ensures MemOk(WithArea(m, kern, AreaOf(m, kern).(bits := Filled(AreaOf(m, kern).bits, r, cnt, false))), kern, 0, 0)
  {
    var area := AreaOf(m, kern);
    var m1 := WithArea(m, kern, area.(bits := Filled(area.bits, r, cnt, false)));
    forall i | 0 <= i < |AreaOf(m1, kern).bits| ensures PageOk(m1, kern, i, 0, 0) {
      assert PageOk(m, kern, i, r, r + cnt);
    }
    forall i, j | 0 <= i < |AreaOf(m1, kern).bits| && 0 <= j < |AreaOf(m1, kern).bits| ensures Differ(m1, kern, i, j) {
      assert Differ(m, kern, i, j);
    }
    AreaUntouched(m, m1, !kern);
  }

  /** mfree_page of pages that are in use. */
  method MfreePage(m: Mem, kern: bool, r: nat, cnt: nat) returns (m1: Mem, ghost gone: seq<nat>)
    requires MemOk(m, kern, 0, 0) && 0 < cnt && r + cnt <= |AreaOf(m, kern).bits|
    requires forall i :: r <= i < r + cnt ==> AreaOf(m, kern).bits[i]
    ensures MemOk(m1, kern, 0, 0) && |gone| == cnt && Took(m, m1, kern, PageNo(m, kern, r), gone)
    ensures AreaOf(m1, kern) == AreaOf(m, kern).(bits := Filled(AreaOf(m, kern).bits, r, cnt, false))
    ensures AreaOf(m1, !kern) == AreaOf(m, !kern)
  {
    m1, gone := m, [];
    ghost var a := PageNo(m, kern, r);
    TookNothing(m, kern, a);
    HolesStart(m, kern, r);
    var i, hi := r, r + cnt;
    while i < hi
      invariant r + |gone| == i <= hi && m1.kheap == m.kheap && m1.uheap == m.uheap
      invariant MemOk(m1, kern, r, i) && Took(m, m1, kern, a, gone)
    {
      var next := i + 1;
      m1, gone := UnmapNext(m, m1, kern, r, i, next, a, gone);
      i := next;
    }
    HolesCleared(m1, kern, r, cnt);
    var bits := SetRun(AreaOf(m1, kern).bits, r, cnt, false);
    TookTo(m, m1, WithArea(m1, kern, AreaOf(m1, kern).(bits := bits)), kern, a, gone);
    m1 := WithArea(m1, kern, AreaOf(m1, kern).(bits := bits));
  }

  /** Areas do not matter for what was taken. */
  lemma TookTo(m: Mem, m1: Mem, m2: Mem, kern: bool, a: nat, gone: seq<nat>)
    requires SpaceOk(m.space) && SpaceOk(m1.space) && 1024 <= a && a + |gone| <= 1023 * 1024
    requires Took(m, m1, kern, a, gone)
    requires m2.space == m1.space && m2.kernel == m1.kernel && m2.user == m1.user
    ensures Took(m, m2, kern, a, gone)
  {
  }

  // ----- malloc_page and then mfree_page

  /** mfree_page after malloc_page restores the address bitmap, the presence and the frames of all pages
      and the pools, apart from frames that became page tables. */
  lemma FreeRestores(m: Mem, m1: Mem, m2: Mem, kern: bool, r: nat, cnt: nat, got: seq<nat>, tabs: set<nat>,
      gone: seq<nat>)
    requires MemOk(m, kern, 0, 0) && Core(m1) && Core(m2) && IsRun(AreaOf(m, kern).bits, r, cnt)
    requires |got| == cnt == |gone|
    requires Gave(m, m1, kern, PageNo(m, kern, r), got, tabs) && Took(m1, m2, kern, PageNo(m, kern, r), gone)
    requires AreaOf(m1, kern).bits == Filled(AreaOf(m, kern).bits, r, cnt, true)
    requires AreaOf(m2, kern).bits == Filled(AreaOf(m1, kern).bits, r, cnt, false)
    ensures AreaOf(m2, kern).bits == AreaOf(m, kern).bits
    ensures forall q: nat :: Plain(q) ==> Page(m2.space, q).present == Page(m.space, q).present
    ensures forall q: nat :: Plain(q) && Page(m.space, q).present ==> Page(m2.space, q) == Page(m.space, q)
    ensures m2.user.bits == m.user.bits && SetMore(m.kernel.bits, m2.kernel.bits, tabs)
  {
    SameFrames(m, m1, m2, kern, PageNo(m, kern, r), got, tabs, gone);
    RestoredPages(m, m1, m2, kern, r, cnt, got, tabs, gone);
    BitsBack(m, m1, m2, kern, got, tabs);
  }

  /** The frames given back are the frames given. */
  lemma SameFrames(m: Mem, m1: Mem, m2: Mem, kern: bool, a: nat, got: seq<nat>, tabs: set<nat>, gone: seq<nat>)
    requires Core(m) && Core(m1) && Core(m2) && |got| == |gone| && 1024 <= a && a + |got| <= 1023 * 1024
    requires Gave(m, m1, kern, a, got, tabs) && Took(m1, m2, kern, a, gone)
    ensures got == gone
  {
    forall i | 0 <= i < |got| ensures got[i] == gone[i] {
      assert Page(m1.space, a + i).frame == Frame(PoolOf(m, kern), got[i]) == Frame(PoolOf(m1, kern), gone[i]);
    }
  }

  lemma BitsBack(m: Mem, m1: Mem, m2: Mem, kern: bool, got: seq<nat>, tabs: set<nat>)
    requires SetMore(m.kernel.bits, m1.kernel.bits, if kern then tabs + Nums(got) else tabs)
    requires SetMore(m.user.bits, m1.user.bits, if kern then {} else Nums(got))
    requires ClearMore(PoolOf(m1, kern).bits, PoolOf(m2, kern).bits, Nums(got))
    requires PoolOf(m2, !kern) == PoolOf(m1, !kern)
    requires kern ==> tabs !! Nums(got)
    ensures m2.user.bits == m.user.bits && SetMore(m.kernel.bits, m2.kernel.bits, tabs)
  {
  }

  lemma RestoredPages(m: Mem, m1: Mem, m2: Mem, kern: bool, r: nat, cnt: nat, got: seq<nat>, tabs: set<nat>,
      gone: seq<nat>)
    requires MemOk(m, kern, 0, 0) && Core(m1) && Core(m2) && IsRun(AreaOf(m, kern).bits, r, cnt)
    requires |got| == cnt == |gone|
    requires Gave(m, m1, kern, PageNo(m, kern, r), got, tabs) && Took(m1, m2, kern, PageNo(m, kern, r), gone)
    ensures forall q: nat :: Plain(q) ==> Page(m2.space, q).present == Page(m.space, q).present
    ensures forall q: nat :: Plain(q) && Page(m.space, q).present ==> Page(m2.space, q) == Page(m.space, q)
  {
    var a := PageNo(m, kern, r);
    forall q: nat | Plain(q) ensures Page(m2.space, q).present == Page(m.space, q).present
      && (Page(m.space, q).present ==> Page(m2.space, q) == Page(m.space, q)) {
      if a <= q < a + cnt {
        assert PageOk(m, kern, q - AreaOf(m, kern).first, 0, 0);
      }
    }
  }

  // ----- mem_pool_init

  function Clear(n: nat): (bits: seq<bool>) {
    seq(n, _ => false)
  }

  /** The low megabyte and 256 page frames of page tables. */
  const USED_MEMORY := 0x20_0000

  /** The number of free pages, which is kept in 16 bits. */
  function FreePages(memory: nat): (n: nat)
    requires USED_MEMORY <= memory
  {
    (memory - USED_MEMORY) / 0x1000 % 0x1_0000
  }

  /** mem_pool_init: half of the free pages for each pool, in whole bytes of bitmap. */
  function KernelPool(memory: nat): (pool: Pool)
    requires USED_MEMORY <= memory
  {
    Pool(USED_MEMORY, Clear(8 * (FreePages(memory) / 2 / 8)), 0x1000 * (FreePages(memory) / 2))
  }

  function UserPool(memory: nat): (pool: Pool)
    requires USED_MEMORY <= memory
  {
    var k := FreePages(memory) / 2;
    Pool(USED_MEMORY + 0x1000 * k, Clear(8 * ((FreePages(memory) - k) / 8)), 0x1000 * (FreePages(memory) - k))
  }

  /** The kernel heap from 0xc0100000 on, with a bit for each page of the kernel pool. */
  function KernelHeap(memory: nat): (area: Area)
    requires USED_MEMORY <= memory
  {
    Area(0xc_0100, Clear(8 * (FreePages(memory) / 2 / 8)))
  }

  /** The pools do not overlap and lie in memory; at most 14 free pages are left out of both exactly
      when there is less than 256 MB of free memory. */
  lemma PoolsFit(memory: nat)
    requires USED_MEMORY <= memory < 0x1_0000_0000
    ensures var k, u := KernelPool(memory), UserPool(memory);
            && k.start % 0x1000 == 0 && u.start % 0x1000 == 0 && 0x10_2000 <= k.start
            && Frame(k, |k.bits|) <= u.start && Frame(u, |u.bits|) <= memory
            && ((memory - USED_MEMORY) / 0x1000 - |k.bits| - |u.bits| <= 14 <==> memory - USED_MEMORY < 0x1000_0000)
    ensures AreaFits(KernelHeap(memory))
  {
    var n := (memory - USED_MEMORY) / 0x1000;
    var all := n % 0x1_0000;
    assert n < 0x1_0000 <==> memory - USED_MEMORY < 0x1000_0000;
    assert all <= n && (n >= 0x1_0000 ==> all <= n - 0x1_0000);
  }

  // ----- the page tables that the loader leaves

  /** What setup_page writes to the directory: the first table serves the low megabyte and the start of
      the kernel, 254 more tables the rest of the kernel, and the last entry is the directory. */
  function LoaderPde(k: nat): (e: Pte) {
    if k == 0 || k == 768 then Pte(0x10_1000, true)
    else if 769 <= k < 1023 then Pte(0x10_2000 + 0x1000 * (k - 769), true)
    else if k == 1023 then Pte(0x10_0000, true)
    else Pte(0, false)
  }

  /** The address space as the loader leaves it: the directory at one megabyte, the tables behind it,
      and the low megabyte mapped by the first table. */
  ghost predicate Loaded(s: Space) {
    && s.dirAt == 0x10_0000 && s.dirAt in s.tables && (forall t :: t in s.tables ==> |s.tables[t]| == 1024)
    && (forall k :: 0 <= k < 1024 ==> s.tables[s.dirAt][k] == LoaderPde(k))
    && (forall k :: 0 <= k < 1024 && LoaderPde(k).present ==> LoaderPde(k).frame in s.tables)
    && 0x10_1000 in s.tables && forall i :: 0 <= i < 256 ==> s.tables[0x10_1000][i] == Pte(0x1000 * i, true)
  }

  lemma LoadedSpace(s: Space)
    requires Loaded(s)
    ensures SpaceOk(s) && forall k {:trigger Pde(s, k)} :: 0 <= k < 1024 ==> Pde(s, k) == LoaderPde(k)
  {
    forall k | 0 <= k < 1024 ensures TableOk(s, k) {
      assert s.tables[s.dirAt][k] == LoaderPde(k);
      if 769 <= k < 1023 {
        assert LoaderPde(k).frame % 0x1000 == 0;
      }
    }
    forall a, b | 1 <= a < 1023 && 1 <= b < 1023 ensures Apart(s, a, b) {
      assert Pde(s, a) == LoaderPde(a) && Pde(s, b) == LoaderPde(b);
    }
  }

  /** The megabyte that the kernel runs in is mapped at 0xc0000000: these pages are present and belong to
      neither area. */
  lemma KernelMapped(s: Space, i: nat)
    requires Loaded(s) && i < 256
    ensures SelfMapped(s) && Page(s, 0xc_0000 + i) == Pte(0x1000 * i, true)
  {
    LoadedSpace(s);
    assert Pde(s, 768) == LoaderPde(768);
    assert (0xc_0000 + i) / 1024 == 768 && (0xc_0000 + i) % 1024 == i;
  }

  /** Memory after mem_pool_init, when there is no process yet. */
  function BootMem(memory: nat, s: Space): (m: Mem)
    requires USED_MEMORY <= memory
  {
    Mem(s, KernelPool(memory), UserPool(memory), KernelHeap(memory), Area(1024, []))
  }

  /** The rule holds after mem_pool_init, over the tables of the loader, if memory that the loader does
      not write holds no entries for the heap that are present. */
  lemma BootMemOk(memory: nat, s: Space)
    requires USED_MEMORY <= memory < 0x1_0000_0000 && Loaded(s) && SpaceOk(s)
    requires forall q: nat :: 0xc_0100 <= q < 0xc_0100 + |KernelHeap(memory).bits| && q < 0x10_0000 ==>
             !Page(s, q).present
    ensures MemOk(BootMem(memory, s), true, 0, 0)
  {
    var m := BootMem(memory, s);
    PoolsFit(memory);
    BootCore(memory, s);
    NothingGiven(m, true);
  }

  lemma BootCore(memory: nat, s: Space)
    requires USED_MEMORY <= memory < 0x1_0000_0000 && Loaded(s) && SpaceOk(s)
    ensures Core(BootMem(memory, s))
  {
    var m := BootMem(memory, s);
    LoadedSpace(s);
    PoolsFit(memory);
    forall a | 0 <= a < 1024 && Pde(s, a).present ensures Held(m.kernel, Pde(s, a).frame)
      && Pde(s, a).frame < m.user.start {
      assert Pde(s, a) == LoaderPde(a);
      assert LoaderPde(a).frame < 0x20_0000 <= m.kernel.start;
    }
  }

  /** Memory starts out with nothing given. */
  lemma NothingGiven(m: Mem, kern: bool)
    requires Core(m) && AreaFits(m.kheap) && AreaFits(m.uheap) && m.uheap.first + |m.uheap.bits| <= m.kheap.first
    requires NoneGiven(m, true) && NoneGiven(m, false)
    ensures MemOk(m, kern, 0, 0)
  {
    NoneInArea(m, true);
    NoneInArea(m, false);
  }

  /** No page of the area is taken or present. */
  ghost predicate NoneGiven(m: Mem, of: bool)
    requires Core(m) && AreaFits(AreaOf(m, of))
  {
    forall i :: 0 <= i < |AreaOf(m, of).bits| ==> !AreaOf(m, of).bits[i] && !Page(m.space, PageNo(m, of, i)).present
  }

  lemma NoneInArea(m: Mem, of: bool)
    requires Core(m) && AreaFits(AreaOf(m, of)) && NoneGiven(m, of)
    ensures AreaOk(m, of, 0, 0)
  {
    forall i | 0 <= i < |AreaOf(m, of).bits| ensures PageOk(m, of, i, 0, 0) {
    }
    forall i, j | 0 <= i < |AreaOf(m, of).bits| && 0 <= j < |AreaOf(m, of).bits| ensures Differ(m, of, i, j) {
    }
  }
}
