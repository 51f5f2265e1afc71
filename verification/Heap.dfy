/**
 The heap (sys_malloc and sys_free in kernel/memory.c): requests up to 1024 bytes are served with blocks
 cut from one-page arenas, larger ones with pages of their own.
 */
module Heap {
  import opened Paging
  import opened Bitmap
  import opened Seqs

  // ----- blocks

  /** Block sizes: 16 bytes, doubled six times. */
  function BlockSize(d: nat): (n: nat)
    requires d < 7
  {
    match d
    case 0 => 16 case 1 => 32 case 2 => 64 case 3 => 128 case 4 => 256 case 5 => 512 case _ => 1024
  }

  /** Blocks in an arena, behind the 12 bytes of its header. */
  function PerArena(d: nat): (n: nat)
    requires d < 7
  {
    4084 / BlockSize(d)
  }

  /** `i` blocks of this size. */
  function Off(d: nat, i: nat): (n: nat)
    requires d < 7
  {
    match d
    case 0 => 16 * i case 1 => 32 * i case 2 => 64 * i case 3 => 128 * i
    case 4 => 256 * i case 5 => 512 * i case _ => 1024 * i
  }

  /** struct mem_block_desc, without its list. */
  datatype Desc = Desc(size: nat, perArena: nat)

  /** block_desc_init */
  method DescInit() returns (descs: seq<Desc>)
    ensures |descs| == 7 && forall d :: 0 <= d < 7 ==> descs[d] == Desc(BlockSize(d), PerArena(d))
  {
    descs := [];
    var d, size := 0, 16;
    while d < 7
      invariant 0 <= d <= 7 == |descs| + 7 - d && (d < 7 ==> size == BlockSize(d))
      invariant forall e :: 0 <= e < d ==> descs[e] == Desc(BlockSize(e), PerArena(e))
    {
      descs := descs + [Desc(size, (4096 - 12) / size)];
      size := 2 * size;
      d := d + 1;
    }
  }

  /** arena2block: block `i` of the arena at page `p`. */
  function Block(p: nat, d: nat, i: nat): (b: nat)
    requires d < 7
  {
    4096 * p + 12 + Off(d, i)
  }

  /** block2arena: the page that an address lies in. */
  function ArenaOf(b: nat): (p: nat) {
    b / 4096
  }

  /** The blocks of an arena lie behind its header, one behind the other, within its page. */
  lemma BlockBounds(p: nat, d: nat, i: nat)
    requires d < 7 && i < PerArena(d)
    ensures 4096 * p + 12 <= Block(p, d, i) && Block(p, d, i) + BlockSize(d) <= 4096 * p + 4096
    ensures ArenaOf(Block(p, d, i)) == p
  {
  }

  lemma BlocksApart(p: nat, d: nat, i: nat, j: nat)
    requires d < 7 && i < j
    ensures Block(p, d, i) + BlockSize(d) <= Block(p, d, j)
  {
  }

  /** A block tells its arena and its number. */
  lemma BlockOnce(p: nat, q: nat, d: nat, i: nat, j: nat)
    requires d < 7 && i < PerArena(d) && j < PerArena(d) && Block(p, d, i) == Block(q, d, j)
    ensures p == q && i == j
  {
    BlockBounds(p, d, i);
    BlockBounds(q, d, j);
    if i < j { BlocksApart(p, d, i, j); } else if j < i { BlocksApart(p, d, j, i); }
  }

  // ----- counting free blocks

  /** How many of the first `n` blocks of an arena are on the free list. */
  ghost function FreeCount(list: seq<nat>, p: nat, d: nat, n: nat): (c: nat)
    requires d < 7
    ensures c <= n
  {
    if n == 0 then 0 else FreeCount(list, p, d, n - 1) + if Block(p, d, n - 1) in list then 1 else 0
  }

  lemma {:induction false} CountSame(list: seq<nat>, list1: seq<nat>, p: nat, d: nat, n: nat)
    requires d < 7 && forall i: nat :: i < n ==> (Block(p, d, i) in list <==> Block(p, d, i) in list1)
    ensures FreeCount(list1, p, d, n) == FreeCount(list, p, d, n)
  {
    if n > 0 { CountSame(list, list1, p, d, n - 1); }
  }

  lemma {:induction false} CountOneMore(list: seq<nat>, list1: seq<nat>, p: nat, d: nat, n: nat, j: nat)
    requires d < 7 && j < n <= PerArena(d) && Block(p, d, j) !in list && Block(p, d, j) in list1
    requires forall i: nat :: i < n && i != j ==> (Block(p, d, i) in list <==> Block(p, d, i) in list1)
    ensures FreeCount(list1, p, d, n) == FreeCount(list, p, d, n) + 1
  {
    if j < n - 1 { CountOneMore(list, list1, p, d, n - 1, j); } else { CountSame(list, list1, p, d, n - 1); }
  }

  /** All blocks are free exactly when the count is the number of blocks. */
  lemma {:induction false} CountAll(list: seq<nat>, p: nat, d: nat, n: nat)
    requires d < 7
    ensures FreeCount(list, p, d, n) == n <==> forall i: nat :: i < n ==> Block(p, d, i) in list
  {
    if n > 0 { CountAll(list, p, d, n - 1); }
  }

  // ----- arenas

  /** struct arena: one page cut into blocks, or whole pages. */
  datatype Arena = Small(desc: nat, cnt: nat) | Large(pages: nat)

  function Span(a: Arena): (n: nat) {
    if a.Small? then 1 else a.pages
  }

  /** The arenas by page number, and the free list of each block size. */
  datatype Blocks = Blocks(arenas: map<nat, Arena>, lists: seq<seq<nat>>)

  /** A page of the area whose bit is set. */
  ghost predicate InUse(area: Area, q: nat) {
    area.first <= q < area.first + |area.bits| && area.bits[q - area.first]
  }

  /** The pages of an arena are in use. */
  ghost predicate Backed(k: Blocks, area: Area, p: nat)
    requires p in k.arenas
  {
    && 0 < Span(k.arenas[p])
    && forall q :: p <= q < p + Span(k.arenas[p]) ==> InUse(area, q)
  }

  /** Arenas share no page. */
  ghost predicate ArenasApart(k: Blocks, p: nat, q: nat)
    requires p in k.arenas && q in k.arenas
  {
    p != q ==> p + Span(k.arenas[p]) <= q || q + Span(k.arenas[q]) <= p
  }

  /** The count of a small arena is the number of its blocks on the free list.  Only the arena `full`,
      if any, may have no live block. */
  ghost predicate CountOk(k: Blocks, full: nat, p: nat)
    requires p in k.arenas && |k.lists| == 7
  {
    k.arenas[p].Small? ==>
      var d, cnt := k.arenas[p].desc, k.arenas[p].cnt;
      d < 7 && cnt == FreeCount(k.lists[d], p, d, PerArena(d)) && (p != full ==> cnt < PerArena(d))
  }

  /** Address `b` is a block of a small arena for size `d`. */
  ghost predicate IsBlock(k: Blocks, d: nat, b: nat)
    requires d < 7
  {
    && ArenaOf(b) in k.arenas && k.arenas[ArenaOf(b)].Small? && k.arenas[ArenaOf(b)].desc == d
    && exists i: nat :: i < PerArena(d) && b == Block(ArenaOf(b), d, i)
  }

  /** The list of size `d`: blocks of that size, each once. */
  ghost predicate ListOk(k: Blocks, d: nat)
    requires d < 7 == |k.lists|
  {
    NoDups(k.lists[d]) && forall b {:trigger IsBlock(k, d, b)} :: b in k.lists[d] ==> IsBlock(k, d, b)
  }

  ghost predicate BlocksOk(k: Blocks, area: Area, full: nat) {
    && |k.lists| == 7
    && (forall p {:trigger Backed(k, area, p)} :: p in k.arenas ==> Backed(k, area, p))
    && (forall p, q {:trigger ArenasApart(k, p, q)} :: p in k.arenas && q in k.arenas ==> ArenasApart(k, p, q))
    && (forall p {:trigger CountOk(k, full, p)} :: p in k.arenas ==> CountOk(k, full, p))
    && (forall d {:trigger ListOk(k, d)} :: 0 <= d < 7 ==> ListOk(k, d))
  }

  // ----- live regions

  /** `x` is a live block, or the memory of a large arena. */
  ghost predicate Live(k: Blocks, x: nat) {
    && |k.lists| == 7 && ArenaOf(x) in k.arenas
    && var a := k.arenas[ArenaOf(x)];
       if a.Small? then a.desc < 7 && IsBlock(k, a.desc, x) && x !in k.lists[a.desc] else x == 4096 * ArenaOf(x) + 12
  }

  /** The bytes a live region has. */
  ghost function Extent(k: Blocks, x: nat): (n: nat)
    requires Live(k, x)
  {
    var a := k.arenas[ArenaOf(x)];
    if a.Small? then BlockSize(a.desc) else if a.pages == 0 then 0 else 4096 * a.pages - 12
  }

  /** A live region lies in the pages of its arena, behind the header. */
  lemma RegionInArena(k: Blocks, area: Area, full: nat, x: nat)
    requires BlocksOk(k, area, full) && Live(k, x)
    ensures var p := ArenaOf(x); 4096 * p + 12 <= x && x + Extent(k, x) <= 4096 * (p + Span(k.arenas[p]))
  {
    var p := ArenaOf(x);
    assert Backed(k, area, p);
    if k.arenas[p].Small? {
      var d := k.arenas[p].desc;
      var i: nat :| i < PerArena(d) && x == Block(p, d, i);
      BlockBounds(p, d, i);
    }
  }

  /** Live regions do not overlap. */
  lemma RegionsApart(k: Blocks, area: Area, full: nat, x: nat, y: nat)
    requires BlocksOk(k, area, full) && Live(k, x) && Live(k, y) && x != y
    ensures x + Extent(k, x) <= y || y + Extent(k, y) <= x
  {
    RegionInArena(k, area, full, x);
    RegionInArena(k, area, full, y);
    var p, q := ArenaOf(x), ArenaOf(y);
    if p != q {
      assert ArenasApart(k, p, q);
    } else if k.arenas[p].Small? {
      var d := k.arenas[p].desc;
      var i: nat :| i < PerArena(d) && x == Block(p, d, i);
      var j: nat :| j < PerArena(d) && y == Block(p, d, j);
      if i < j { BlocksApart(p, d, i, j); } else if j < i { BlocksApart(p, d, j, i); }
    }
  }

  /** A block on a free list overlaps no live region, so handing it out overlaps none. */
  lemma FreeBlocksApart(k: Blocks, area: Area, full: nat, d: nat, b: nat, y: nat)
    requires BlocksOk(k, area, full) && d < 7 && b in k.lists[d] && Live(k, y)
    ensures b + BlockSize(d) <= y || y + Extent(k, y) <= b
  {
    assert ListOk(k, d) && IsBlock(k, d, b);
    RegionInArena(k, area, full, y);
    var p, q := ArenaOf(b), ArenaOf(y);
    var i: nat :| i < PerArena(d) && b == Block(p, d, i);
    BlockBounds(p, d, i);
    if p != q {
      assert ArenasApart(k, p, q);
    } else {
      var j: nat :| j < PerArena(d) && y == Block(p, d, j);
      if i < j { BlocksApart(p, d, i, j); } else if j < i { BlocksApart(p, d, j, i); }
    }
  }

  /** A live region overlaps no header. */
  lemma HeadersApart(k: Blocks, area: Area, full: nat, x: nat, q: nat)
    requires BlocksOk(k, area, full) && Live(k, x) && q in k.arenas
    ensures x + Extent(k, x) <= 4096 * q || 4096 * q + 12 <= x
  {
    RegionInArena(k, area, full, x);
    assert ArenasApart(k, ArenaOf(x), q) && Backed(k, area, q);
  }

  // ----- taking a block from a list

  function TakeFirst(k: Blocks, d: nat): (k1: Blocks)
    requires |k.lists| == 7 && d < 7 && k.lists[d] != [] && ArenaOf(k.lists[d][0]) in k.arenas
    requires k.arenas[ArenaOf(k.lists[d][0])].Small? && k.arenas[ArenaOf(k.lists[d][0])].cnt > 0
  {
    var p := ArenaOf(k.lists[d][0]);
    Blocks(k.arenas[p := Small(k.arenas[p].desc, k.arenas[p].cnt - 1)], k.lists[d := k.lists[d][1..]])
  }

  /** The first block of a list is counted. */
  lemma FirstCounted(k: Blocks, area: Area, full: nat, d: nat)
    requires BlocksOk(k, area, full) && d < 7 && k.lists[d] != []
    ensures var p := ArenaOf(k.lists[d][0]); p in k.arenas && k.arenas[p].Small? && k.arenas[p].desc == d
                                             && k.arenas[p].cnt > 0
  {
    assert ListOk(k, d);
    var b := k.lists[d][0];
    assert IsBlock(k, d, b);
    var p := ArenaOf(b);
    assert CountOk(k, full, p);
    var i: nat :| i < PerArena(d) && b == Block(p, d, i);
    SomeFree(k.lists[d], p, d, PerArena(d), i);
  }

  lemma {:induction false} SomeFree(list: seq<nat>, p: nat, d: nat, n: nat, i: nat)
    requires d < 7 && i < n && Block(p, d, i) in list
    ensures FreeCount(list, p, d, n) > 0
  {
    if i < n - 1 { SomeFree(list, p, d, n - 1, i); }
  }

  /** Taking the first block of a list keeps the rule; an arena without live blocks now has one. */
  lemma TakeFirstOk(k: Blocks, area: Area, full: nat, d: nat, full1: nat)
    requires BlocksOk(k, area, full) && d < 7 && k.lists[d] != []
    requires full1 == full || ArenaOf(k.lists[d][0]) == full
    ensures var b := k.lists[d][0];
            && ArenaOf(b) in k.arenas && k.arenas[ArenaOf(b)].Small? && k.arenas[ArenaOf(b)].cnt > 0
            && BlocksOk(TakeFirst(k, d), area, full1) && Live(TakeFirst(k, d), b) && !Live(k, b)
            && Extent(TakeFirst(k, d), b) == BlockSize(d)
  {
    FirstCounted(k, area, full, d);
    var k1, b := TakeFirst(k, d), k.lists[d][0];
    var p := ArenaOf(b);
    assert ListOk(k, d) && IsBlock(k, d, b);
    forall q | q in k1.arenas ensures Backed(k1, area, q) {
      assert Backed(k, area, q);
    }
    forall q, r | q in k1.arenas && r in k1.arenas ensures ArenasApart(k1, q, r) {
      assert ArenasApart(k, q, r);
    }
    forall q | q in k1.arenas ensures CountOk(k1, full1, q) {
      assert CountOk(k, full, q);
      if k.arenas[q].Small? {
        TakeFirstCount(k, d, q);
      }
    }
    forall e | 0 <= e < 7 ensures ListOk(k1, e) {
      assert ListOk(k, e);
      TakeFirstList(k, k1, d, e);
    }
    assert IsBlock(k1, d, b);
  }

  lemma TakeFirstCount(k: Blocks, d: nat, q: nat)
    requires |k.lists| == 7 && d < 7 && k.lists[d] != [] && ListOk(k, d) && q in k.arenas && k.arenas[q].Small?
    requires k.arenas[q].desc < 7
    ensures var e, b := k.arenas[q].desc, k.lists[d][0];
            FreeCount(if e == d then k.lists[d][1..] else k.lists[e], q, e, PerArena(e)) ==
            FreeCount(k.lists[e], q, e, PerArena(e)) - if q == ArenaOf(b) then 1 else 0
  {
    var e, b, rest := k.arenas[q].desc, k.lists[d][0], k.lists[d][1..];
    assert IsBlock(k, d, b);
    assert k.lists[d] == [b] + rest;
    if e == d {
      var i: nat :| i < PerArena(d) && b == Block(ArenaOf(b), d, i);
      forall j: nat | j < PerArena(d) && Block(q, d, j) == b ensures q == ArenaOf(b) && j == i {
        BlockOnce(q, ArenaOf(b), d, j, i);
      }
      if q == ArenaOf(b) {
        CountOneMore(rest, k.lists[d], q, d, PerArena(d), i);
      } else {
        CountSame(rest, k.lists[d], q, d, PerArena(d));
      }
    }
  }

  lemma TakeFirstList(k: Blocks, k1: Blocks, d: nat, e: nat)
    requires |k.lists| == 7 && d < 7 && e < 7 && k.lists[d] != [] && ListOk(k, e)
    requires k1.lists == k.lists[d := k.lists[d][1..]]
    requires forall p :: p in k.arenas ==>
             p in k1.arenas && (k.arenas[p].Small? ==> k1.arenas[p].Small? && k1.arenas[p].desc == k.arenas[p].desc)
    ensures ListOk(k1, e)
  {
    forall b | b in k1.lists[e] ensures IsBlock(k1, e, b) {
      assert IsBlock(k, e, b);
    }
  }

  // ----- new arenas

  /** Pages that were not in use belong to no arena. */
  lemma NewApart(k: Blocks, area: Area, full: nat, p: nat, n: nat, q: nat)
    requires BlocksOk(k, area, full) && q in k.arenas && 0 < n && forall r :: p <= r < p + n ==> !InUse(area, r)
    ensures p + n <= q || q + Span(k.arenas[q]) <= p
  {
    assert Backed(k, area, q);
    var r := if p <= q then q else p;
    assert q <= r < q + Span(k.arenas[q]) ==> InUse(area, r);
  }

  /** The area with more pages in use. */
  ghost predicate MoreUsed(area: Area, area1: Area) {
    forall q :: InUse(area, q) ==> InUse(area1, q)
  }

  lemma WithLargeOk(k: Blocks, area: Area, area1: Area, full: nat, p: nat, n: nat)
    requires BlocksOk(k, area, full) && MoreUsed(area, area1) && 0 < n
    requires forall r :: p <= r < p + n ==> !InUse(area, r) && InUse(area1, r)
    ensures p !in k.arenas && BlocksOk(k.(arenas := k.arenas[p := Large(n)]), area1, full)
    ensures Live(k.(arenas := k.arenas[p := Large(n)]), 4096 * p + 12) && !Live(k, 4096 * p + 12)
  {
    var k1 := k.(arenas := k.arenas[p := Large(n)]);
    forall q | q in k.arenas ensures p + n <= q || q + Span(k.arenas[q]) <= p {
      NewApart(k, area, full, p, n, q);
    }
    assert p in k.arenas ==> Backed(k, area, p);
    ArenaAdded(k, k1, area, area1, full, full, p);
    forall d | 0 <= d < 7 ensures ListOk(k1, d) {
      assert ListOk(k, d);
      forall b | b in k1.lists[d] ensures IsBlock(k1, d, b) {
        assert IsBlock(k, d, b);
      }
    }
    assert ArenaOf(4096 * p + 12) == p;
  }

  /** The parts of the rule that do not depend on the lists. */
  lemma ArenaAdded(k: Blocks, k1: Blocks, area: Area, area1: Area, full: nat, full1: nat, p: nat)
    requires BlocksOk(k, area, full) && MoreUsed(area, area1) && p !in k.arenas && p in k1.arenas
    requires k1.arenas == k.arenas[p := k1.arenas[p]]
    requires |k1.lists| == 7 && 0 < Span(k1.arenas[p]) && CountOk(k1, full1, p)
    requires forall r :: p <= r < p + Span(k1.arenas[p]) ==> InUse(area1, r)
    requires forall q :: q in k.arenas ==> p + Span(k1.arenas[p]) <= q || q + Span(k.arenas[q]) <= p
    requires forall q :: q in k.arenas && k.arenas[q].Small? && k.arenas[q].desc < 7 ==>
               FreeCount(k1.lists[k.arenas[q].desc], q, k.arenas[q].desc, PerArena(k.arenas[q].desc)) ==
               FreeCount(k.lists[k.arenas[q].desc], q, k.arenas[q].desc, PerArena(k.arenas[q].desc))
    requires full1 == full || full == p || full !in k.arenas
    ensures forall q {:trigger Backed(k1, area1, q)} :: q in k1.arenas ==> Backed(k1, area1, q)
    ensures forall q, r {:trigger ArenasApart(k1, q, r)} :: q in k1.arenas && r in k1.arenas ==> ArenasApart(k1, q, r)
    ensures forall q {:trigger CountOk(k1, full1, q)} :: q in k1.arenas ==> CountOk(k1, full1, q)
  {
    forall q | q in k1.arenas ensures Backed(k1, area1, q) {
      assert q != p ==> Backed(k, area, q);
    }
    forall q, r | q in k1.arenas && r in k1.arenas ensures ArenasApart(k1, q, r) {
      assert q != p && r != p ==> ArenasApart(k, q, r);
    }
    forall q | q in k1.arenas ensures CountOk(k1, full1, q) {
      assert q != p ==> CountOk(k, full, q);
    }
  }

  /** The blocks of an arena, in order. */
  ghost function BlocksIn(p: nat, d: nat): (bs: seq<nat>)
    requires d < 7
    ensures |bs| == PerArena(d) && forall i :: 0 <= i < PerArena(d) ==> bs[i] == Block(p, d, i)
  {
    seq(PerArena(d), i requires 0 <= i => Block(p, d, i))
  }

  lemma BlockIn(p: nat, d: nat, b: nat)
    requires d < 7
    ensures b in BlocksIn(p, d) <==> ArenaOf(b) == p && exists i: nat :: i < PerArena(d) && b == Block(ArenaOf(b), d, i)
  {
    if b in BlocksIn(p, d) {
      var i :| 0 <= i < PerArena(d) && BlocksIn(p, d)[i] == b;
      BlockBounds(p, d, i);
    }
    if i: nat :| i < PerArena(d) && b == Block(p, d, i) {
      assert BlocksIn(p, d)[i] == b;
    }
  }

  /** The loop of sys_malloc that cuts a new arena into blocks. */
  method AppendBlocks(list0: seq<nat>, p: nat, d: nat) returns (list: seq<nat>)
    requires d < 7 && forall b :: b in list0 ==> ArenaOf(b) != p
    ensures list == list0 + BlocksIn(p, d)
  {
    list := list0;
    var i := 0;
    while i < PerArena(d)
      invariant 0 <= i <= PerArena(d)
      invariant list == list0 + BlocksIn(p, d)[..i]
    {
      var b := Block(p, d, i);
      BlockBounds(p, d, i);
      forall j: nat | j < i ensures BlocksIn(p, d)[j] != b {
        BlocksApart(p, d, j, i);
      }
      assert b !in list;
      list := list + [b];
      i := i + 1;
    }
    assert BlocksIn(p, d)[..PerArena(d)] == BlocksIn(p, d);
  }

  lemma CutList(list: seq<nat>, p: nat, d: nat)
    requires d < 7 && NoDups(list) && forall b :: b in list ==> ArenaOf(b) != p
    ensures NoDups(list + BlocksIn(p, d))
  {
    var bs := BlocksIn(p, d);
    forall i, j | 0 <= i < j < |bs| ensures bs[i] != bs[j] {
      BlocksApart(p, d, i, j);
    }
    forall j | 0 <= j < |bs| ensures ArenaOf(bs[j]) == p {
      BlockBounds(p, d, j);
    }
  }

  /** The lists mention no block of a page that is not an arena. */
  lemma NotListed(k: Blocks, area: Area, full: nat, p: nat, d: nat)
    requires BlocksOk(k, area, full) && d < 7 && p !in k.arenas
    ensures forall b :: b in k.lists[d] ==> ArenaOf(b) != p
  {
    assert ListOk(k, d);
    forall b | b in k.lists[d] ensures ArenaOf(b) != p {
      assert IsBlock(k, d, b);
    }
  }

  function WithSmall(k: Blocks, p: nat, d: nat, list: seq<nat>): (k1: Blocks)
    requires |k.lists| == 7 && d < 7
  {
    Blocks(k.arenas[p := Small(d, PerArena(d))], k.lists[d := list])
  }

  /** A new arena whose blocks are all free. */
  lemma WithSmallOk(k: Blocks, area: Area, area1: Area, p: nat, d: nat)
    requires BlocksOk(k, area, 0) && MoreUsed(area, area1) && d < 7 && 0 < area.first && !InUse(area, p)
    requires InUse(area1, p)
    ensures p !in k.arenas && BlocksOk(WithSmall(k, p, d, k.lists[d] + BlocksIn(p, d)), area1, p)
  {
    var list := k.lists[d] + BlocksIn(p, d);
    var k1 := WithSmall(k, p, d, list);
    assert p in k.arenas ==> Backed(k, area, p);
    assert !InUse(area, 0);
    assert 0 in k.arenas ==> Backed(k, area, 0);
    NotListed(k, area, 0, p, d);
    forall q | q in k.arenas ensures p + 1 <= q || q + Span(k.arenas[q]) <= p {
      NewApart(k, area, 0, p, 1, q);
    }
    AllFree(k1, p, d, k.lists[d]);
    OthersCount(k, k1, area, p, d);
    ArenaAdded(k, k1, area, area1, 0, p, p);
    forall e | 0 <= e < 7 ensures ListOk(k1, e) {
      assert ListOk(k, e);
      CutListOk(k, k1, p, d, e);
    }
  }

  lemma AllFree(k1: Blocks, p: nat, d: nat, list: seq<nat>)
    requires d < 7 == |k1.lists| && p in k1.arenas && k1.arenas[p] == Small(d, PerArena(d))
    requires k1.lists[d] == list + BlocksIn(p, d)
    ensures CountOk(k1, p, p)
  {
    forall i: nat | i < PerArena(d) ensures Block(p, d, i) in k1.lists[d] {
      assert BlocksIn(p, d)[i] == Block(p, d, i);
    }
    CountAll(k1.lists[d], p, d, PerArena(d));
  }

  /** Blocks of one arena do not count for another. */
  lemma OthersCount(k: Blocks, k1: Blocks, area: Area, p: nat, d: nat)
    requires |k.lists| == 7 && d < 7 && p !in k.arenas && k1.lists == k.lists[d := k.lists[d] + BlocksIn(p, d)]
    ensures forall q :: q in k.arenas && k.arenas[q].Small? && k.arenas[q].desc < 7 ==>
               FreeCount(k1.lists[k.arenas[q].desc], q, k.arenas[q].desc, PerArena(k.arenas[q].desc)) ==
               FreeCount(k.lists[k.arenas[q].desc], q, k.arenas[q].desc, PerArena(k.arenas[q].desc))
  {
    forall q | q in k.arenas && k.arenas[q].Small? && k.arenas[q].desc < 7
      ensures var e := k.arenas[q].desc; FreeCount(k1.lists[e], q, e, PerArena(e)) == FreeCount(k.lists[e], q, e,
              PerArena(e))
    {
      if k.arenas[q].desc == d {
        forall i: nat | i < PerArena(d) ensures Block(q, d, i) !in BlocksIn(p, d) {
          BlockBounds(q, d, i);
          BlockIn(p, d, Block(q, d, i));
        }
        CountSame(k.lists[d], k1.lists[d], q, d, PerArena(d));
      }
    }
  }

  lemma CutListOk(k: Blocks, k1: Blocks, p: nat, d: nat, e: nat)
    requires |k.lists| == 7 && d < 7 && e < 7 && ListOk(k, e) && p !in k.arenas
    requires k1 == WithSmall(k, p, d, k.lists[d] + BlocksIn(p, d))
    ensures ListOk(k1, e)
  {
    if e == d {
      forall b | b in k.lists[d] ensures ArenaOf(b) != p {
        assert IsBlock(k, d, b);
      }
      CutList(k.lists[d], p, d);
    }
    forall b | b in k1.lists[e] ensures IsBlock(k1, e, b) {
      if b in k.lists[e] {
        assert IsBlock(k, e, b);
      } else {
        BlockIn(p, d, b);
      }
    }
  }

  // ----- giving blocks back

  function PutBack(k: Blocks, b: nat, d: nat): (k1: Blocks)
    requires |k.lists| == 7 && d < 7 && ArenaOf(b) in k.arenas && k.arenas[ArenaOf(b)].Small?
  {
    var p := ArenaOf(b);
    Blocks(k.arenas[p := Small(k.arenas[p].desc, k.arenas[p].cnt + 1)], k.lists[d := k.lists[d] + [b]])
  }

  /** A live small block, by the arena it lies in. */
  ghost predicate LiveBlock(k: Blocks, b: nat, d: nat) {
    Live(k, b) && k.arenas[ArenaOf(b)].Small? && k.arenas[ArenaOf(b)].desc == d
  }

  /** A block that is put back is counted; its arena may now be without live blocks. */
  lemma PutBackOk(k: Blocks, area: Area, b: nat, d: nat)
    requires BlocksOk(k, area, 0) && 0 < area.first && LiveBlock(k, b, d)
    ensures d < 7 && BlocksOk(PutBack(k, b, d), area, ArenaOf(b))
  {
    var k1, p := PutBack(k, b, d), ArenaOf(b);
    assert !InUse(area, 0);
    assert 0 in k.arenas ==> Backed(k, area, 0);
    forall q | q in k1.arenas ensures Backed(k1, area, q) {
      assert Backed(k, area, q);
    }
    forall q, r | q in k1.arenas && r in k1.arenas ensures ArenasApart(k1, q, r) {
      assert ArenasApart(k, q, r);
    }
    forall q | q in k1.arenas ensures CountOk(k1, p, q) {
      assert CountOk(k, 0, q);
      if k.arenas[q].Small? {
        PutBackCount(k, b, d, q);
      }
    }
    forall e | 0 <= e < 7 ensures ListOk(k1, e) {
      assert ListOk(k, e);
      PutBackList(k, b, d, e);
    }
  }

  lemma PutBackCount(k: Blocks, b: nat, d: nat, q: nat)
    requires LiveBlock(k, b, d) && q in k.arenas && k.arenas[q].Small? && k.arenas[q].desc < 7
    ensures var e := k.arenas[q].desc;
            FreeCount(PutBack(k, b, d).lists[e], q, e, PerArena(e)) == FreeCount(k.lists[e], q, e,
              PerArena(e)) + if q == ArenaOf(b) then 1 else 0
  {
    var e, list1 := k.arenas[q].desc, k.lists[d] + [b];
    if e == d {
      var i: nat :| i < PerArena(d) && b == Block(ArenaOf(b), d, i);
      forall j: nat | j < PerArena(d) && Block(q, d, j) == b ensures q == ArenaOf(b) && j == i {
        BlockOnce(q, ArenaOf(b), d, j, i);
      }
      if q == ArenaOf(b) {
        CountOneMore(k.lists[d], list1, q, d, PerArena(d), i);
      } else {
        CountSame(k.lists[d], list1, q, d, PerArena(d));
      }
    }
  }

  lemma PutBackList(k: Blocks, b: nat, d: nat, e: nat)
    requires LiveBlock(k, b, d) && e < 7 && ListOk(k, e)
    ensures ListOk(PutBack(k, b, d), e)
  {
    var k1 := PutBack(k, b, d);
    forall c | c in k1.lists[e] ensures IsBlock(k1, e, c) {
      if c in k.lists[e] {
        assert IsBlock(k, e, c);
      } else {
        assert IsBlock(k, d, b);
      }
    }
  }

  /** list_remove: the list without its entry `b`. */
  function Without(list: seq<nat>, b: nat): (r: seq<nat>)
    requires b in list
  {
    if list[0] == b then list[1..] else [list[0]] + Without(list[1..], b)
  }

  lemma {:induction false} WithoutIs(list: seq<nat>, b: nat)
    requires b in list && NoDups(list)
    ensures NoDups(Without(list, b)) && forall c :: c in Without(list, b) <==> c in list && c != b
  {
    assert list == [list[0]] + list[1..];
    if list[0] != b {
      WithoutIs(list[1..], b);
      var r := Without(list[1..], b);
      forall i, j | 0 <= i < j < |[list[0]] + r| ensures ([list[0]] + r)[i] != ([list[0]] + r)[j] {
        assert r[j - 1] in list[1..];
      }
    }
  }

  /** The loop of sys_free that takes the blocks of an arena without live blocks off the list. */
  method RemoveBlocks(list0: seq<nat>, p: nat, d: nat) returns (list: seq<nat>)
    requires d < 7 && NoDups(list0) && forall i: nat :: i < PerArena(d) ==> Block(p, d, i) in list0
    ensures NoDups(list) && forall c :: c in list <==> c in list0 && c !in BlocksIn(p, d)
  {
    list := list0;
    var i := 0;
    ghost var bs := BlocksIn(p, d);
    while i < PerArena(d)
      invariant 0 <= i <= PerArena(d) && NoDups(list)
      invariant forall c :: c in list <==> c in list0 && c !in bs[..i]
    {
      var b := Block(p, d, i);
      forall j: nat | j < i ensures bs[j] != b {
        BlocksApart(p, d, j, i);
      }
      assert b in list;
      WithoutIs(list, b);
      list := Without(list, b);
      assert bs[..i + 1] == bs[..i] + [b];
      i := i + 1;
    }
    assert bs[..PerArena(d)] == bs;
  }

  /** The arena at page `p` is gone; `list` is what is left of the free list of its size. */
  ghost predicate Dropped(k: Blocks, k1: Blocks, p: nat) {
    && p in k.arenas && k1.arenas == k.arenas - {p} && |k.lists| == 7 == |k1.lists|
    && if k.arenas[p].Large? then k1.lists == k.lists
       else
         var d := k.arenas[p].desc;
         && d < 7 && k1.lists == k.lists[d := k1.lists[d]] && NoDups(k1.lists[d])
         && forall c :: c in k1.lists[d] <==> c in k.lists[d] && c !in BlocksIn(p, d)
  }

  lemma DroppedCount(k: Blocks, k1: Blocks, p: nat, q: nat)
    requires Dropped(k, k1, p) && q in k1.arenas && k.arenas[q].Small? && k.arenas[q].desc < 7
    ensures var e := k.arenas[q].desc; FreeCount(k1.lists[e], q, e, PerArena(e)) == FreeCount(k.lists[e], q, e,
            PerArena(e))
  {
    var e := k.arenas[q].desc;
    if k.arenas[p].Small? && k.arenas[p].desc == e {
      forall i: nat | i < PerArena(e) ensures Block(q, e, i) !in BlocksIn(p, e) {
        BlockBounds(q, e, i);
        BlockIn(p, e, Block(q, e, i));
      }
      CountSame(k.lists[e], k1.lists[e], q, e, PerArena(e));
    }
  }

  lemma DroppedList(k: Blocks, k1: Blocks, p: nat, e: nat)
    requires Dropped(k, k1, p) && e < 7 && ListOk(k, e)
    ensures ListOk(k1, e)
  {
    forall c | c in k1.lists[e] ensures IsBlock(k1, e, c) {
      assert IsBlock(k, e, c);
      if ArenaOf(c) == p {
        BlockIn(p, e, c);
      }
    }
  }

  /** Giving back the pages of an arena that is gone. */
  lemma DroppedOk(k: Blocks, k1: Blocks, area: Area, area1: Area, full: nat, p: nat)
    requires BlocksOk(k, area, full) && Dropped(k, k1, p) && (full == p || full == 0)
    requires forall q: nat :: InUse(area, q) && !(p <= q < p + Span(k.arenas[p])) ==> InUse(area1, q)
    requires 0 < area.first
    ensures BlocksOk(k1, area1, 0)
  {
    assert !InUse(area, 0);
    assert 0 in k.arenas ==> Backed(k, area, 0);
    forall q | q in k1.arenas ensures Backed(k1, area1, q) {
      assert Backed(k, area, q) && ArenasApart(k, p, q);
    }
    forall q, r | q in k1.arenas && r in k1.arenas ensures ArenasApart(k1, q, r) {
      assert ArenasApart(k, q, r);
    }
    forall q | q in k1.arenas ensures CountOk(k1, 0, q) {
      assert CountOk(k, full, q);
      if k.arenas[q].Small? {
        DroppedCount(k, k1, p, q);
      }
    }
    forall e | 0 <= e < 7 ensures ListOk(k1, e) {
      assert ListOk(k, e);
      DroppedList(k, k1, p, e);
    }
  }

  // ----- bytes

  /** The bytes written so far. */
  type Ram = map<nat, int>

  /** The byte at an address; -1 where nothing was written. */
  function Byte(ram: Ram, i: nat): (b: int) {
    if i in ram then ram[i] else -1
  }

  /** memset(a, 0, n) */
  method Memset(ram0: Ram, a: nat, n: nat) returns (ram: Ram)
    ensures forall i: nat :: Byte(ram, i) == if a <= i < a + n then 0 else Byte(ram0, i)
  {
    ram := ram0;
    var k := 0;
    while k < n
      invariant k <= n && forall i: nat :: Byte(ram, i) == if a <= i < a + k then 0 else Byte(ram0, i)
    {
      ghost var before := ram;
      ram := ram[a + k := 0];
      assert forall i: nat :: Byte(ram, i) == if i == a + k then 0 else Byte(before, i);
      k := k + 1;
    }
  }

  ghost predicate AllZero(ram: Ram, a: nat, n: nat) {
    forall i: nat :: a <= i < a + n ==> Byte(ram, i) == 0
  }

  ghost predicate SameBytes(ram: Ram, ram1: Ram, a: nat, n: nat) {
    forall i: nat :: a <= i < a + n ==> Byte(ram1, i) == Byte(ram, i)
  }

  // ----- what is live

  lemma LiveTaken(k: Blocks, area: Area, full: nat, d: nat, y: nat)
    requires BlocksOk(k, area, full) && d < 7 && k.lists[d] != []
    ensures ArenaOf(k.lists[d][0]) in k.arenas && k.arenas[ArenaOf(k.lists[d][0])].Small?
    ensures k.arenas[ArenaOf(k.lists[d][0])].cnt > 0
    ensures Live(TakeFirst(k, d), y) <==> Live(k, y) || y == k.lists[d][0]
    ensures Live(k, y) ==> y != k.lists[d][0] && Extent(TakeFirst(k, d), y) == Extent(k, y)
  {
    FirstCounted(k, area, full, d);
    var k1, b := TakeFirst(k, d), k.lists[d][0];
    assert ListOk(k, d) && IsBlock(k, d, b);
    assert k.lists[d] == [b] + k1.lists[d];
    assert IsBlock(k1, d, b);
    if ArenaOf(y) in k.arenas && k.arenas[ArenaOf(y)].Small? && k.arenas[ArenaOf(y)].desc < 7 {
      assert IsBlock(k1, k.arenas[ArenaOf(y)].desc, y) <==> IsBlock(k, k.arenas[ArenaOf(y)].desc, y);
    }
  }

  lemma LiveCut(k: Blocks, p: nat, d: nat, y: nat)
    requires |k.lists| == 7 && d < 7 && p !in k.arenas
    ensures Live(WithSmall(k, p, d, k.lists[d] + BlocksIn(p, d)), y) <==> Live(k, y)
    ensures Live(k, y) ==> Extent(WithSmall(k, p, d, k.lists[d] + BlocksIn(p, d)), y) == Extent(k, y)
  {
    var k1 := WithSmall(k, p, d, k.lists[d] + BlocksIn(p, d));
    BlockIn(p, d, y);
    if ArenaOf(y) in k.arenas && k.arenas[ArenaOf(y)].Small? && k.arenas[ArenaOf(y)].desc < 7 {
      assert IsBlock(k1, k.arenas[ArenaOf(y)].desc, y) <==> IsBlock(k, k.arenas[ArenaOf(y)].desc, y);
    }
  }

  lemma LiveLarge(k: Blocks, p: nat, n: nat, y: nat)
    requires |k.lists| == 7 && p !in k.arenas
    ensures Live(k.(arenas := k.arenas[p := Large(n)]), y) <==> Live(k, y) || y == 4096 * p + 12
    ensures Live(k, y) ==> Extent(k.(arenas := k.arenas[p := Large(n)]), y) == Extent(k, y)
  {
    var k1 := k.(arenas := k.arenas[p := Large(n)]);
    assert ArenaOf(4096 * p + 12) == p;
    if ArenaOf(y) in k.arenas && k.arenas[ArenaOf(y)].Small? && k.arenas[ArenaOf(y)].desc < 7 {
      assert IsBlock(k1, k.arenas[ArenaOf(y)].desc, y) <==> IsBlock(k, k.arenas[ArenaOf(y)].desc, y);
    }
  }

  lemma LivePut(k: Blocks, b: nat, d: nat, y: nat)
    requires LiveBlock(k, b, d)
    ensures d < 7 && (Live(PutBack(k, b, d), y) <==> Live(k, y) && y != b)
    ensures Live(k, y) && y != b ==> Extent(PutBack(k, b, d), y) == Extent(k, y)
  {
    var k1 := PutBack(k, b, d);
    if ArenaOf(y) in k.arenas && k.arenas[ArenaOf(y)].Small? && k.arenas[ArenaOf(y)].desc < 7 {
      assert IsBlock(k1, k.arenas[ArenaOf(y)].desc, y) <==> IsBlock(k, k.arenas[ArenaOf(y)].desc, y);
    }
  }

  lemma LiveDropped(k: Blocks, k1: Blocks, p: nat, y: nat)
    requires Dropped(k, k1, p)
    ensures Live(k1, y) <==> Live(k, y) && ArenaOf(y) != p
    ensures Live(k, y) && ArenaOf(y) != p ==> Extent(k1, y) == Extent(k, y)
  {
    if ArenaOf(y) in k.arenas && ArenaOf(y) != p && k.arenas[ArenaOf(y)].Small? && k.arenas[ArenaOf(y)].desc < 7 {
      var e := k.arenas[ArenaOf(y)].desc;
      assert IsBlock(k1, e, y) <==> IsBlock(k, e, y);
      if k.arenas[p].Small? && k.arenas[p].desc == e {
        BlockIn(p, e, y);
      }
    }
  }

  // ----- sys_malloc

  /** Memory, the arenas of one owner, and the bytes. */
  datatype Heap = Heap(mem: Mem, blocks: Blocks, ram: Ram)

  ghost predicate HeapOk(h: Heap, kern: bool) {
    MemOk(h.mem, kern, 0, 0) && BlocksOk(h.blocks, AreaOf(h.mem, kern), 0)
  }

  /** A pointer, NULL, or a call the kernel does not come back from. */
  datatype Alloc = Nil | Ptr(x: nat) | Halt

  /** Region `x` is new, big enough and zero; every other live region is as it was, bytes included. */
  ghost predicate Allocated(h: Heap, h1: Heap, x: nat, size: nat) {
    && !Live(h.blocks, x) && Live(h1.blocks, x) && size <= Extent(h1.blocks, x)
    && AllZero(h1.ram, x, Extent(h1.blocks, x))
    && (forall y: nat {:trigger Kept(h, h1, y)} :: Live(h.blocks, y) ==> Kept(h, h1, y))
    && (forall y: nat {:trigger Live(h1.blocks, y)} :: Live(h1.blocks, y) ==> y == x || Live(h.blocks, y))
  }

  /** Region `y` is as it was, bytes included. */
  ghost predicate Kept(h: Heap, h1: Heap, y: nat)
    requires Live(h.blocks, y)
  {
    Live(h1.blocks, y) && Extent(h1.blocks, y) == Extent(h.blocks, y)
      && SameBytes(h.ram, h1.ram, y, Extent(h.blocks, y))
  }

  /** The pages that malloc_page gave were not in use and now are. */
  lemma GotPages(m: Mem, m1: Mem, kern: bool, p: nat, r: int, cnt: nat)
    requires AreaFits(AreaOf(m, kern)) && Leftmost(AreaOf(m, kern).bits, cnt, r) && 0 <= r
    requires r + cnt <= |AreaOf(m, kern).bits| && p == PageNo(m, kern, r)
    requires AreaOf(m1, kern) == AreaOf(m, kern).(bits := Filled(AreaOf(m, kern).bits, r, cnt, true))
    ensures MoreUsed(AreaOf(m, kern), AreaOf(m1, kern)) && 0 < AreaOf(m, kern).first
    ensures forall q: nat :: p <= q < p + cnt ==> !InUse(AreaOf(m, kern), q) && InUse(AreaOf(m1, kern), q)
  {
  }

  /** Pages that are cleared hold no live region. */
  lemma ClearedPages(k: Blocks, area: Area, full: nat, p: nat, n: nat, y: nat)
    requires BlocksOk(k, area, full) && Live(k, y) && 0 < n && forall q: nat :: p <= q < p + n ==> !InUse(area, q)
    ensures y + Extent(k, y) <= 4096 * p || 4096 * (p + n) <= y
  {
    RegionInArena(k, area, full, y);
    NewApart(k, area, full, p, n, ArenaOf(y));
  }

  /** The pages that hold a large region and its header. */
  function PagesFor(size: nat): (n: nat)
    ensures size + 12 <= 4096 * n < size + 12 + 4096
  {
    (size + 12 + 4095) / 4096
  }

  /** sys_malloc of more than 1024 bytes. */
  method MallocLarge(h: Heap, kern: bool, size: nat, stale: seq<Pte>) returns (r: Alloc, h1: Heap)
    requires HeapOk(h, kern) && 1024 < size && |stale| == 1024
    ensures r.Ptr? <==> PagesFor(size) < 3840 && Gives(h.mem, kern, PagesFor(size))
    ensures r.Nil? <==> PagesFor(size) < 3840 && Refuses(h.mem, kern, PagesFor(size))
    ensures !r.Ptr? ==> h1 == h
    ensures r.Ptr? ==> HeapOk(h1, kern) && Allocated(h, h1, r.x, size)
  {
    r, h1 := Halt, h;
    var cnt := PagesFor(size);
    if cnt >= 3840 {
      return;
    }
    var pages, m1;
    ghost var at, got, tabs;
    pages, m1, at, got, tabs := MallocPage(h.mem, kern, cnt, stale);
    GivesOrNot(h.mem, kern, cnt, at);
    if pages.Null? {
      r := Nil;
    } else if pages.Got? {
      var p := pages.page;
      GotPages(h.mem, m1, kern, p, at, cnt);
      var ram := Memset(h.ram, 4096 * p, 4096 * cnt);
      h1 := Heap(m1, h.blocks.(arenas := h.blocks.arenas[p := Large(cnt)]), ram);
      r := Ptr(4096 * p + 12);
      LargeDone(h, h1, kern, p, cnt, size);
    }
  }

  lemma LargeDone(h: Heap, h1: Heap, kern: bool, p: nat, cnt: nat, size: nat)
    requires HeapOk(h, kern) && MemOk(h1.mem, kern, 0, 0) && size + 12 <= 4096 * cnt && 0 < cnt
    requires MoreUsed(AreaOf(h.mem, kern), AreaOf(h1.mem, kern))
    requires forall q: nat :: p <= q < p + cnt ==> !InUse(AreaOf(h.mem, kern), q) && InUse(AreaOf(h1.mem, kern), q)
    requires h1.blocks == h.blocks.(arenas := h.blocks.arenas[p := Large(cnt)])
    requires forall i: nat :: Byte(h1.ram, i) == if 4096 * p <= i < 4096 * p + 4096 * cnt then 0 else Byte(h.ram, i)
    ensures HeapOk(h1, kern) && Allocated(h, h1, 4096 * p + 12, size)
  {
    var area := AreaOf(h.mem, kern);
    WithLargeOk(h.blocks, area, AreaOf(h1.mem, kern), 0, p, cnt);
    assert ArenaOf(4096 * p + 12) == p;
    forall y: nat | Live(h.blocks, y) ensures Kept(h, h1, y) {
      LiveLarge(h.blocks, p, cnt, y);
      ClearedPages(h.blocks, area, 0, p, cnt, y);
    }
    forall y: nat | Live(h1.blocks, y) ensures y == 4096 * p + 12 || Live(h.blocks, y) {
      LiveLarge(h.blocks, p, cnt, y);
    }
  }

  /** The smallest block size that fits. */
  function DescOf(size: nat): (d: nat)
    requires 0 < size <= 1024
    ensures d < 7 && size <= BlockSize(d) && (d > 0 ==> BlockSize(d - 1) < size)
    ensures BlockSize(d) == 16 || BlockSize(d) < 2 * size
  {
    if size <= 16 then 0 else if size <= 32 then 1 else if size <= 64 then 2 else if size <= 128 then 3
    else if size <= 256 then 4 else if size <= 512 then 5 else 6
  }

  /** The loop of sys_malloc over the block sizes. */
  method DescFor(size: nat) returns (d: nat)
    requires 0 < size <= 1024
    ensures d == DescOf(size)
  {
    d := 0;
    while d < 7 && size > BlockSize(d)
      invariant d <= 7 && (d > 0 ==> BlockSize(d - 1) < size)
    {
      d := d + 1;
    }
  }

  /** The rule while the arena `full` may have no live block yet, and what is live is as before. */
  ghost predicate Refilled(h: Heap, h1: Heap, kern: bool, full: nat) {
    && MemOk(h1.mem, kern, 0, 0) && BlocksOk(h1.blocks, AreaOf(h1.mem, kern), full)
    && (forall y: nat {:trigger Kept(h, h1, y)} :: Live(h.blocks, y) ==> Kept(h, h1, y))
    && (forall y: nat {:trigger Live(h1.blocks, y)} :: Live(h1.blocks, y) ==> Live(h.blocks, y))
  }

  /** A new arena when the free list is empty.  It never ends with NULL: without a free page or without
      a frame the kernel halts. */
  method Refill(h: Heap, kern: bool, d: nat, stale: seq<Pte>) returns (r: Alloc, h1: Heap)
    requires HeapOk(h, kern) && d < 7 && h.blocks.lists[d] == [] && |stale| == 1024
    ensures !r.Nil? && (r.Ptr? <==> Gives(h.mem, kern, 1))
    ensures !r.Ptr? ==> h1 == h
    ensures r.Ptr? ==> Refilled(h, h1, kern, r.x) && h1.blocks.lists[d] != [] && ArenaOf(h1.blocks.lists[d][0]) == r.x
  {
    r, h1 := Halt, h;
    var pages, m1;
    ghost var at, got, tabs;
    pages, m1, at, got, tabs := MallocPage(h.mem, kern, 1, stale);
    GivesOrNot(h.mem, kern, 1, at);
    OnePage(h.mem, kern);
    if pages.Got? {
      var p := pages.page;
      GotPages(h.mem, m1, kern, p, at, 1);
      assert !InUse(AreaOf(h.mem, kern), p) && InUse(AreaOf(m1, kern), p);
      WithSmallOk(h.blocks, AreaOf(h.mem, kern), AreaOf(m1, kern), p, d);
      var ram := Memset(h.ram, 4096 * p, 4096);
      var list := AppendBlocks(h.blocks.lists[d], p, d);
      h1 := Heap(m1, WithSmall(h.blocks, p, d, list), ram);
      r := Ptr(p);
      RefillDone(h, h1, kern, p, d);
    }
  }

  lemma RefillDone(h: Heap, h1: Heap, kern: bool, p: nat, d: nat)
    requires HeapOk(h, kern) && MemOk(h1.mem, kern, 0, 0) && d < 7 && h.blocks.lists[d] == [] && p !in h.blocks.arenas
    requires !InUse(AreaOf(h.mem, kern), p)
    requires h1.blocks == WithSmall(h.blocks, p, d, h.blocks.lists[d] + BlocksIn(p, d))
    requires BlocksOk(h1.blocks, AreaOf(h1.mem, kern), p)
    requires forall i: nat :: Byte(h1.ram, i) == if 4096 * p <= i < 4096 * p + 4096 then 0 else Byte(h.ram, i)
    ensures Refilled(h, h1, kern, p) && h1.blocks.lists[d] != [] && ArenaOf(h1.blocks.lists[d][0]) == p
  {
    forall y: nat | Live(h.blocks, y) ensures Kept(h, h1, y) {
      LiveCut(h.blocks, p, d, y);
      ClearedPages(h.blocks, AreaOf(h.mem, kern), 0, p, 1, y);
    }
    forall y: nat | Live(h1.blocks, y) ensures Live(h.blocks, y) {
      LiveCut(h.blocks, p, d, y);
    }
    BlockBounds(p, d, 0);
    assert h1.blocks.lists[d][0] == BlocksIn(p, d)[0];
  }

  /** The first block of the free list, cleared. */
  method TakeBlock(ghost h: Heap, h1: Heap, kern: bool, d: nat, ghost full: nat) returns (x: nat, h2: Heap)
    requires Refilled(h, h1, kern, full) && d < 7 && h1.blocks.lists[d] != []
    requires full == 0 || ArenaOf(h1.blocks.lists[d][0]) == full
    ensures HeapOk(h2, kern) && Allocated(h, h2, x, BlockSize(d)) && Extent(h2.blocks, x) == BlockSize(d)
  {
    x := h1.blocks.lists[d][0];
    TakeFirstOk(h1.blocks, AreaOf(h1.mem, kern), full, d, 0);
    var ram := Memset(h1.ram, x, BlockSize(d));
    h2 := Heap(h1.mem, TakeFirst(h1.blocks, d), ram);
    TakeDone(h, h1, h2, kern, d, full, x);
  }

  lemma TakeDone(h: Heap, h1: Heap, h2: Heap, kern: bool, d: nat, full: nat, x: nat)
    requires Refilled(h, h1, kern, full) && d < 7 && h1.blocks.lists[d] != [] && x == h1.blocks.lists[d][0]
    requires ArenaOf(x) in h1.blocks.arenas && h1.blocks.arenas[ArenaOf(x)].Small?
    requires h1.blocks.arenas[ArenaOf(x)].cnt > 0
    requires h2.blocks == TakeFirst(h1.blocks, d) && Live(h2.blocks, x) && Extent(h2.blocks, x) == BlockSize(d)
    requires BlocksOk(h2.blocks, AreaOf(h1.mem, kern), 0)
    requires forall i: nat :: Byte(h2.ram, i) == if x <= i < x + BlockSize(d) then 0 else Byte(h1.ram, i)
    ensures Allocated(h, h2, x, BlockSize(d))
  {
    var area := AreaOf(h1.mem, kern);
    LiveTaken(h1.blocks, area, full, d, x);
    assert Live(h.blocks, x) ==> Kept(h, h1, x);
    forall y: nat | Live(h.blocks, y) ensures Kept(h, h2, y) {
      assert Kept(h, h1, y);
      LiveTaken(h1.blocks, area, full, d, y);
      RegionsApart(h2.blocks, area, 0, x, y);
    }
    forall y: nat | Live(h2.blocks, y) ensures y == x || Live(h.blocks, y) {
      LiveTaken(h1.blocks, area, full, d, y);
    }
  }

  lemma NothingRefilled(h: Heap, kern: bool)
    requires HeapOk(h, kern)
    ensures Refilled(h, h, kern, 0)
  {
  }

  /** sys_malloc of at most 1024 bytes. */
  method MallocSmall(h: Heap, kern: bool, size: nat, stale: seq<Pte>) returns (r: Alloc, h1: Heap)
    requires HeapOk(h, kern) && 0 < size <= 1024 && |stale| == 1024
    ensures !r.Nil? && (r.Ptr? <==> h.blocks.lists[DescOf(size)] != [] || Gives(h.mem, kern, 1))
    ensures !r.Ptr? ==> h1 == h
    ensures r.Ptr? ==> HeapOk(h1, kern) && Allocated(h, h1, r.x, size)
    ensures r.Ptr? ==> Extent(h1.blocks, r.x) == BlockSize(DescOf(size))
  {
    var d := DescFor(size);
    h1 := h;
    var full := 0;
    NothingRefilled(h, kern);
    if h.blocks.lists[d] == [] {
      r, h1 := Refill(h, kern, d, stale);
      if !r.Ptr? {
        return;
      }
      full := r.x;
    }
    var x;
    x, h1 := TakeBlock(h, h1, kern, d, full);
    r := Ptr(x);
  }

  /** sys_malloc hands out a region: a free block, or pages that malloc_page gives. */
  ghost predicate GetsRegion(h: Heap, kern: bool, size: nat)
    requires HeapOk(h, kern)
  {
    && 0 < size < PoolOf(h.mem, kern).size
    && if size <= 1024 then h.blocks.lists[DescOf(size)] != [] || Gives(h.mem, kern, 1)
       else PagesFor(size) < 3840 && Gives(h.mem, kern, PagesFor(size))
  }

  /** sys_malloc answers NULL: a size it does not take, or a large one for which there is no run of pages
      although some page is free. */
  ghost predicate GetsNull(h: Heap, kern: bool, size: nat) {
    || size == 0 || PoolOf(h.mem, kern).size <= size
    || (size > 1024 && PagesFor(size) < 3840 && Refuses(h.mem, kern, PagesFor(size)))
  }

  /** sys_malloc does not come back: more pages than malloc_page takes, no free page at all, or a run of
      pages without the frames for it. */
  ghost predicate Halts(h: Heap, kern: bool, size: nat)
    requires HeapOk(h, kern)
  {
    && 0 < size < PoolOf(h.mem, kern).size
    && if size <= 1024 then h.blocks.lists[DescOf(size)] == [] && !Gives(h.mem, kern, 1)
       else 3840 <= PagesFor(size) || (!Gives(h.mem, kern, PagesFor(size)) && !Refuses(h.mem, kern, PagesFor(size)))
  }

  /** sys_malloc */
  method SysMalloc(h: Heap, kern: bool, size: nat, stale: seq<Pte>) returns (r: Alloc, h1: Heap)
    requires HeapOk(h, kern) && |stale| == 1024
    ensures r.Ptr? <==> GetsRegion(h, kern, size)
    ensures r.Nil? <==> GetsNull(h, kern, size)
    ensures r.Halt? <==> Halts(h, kern, size)
    ensures !r.Ptr? ==> h1 == h
    ensures r.Ptr? ==> HeapOk(h1, kern) && Allocated(h, h1, r.x, size)
    ensures r.Ptr? && size <= 1024 ==> Extent(h1.blocks, r.x) == BlockSize(DescOf(size))
  {
    if !(size > 0 && size < PoolOf(h.mem, kern).size) {
      return Nil, h;
    }
    if size > 1024 {
      r, h1 := MallocLarge(h, kern, size, stale);
    } else {
      r, h1 := MallocSmall(h, kern, size, stale);
    }
  }

  // ----- sys_free

  /** Region `x` is gone and every other one is there as before; the pages of its arena are given back
      exactly when no other live region lies in them. */
  ghost predicate Freed(h: Heap, h1: Heap, kern: bool, x: nat)
    requires Live(h.blocks, x)
  {
    && !Live(h1.blocks, x) && h1.ram == h.ram
    && (forall y: nat {:trigger Live(h1.blocks, y)} :: Live(h1.blocks, y) ==> y != x && Live(h.blocks, y))
    && (forall y: nat {:trigger Kept(h, h1, y)} :: Live(h.blocks, y) && y != x ==> Kept(h, h1, y))
    && var p, area := ArenaOf(x), AreaOf(h.mem, kern);
       && (p in h1.blocks.arenas <==> LastBut(h.blocks, x))
       && (p in h1.blocks.arenas ==> h1.mem == h.mem)
       && (p !in h1.blocks.arenas ==>
             && area.first <= p && p + Span(h.blocks.arenas[p]) <= area.first + |area.bits|
             && AreaOf(h1.mem, kern) == area.(bits := Filled(area.bits, p - area.first,
                Span(h.blocks.arenas[p]), false)))
  }

  /** Some other live region lies in the arena of `x`. */
  ghost predicate LastBut(k: Blocks, x: nat) {
    exists y: nat :: y != x && Live(k, y) && ArenaOf(y) == ArenaOf(x)
  }

  /** The pages of an arena, as bits of the area. */
  lemma ArenaBits(k: Blocks, area: Area, full: nat, p: nat)
    requires BlocksOk(k, area, full) && p in k.arenas
    ensures var n := Span(k.arenas[p]);
            0 < n && area.first <= p && p + n <= area.first + |area.bits|
              && forall i :: p - area.first <= i < p - area.first + n ==> area.bits[i]
  {
    assert Backed(k, area, p);
    var n := Span(k.arenas[p]);
    assert InUse(area, p) && InUse(area, p + n - 1);
    forall i | p - area.first <= i < p - area.first + n ensures area.bits[i] {
      assert InUse(area, area.first + i);
    }
  }

  /** sys_free of a large region. */
  method FreeLarge(h: Heap, kern: bool, x: nat) returns (h1: Heap)
    requires HeapOk(h, kern) && Live(h.blocks, x) && h.blocks.arenas[ArenaOf(x)].Large?
    ensures HeapOk(h1, kern) && Freed(h, h1, kern, x)
  {
    var p := ArenaOf(x);
    ghost var area := AreaOf(h.mem, kern);
    ArenaBits(h.blocks, area, 0, p);
    var m1;
    ghost var gone;
    m1, gone := MfreePage(h.mem, kern, p - AreaOf(h.mem, kern).first, h.blocks.arenas[p].pages);
    h1 := Heap(m1, h.blocks.(arenas := h.blocks.arenas - {p}), h.ram);
    DropDone(h, h.blocks, h1, kern, 0, x);
  }

  /** All that holds once an arena without live regions is given back.  `k` is the bookkeeping just
      before: that of `h`, or of `h` with the block `x` put back. */
  lemma DropDone(h: Heap, k: Blocks, h1: Heap, kern: bool, full: nat, x: nat)
    requires HeapOk(h, kern) && Live(h.blocks, x) && MemOk(h1.mem, kern, 0, 0) && h1.ram == h.ram
    requires BlocksOk(k, AreaOf(h.mem, kern), full) && (full == 0 || full == ArenaOf(x))
    requires Dropped(k, h1.blocks, ArenaOf(x))
    requires Span(k.arenas[ArenaOf(x)]) == Span(h.blocks.arenas[ArenaOf(x)])
    requires forall y: nat :: Live(k, y) && ArenaOf(y) == ArenaOf(x) ==> y == x
    requires forall y: nat {:trigger Live(k, y)} :: y != x ==> (Live(k, y) <==> Live(h.blocks, y))
                                                               && (Live(k, y) ==> Extent(k, y) == Extent(h.blocks, y))
    requires var p, area := ArenaOf(x), AreaOf(h.mem, kern);
             && area.first <= p && p + Span(h.blocks.arenas[p]) <= area.first + |area.bits|
             && AreaOf(h1.mem, kern) == area.(bits := Filled(area.bits, p - area.first,
                Span(h.blocks.arenas[p]), false))
    ensures HeapOk(h1, kern) && Freed(h, h1, kern, x)
  {
    var p, area, area1 := ArenaOf(x), AreaOf(h.mem, kern), AreaOf(h1.mem, kern);
    forall q: nat | InUse(area, q) && !(p <= q < p + Span(k.arenas[p])) ensures InUse(area1, q) {
    }
    DroppedOk(k, h1.blocks, area, area1, full, p);
    forall y: nat | Live(h1.blocks, y) ensures y != x && Live(h.blocks, y) {
      LiveDropped(k, h1.blocks, p, y);
    }
    forall y: nat | Live(h.blocks, y) && y != x ensures Kept(h, h1, y) {
      LiveDropped(k, h1.blocks, p, y);
      assert Live(k, y);
    }
    LiveDropped(k, h1.blocks, p, x);
    forall y: nat | y != x && Live(h.blocks, y) ensures ArenaOf(y) != p {
      assert Live(k, y);
    }
  }

  /** sys_free of a block. */
  method FreeSmall(h: Heap, kern: bool, x: nat, d: nat) returns (h1: Heap)
    requires HeapOk(h, kern) && LiveBlock(h.blocks, x, d)
    ensures HeapOk(h1, kern) && Freed(h, h1, kern, x)
  {
    var p := ArenaOf(x);
    ghost var area := AreaOf(h.mem, kern);
    ArenaBits(h.blocks, area, 0, p);
    PutBackOk(h.blocks, area, x, d);
    var k := PutBack(h.blocks, x, d);
    assert CountOk(k, p, p) && ListOk(k, d);
    CountAll(k.lists[d], p, d, PerArena(d));
    PutBackLive(h.blocks, x, d);
    if k.arenas[p].cnt == PerArena(d) {
      var list := RemoveBlocks(k.lists[d], p, d);
      var m1;
      ghost var gone;
      m1, gone := MfreePage(h.mem, kern, p - AreaOf(h.mem, kern).first, 1);
      h1 := Heap(m1, Blocks(k.arenas - {p}, k.lists[d := list]), h.ram);
      NoneLive(k, p, d);
      DropDone(h, k, h1, kern, p, x);
    } else {
      h1 := h.(blocks := k);
      StillUsed(h, h1, kern, x, d);
    }
  }

  lemma PutBackLive(k: Blocks, b: nat, d: nat)
    requires LiveBlock(k, b, d)
    ensures d < 7 && !Live(PutBack(k, b, d), b)
    ensures forall y: nat {:trigger Live(PutBack(k, b, d), y)} :: y != b ==>
              (Live(PutBack(k, b, d), y) <==> Live(k, y))
                && (Live(k, y) ==> Extent(PutBack(k, b, d), y) == Extent(k, y))
  {
    forall y: nat
      ensures Live(PutBack(k, b, d), y) <==> Live(k, y) && y != b
      ensures Live(k, y) && y != b ==> Extent(PutBack(k, b, d), y) == Extent(k, y)
    {
      LivePut(k, b, d, y);
    }
  }

  /** An arena whose blocks are all on the list has no live block. */
  lemma NoneLive(k: Blocks, p: nat, d: nat)
    requires |k.lists| == 7 && d < 7 && p in k.arenas && k.arenas[p].Small? && k.arenas[p].desc == d
    requires forall i: nat :: i < PerArena(d) ==> Block(p, d, i) in k.lists[d]
    ensures forall y: nat :: Live(k, y) ==> ArenaOf(y) != p
  {
  }

  /** The arena stays: some block of it is live. */
  lemma StillUsed(h: Heap, h1: Heap, kern: bool, x: nat, d: nat)
    requires HeapOk(h, kern) && LiveBlock(h.blocks, x, d) && d < 7 && h1 == h.(blocks := PutBack(h.blocks, x, d))
    requires BlocksOk(h1.blocks, AreaOf(h.mem, kern), ArenaOf(x)) && h1.blocks.arenas[ArenaOf(x)].cnt < PerArena(d)
    ensures HeapOk(h1, kern) && Freed(h, h1, kern, x)
  {
    var p, k := ArenaOf(x), h1.blocks;
    PutBackLive(h.blocks, x, d);
    assert CountOk(k, p, p);
    CountAll(k.lists[d], p, d, PerArena(d));
    var i: nat :| i < PerArena(d) && Block(p, d, i) !in k.lists[d];
    BlockBounds(p, d, i);
    var y := Block(p, d, i);
    assert IsBlock(k, d, y) && Live(k, y);
    forall q | q in k.arenas ensures CountOk(k, 0, q) {
      assert CountOk(k, p, q);
    }
    forall z: nat | Live(h.blocks, z) && z != x ensures Kept(h, h1, z) {
      assert Live(k, z);
    }
  }

  /** sys_free of a live region. */
  method SysFree(h: Heap, kern: bool, x: nat) returns (h1: Heap)
    requires HeapOk(h, kern) && Live(h.blocks, x)
    ensures HeapOk(h1, kern) && Freed(h, h1, kern, x)
  {
    var p := ArenaOf(x);
    if h.blocks.arenas[p].Large? {
      h1 := FreeLarge(h, kern, x);
    } else {
      h1 := FreeSmall(h, kern, x, h.blocks.arenas[p].desc);
    }
  }

  // ----- runs

  /** The heap before the first request. */
  lemma EmptyHeap(h: Heap, kern: bool)
    requires MemOk(h.mem, kern, 0, 0) && h.blocks == Blocks(map[], seq(7, _ => []))
    ensures HeapOk(h, kern) && Exactly(h.blocks, [])
  {
    var k := h.blocks;
    forall d | 0 <= d < 7 ensures ListOk(k, d) {
    }
  }

  /** A request: some bytes, or the return of the region handed out at this place of the list. */
  datatype Request = Want(size: nat) | Return(n: nat)

  /** The live regions are exactly those handed out and not yet returned. */
  ghost predicate Exactly(k: Blocks, live: seq<nat>) {
    NoDups(live) && forall y: nat {:trigger Live(k, y)} :: Live(k, y) <==> y in live
  }

  /** The heap, and the regions handed out and not yet returned, in the order they were handed out. */
  datatype Moment = Moment(heap: Heap, live: seq<nat>)

  /** The rule, with exactly these regions live. */
  ghost predicate MomentOk(s: Moment, kern: bool) {
    HeapOk(s.heap, kern) && Exactly(s.heap.blocks, s.live)
  }

  /** The kernel does not come back from the request. */
  ghost predicate Stuck(s: Moment, kern: bool, req: Request)
    requires MomentOk(s, kern)
  {
    req.Want? && Halts(s.heap, kern, req.size)
  }

  /** What one request does, when the kernel comes back from it. */
  ghost predicate Served(s: Moment, s1: Moment, kern: bool, req: Request)
    requires MomentOk(s, kern)
  {
    match req
    case Want(size) =>
      if GetsRegion(s.heap, kern, size) then
        && s1.live != [] && s1.live == s.live + [s1.live[|s1.live| - 1]]
        && Allocated(s.heap, s1.heap, s1.live[|s1.live| - 1], size)
        && (size <= 1024 ==> Extent(s1.heap.blocks, s1.live[|s1.live| - 1]) == BlockSize(DescOf(size)))
      else GetsNull(s.heap, kern, size) && s1 == s
    case Return(n) =>
      if n < |s.live| then Live(s.heap.blocks, s.live[n]) && Freed(s.heap, s1.heap, kern, s.live[n])
        && s1.live == Without(s.live, s.live[n])
      else s1 == s
  }

  /** One request. */
  method Serve(s: Moment, kern: bool, req: Request, stale: seq<Pte>) returns (halted: bool, s1: Moment)
    requires MomentOk(s, kern) && |stale| == 1024
    ensures halted <==> Stuck(s, kern, req)
    ensures halted ==> s1 == s
    ensures !halted ==> MomentOk(s1, kern) && Served(s, s1, kern, req)
  {
    halted, s1 := false, s;
    match req
    case Want(size) =>
      var r, h1 := SysMalloc(s.heap, kern, size, stale);
      halted := r.Halt?;
      if r.Ptr? {
        s1 := Moment(h1, s.live + [r.x]);
        forall y: nat ensures Live(h1.blocks, y) <==> y in s1.live {
          assert Live(s.heap.blocks, y) ==> Kept(s.heap, h1, y);
        }
      }
    case Return(n) =>
      if n < |s.live| {
        var x := s.live[n];
        var h1 := SysFree(s.heap, kern, x);
        s1 := Moment(h1, Without(s.live, x));
        WithoutIs(s.live, x);
        forall y: nat ensures Live(h1.blocks, y) <==> y in s1.live {
          assert Live(s.heap.blocks, y) && y != x ==> Kept(s.heap, h1, y);
        }
      }
  }

  /** The states of a run of requests: each follows from the one before it by its request, the rule holds
      in all of them, and the run ends early only when the kernel does not come back. */
  ghost predicate IsRunOf(trace: seq<Moment>, kern: bool, reqs: seq<Request>) {
    && 0 < |trace| <= |reqs| + 1
    && (forall i :: 0 <= i < |trace| ==> MomentOk(trace[i], kern))
    && (forall i {:trigger trace[i]} :: 0 <= i < |trace| - 1 ==> Served(trace[i], trace[i + 1], kern, reqs[i]))
    && (|trace| <= |reqs| ==> Stuck(trace[|trace| - 1], kern, reqs[|trace| - 1]))
  }

  /** Any run of requests keeps the rule. */
  method Run(m: Mem, kern: bool, ram: Ram, reqs: seq<Request>, stale: seq<Pte>)
    returns (s: Moment, ghost trace: seq<Moment>)
    requires MemOk(m, kern, 0, 0) && |stale| == 1024
    ensures IsRunOf(trace, kern, reqs) && trace[|trace| - 1] == s
    ensures trace[0] == Moment(Heap(m, Blocks(map[], seq(7, _ => [])), ram), [])
  {
    s := Moment(Heap(m, Blocks(map[], seq(7, _ => [])), ram), []);
    EmptyHeap(s.heap, kern);
    trace := [s];
    var n := 0;
    while n < |reqs|
      invariant 0 <= n <= |reqs| && |trace| == n + 1 && trace[n] == s
      invariant trace[0] == Moment(Heap(m, Blocks(map[], seq(7, _ => [])), ram), [])
      invariant forall i :: 0 <= i < |trace| ==> MomentOk(trace[i], kern)
      invariant forall i {:trigger trace[i]} :: 0 <= i < n ==> Served(trace[i], trace[i + 1], kern, reqs[i])
    {
      var halted, s1 := Serve(s, kern, reqs[n], stale);
      if halted {
        return;
      }
      s, trace, n := s1, trace + [s1], n + 1;
    }
  }

  /** A run of requests of the kernel, from what the loader and mem_pool_init leave. */
  method RunFromBoot(memory: nat, space: Space, ram: Ram, reqs: seq<Request>, stale: seq<Pte>)
    returns (s: Moment, ghost trace: seq<Moment>)
    requires USED_MEMORY <= memory < 0x1_0000_0000 && Loaded(space) && SpaceOk(space) && |stale| == 1024
    requires forall q: nat :: 0xc_0100 <= q < 0xc_0100 + |KernelHeap(memory).bits| && q < 0x10_0000 ==>
             !Page(space, q).present
    ensures IsRunOf(trace, true, reqs) && trace[|trace| - 1] == s
    ensures trace[0] == Moment(Heap(BootMem(memory, space), Blocks(map[], seq(7, _ => [])), ram), [])
  {
    BootMemOk(memory, space);
    s, trace := Run(BootMem(memory, space), true, ram, reqs, stale);
  }
}
