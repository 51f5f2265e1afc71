/**
 Regular files (fs/file.c): contents on direct and indirect blocks, appended to by file_write and
 sliced by file_read.
 */
module File {
  import opened Sectors
  import opened Volume

  /** Blocks a file has: none before its first write, then one more than its full blocks. */
  function Used(ino: Inode): (n: nat)
    requires |ino.sectors| == 13
  {
    if ino.sectors[0] == 0 then 0 else ino.size / 512 + 1
  }

  /** The first `n` slots hold addresses and the others do not; the table exists when it is needed. */
  ghost predicate HasBlocks(disk: Disk, ino: Inode, n: nat)
    requires |ino.sectors| == 13
  {
    && n <= 140
    && (forall k :: 0 <= k < 140 ==> (Addr(disk, ino, k) != 0 <==> k < n))
    && (ino.sectors[12] != 0 <==> n > 12)
  }

  /** A regular file at rest. */
  ghost predicate FileShape(disk: Disk, ino: Inode) {
    && |ino.sectors| == 13 && ino.size < 71680
    && (ino.sectors[0] == 0 ==> ino.size == 0)
    && HasBlocks(disk, ino, Used(ino))
  }

  ghost function ByteAt(disk: Disk, ino: Inode, p: nat): (b: Byte)
    requires |ino.sectors| == 13 && p < 71680
  {
    Read(disk, Addr(disk, ino, p / 512))[p % 512]
  }

  /** What the file says: its bytes in order. */
  ghost function Contents(disk: Disk, ino: Inode): (c: seq<Byte>)
    requires |ino.sectors| == 13 && ino.size <= 71680
    ensures |c| == ino.size
    ensures forall p :: 0 <= p < ino.size ==> c[p] == ByteAt(disk, ino, p)
  {
    seq(ino.size, p requires 0 <= p < ino.size => ByteAt(disk, ino, p))
  }

  lemma UntouchedContents(disk: Disk, disk1: Disk, ino: Inode)
    requires FileShape(disk, ino) && Untouched(disk, disk1, ino)
    ensures FileShape(disk1, ino) && Contents(disk1, ino) == Contents(disk, ino)
  {
    forall p | 0 <= p < ino.size
      ensures ByteAt(disk1, ino, p) == ByteAt(disk, ino, p)
    {
      assert Addr(disk, ino, p / 512) != 0;
    }
  }

  // ----- growing a file

  /** `owner1` adds to `owner` the blocks `all[from..to]` as slots `from..to` of inode `i`. */
  ghost predicate Extended(owner: Owner, owner1: Owner, i: nat, from: nat, to: nat, all: seq<Word>) {
    && from <= to <= |all|
    && (forall l :: l in owner ==> l in owner1 && owner1[l] == owner[l])
    && (forall l :: l in owner1 && l !in owner ==> owner1[l].0 == i && from <= owner1[l].1 < to
                                                   && all[owner1[l].1] == l)
    && (forall k :: from <= k < to ==> all[k] in owner1 && all[k] !in owner && owner1[all[k]] == (i, k))
  }

  /** The inode with `all[from..to]` in its slots `from..to`, as far as they are direct. */
  function WithDirect(ino: Inode, from: nat, to: nat, all: seq<Word>): (r: Inode)
    requires |ino.sectors| == 13 && to <= |all|
    ensures |r.sectors| == 13
  {
    ino.(sectors := seq(13, k requires 0 <= k < 13 =>
      if k < 12 && from <= k < to then all[k] else ino.sectors[k]))
  }

  lemma ExtendOne(owner: Owner, own: Owner, i: nat, from: nat, idx: nat, all: seq<Word>, lba: Word)
    requires Extended(owner, own, i, from, idx, all) && idx < |all| && lba !in own
    ensures Extended(owner, own[lba := (i, idx)], i, from, idx + 1, all[idx := lba])
  {
  }

  lemma WithDirectOne(ino: Inode, from: nat, idx: nat, all: seq<Word>, lba: Word)
    requires |ino.sectors| == 13 && from <= idx < |all|
    ensures WithDirect(ino, from, idx + 1, all[idx := lba]) ==
            WithSlot(WithDirect(ino, from, idx, all), idx, lba)
  {
    var r := WithDirect(ino, from, idx, all);
    var r1 := WithDirect(ino, from, idx + 1, all[idx := lba]);
    assert r1.sectors == WithSlot(r, idx, lba).sectors;
  }

  /**
   The allocation loops of file_write: one block per slot from `from` up to `to`; addresses go to
   `all_blocks` and, in the direct slots, to the inode.
   */
  method AllocBlocks(v: Vol, ghost owner: Owner, i: nat, from: nat, to: nat, all0: seq<Word>)
    returns (f: Fate, v1: Vol, all: seq<Word>, ghost owner1: Owner)
    requires Marked(v.g, v.bits, owner)
    requires i in v.inodes && |v.inodes[i].sectors| == 13
    requires from <= to <= 140 == |all0|
    requires forall k :: from <= k < to && k < 12 ==> v.inodes[i].sectors[k] == 0
    ensures f == BlockFate(v, to - from)
    ensures f == Done ==> Marked(v1.g, v1.bits, owner1) && Shorter(v, v1, to - from)
    ensures f == Done ==> |all| == 140 && all[..from] == all0[..from] && all[to..] == all0[to..]
    ensures f == Done ==> Extended(owner, owner1, i, from, to, all)
    ensures f == Done ==> v1 == v.(bits := v1.bits, inodes := v.inodes[i := WithDirect(v.inodes[i], from, to, all)])
  {
    f, v1, all, owner1 := Done, v, all0, owner;
    ghost var ino := v.inodes[i];
    assert WithDirect(ino, from, from, all).sectors == ino.sectors;
    assert v.inodes == v.inodes[i := ino];
    var idx := from;
    while idx < to
      invariant from <= idx <= to && f == Done
      invariant Marked(v1.g, v1.bits, owner1) && v1.g == v.g && Shorter(v, v1, idx - from)
      invariant |all| == 140 && all[..from] == all0[..from] && all[to..] == all0[to..]
      invariant Extended(owner, owner1, i, from, idx, all)
      invariant v1 == v.(bits := v1.bits, inodes := v.inodes[i := WithDirect(ino, from, idx, all)])
    {
      ghost var own := owner1;
      var lba;
      f, v1, lba, owner1 := AllocBlock(v1, owner1, i, idx);
      if f != Done {
        return;
      }
      ExtendOne(owner, own, i, from, idx, all, lba);
      WithDirectOne(ino, from, idx, all, lba);
      all := all[idx := lba];
      idx := idx + 1;
    }
  }

  /** A file of `has` blocks grown to `will`: its inode and, past the direct slots, its table. */
  ghost predicate Grows(disk: Disk, disk1: Disk, ino: Inode, ino1: Inode, has: nat, will: nat, t: Word,
      all: seq<Word>) {
    && |ino.sectors| == 13 && |all| == 140 && 1 <= has < will <= 140 && HasBlocks(disk, ino, has)
    && ino1 == WithDirect(ino.(sectors := ino.sectors[12 := t]), has, will, all)
    && (t == 0 <==> will <= 12) && (has > 12 ==> t == ino.sectors[12])
    && disk1 == (if will <= 12 then disk else Write(disk, t, EncTable(all[12..])))
    && (forall k :: 12 <= k < has ==> all[k] == Addr(disk, ino, k))
    && (forall k :: has <= k < will ==> all[k] != 0)
    && (forall k :: 12 <= k < 140 && will <= k ==> all[k] == 0)
  }

  lemma GrownAddr(disk: Disk, disk1: Disk, ino: Inode, ino1: Inode, has: nat, will: nat, t: Word,
      all: seq<Word>, k: nat)
    requires Grows(disk, disk1, ino, ino1, has, will, t, all) && k <= 140
    ensures Addr(disk1, ino1, k) ==
            if k == 140 then t else if k < has then Addr(disk, ino, k) else if k < will then all[k] else 0
  {
    if 12 <= k < 140 && t != 0 {
      assert Read(disk1, t) == EncTable(all[12..]);
      assert all[12..][k - 12] == all[k];
    } else if k < 12 {
      assert Addr(disk, ino, k) == ino.sectors[k];
    }
  }

  lemma GrownBlocks(disk: Disk, disk1: Disk, ino: Inode, ino1: Inode, has: nat, will: nat, t: Word, all: seq<Word>)
    requires Grows(disk, disk1, ino, ino1, has, will, t, all)
    ensures HasBlocks(disk1, ino1, will)
    ensures forall k :: 0 <= k < has ==> Addr(disk1, ino1, k) == Addr(disk, ino, k)
    ensures forall k :: has <= k < will ==> Addr(disk1, ino1, k) == all[k]
  {
    forall k | 0 <= k <= 140
      ensures Addr(disk1, ino1, k) ==
              if k == 140 then t else if k < has then Addr(disk, ino, k) else if k < will then all[k] else 0
    {
      GrownAddr(disk, disk1, ino, ino1, has, will, t, all, k);
    }
    assert Addr(disk1, ino1, 140) == t;
  }

  /** The owner of the indirect table is recorded before the blocks are allocated. */
  function WithTable(owner: Owner, i: nat, has: nat, t: nat): (r: Owner) {
    if t != 0 && has <= 12 then owner[t := (i, 140)] else owner
  }

  /** What the lemmas below start from: inode `i` grows, and the owners grow with it. */
  ghost predicate GrowsOwned(g: Geometry, disk: Disk, disk1: Disk, inodes: Inodes, ino1: Inode, owner: Owner,
      owner1: Owner,
                             i: nat, has: nat, will: nat, t: Word, all: seq<Word>)
  {
    && Owned(disk, inodes, owner) && i in inodes
    && Grows(disk, disk1, inodes[i], ino1, has, will, t, all)
    && (t != 0 ==> g.dataStart <= t && (has <= 12 ==> t !in owner))
    && Extended(WithTable(owner, i, has, t), owner1, i, has, will, all) && 0 !in owner1
  }

  lemma GrownFrame(g: Geometry, disk: Disk, disk1: Disk, inodes: Inodes, ino1: Inode, owner: Owner, owner1: Owner,
                   i: nat, has: nat, will: nat, t: Word, all: seq<Word>)
    requires GrowsOwned(g, disk, disk1, inodes, ino1, owner, owner1, i, has, will, t, all)
    ensures Frame(g, disk, disk1, owner, i) && OthersKept(owner, owner1, i)
    ensures t != 0 ==> t in owner1 && owner1[t] == (i, 140)
  {
    assert t != 0 && has > 12 ==> Addr(disk, inodes[i], 140) == t;
    assert t != 0 && has > 12 ==> owner[t] == (i, 140);
  }

  /** Slot by slot: what is in the inode is recorded. */
  lemma GrownRecorded(g: Geometry, disk: Disk, disk1: Disk, inodes: Inodes, ino1: Inode, owner: Owner, owner1: Owner,
                      i: nat, has: nat, will: nat, t: Word, all: seq<Word>, k: nat)
    requires GrowsOwned(g, disk, disk1, inodes, ino1, owner, owner1, i, has, will, t, all)
    requires k <= 140
    ensures Addr(disk, inodes[i], k) != 0 ==> Addr(disk1, ino1, k) == Addr(disk, inodes[i], k)
    ensures Addr(disk1, ino1, k) != 0 ==> Addr(disk1, ino1, k) in owner1 && owner1[Addr(disk1, ino1, k)] == (i, k)
  {
    GrownAddr(disk, disk1, inodes[i], ino1, has, will, t, all, k);
    GrownFrame(g, disk, disk1, inodes, ino1, owner, owner1, i, has, will, t, all);
    assert k == 140 ==> Addr(disk, inodes[i], k) == inodes[i].sectors[12];
  }

  lemma GrownOwned(g: Geometry, disk: Disk, disk1: Disk, inodes: Inodes, ino1: Inode, owner: Owner, owner1: Owner,
                   i: nat, has: nat, will: nat, t: Word, all: seq<Word>)
    requires GrowsOwned(g, disk, disk1, inodes, ino1, owner, owner1, i, has, will, t, all)
    ensures Owned(disk1, inodes[i := ino1], owner1) && Frame(g, disk, disk1, owner, i) && OthersKept(owner, owner1, i)
  {
    GrownFrame(g, disk, disk1, inodes, ino1, owner, owner1, i, has, will, t, all);
    forall k | 0 <= k <= 140
      ensures Addr(disk, inodes[i], k) != 0 ==> Addr(disk1, ino1, k) == Addr(disk, inodes[i], k)
      ensures Addr(disk1, ino1, k) != 0 ==> Addr(disk1, ino1, k) in owner1 && owner1[Addr(disk1, ino1, k)] == (i, k)
    {
      GrownRecorded(g, disk, disk1, inodes, ino1, owner, owner1, i, has, will, t, all, k);
    }
    forall l | l in owner1 && l !in owner
      ensures owner1[l].0 == i && owner1[l].1 <= 140 && Addr(disk1, ino1, owner1[l].1) == l
    {
      GrownAddr(disk, disk1, inodes[i], ino1, has, will, t, all, owner1[l].1);
    }
    GrowOwned(g, disk, disk1, inodes, ino1, owner, owner1, i);
  }

  /** ide_read of a table of addresses. */
  function DecTable(s: Sector): (ws: seq<Word>)
    ensures |ws| == 128 && forall k :: 0 <= k < 128 ==> ws[k] == TableAt(s, k)
  {
    seq(128, k requires 0 <= k < 128 => TableAt(s, k))
  }

  /** Blocks that growing from `has` to `will` takes from the bitmap. */
  function Growth(has: nat, will: nat): (n: nat)
    requires has <= will
  {
    will - has + if has <= 12 < will then 1 else 0
  }

  /** The one-level table, allocated when a file first outgrows the direct slots. */
  method AllocTable(v: Vol, ghost owner: Owner, i: nat) returns (f: Fate, v1: Vol, t: Word, ghost owner1: Owner)
    requires Marked(v.g, v.bits, owner)
    requires i in v.inodes && |v.inodes[i].sectors| == 13 && v.inodes[i].sectors[12] == 0
    ensures f == BlockFate(v, 1)
    ensures f == Done ==> Marked(v1.g, v1.bits, owner1) && Shorter(v, v1, 1)
    ensures f == Done ==> v.g.dataStart <= t && t !in owner && owner1 == owner[t := (i, 140)]
    ensures f == Done ==> v1 == v.(bits := v1.bits,
            inodes := v.inodes[i := v.inodes[i].(sectors := v.inodes[i].sectors[12 := t])])
  {
    var l;
    f, v1, l := BlockAlloc(v);
    if f != Done {
      return f, v, 0, owner;
    }
    t := l;
    MarkOne(v.g, v.bits, owner, t, (i, 140));
    var ino := v.inodes[i];
    v1 := v1.(inodes := v1.inodes[i := ino.(sectors := ino.sectors[12 := t])]);
    owner1 := owner[t := (i, 140)];
  }

  /** A volume before (`disk`, `inodes`, `owner`) and after its inode `i` went from `has` to `will`
      blocks: the old blocks keep their place and their bytes, and nothing of other inodes changes. */
  ghost predicate Collected(g: Geometry, disk: Disk, inodes: Inodes, owner: Owner,
                            disk1: Disk, inodes1: Inodes, owner1: Owner, i: nat, has: nat, will: nat)
  {
    && i in inodes && i in inodes1 && inodes1 == inodes[i := inodes1[i]]
    && |inodes[i].sectors| == 13 == |inodes1[i].sectors| && inodes1[i].size == inodes[i].size
    && Owned(disk1, inodes1, owner1) && Frame(g, disk, disk1, owner, i) && OthersKept(owner, owner1, i)
    && has <= will && HasBlocks(disk1, inodes1[i], will)
    && (forall k :: 0 <= k < has ==>
          Addr(disk1, inodes1[i], k) == Addr(disk, inodes[i], k) &&
          Read(disk1, Addr(disk, inodes[i], k)) == Read(disk, Addr(disk, inodes[i], k)))
  }

  lemma GrownCollected(g: Geometry, disk: Disk, disk1: Disk, inodes: Inodes, ino1: Inode, owner: Owner, owner1: Owner,
                       i: nat, has: nat, will: nat, t: Word, all: seq<Word>)
    requires GrowsOwned(g, disk, disk1, inodes, ino1, owner, owner1, i, has, will, t, all)
    ensures Collected(g, disk, inodes, owner, disk1, inodes[i := ino1], owner1, i, has, will)
    ensures forall k :: has <= k < will ==> all[k] == Addr(disk1, ino1, k)
  {
    GrownOwned(g, disk, disk1, inodes, ino1, owner, owner1, i, has, will, t, all);
    GrownBlocks(disk, disk1, inodes[i], ino1, has, will, t, all);
    forall k | 0 <= k < has
      ensures Read(disk1, Addr(disk, inodes[i], k)) == Read(disk, Addr(disk, inodes[i], k))
    {
      assert owner[Addr(disk, inodes[i], k)] == (i, k);
      assert t != 0 && has > 12 ==> Addr(disk, inodes[i], 140) == t;
    }
  }

  /** All the words of a file's `all_blocks` outside the range being allocated. */
  ghost predicate Gathered(disk: Disk, ino: Inode, has: nat, all: seq<Word>)
    requires |ino.sectors| == 13
  {
    && |all| == 140
    && (1 <= has <= 140 ==> all[has - 1] == Addr(disk, ino, has - 1))
    && (forall k :: 12 <= k < has && k < 140 ==> all[k] == Addr(disk, ino, k))
    && (forall k :: 12 <= k < 140 && has <= k ==> all[k] == 0)
  }

  /** The address of the last block in use, or the whole table when that block is in it. */
  function Gather(disk: Disk, ino: Inode, has: nat): (all: seq<Word>)
    requires |ino.sectors| == 13 && HasBlocks(disk, ino, has) && 1 <= has
    requires ino.sectors[if has <= 12 then has - 1 else 12] < 0x1_0000_0000
    ensures Gathered(disk, ino, has, all)
  {
    var zeros: seq<Word> := seq(140, _ => 0);
    if has <= 12 then zeros[has - 1 := ino.sectors[has - 1]]
    else
      var all := zeros[..12] + DecTable(Read(disk, ino.sectors[12]));
      assert forall k | 12 <= k < 140 :: all[k] == Addr(disk, ino, k);
      all
  }

  lemma AllocatedWords(all0: seq<Word>, all: seq<Word>, has: nat, will: nat)
    requires |all0| == |all| == 140 && has <= will <= 140 && all[..has] == all0[..has] && all[will..] == all0[will..]
    ensures forall k :: 0 <= k < has || will <= k < 140 ==> all[k] == all0[k]
  {
    forall k | 0 <= k < has || will <= k < 140 ensures all[k] == all0[k] {
      if k < has { assert all[k] == all[..has][k]; } else { assert all[k] == all[will..][k - will]; }
    }
  }

  function GrownInode(ino: Inode, has: nat, will: nat, t: Word, all: seq<Word>): (r: Inode)
    requires |ino.sectors| == 13 && will <= |all|
  {
    WithDirect(ino.(sectors := ino.sectors[12 := t]), has, will, all)
  }

  function GrownDisk(disk: Disk, will: nat, t: Word, all: seq<Word>): (r: Disk)
    requires |all| == 140
  {
    if will <= 12 then disk else Write(disk, t, EncTable(all[12..]))
  }

  /** Everything that follows once the blocks `all[has..will]` are allocated and the table written. */
  lemma FinishGrow(g: Geometry, disk: Disk, inodes: Inodes, owner: Owner, owner1: Owner,
                   i: nat, has: nat, will: nat, t: Word, all0: seq<Word>, all: seq<Word>)
    requires Owned(disk, inodes, owner) && i in inodes && HasBlocks(disk, inodes[i], has)
    requires 1 <= has < will <= 140 && Gathered(disk, inodes[i], has, all0)
    requires |all| == 140 && all[..has] == all0[..has] && all[will..] == all0[will..]
    requires t == 0 <==> will <= 12
    requires has > 12 ==> t == inodes[i].sectors[12]
    requires t != 0 ==> g.dataStart <= t && (has <= 12 ==> t !in owner)
    requires Extended(WithTable(owner, i, has, t), owner1, i, has, will, all) && 0 !in owner1
    ensures var ino1, disk1 := GrownInode(inodes[i], has, will, t, all), GrownDisk(disk, will, t, all);
            && Collected(g, disk, inodes, owner, disk1, inodes[i := ino1], owner1, i, has, will)
            && forall k :: has - 1 <= k < will ==> all[k] == Addr(disk1, ino1, k)
  {
    var ino1, disk1 := GrownInode(inodes[i], has, will, t, all), GrownDisk(disk, will, t, all);
    AllocatedWords(all0, all, has, will);
    assert Grows(disk, disk1, inodes[i], ino1, has, will, t, all);
    GrownCollected(g, disk, disk1, inodes, ino1, owner, owner1, i, has, will, t, all);
  }

  /** The three allocating layouts of file_write: within the direct slots, from the direct slots into
      the table (allocated first), and within the table. */
  method GrowBlocks(v: Vol, ghost owner: Owner, i: nat, has: nat, will: nat, all0: seq<Word>)
    returns (f: Fate, v1: Vol, all: seq<Word>, t: Word, ghost owner1: Owner)
    requires Marked(v.g, v.bits, owner)
    requires i in v.inodes && |v.inodes[i].sectors| == 13
    requires 1 <= has < will <= 140 == |all0|
    requires forall k :: has <= k < 12 ==> v.inodes[i].sectors[k] == 0
    requires v.inodes[i].sectors[12] != 0 <==> has > 12
    requires has > 12 ==> v.inodes[i].sectors[12] in owner
    ensures f == BlockFate(v, Growth(has, will))
    ensures f == Done ==> Marked(v1.g, v1.bits, owner1) && Shorter(v, v1, Growth(has, will))
    ensures f == Done ==> |all| == 140 && all[..has] == all0[..has] && all[will..] == all0[will..]
    ensures f == Done ==> (t == 0 <==> will <= 12)
    ensures f == Done && has > 12 ==> t == v.inodes[i].sectors[12]
    ensures f == Done && t != 0 ==> v.g.dataStart <= t && (has <= 12 ==> t !in owner)
    ensures f == Done ==> Extended(WithTable(owner, i, has, t), owner1, i, has, will, all)
    ensures f == Done ==> v1 == v.(disk := GrownDisk(v.disk, will, t, all), bits := v1.bits,
                                   inodes := v.inodes[i := GrownInode(v.inodes[i], has, will, t, all)])
  {
    var ino := v.inodes[i];
    t := ino.sectors[12];
    all := all0;
    assert ino.sectors[12 := t] == ino.sectors;
    if will <= 12 {
      f, v1, all, owner1 := AllocBlocks(v, owner, i, has, will, all0);
    } else if has <= 12 {
      f, v1, t, owner1 := AllocTable(v, owner, i);
      if f == Done {
        f, v1, all, owner1 := AllocBlocks(v1, owner1, i, has, will, all0);
      }
      if f == Done {
        v1 := v1.(disk := Write(v1.disk, t, EncTable(all[12..])));
      }
    } else {
      f, v1, all, owner1 := AllocBlocks(v, owner, i, has, will, all0);
      if f == Done {
        v1 := v1.(disk := Write(v1.disk, t, EncTable(all[12..])));
      }
    }
  }

  /**
   The middle part of file_write: allocate what is missing and gather in `all_blocks` the addresses
   the data will go to, in the four layouts of the source.
   */
  method CollectBlocks(v: Vol, ghost owner: Owner, i: nat, has: nat, will: nat)
    returns (f: Fate, v1: Vol, all: seq<Word>, ghost owner1: Owner)
    requires BlocksOk(v, owner) && i in v.inodes && HasBlocks(v.disk, v.inodes[i], has)
    requires 1 <= has <= will <= 140
    ensures f == BlockFate(v, Growth(has, will))
    ensures f == Done ==> Collected(v.g, v.disk, v.inodes, owner, v1.disk, v1.inodes, owner1, i, has, will)
    ensures f == Done ==> v1 == v.(disk := v1.disk, bits := v1.bits, inodes := v1.inodes)
    ensures f == Done ==> Marked(v1.g, v1.bits, owner1) && Shorter(v, v1, Growth(has, will))
    ensures f == Done ==> |all| == 140 && forall k :: has - 1 <= k < will ==> all[k] == Addr(v1.disk, v1.inodes[i], k)
  {
    var ino := v.inodes[i];
    assert Addr(v.disk, v.inodes[i], has - 1) in owner;
    assert has > 12 ==> Addr(v.disk, v.inodes[i], 140) in owner;
    f, v1, all, owner1 := Done, v, Gather(v.disk, ino, has), owner;
    if will > has {
      ghost var all0, t := all, 0;
      forall k | has <= k < 12 ensures ino.sectors[k] == 0 {
        assert Addr(v.disk, ino, k) == 0;
      }
      f, v1, all, t, owner1 := GrowBlocks(v, owner, i, has, will, all);
      if f == Done {
        FinishGrow(v.g, v.disk, v.inodes, owner, owner1, i, has, will, t, all0, all);
      }
    }
  }

  // ----- writing the data

  /** The file on `disk1` says what the one on `disk` says, then the first `done` bytes of `buf`. */
  ghost predicate Appended(disk: Disk, disk1: Disk, ino: Inode, buf: seq<Byte>, done: nat)
    requires |ino.sectors| == 13 && ino.size + |buf| < 71680 && done <= |buf|
  {
    forall p :: 0 <= p < ino.size + done ==>
      ByteAt(disk1, ino, p) == if p < ino.size then ByteAt(disk, ino, p) else buf[p - ino.size]
  }

  /** Position `at` is byte `off` of block `k`. */
  predicate IsAt(at: nat, k: nat, off: nat) {
    at == 512 * k + off && off < 512
  }

  /** Patching `data` into the block that holds position `at` puts it there and keeps what is before. */
  lemma WriteByte(disk: Disk, disk1: Disk, ino: Inode, owner: Owner, i: nat, at: nat, k: nat, off: nat, data: seq<Byte>,
      base: Sector, p: nat)
    requires |ino.sectors| == 13 && OwnedBy(disk, ino, owner, i)
    requires IsAt(at, k, off) && k < 140 && off + |data| <= 512
    requires Addr(disk, ino, k) != 0
    requires off == 0 || base == Read(disk, Addr(disk, ino, k))
    requires disk1 == Write(disk, Addr(disk, ino, k), Patch(base, off, data))
    requires p < at + |data|
    ensures ByteAt(disk1, ino, p) == if p < at then ByteAt(disk, ino, p) else data[p - at]
  {
    WriteBlock(disk, ino, owner, i, k, Patch(base, off, data));
    var m, q := p / 512, p % 512;
    assert p == m * 512 + q;
    if m == k {
      assert p - at == q - off;
    } else {
      assert p < at;
    }
  }

  /** The volumes before and after one round of the write loop: the next bytes `data` of `buf` go to
      the block that holds the end of the file. */
  ghost predicate Chunk(disk1: Disk, disk2: Disk, ino: Inode, buf: seq<Byte>, done: nat, k: nat, off: nat,
      data: seq<Byte>, base: Sector)
    requires |ino.sectors| == 13
  {
    && ino.size + |buf| < 71680 && done + |data| <= |buf| && data == buf[done..done + |data|]
    && IsAt(ino.size + done, k, off) && k < 140 && off + |data| <= 512 && Addr(disk1, ino, k) != 0
    && (off == 0 || base == Read(disk1, Addr(disk1, ino, k)))
    && disk2 == Write(disk1, Addr(disk1, ino, k), Patch(base, off, data))
  }

  lemma ChunkByte(disk1: Disk, disk2: Disk, ino: Inode, owner: Owner, i: nat, buf: seq<Byte>, done: nat, at: nat,
      k: nat, off: nat, data: seq<Byte>, base: Sector, p: nat)
    requires |ino.sectors| == 13 && OwnedBy(disk1, ino, owner, i)
    requires Chunk(disk1, disk2, ino, buf, done, k, off, data, base)
    requires at == ino.size + done && p < at + |data|
    ensures ByteAt(disk2, ino, p) == if p < at then ByteAt(disk1, ino, p) else buf[p - ino.size]
  {
    WriteByte(disk1, disk2, ino, owner, i, at, k, off, data, base, p);
    if at <= p {
      assert data[p - at] == buf[done + (p - at)];
    }
  }

  /** One round of the write loop. */
  lemma AppendChunk(disk: Disk, disk1: Disk, disk2: Disk, ino: Inode, owner: Owner, i: nat, buf: seq<Byte>, done: nat,
      k: nat, off: nat, data: seq<Byte>, base: Sector)
    requires |ino.sectors| == 13 && OwnedBy(disk1, ino, owner, i)
    requires Chunk(disk1, disk2, ino, buf, done, k, off, data, base)
    requires Appended(disk, disk1, ino, buf, done)
    ensures Appended(disk, disk2, ino, buf, done + |data|)
  {
    forall p | 0 <= p < ino.size + done + |data|
      ensures ByteAt(disk2, ino, p) == if p < ino.size then ByteAt(disk, ino, p) else buf[p - ino.size]
    {
      ChunkByte(disk1, disk2, ino, owner, i, buf, done, ino.size + done, k, off, data, base, p);
    }
  }

  /** The unsigned 32-bit value of a sum or difference of two. */
  function Wrap(n: int): (r: nat)
    requires -0x1_0000_0000 <= n < 0x2_0000_0000
    ensures r < 0x1_0000_0000
  {
    if n < 0 then n + 0x1_0000_0000 else if n < 0x1_0000_0000 then n else n - 0x1_0000_0000
  }

  /** The block and the offset of a position, and how many of the `left` bytes fit the rest of the block. */
  method ChunkSize(at: nat, left: nat) returns (k: nat, off: nat, n: nat)
    ensures IsAt(at, k, off) && k == at / 512
    ensures n == if left < 512 - off then left else 512 - off
  {
    k, off := at / 512, at % 512;
    n := 512 - off;
    if left < n {
      n := left;
    }
  }

  /** The gathered addresses cover the blocks that `n` more bytes at the end of the file need. */
  ghost predicate Covers(disk: Disk, ino: Inode, all: seq<Word>, n: nat)
    requires |ino.sectors| == 13
  {
    && |all| == 140 && ino.size + n < 71680
    && forall k :: ino.size / 512 <= k <= (ino.size + n) / 512 ==> all[k] == Addr(disk, ino, k) != 0
  }

  lemma CoveredAt(disk: Disk, ino: Inode, all: seq<Word>, n: nat, at: nat)
    requires |ino.sectors| == 13 && Covers(disk, ino, all, n) && ino.size <= at <= ino.size + n
    ensures at / 512 < 140 && all[at / 512] == Addr(disk, ino, at / 512) != 0
  {
  }

  /** Both parts of the loop invariant across one round. */
  lemma RoundKeeps(disk: Disk, disk1: Disk, disk2: Disk, ino: Inode, owner: Owner, i: nat, buf: seq<Byte>,
                   done: nat, k: nat, off: nat, lba: nat, data: seq<Byte>, base: Sector)
    requires |ino.sectors| == 13 && ino.size + |buf| < 71680 && done + |data| <= |buf|
    requires data == buf[done..done + |data|]
    requires DataOnly(disk, disk1, ino, owner, i) && Appended(disk, disk1, ino, buf, done)
    requires IsAt(ino.size + done, k, off) && k < 140 && off + |data| <= 512 && lba == Addr(disk, ino, k) != 0
    requires off == 0 || base == Read(disk1, lba)
    requires disk2 == Write(disk1, lba, Patch(base, off, data))
    ensures DataOnly(disk, disk2, ino, owner, i) && Appended(disk, disk2, ino, buf, done + |data|)
  {
    assert Addr(disk1, ino, k) == lba;
    AppendChunk(disk, disk1, disk2, ino, owner, i, buf, done, k, off, data, base);
    DataOnlyChunk(disk, disk1, ino, owner, i, k, Patch(base, off, data));
  }

  lemma BlockStart(at: nat, full: nat, k: nat, off: nat)
    requires IsAt(at, k, off)
    ensures at == 512 * full ==> off == 0
  {
  }

  /** One round of the write loop: read the block at the end of the file if it is the first one, else
      start from zeros, and write it back with as many bytes as fit. */
  method WriteRound(ghost disk0: Disk, disk: Disk, ino: Inode, all: seq<Word>, buf: seq<Byte>, first: bool,
      done: nat, size: nat,
                    ghost full: nat, ghost owner: Owner, ghost i: nat)
    returns (disk1: Disk, chunk: nat, ghost full1: nat)
    requires |ino.sectors| == 13 && Covers(disk0, ino, all, |buf|) && done < |buf| && size == ino.size + done
    requires !first ==> size == 512 * full
    requires DataOnly(disk0, disk, ino, owner, i) && Appended(disk0, disk, ino, buf, done)
    ensures 0 < chunk && done + chunk <= |buf| && (size + chunk == 512 * full1 || done + chunk == |buf|)
    ensures DataOnly(disk0, disk1, ino, owner, i) && Appended(disk0, disk1, ino, buf, done + chunk)
  {
    var k, off;
    k, off, chunk := ChunkSize(size, |buf| - done);
    CoveredAt(disk0, ino, all, |buf|, size);
    BlockStart(size, full, k, off);
    var lba, data := all[k], buf[done..done + chunk];
    var ioBuf: Sector := if first then Read(disk, lba) else Zeros(512);
    disk1 := Write(disk, lba, Patch(ioBuf, off, data));
    RoundKeeps(disk0, disk, disk1, ino, owner, i, buf, done, k, off, lba, data, ioBuf);
    full1 := k + 1;
  }

  /** The last part of file_write: `buf` goes to the gathered blocks, from the end of the file on. */
  method WriteData(disk0: Disk, ino: Inode, all: seq<Word>, buf: seq<Byte>, ghost owner: Owner, ghost i: nat)
    returns (disk: Disk, size: nat, pos: nat)
    requires |ino.sectors| == 13 && OwnedBy(disk0, ino, owner, i) && Covers(disk0, ino, all, |buf|)
    ensures DataOnly(disk0, disk, ino, owner, i) && Appended(disk0, disk, ino, buf, |buf|)
    ensures size == ino.size + |buf| && pos == Wrap(size - 1)
  {
    disk, size, pos := disk0, ino.size, Wrap(ino.size - 1);
    var first, done := true, 0;
    ghost var full := 0;
    while done < |buf|
      invariant done <= |buf| && size == ino.size + done && pos == Wrap(size - 1)
      invariant !first ==> size == 512 * full || done == |buf|
      invariant DataOnly(disk0, disk, ino, owner, i)
      invariant Appended(disk0, disk, ino, buf, done)
    {
      var chunk;
      disk, chunk, full := WriteRound(disk0, disk, ino, all, buf, first, done, size, full, owner, i);
      size, pos, done, first := size + chunk, Wrap(pos + chunk), done + chunk, false;
    }
  }

  // ----- file_write as a whole

  /** The first block of a file that has none. */
  lemma FirstBlockCollected(g: Geometry, disk: Disk, inodes: Inodes, owner: Owner, i: nat, lba: nat)
    requires Owned(disk, inodes, owner) && i in inodes && HasBlocks(disk, inodes[i], 0)
    requires lba != 0 && lba !in owner
    ensures Collected(g, disk, inodes, owner, disk, inodes[i := WithSlot(inodes[i], 0, lba)],
            owner[lba := (i, 0)], i, 0, 1)
  {
    var ino, ino1 := inodes[i], WithSlot(inodes[i], 0, lba);
    assert ino.sectors[12] == 0;
    forall k | 0 <= k <= 140
      ensures Addr(disk, ino1, k) == if k == 0 then lba else 0
    {
      assert k < 140 ==> Addr(disk, ino, k) == 0;
    }
    GrowOwned(g, disk, disk, inodes, ino1, owner, owner[lba := (i, 0)], i);
  }

  /** Growing by one block and then to `will` is growing to `will`. */
  lemma CollectedAfterFirst(g: Geometry, disk: Disk, inodes: Inodes, owner: Owner, inodes1: Inodes, owner1: Owner,
                            disk2: Disk, inodes2: Inodes, owner2: Owner, i: nat, will: nat)
    requires Collected(g, disk, inodes, owner, disk, inodes1, owner1, i, 0, 1)
    requires Collected(g, disk, inodes1, owner1, disk2, inodes2, owner2, i, 1, will)
    ensures Collected(g, disk, inodes, owner, disk2, inodes2, owner2, i, 0, will)
  {
  }

  lemma WrittenContents(g: Geometry, disk: Disk, inodes: Inodes, owner: Owner, disk1: Disk, inodes1: Inodes,
      owner1: Owner,
                        disk2: Disk, i: nat, will: nat, buf: seq<Byte>, size: nat)
    requires i in inodes && FileShape(disk, inodes[i]) && size == inodes[i].size + |buf| < 71680
    requires Collected(g, disk, inodes, owner, disk1, inodes1, owner1, i, Used(inodes[i]), will)
    requires will == size / 512 + 1
    requires DataOnly(disk1, disk2, inodes1[i], owner1, i) && Appended(disk1, disk2, inodes1[i], buf, |buf|)
    ensures var ino2 := inodes1[i].(size := size);
            FileShape(disk2, ino2) && Contents(disk2, ino2) == Contents(disk, inodes[i]) + buf
  {
    var ino, ino1 := inodes[i], inodes1[i];
    var ino2 := ino1.(size := size);
    assert forall k | 0 <= k <= 140 :: Addr(disk2, ino2, k) == Addr(disk2, ino1, k);
    assert Addr(disk1, ino1, 0) == ino1.sectors[0] != 0;
    assert Used(ino2) == will;
    forall p | 0 <= p < ino2.size
      ensures ByteAt(disk2, ino2, p) == (Contents(disk, ino) + buf)[p]
    {
      assert ByteAt(disk2, ino2, p) == ByteAt(disk2, ino1, p);
      if p < ino.size {
        OldByte(disk, ino, disk1, ino1, p);
      }
    }
  }

  lemma OldByte(disk: Disk, ino: Inode, disk1: Disk, ino1: Inode, p: nat)
    requires |ino.sectors| == 13 == |ino1.sectors| && p < ino.size < 71680
    requires Addr(disk1, ino1, p / 512) == Addr(disk, ino, p / 512)
    requires Read(disk1, Addr(disk, ino, p / 512)) == Read(disk, Addr(disk, ino, p / 512))
    ensures ByteAt(disk1, ino1, p) == ByteAt(disk, ino, p)
  {
  }

  /** Blocks that a write of `n` bytes takes: the first block, further data blocks, the table. */
  function WriteNeed(ino: Inode, n: nat): (c: nat)
    requires |ino.sectors| == 13
  {
    (if ino.sectors[0] == 0 then 1 else 0) + Growth(ino.size / 512 + 1, (ino.size + n) / 512 + 1)
  }

  /** What becomes of a write of `n` bytes: the first block, the assertion that the file will have at most
      140 blocks, and then the other blocks. */
  function WriteFate(v: Vol, ino: Inode, n: nat): (f: Fate)
    requires |ino.sectors| == 13 && v.g.blocks <= |v.bits|
  {
    var first := BlockFate(v, if ino.sectors[0] == 0 then 1 else 0);
    if first != Done then first else if ino.size + n >= 71680 then Halts else BlockFate(v, WriteNeed(ino, n))
  }

  /** The rest of the blocks, behind the assertion. */
  method PrepareRest(v: Vol, ghost owner: Owner, i: nat, has: nat, will: nat)
    returns (f: Fate, v1: Vol, all: seq<Word>, ghost owner1: Owner)
    requires BlocksOk(v, owner) && i in v.inodes && HasBlocks(v.disk, v.inodes[i], has) && 1 <= has <= will
    ensures f == if will > 140 then Halts else BlockFate(v, Growth(has, will))
    ensures f == Done ==> Collected(v.g, v.disk, v.inodes, owner, v1.disk, v1.inodes, owner1, i, has, will)
    ensures f == Done ==> v1 == v.(disk := v1.disk, bits := v1.bits, inodes := v1.inodes)
    ensures f == Done ==> Marked(v1.g, v1.bits, owner1) && Shorter(v, v1, Growth(has, will))
    ensures f == Done ==> |all| == 140 && forall k :: has - 1 <= k < will ==> all[k] == Addr(v1.disk, v1.inodes[i], k)
  {
    if will > 140 {
      return Halts, v, [], owner;
    }
    f, v1, all, owner1 := CollectBlocks(v, owner, i, has, will);
  }

  /** The fate of a write is that of its later blocks, once the first one is there. */
  lemma FateOfRest(v: Vol, w: Vol, ino: Inode, n: nat, first: nat, has: nat, will: nat)
    requires |ino.sectors| == 13 && v.g.blocks <= |v.bits| && w.g.blocks <= |w.bits| && ino.size + n <= 71680
    requires first == (if ino.sectors[0] == 0 then 1 else 0) && first <= Free(v) && Shorter(v, w, first)
    requires has == ino.size / 512 + 1 && will == (ino.size + n) / 512 + 1
    ensures has <= will && (will > 140 <==> ino.size + n == 71680)
    ensures WriteFate(v, ino, n) == if will > 140 then Halts else BlockFate(w, Growth(has, will))
    ensures WriteNeed(ino, n) == first + Growth(has, will)
  {
  }

  /** Allocate all that a write of `n` bytes needs and gather the addresses it goes to. */
  method Prepare(v: Vol, ghost owner: Owner, i: nat, n: nat, ghost total: nat)
    returns (f: Fate, v1: Vol, all: seq<Word>, ghost owner1: Owner)
    requires BlocksOk(v, owner) && i in v.inodes && FileShape(v.disk, v.inodes[i])
    requires v.g.dataStart in owner
    requires v.inodes[i].size + n == total <= 71680
    ensures f == WriteFate(v, v.inodes[i], n)
    ensures f == Done ==> Collected(v.g, v.disk, v.inodes, owner, v1.disk, v1.inodes, owner1, i, Used(v.inodes[i]),
            total / 512 + 1)
    ensures f == Done ==> v1 == v.(disk := v1.disk, bits := v1.bits, inodes := v1.inodes)
    ensures f == Done ==> Marked(v1.g, v1.bits, owner1) && Shorter(v, v1, WriteNeed(v.inodes[i], n))
    ensures f == Done ==> total < 71680 && Covers(v1.disk, v1.inodes[i], all, n)
  {
    var has := v.inodes[i].size / 512 + 1;
    var will := (v.inodes[i].size + n) / 512 + 1;
    all := [];
    if v.inodes[i].sectors[0] == 0 {
      var lba, w;
      ghost var own;
      f, w, lba, own := AllocBlock(v, owner, i, 0);
      if f != Done {
        return f, v, [], owner;
      }
      assert lba != v.g.dataStart;
      FirstBlockCollected(v.g, v.disk, v.inodes, owner, i, lba);
      FateOfRest(v, w, v.inodes[i], n, 1, has, will);
      f, v1, all, owner1 := PrepareRest(w, own, i, has, will);
      if f == Done {
        CollectedAfterFirst(v.g, v.disk, v.inodes, owner, w.inodes, own, v1.disk, v1.inodes, owner1, i, will);
      }
    } else {
      FateOfRest(v, v, v.inodes[i], n, 0, has, will);
      f, v1, all, owner1 := PrepareRest(v, owner, i, has, will);
    }
  }

  /** Everything a successful write promises, from its three stages. */
  lemma WriteDone(g: Geometry, disk: Disk, inodes: Inodes, owner: Owner, disk1: Disk, inodes1: Inodes, owner1: Owner,
                  disk2: Disk, i: nat, will: nat, buf: seq<Byte>, size: nat)
    requires i in inodes && FileShape(disk, inodes[i]) && Owned(disk, inodes, owner)
    requires size == inodes[i].size + |buf| < 71680
    requires Collected(g, disk, inodes, owner, disk1, inodes1, owner1, i, Used(inodes[i]), will)
    requires will == size / 512 + 1
    requires DataOnly(disk1, disk2, inodes1[i], owner1, i) && Appended(disk1, disk2, inodes1[i], buf, |buf|)
    requires forall l :: l in owner1 ==> g.dataStart <= l
    ensures var inodes2 := inodes1[i := inodes1[i].(size := size)];
            && OnlyInode(g, disk, inodes, owner, disk2, inodes2, owner1, i) && Owned(disk2, inodes2, owner1)
            && FileShape(disk2, inodes2[i]) && Contents(disk2, inodes2[i]) == Contents(disk, inodes[i]) + buf
  {
    WrittenContents(g, disk, inodes, owner, disk1, inodes1, owner1, disk2, i, will, buf, size);
    WrittenOwned(g, disk1, inodes1, owner1, disk2, i, size);
    assert Frame(g, disk, disk2, owner, i) by {
      assert Frame(g, disk, disk1, owner, i) && OthersKept(owner, owner1, i);
    }
    forall j | j in inodes && j != i ensures Untouched(disk, disk2, inodes[j]) {
      FrameUntouched(g, disk, disk2, inodes, owner, i, j);
    }
  }

  /** file_write of a text that is not too long: blocks first, then data. */
  method Append(v: Vol, ghost owner: Owner, i: nat, buf: seq<Byte>)
    returns (f: Fate, v1: Vol, pos: nat, ghost owner1: Owner)
    requires BlocksOk(v, owner) && i in v.inodes && FileShape(v.disk, v.inodes[i])
    requires v.g.dataStart in owner
    requires v.inodes[i].size + |buf| <= 71680
    ensures f == WriteFate(v, v.inodes[i], |buf|)
    ensures f == Done ==> BlocksOk(v1, owner1) && v1 == v.(disk := v1.disk, bits := v1.bits, inodes := v1.inodes)
    ensures f == Done ==> OnlyInode(v.g, v.disk, v.inodes, owner, v1.disk, v1.inodes, owner1, i)
    ensures f == Done ==> FileShape(v1.disk, v1.inodes[i])
    ensures f == Done ==> Contents(v1.disk, v1.inodes[i]) == Contents(v.disk, v.inodes[i]) + buf
    ensures f == Done ==> Shorter(v, v1, WriteNeed(v.inodes[i], |buf|))
    ensures f == Done ==> pos == Wrap(v.inodes[i].size + |buf| - 1)
  {
    ghost var total := v.inodes[i].size + |buf|;
    var w, all;
    f, w, all, owner1 := Prepare(v, owner, i, |buf|, total);
    if f != Done {
      return f, v, 0, owner;
    }
    var disk, size;
    disk, size, pos := WriteData(w.disk, w.inodes[i], all, buf, owner1, i);
    WriteDone(v.g, v.disk, v.inodes, owner, w.disk, w.inodes, owner1, disk, i, total / 512 + 1, buf, size);
    v1 := w.(disk := disk, inodes := w.inodes[i := w.inodes[i].(size := size)]);
  }

  // ----- file_read

  /** The direct slots from `from` up to `to`, copied one by one. */
  method CopyDirect(ino: Inode, from: nat, to: nat, all0: seq<nat>) returns (all: seq<nat>)
    requires |ino.sectors| == 13 && |all0| == 140 && from <= to <= 12
    ensures |all| == 140 && forall k :: 0 <= k < 140 ==> all[k] == if from <= k < to then ino.sectors[k] else all0[k]
  {
    all := all0;
    var idx := from;
    while idx < to
      invariant from <= idx <= to && |all| == 140
      invariant forall k :: 0 <= k < 140 ==> all[k] == if from <= k < idx then ino.sectors[k] else all0[k]
    {
      all := all[idx := ino.sectors[idx]];
      idx := idx + 1;
    }
  }

  /** The addresses of the blocks from `first` to `last`, in the four layouts of the source. */
  method ReadBlocks(disk: Disk, ino: Inode, first: nat, last: nat) returns (all: seq<nat>)
    requires FileShape(disk, ino) && first <= last < 139 && last <= ino.size / 512 && 0 < ino.size
    ensures |all| == 140 && forall k :: first <= k <= last ==> all[k] == Addr(disk, ino, k)
  {
    all := seq(140, _ => 0);
    if last < 12 {
      if first == last {
        all := all[last := ino.sectors[last]];
      } else {
        all := CopyDirect(ino, first, last + 1, all);
      }
    } else {
      assert ino.sectors[12] != 0;
      if first < 12 {
        all := CopyDirect(ino, first, 12, all);
      }
      all := all[..12] + DecTable(Read(disk, ino.sectors[12]));
    }
  }

  /** The read loop: `n` bytes from `start`, a block or a part of one at a time. */
  method ReadData(disk: Disk, ino: Inode, all: seq<nat>, start: nat, n: nat) returns (bytes: seq<Byte>, pos: nat)
    requires |ino.sectors| == 13 && start + n <= ino.size < 71680 && |all| == 140
    requires forall k :: start / 512 <= k <= (start + n) / 512 ==> all[k] == Addr(disk, ino, k)
    ensures pos == start + n && bytes == Contents(disk, ino)[start..start + n]
  {
    bytes, pos := [], start;
    while |bytes| < n
      invariant pos == start + |bytes| <= start + n
      invariant bytes == Contents(disk, ino)[start..pos]
    {
      var k, off, chunk := ChunkSize(pos, n - |bytes|);
      assert all[k] == Addr(disk, ino, k);
      var ioBuf := Read(disk, all[k]);
      NextChunk(disk, ino, start, pos, bytes, chunk, k, off);
      bytes := bytes + ioBuf[off..off + chunk];
      pos := pos + chunk;
    }
  }

  /** The bytes read so far and those of the next block. */
  lemma NextChunk(disk: Disk, ino: Inode, start: nat, pos: nat, bytes: seq<Byte>, n: nat, k: nat, off: nat)
    requires |ino.sectors| == 13 && start <= pos && pos + n <= ino.size < 71680 && IsAt(pos, k, off) && k < 140
    requires off + n <= 512
    requires bytes == Contents(disk, ino)[start..pos]
    ensures bytes + Read(disk, Addr(disk, ino, k))[off..off + n] == Contents(disk, ino)[start..pos + n]
  {
    BlockSlice(disk, ino, pos, n, k, off);
    var c := Contents(disk, ino);
    assert c[start..pos] + c[pos..pos + n] == c[start..pos + n];
  }

  /** Bytes that lie in one block are a slice of its sector. */
  lemma BlockSlice(disk: Disk, ino: Inode, pos: nat, n: nat, k: nat, off: nat)
    requires |ino.sectors| == 13 && pos + n <= ino.size < 71680 && IsAt(pos, k, off) && k < 140 && off + n <= 512
    ensures Contents(disk, ino)[pos..pos + n] == Read(disk, Addr(disk, ino, k))[off..off + n]
  {
    var c, s := Contents(disk, ino)[pos..pos + n], Read(disk, Addr(disk, ino, k))[off..off + n];
    forall q | 0 <= q < n
      ensures c[q] == s[q]
    {
      SliceByte(disk, ino, pos, q, k, off);
    }
  }

  lemma SliceByte(disk: Disk, ino: Inode, pos: nat, q: nat, k: nat, off: nat)
    requires |ino.sectors| == 13 && pos + q < ino.size < 71680 && IsAt(pos, k, off) && k < 140 && off + q < 512
    ensures Contents(disk, ino)[pos + q] == Read(disk, Addr(disk, ino, k))[off + q]
  {
    assert (pos + q) / 512 == k && (pos + q) % 512 == off + q;
    assert Contents(disk, ino)[pos + q] == ByteAt(disk, ino, pos + q);
  }

  /** The outcome of file_read: the bytes, -1 at the end of the file, or a failed assertion. */
  datatype ReadResult = Bytes(bytes: seq<Byte>) | AtEnd | ReadHalted

  /** file_read: the next `count` bytes from position `pos`, fewer at the end of the file. */
  method FileRead(disk: Disk, ino: Inode, pos: nat, count: nat) returns (r: ReadResult, pos1: nat)
    requires FileShape(disk, ino) && pos <= ino.size && pos + count < 0x1_0000_0000
    ensures var n := if pos + count > ino.size then ino.size - pos else count;
            && (r.AtEnd? <==> pos == ino.size && 0 < count)
            && (r.ReadHalted? <==> !r.AtEnd? && (pos + n) / 512 >= 139)
            && (r.Bytes? ==> r.bytes == Contents(disk, ino)[pos..pos + n] && pos1 == pos + n)
            && (!r.Bytes? ==> pos1 == pos)
  {
    var n := count;
    pos1 := pos;
    if pos + count > ino.size {
      n := ino.size - pos;
      if n == 0 {
        return AtEnd, pos;
      }
    }
    var first, last := pos / 512, (pos + n) / 512;
    if !(first < 139 && last < 139) {
      return ReadHalted, pos;
    }
    if n == 0 {
      return Bytes([]), pos;
    }
    var all := ReadBlocks(disk, ino, first, last);
    var bytes;
    bytes, pos1 := ReadData(disk, ino, all, pos, n);
    r := Bytes(bytes);
  }
}
