/**
 A mounted partition (struct partition and struct super_block): the sectors of its disk, the two
 in-memory bitmaps and the in-memory inodes, with the rule that ties them together: every block
 address found in a live inode is held by that inode alone, and the block bitmap marks exactly the
 blocks that are held.
 */
module Volume {
  import opened Sectors
  import opened Bitmap

  /** The sectors written so far; any other sector has the contents the disk came with. */
  datatype Disk = Disk(sectors: map<nat, Sector>, blank: Sector)

  /** ide_read of one sector. */
  function Read(disk: Disk, lba: nat): (s: Sector) {
    if lba in disk.sectors then disk.sectors[lba] else disk.blank
  }

  /** ide_write of one sector. */
  function Write(disk: Disk, lba: nat, s: Sector): (disk1: Disk)
    ensures forall l :: Read(disk1, l) == if l == lba then s else Read(disk, l)
  {
    disk.(sectors := disk.sectors[lba := s])
  }

  /** Where the areas of the partition lie: inode table, data area, number of data blocks. */
  datatype Geometry = Geometry(tableLba: nat, dataStart: nat, blocks: nat)

  /** The block address in slot `k` of an inode: 12 direct slots, 128 indirect ones, the table. */
  function Addr(disk: Disk, ino: Inode, k: nat): (lba: nat)
    requires |ino.sectors| == 13 && k <= 140
  {
    if k < 12 then ino.sectors[k]
    else if k == 140 then ino.sectors[12]
    else if ino.sectors[12] == 0 then 0
    else TableAt(Read(disk, ino.sectors[12]), k - 12)
  }

  /** Which inode and slot a block belongs to. */
  type Owner = map<nat, (nat, nat)>

  type Inodes = map<nat, Inode>

  ghost predicate Shaped(inodes: Inodes) {
    forall i :: i in inodes ==> |inodes[i].sectors| == 13 && inodes[i].no == i
  }

  /** Every address in a live inode is recorded under that inode and slot, and nothing else is. */
  ghost predicate Owned(disk: Disk, inodes: Inodes, owner: Owner) {
    && Shaped(inodes) && 0 !in owner
    && (forall i, k {:trigger Addr(disk, inodes[i], k)} ::
          i in inodes && 0 <= k <= 140 && Addr(disk, inodes[i], k) != 0 ==>
          Addr(disk, inodes[i], k) in owner && owner[Addr(disk, inodes[i], k)] == (i, k))
    && (forall l :: l in owner ==>
          owner[l].0 in inodes && owner[l].1 <= 140 && Addr(disk, inodes[owner[l].0], owner[l].1) == l)
  }

  /** The block bitmap marks exactly the owned blocks, all of which lie in the data area. */
  ghost predicate Marked(g: Geometry, bits: seq<bool>, owner: Owner) {
    && 0 < g.dataStart && g.dataStart + g.blocks <= 0x1_0000_0000 && g.blocks <= |bits|
    && (forall l :: l in owner ==> g.dataStart <= l < g.dataStart + g.blocks)
    && (forall l :: g.dataStart <= l < g.dataStart + g.blocks ==> (bits[l - g.dataStart] <==> l in owner))
    && TailSet(bits, g.blocks)
  }

  /** Behind the bits of the blocks and one more, all bits are set. */
  ghost predicate TailSet(bits: seq<bool>, blocks: nat) {
    forall i {:trigger bits[i]} :: blocks < i < |bits| ==> bits[i]
  }

  /** Nothing is shared: two slots with the same address are the same slot. */
  lemma OwnedOnce(disk: Disk, inodes: Inodes, owner: Owner, i: nat, k: nat, j: nat, m: nat)
    requires Owned(disk, inodes, owner)
    requires i in inodes && j in inodes && k <= 140 && m <= 140
    requires Addr(disk, inodes[i], k) == Addr(disk, inodes[j], m) != 0
    ensures i == j && k == m
  {
  }

  /** Nothing is lost and nothing is freed while owned: a block of the data area is marked exactly
      when some live inode holds its address. */
  lemma MarkedExactly(g: Geometry, disk: Disk, inodes: Inodes, bits: seq<bool>, owner: Owner, l: nat)
    requires Owned(disk, inodes, owner) && Marked(g, bits, owner)
    requires g.dataStart <= l < g.dataStart + g.blocks
    ensures bits[l - g.dataStart] <==>
            exists i, k :: i in inodes && 0 <= k <= 140 && Addr(disk, inodes[i], k) == l
  {
    if l in owner {
      assert Addr(disk, inodes[owner[l].0], owner[l].1) == l;
    }
  }

  /** `disk1` differs from `disk` at most in data blocks that are free or belong to inode `i`. */
  ghost predicate Frame(g: Geometry, disk: Disk, disk1: Disk, owner: Owner, i: nat) {
    && (forall l :: 0 <= l < g.dataStart ==> Read(disk1, l) == Read(disk, l))
    && (forall l :: l in owner && owner[l].0 != i ==> Read(disk1, l) == Read(disk, l))
  }

  /** All addresses and all sectors of an inode are as before. */
  ghost predicate Untouched(disk: Disk, disk1: Disk, ino: Inode)
    requires |ino.sectors| == 13
  {
    && (forall k :: 0 <= k <= 140 ==> Addr(disk1, ino, k) == Addr(disk, ino, k))
    && (forall k :: 0 <= k <= 140 && Addr(disk, ino, k) != 0 ==>
          Read(disk1, Addr(disk, ino, k)) == Read(disk, Addr(disk, ino, k)))
  }

  lemma FrameUntouched(g: Geometry, disk: Disk, disk1: Disk, inodes: Inodes, owner: Owner, i: nat, j: nat)
    requires Owned(disk, inodes, owner) && Frame(g, disk, disk1, owner, i)
    requires j in inodes && j != i
    ensures Untouched(disk, disk1, inodes[j])
  {
    var ino := inodes[j];
    forall k | 0 <= k <= 140 && Addr(disk, ino, k) != 0
      ensures Read(disk1, Addr(disk, ino, k)) == Read(disk, Addr(disk, ino, k))
    {
      assert owner[Addr(disk, inodes[j], k)].0 == j;
    }
    assert ino.sectors[12] == Addr(disk, ino, 140);
  }

  // ----- free blocks

  /** Marking a free block and recording its owner go together. */
  lemma MarkOne(g: Geometry, bits: seq<bool>, owner: Owner, lba: nat, who: (nat, nat))
    requires Marked(g, bits, owner)
    requires g.dataStart <= lba < g.dataStart + g.blocks && !bits[lba - g.dataStart]
    ensures Marked(g, bits[lba - g.dataStart := true], owner[lba := who]) && lba !in owner
  {
  }

  lemma UnmarkOne(g: Geometry, bits: seq<bool>, owner: Owner, lba: nat)
    requires Marked(g, bits, owner) && lba in owner
    ensures Marked(g, bits[lba - g.dataStart := false], owner - {lba})
  {
  }

  /** The state of a mounted partition.  Calls that open an inode close it again or have a slot of the table
      of open files for it, with one exception: sys_open of a file that is there leaves the directory of the
      file open.  `kept` has these directories, whose inodes stay on the list of open inodes for good; once
      such a directory is removed its inode stays there as it was, in `stale`. */
  datatype Vol =
    Vol(g: Geometry, disk: Disk, bits: seq<bool>, ibits: seq<bool>, inodes: Inodes, kept: set<nat>, stale: Inodes)

  /** Blocks are owned once and marked exactly. */
  ghost predicate BlocksOk(v: Vol, owner: Owner) {
    Owned(v.disk, v.inodes, owner) && Marked(v.g, v.bits, owner)
  }

  /** Free blocks of the data area. */
  function Free(v: Vol): (n: nat)
    requires v.g.blocks <= |v.bits|
  {
    CountFree(v.bits, v.g.blocks)
  }

  /** How far an operation gets.  It is done, or this is the first thing that goes wrong: bitmap_scan
      halts the kernel; the block behind the data area is handed out; an inode number takes more than
      8 bits; a directory needs more than its direct blocks; an inode is freed whose name stays; a number is
      given out again while another inode with that number is still on the list of open inodes. */
  datatype Fate = Done | Halts | StrayBlock | WideInode | FullDirectory | NameStays | StaleInode

  /** The bit behind the last block is clear, as partition_format leaves it for most sizes. */
  predicate StrayClear(v: Vol) {
    v.g.blocks < |v.bits| && !v.bits[v.g.blocks]
  }

  /** What becomes of an operation that takes `need` blocks, one after the other. */
  function BlockFate(v: Vol, need: nat): (f: Fate)
    requires v.g.blocks <= |v.bits|
  {
    if need <= Free(v) then Done else if StrayClear(v) then StrayBlock else Halts
  }

  /** block_bitmap_alloc: the first free block of the data area; without one, the block behind the data
      area if its bit is clear; otherwise bitmap_scan halts. */
  method BlockAlloc(v: Vol) returns (f: Fate, v1: Vol, lba: nat)
    requires v.g.blocks <= |v.bits| && TailSet(v.bits, v.g.blocks)
    ensures f == BlockFate(v, 1)
    ensures f == Done <==> Free(v) > 0
    ensures f == StrayBlock <==> Free(v) == 0 && StrayClear(v)
    ensures f == Halts <==> Full(v.bits)
    ensures f == Done ==> v.g.dataStart <= lba < v.g.dataStart + v.g.blocks && Leftmost(v.bits, 1, lba - v.g.dataStart)
    ensures f == Done ==> v1 == v.(bits := v.bits[lba - v.g.dataStart := true]) && Free(v1) == Free(v) - 1
    ensures f == StrayBlock ==> lba == v.g.dataStart + v.g.blocks && v1 == v.(bits := v.bits[v.g.blocks := true])
  {
    SomeFree(v.bits, v.g.blocks);
    var halts, b := ScanBits(v.bits, 1);
    OneBit(v.bits, b);
    v1, lba := v, 0;
    if halts {
      f := Halts;
    } else {
      TakeOne(v.bits, v.g.blocks, b);
      v1 := v.(bits := v.bits[b := true]);
      lba := v.g.dataStart + b;
      f := if b < v.g.blocks then Done else StrayBlock;
    }
  }

  /** On a full volume whose stray bit is clear, the block that is handed out next is the one behind the
      data area: no inode can hold it under the rule. */
  lemma FullVolume(v: Vol, owner: Owner, own: Owner)
    requires Marked(v.g, v.bits, owner) && Free(v) == 0 && StrayClear(v)
    ensures Leftmost(v.bits, 1, v.g.blocks) && v.g.dataStart + v.g.blocks !in owner
    ensures v.g.dataStart + v.g.blocks in own ==> !Marked(v.g, v.bits[v.g.blocks := true], own)
  {
    SomeFree(v.bits, v.g.blocks);
    forall b | 0 <= b < v.g.blocks ensures v.bits[b] {
    }
    forall b | b < v.g.blocks ensures !IsRun(v.bits, b, 1) {
      assert 0 <= b ==> v.bits[b];
    }
    assert IsRun(v.bits, v.g.blocks, 1);
  }

  // ----- operations on one inode

  /** A volume before and after an operation on inode `i`: nothing of any other inode changes. */
  ghost predicate OnlyInode(g: Geometry, disk: Disk, inodes: Inodes, owner: Owner, disk1: Disk, inodes1: Inodes,
      owner1: Owner, i: nat) {
    && i in inodes && i in inodes1 && inodes1 == inodes[i := inodes1[i]] && Shaped(inodes)
    && Frame(g, disk, disk1, owner, i) && OthersKept(owner, owner1, i)
    && forall j {:trigger Untouched(disk, disk1, inodes[j])} :: j in inodes && j != i ==>
       Untouched(disk, disk1, inodes[j])
  }

  /** Every address of the inode is recorded as its own. */
  ghost predicate OwnedBy(disk: Disk, ino: Inode, owner: Owner, i: nat)
    requires |ino.sectors| == 13
  {
    forall k :: 0 <= k <= 140 && Addr(disk, ino, k) != 0 ==>
      Addr(disk, ino, k) in owner && owner[Addr(disk, ino, k)] == (i, k)
  }

  /** Inode `i` keeps its addresses and gains new ones: ownership is kept. */
  lemma GrowOwned(g: Geometry, disk: Disk, disk1: Disk, inodes: Inodes, ino1: Inode, owner: Owner,
      owner1: Owner, i: nat)
    requires Owned(disk, inodes, owner) && i in inodes && |ino1.sectors| == 13 && ino1.no == i
    requires Frame(g, disk, disk1, owner, i) && 0 !in owner1
    requires forall l :: l in owner ==> l in owner1 && owner1[l] == owner[l]
    requires forall l :: l in owner1 && l !in owner ==>
               owner1[l].0 == i && owner1[l].1 <= 140 && Addr(disk1, ino1, owner1[l].1) == l
    requires forall k :: 0 <= k <= 140 && Addr(disk, inodes[i], k) != 0 ==>
               Addr(disk1, ino1, k) == Addr(disk, inodes[i], k)
    requires forall k :: 0 <= k <= 140 && Addr(disk1, ino1, k) != 0 ==>
               Addr(disk1, ino1, k) in owner1 && owner1[Addr(disk1, ino1, k)] == (i, k)
    ensures Owned(disk1, inodes[i := ino1], owner1)
  {
    var inodes1 := inodes[i := ino1];
    forall j, k | j in inodes1 && 0 <= k <= 140 && Addr(disk1, inodes1[j], k) != 0
      ensures Addr(disk1, inodes1[j], k) in owner1 && owner1[Addr(disk1, inodes1[j], k)] == (j, k)
    {
      if j != i {
        FrameUntouched(g, disk, disk1, inodes, owner, i, j);
        assert Addr(disk1, inodes[j], k) == Addr(disk, inodes[j], k);
      }
    }
    forall l | l in owner1
      ensures owner1[l].0 in inodes1 && owner1[l].1 <= 140 && Addr(disk1, inodes1[owner1[l].0], owner1[l].1) == l
    {
      if l in owner && owner[l].0 != i {
        FrameUntouched(g, disk, disk1, inodes, owner, i, owner[l].0);
      }
    }
  }

  /** Blocks of other inodes keep their owner. */
  ghost predicate OthersKept(owner: Owner, owner1: Owner, i: nat) {
    && (forall l :: l in owner && owner[l].0 != i ==> l in owner1 && owner1[l] == owner[l])
    && (forall l :: l in owner1 && owner1[l].0 != i ==> l in owner && owner1[l] == owner[l])
  }

  /** i_sectors[idx] = lba, for a direct slot. */
  function WithSlot(ino: Inode, idx: nat, lba: nat): (r: Inode)
    requires |ino.sectors| == 13
  {
    if idx < 12 then ino.(sectors := ino.sectors[idx := lba]) else ino
  }

  /** The volume is short of blocks as before, but for one of them. */
  predicate Shorter(v: Vol, v1: Vol, n: nat)
    requires v.g.blocks <= |v.bits| && v1.g.blocks <= |v1.bits|
  {
    Free(v1) == Free(v) - n && (StrayClear(v1) <==> StrayClear(v))
  }

  /** One round of the allocation loops. */
  method AllocBlock(v: Vol, ghost owner: Owner, i: nat, idx: nat)
    returns (f: Fate, v1: Vol, lba: Word, ghost owner1: Owner)
    requires Marked(v.g, v.bits, owner)
    requires i in v.inodes && |v.inodes[i].sectors| == 13
    requires idx < 12 ==> v.inodes[i].sectors[idx] == 0
    ensures f == BlockFate(v, 1)
    ensures f == Done ==> v1 == v.(bits := v1.bits, inodes := v.inodes[i := WithSlot(v.inodes[i], idx, lba)])
    ensures f == Done ==> Marked(v1.g, v1.bits, owner1) && Shorter(v, v1, 1)
    ensures f == Done ==> v.g.dataStart <= lba && lba !in owner && owner1 == owner[lba := (i, idx)]
    ensures f == Done ==> Leftmost(v.bits, 1, lba - v.g.dataStart)
  {
    owner1 := owner;
    var l;
    f, v1, l := BlockAlloc(v);
    if f != Done {
      return f, v, 0, owner;
    }
    lba := l;
    MarkOne(v.g, v.bits, owner, lba, (i, idx));
    var ino := v.inodes[i];
    if idx < 12 {
      assert ino.sectors[idx] == 0;
      ino := ino.(sectors := ino.sectors[idx := lba]);
    }
    v1 := v1.(inodes := v1.inodes[i := ino]);
    owner1 := owner[lba := (i, idx)];
  }

  /** Writing one data block of a file changes that block only: all addresses stay. */
  lemma WriteBlock(disk: Disk, ino: Inode, owner: Owner, i: nat, k: nat, s: Sector)
    requires |ino.sectors| == 13 && OwnedBy(disk, ino, owner, i) && k < 140 && Addr(disk, ino, k) != 0
    ensures var disk1 := Write(disk, Addr(disk, ino, k), s);
            && (forall m :: 0 <= m <= 140 ==> Addr(disk1, ino, m) == Addr(disk, ino, m))
            && OwnedBy(disk1, ino, owner, i)
            && (forall m :: 0 <= m < 140 ==>
                  Read(disk1, Addr(disk1, ino, m)) == if m == k then s else Read(disk, Addr(disk, ino, m)))
  {
    var l := Addr(disk, ino, k);
    assert owner[l] == (i, k);
    assert Addr(disk, ino, 140) == ino.sectors[12] != l;
  }

  /** Only data blocks of inode `i` differ; its addresses are as before. */
  ghost predicate DataOnly(disk: Disk, disk1: Disk, ino: Inode, owner: Owner, i: nat)
    requires |ino.sectors| == 13
  {
    && OwnedBy(disk1, ino, owner, i)
    && (forall k :: 0 <= k <= 140 ==> Addr(disk1, ino, k) == Addr(disk, ino, k))
    && (forall l :: 0 <= l && (l in owner ==> owner[l].0 != i) ==> Read(disk1, l) == Read(disk, l))
  }

  lemma DataOnlyChunk(disk: Disk, disk1: Disk, ino: Inode, owner: Owner, i: nat, k: nat, s: Sector)
    requires |ino.sectors| == 13 && DataOnly(disk, disk1, ino, owner, i) && k < 140 && Addr(disk1, ino, k) != 0
    ensures DataOnly(disk, Write(disk1, Addr(disk1, ino, k), s), ino, owner, i)
  {
    WriteBlock(disk1, ino, owner, i, k, s);
  }

  lemma WrittenOwned(g: Geometry, disk: Disk, inodes: Inodes, owner: Owner, disk1: Disk, i: nat, size: nat)
    requires Owned(disk, inodes, owner) && i in inodes && DataOnly(disk, disk1, inodes[i], owner, i)
    ensures Owned(disk1, inodes[i := inodes[i].(size := size)], owner)
  {
    var inodes1 := inodes[i := inodes[i].(size := size)];
    forall j, k | j in inodes1 && 0 <= k <= 140
      ensures Addr(disk1, inodes1[j], k) == Addr(disk, inodes[j], k)
    {
      if j != i {
        assert inodes[j].sectors[12] == Addr(disk, inodes[j], 140);
      } else {
        assert Addr(disk1, inodes1[i], k) == Addr(disk1, inodes[i], k);
      }
    }
  }

  /** Writing data blocks of inode `i` is an operation on inode `i`. */
  lemma WriteOnly(g: Geometry, disk: Disk, disk1: Disk, inodes: Inodes, owner: Owner, i: nat, size: nat)
    requires Owned(disk, inodes, owner) && i in inodes && DataOnly(disk, disk1, inodes[i], owner, i)
    requires forall l :: l in owner ==> g.dataStart <= l
    ensures OnlyInode(g, disk, inodes, owner, disk1, inodes[i := inodes[i].(size := size)], owner, i)
  {
    assert Frame(g, disk, disk1, owner, i);
    forall j | j in inodes && j != i ensures Untouched(disk, disk1, inodes[j]) {
      FrameUntouched(g, disk, disk1, inodes, owner, i, j);
    }
  }

  lemma UntouchedTrans(disk: Disk, disk1: Disk, disk2: Disk, ino: Inode)
    requires |ino.sectors| == 13 && Untouched(disk, disk1, ino) && Untouched(disk1, disk2, ino)
    ensures Untouched(disk, disk2, ino)
  {
  }

  /** Two operations on inode `i` in a row are an operation on inode `i`. */
  lemma OnlyInodeTrans(g: Geometry, disk: Disk, inodes: Inodes, owner: Owner, disk1: Disk, inodes1: Inodes,
      owner1: Owner,
                       disk2: Disk, inodes2: Inodes, owner2: Owner, i: nat)
    requires OnlyInode(g, disk, inodes, owner, disk1, inodes1, owner1, i)
    requires OnlyInode(g, disk1, inodes1, owner1, disk2, inodes2, owner2, i)
    ensures OnlyInode(g, disk, inodes, owner, disk2, inodes2, owner2, i)
  {
    forall j | j in inodes && j != i ensures Untouched(disk, disk2, inodes[j]) {
      assert inodes1[j] == inodes[j];
      UntouchedTrans(disk, disk1, disk2, inodes[j]);
    }
  }

  /** Inode `i` gains block `lba` in its direct slot `k`. */
  lemma GainSlot(g: Geometry, disk: Disk, inodes: Inodes, owner: Owner, i: nat, k: nat, lba: nat)
    requires Owned(disk, inodes, owner) && i in inodes && k < 12 && inodes[i].sectors[k] == 0
    requires lba != 0 && lba !in owner
    ensures Owned(disk, inodes[i := WithSlot(inodes[i], k, lba)], owner[lba := (i, k)])
    ensures OnlyInode(g, disk, inodes, owner, disk, inodes[i := WithSlot(inodes[i], k, lba)], owner[lba := (i, k)], i)
  {
    var ino1 := WithSlot(inodes[i], k, lba);
    assert forall m | 0 <= m <= 140 :: Addr(disk, ino1, m) == if m == k then lba else Addr(disk, inodes[i], m);
    GrowOwned(g, disk, disk, inodes, ino1, owner, owner[lba := (i, k)], i);
  }

  /** Inode `i` gives up the block in its direct slot `k`. */
  lemma LoseSlot(g: Geometry, disk: Disk, inodes: Inodes, owner: Owner, i: nat, k: nat)
    requires Owned(disk, inodes, owner) && i in inodes && k < 12 && inodes[i].sectors[k] != 0
    ensures inodes[i].sectors[k] in owner
    ensures Owned(disk, inodes[i := WithSlot(inodes[i], k, 0)], owner - {inodes[i].sectors[k]})
    ensures OnlyInode(g, disk, inodes, owner, disk, inodes[i := WithSlot(inodes[i], k, 0)],
            owner - {inodes[i].sectors[k]}, i)
  {
    var ino, ino1, lba := inodes[i], WithSlot(inodes[i], k, 0), inodes[i].sectors[k];
    assert lba == Addr(disk, inodes[i], k);
    assert owner[lba] == (i, k);
    var inodes1, owner1 := inodes[i := ino1], owner - {lba};
    assert forall m | 0 <= m <= 140 :: Addr(disk, ino1, m) == if m == k then 0 else Addr(disk, inodes[i], m);
    forall j, m | j in inodes1 && 0 <= m <= 140 && Addr(disk, inodes1[j], m) != 0
      ensures Addr(disk, inodes1[j], m) in owner1 && owner1[Addr(disk, inodes1[j], m)] == (j, m)
    {
      assert Addr(disk, inodes1[j], m) == Addr(disk, inodes[j], m);
    }
  }
}
