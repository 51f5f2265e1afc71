/**
 Inodes on disk and in memory (fs/inode.c): where they lie in the inode table, how they are written
 and read back, and how an inode is given back with all its blocks.
 */
module InodeTable {
  import opened Sectors
  import opened Volume

  /** struct inode_position: first sector, offset in it, and whether a second sector is needed. */
  datatype Position = Position(twoSec: bool, lba: nat, off: nat)

  /** inode_locate */
  function Locate(tableLba: nat, n: nat): (p: Position)
    requires n < 4096
    ensures p.off < 512 && (p.twoSec <==> p.off + 76 > 512)
    ensures tableLba <= p.lba && p.lba + (if p.twoSec then 2 else 1) <= tableLba + 608
    ensures 512 * (p.lba - tableLba) + p.off == 76 * n
  {
    var off := n * 76;
    Position(512 - off % 512 < 76, tableLba + off / 512, off % 512)
  }

  /** Byte `p` of the inode table. */
  ghost function TableByte(disk: Disk, tableLba: nat, p: nat): (b: Byte) {
    Read(disk, tableLba + p / 512)[p % 512]
  }

  /** The 76 bytes of inode `n`: slots of different inodes have no byte in common. */
  ghost function Slot(disk: Disk, tableLba: nat, n: nat): (bs: seq<Byte>)
    ensures |bs| == 76
  {
    seq<Byte>(76, t requires 0 <= t < 76 => TableByte(disk, tableLba, 76 * n + t))
  }

  /** ide_read of one or two sectors into a buffer. */
  function ReadPair(disk: Disk, lba: nat, two: bool): (buf: seq<Byte>)
    ensures |buf| == if two then 2 * 512 else 512
  {
    if two then Read(disk, lba) + Read(disk, lba + 1) else Read(disk, lba)
  }

  /** ide_write of the same. */
  function WritePair(disk: Disk, lba: nat, two: bool, buf: seq<Byte>): (disk1: Disk)
    requires |buf| == if two then 2 * 512 else 512
  {
    if two then Write(Write(disk, lba, buf[..512]), lba + 1, buf[512..]) else Write(disk, lba, buf)
  }

  /** inode_open of an inode that is not in the list of open ones: the slot is decoded. */
  function ReadInode(disk: Disk, tableLba: nat, n: nat): (ino: Inode)
    requires n < 4096
  {
    var p := Locate(tableLba, n);
    DecInode(ReadPair(disk, p.lba, p.twoSec)[p.off..p.off + 76])
  }

  /** inode_sync reads one sector into its buffer exactly when the slot lies within a sector.  file_write
      hands it a buffer of one sector whatever the inode. */
  lemma OneSectorSuffices(disk: Disk, tableLba: nat, n: nat)
    requires n < 4096
    ensures var p := Locate(tableLba, n); |ReadPair(disk, p.lba, p.twoSec)| <= 512 <==> 76 * n % 512 + 76 <= 512
  {
    assert 76 * n % 512 < 512;
  }

  /** Inode 6 is the first whose slot takes two sectors: inode_sync then fills 1024 bytes. */
  lemma InodeSixTakesTwo(disk: Disk, tableLba: nat, n: nat)
    requires n <= 6
    ensures var p := Locate(tableLba, n); |ReadPair(disk, p.lba, p.twoSec)| == if n == 6 then 1024 else 512
  {
    OneSectorSuffices(disk, tableLba, n);
  }

  /** A buffer read from sector `lba` of the table holds the bytes of the table from `base` on. */
  lemma PairByte(disk: Disk, tableLba: nat, lba: nat, two: bool, base: nat, p: nat)
    requires tableLba <= lba && base == 512 * (lba - tableLba) && base <= p < base + |ReadPair(disk, lba, two)|
    ensures ReadPair(disk, lba, two)[p - base] == TableByte(disk, tableLba, p)
  {
    var k, q := lba - tableLba, p - base;
    if q < 512 {
      assert p / 512 == k && p % 512 == q;
    } else {
      assert p / 512 == k + 1 && p % 512 == q - 512;
    }
  }

  lemma ReadsSlot(disk: Disk, tableLba: nat, n: nat)
    requires n < 4096
    ensures ReadInode(disk, tableLba, n) == DecInode(Slot(disk, tableLba, n))
  {
    var p := Locate(tableLba, n);
    var buf, s := ReadPair(disk, p.lba, p.twoSec), Slot(disk, tableLba, n);
    var b, base := buf[p.off..p.off + 76], 512 * (p.lba - tableLba);
    assert base + p.off == 76 * n;
    forall t | 0 <= t < 76
      ensures b[t] == s[t]
    {
      PairByte(disk, tableLba, p.lba, p.twoSec, base, 76 * n + t);
    }
    assert b == s;
  }

  /** inode_sync, or with zeros inode_delete: 76 bytes into slot `n`, the rest of the sectors kept. */
  function PutSlot(disk: Disk, tableLba: nat, n: nat, bs: seq<Byte>): (disk1: Disk)
    requires n < 4096 && |bs| == 76
  {
    var p := Locate(tableLba, n);
    WritePair(disk, p.lba, p.twoSec, Patch(ReadPair(disk, p.lba, p.twoSec), p.off, bs))
  }

  /** Sectors outside the table are kept. */
  lemma PutSlotElsewhere(disk: Disk, tableLba: nat, n: nat, bs: seq<Byte>, l: nat)
    requires n < 4096 && |bs| == 76 && !(tableLba <= l < tableLba + 608)
    ensures Read(PutSlot(disk, tableLba, n, bs), l) == Read(disk, l)
  {
  }

  /** The bytes of a buffer written back, seen as bytes of the table. */
  lemma WritePairByte(disk: Disk, tableLba: nat, lba: nat, two: bool, buf: seq<Byte>, base: nat, p: nat)
    requires tableLba <= lba && base == 512 * (lba - tableLba) && |buf| == if two then 2 * 512 else 512
    ensures TableByte(WritePair(disk, lba, two, buf), tableLba, p) == if base <= p < base + |buf| then buf[p - base]
            else TableByte(disk, tableLba, p)
  {
    var k, m, r := lba - tableLba, p / 512, p % 512;
    assert p - 512 * k == 512 * (m - k) + r;
    if m < k {
      assert p < 512 * k;
    } else if m > k + 1 {
      assert p - 512 * k >= 2 * 512;
    }
  }

  /** Patching a buffer read from the table and writing it back, byte by byte. */
  lemma PatchPairByte(disk: Disk, tableLba: nat, lba: nat, two: bool, off: nat, base: nat, bs: seq<Byte>, p: nat)
    requires tableLba <= lba && base == 512 * (lba - tableLba) && off + |bs| <= |ReadPair(disk, lba, two)|
    ensures TableByte(WritePair(disk, lba, two, Patch(ReadPair(disk, lba, two), off, bs)), tableLba, p) ==
            if base + off <= p < base + off + |bs| then bs[p - base - off] else TableByte(disk, tableLba, p)
  {
    var buf := ReadPair(disk, lba, two);
    WritePairByte(disk, tableLba, lba, two, Patch(buf, off, bs), base, p);
    if base <= p < base + |buf| {
      PairByte(disk, tableLba, lba, two, base, p);
    }
    var disk1 := WritePair(disk, lba, two, Patch(buf, off, bs));
    PatchedByte(buf, off, bs, base, p, TableByte(disk1, tableLba, p), TableByte(disk, tableLba, p));
  }

  /** A byte that is `was` before and `now` after the patched buffer was written. */
  lemma PatchedByte(buf: seq<Byte>, off: nat, bs: seq<Byte>, base: nat, p: nat, now: Byte, was: Byte)
    requires off + |bs| <= |buf| && now == (if base <= p < base + |buf| then Patch(buf, off, bs)[p - base] else was)
    requires base <= p < base + |buf| ==> was == buf[p - base]
    ensures now == if base + off <= p < base + off + |bs| then bs[p - base - off] else was
  {
  }

  /** The table after a write of one slot, byte by byte. */
  lemma PutSlotByte(disk: Disk, tableLba: nat, n: nat, bs: seq<Byte>, p: nat)
    requires n < 4096 && |bs| == 76
    ensures TableByte(PutSlot(disk, tableLba, n, bs), tableLba, p) ==
            if 76 * n <= p < 76 * n + 76 then bs[p - 76 * n] else TableByte(disk, tableLba, p)
  {
    var at := Locate(tableLba, n);
    var base := 512 * (at.lba - tableLba);
    assert base + at.off == 76 * n;
    PatchPairByte(disk, tableLba, at.lba, at.twoSec, at.off, base, bs, p);
  }

  /** Slots of 76 bytes do not overlap. */
  lemma SlotRange(j: nat, n: nat, t: nat)
    requires t < 76
    ensures 76 * n <= 76 * j + t < 76 * n + 76 <==> j == n
  {
  }

  /** The same, for byte `t` of slot `j`, which is byte `p` of the table. */
  lemma SlotByteAt(disk: Disk, tableLba: nat, n: nat, bs: seq<Byte>, j: nat, t: nat, p: nat)
    requires n < 4096 && |bs| == 76 && t < 76 && p == 76 * j + t
    requires 76 * n <= p < 76 * n + 76 <==> j == n
    ensures TableByte(PutSlot(disk, tableLba, n, bs), tableLba, p) == if j == n then bs[t]
            else TableByte(disk, tableLba, p)
  {
    PutSlotByte(disk, tableLba, n, bs, p);
    assert j == n ==> p - 76 * n == t;
  }

  lemma SlotByte(disk: Disk, tableLba: nat, n: nat, bs: seq<Byte>, j: nat, t: nat)
    requires n < 4096 && |bs| == 76 && t < 76
    ensures TableByte(PutSlot(disk, tableLba, n, bs), tableLba, 76 * j + t) ==
            if j == n then bs[t] else TableByte(disk, tableLba, 76 * j + t)
  {
    SlotRange(j, n, t);
    SlotByteAt(disk, tableLba, n, bs, j, t, 76 * j + t);
  }

  lemma PutSlotAt(disk: Disk, tableLba: nat, n: nat, bs: seq<Byte>, j: nat)
    requires n < 4096 && |bs| == 76
    ensures Slot(PutSlot(disk, tableLba, n, bs), tableLba, j) == if j == n then bs else Slot(disk, tableLba, j)
  {
    var s, s1 := Slot(disk, tableLba, j), Slot(PutSlot(disk, tableLba, n, bs), tableLba, j);
    forall t | 0 <= t < 76
      ensures s1[t] == if j == n then bs[t] else s[t]
    {
      SlotByte(disk, tableLba, n, bs, j, t);
    }
    assert s1 == if j == n then bs else s;
  }

  /** inode_sync.  The inode number goes through an 8-bit variable. */
  function Sync(disk: Disk, tableLba: nat, ino: Inode): (disk1: Disk)
    requires FitsInode(ino)
  {
    PutSlot(disk, tableLba, ino.no % 256, EncInode(ino))
  }

  /** What inode_open reads after an inode_sync: the inode itself exactly when its number is below 256;
      any other inode is found as before exactly when its number is not the one that was hit. */
  lemma SyncThenOpen(disk: Disk, tableLba: nat, ino: Inode, j: nat)
    requires FitsInode(ino) && j < 4096
    ensures ReadInode(Sync(disk, tableLba, ino), tableLba, j) ==
            if j == ino.no % 256 then ino else ReadInode(disk, tableLba, j)
  {
    PutSlotAt(disk, tableLba, ino.no % 256, EncInode(ino), j);
    ReadsSlot(disk, tableLba, j);
    ReadsSlot(Sync(disk, tableLba, ino), tableLba, j);
    InodeRoundTrip(ino);
  }

  /** An inode numbered 256 or more is lost: the slot it is read from keeps its old bytes. */
  lemma SyncRoundTrip(disk: Disk, tableLba: nat, ino: Inode)
    requires FitsInode(ino) && ino.no < 4096 && ReadInode(disk, tableLba, ino.no) != ino
    ensures ReadInode(Sync(disk, tableLba, ino), tableLba, ino.no) == ino <==> ino.no < 256
  {
    LowByte(ino.no);
    SyncThenOpen(disk, tableLba, ino, ino.no);
  }

  lemma LowByte(n: nat)
    ensures n == n % 256 <==> n < 256
  {
  }

  // ----- memory and disk agree

  /** The slot of inode `i` in the table on disk holds what memory says. */
  ghost predicate Synced(g: Geometry, disk: Disk, i: nat, ino: Inode) {
    && i == ino.no < 256 && FitsInode(ino)
    && forall t :: 0 <= t < 76 ==> TableByte(disk, g.tableLba, 76 * i + t) == EncInode(ino)[t]
  }

  ghost predicate Coherent(g: Geometry, disk: Disk, inodes: Inodes) {
    g.tableLba + 608 <= g.dataStart && forall i {:trigger Synced(g, disk, i, inodes[i])} :: i in inodes ==>
      Synced(g, disk, i, inodes[i])
  }

  /** inode_open: the inode on the list of open inodes, or read from disk.  It is the right one unless the
      list still has one of a removed directory with that number. */
  method InodeOpen(v: Vol, i: nat) returns (ino: Inode)
    requires Coherent(v.g, v.disk, v.inodes) && i in v.inodes
    ensures ino == if i in v.stale then v.stale[i] else v.inodes[i]
  {
    if i in v.stale {
      return v.stale[i];
    }
    assert Synced(v.g, v.disk, i, v.inodes[i]);
    SyncedRead(v.g, v.disk, i, v.inodes[i]);
    ino := ReadInode(v.disk, v.g.tableLba, i);
  }

  lemma SyncedRead(g: Geometry, disk: Disk, i: nat, ino: Inode)
    requires Synced(g, disk, i, ino)
    ensures ReadInode(disk, g.tableLba, i) == ino
  {
    SyncedSlot(g, disk, i, ino);
    ReadsSlot(disk, g.tableLba, i);
    InodeRoundTrip(ino);
  }

  lemma SyncedSlot(g: Geometry, disk: Disk, i: nat, ino: Inode)
    requires Synced(g, disk, i, ino)
    ensures Slot(disk, g.tableLba, i) == EncInode(ino)
  {
    var s, e := Slot(disk, g.tableLba, i), EncInode(ino);
    assert forall t | 0 <= t < 76 :: s[t] == e[t];
  }

  /** inode_sync of one inode leaves every other one synced. */
  lemma SyncKeeps(g: Geometry, disk: Disk, ino: Inode, j: nat, other: Inode)
    requires FitsInode(ino) && ino.no < 256 && (j == ino.no ==> other == ino)
    requires j != ino.no ==> Synced(g, disk, j, other)
    ensures Synced(g, Sync(disk, g.tableLba, ino), j, other)
  {
    LowByte(ino.no);
    forall t | 0 <= t < 76 ensures TableByte(Sync(disk, g.tableLba, ino), g.tableLba,
      76 * j + t) == EncInode(other)[t] {
      SlotByte(disk, g.tableLba, ino.no, EncInode(ino), j, t);
    }
  }

  /** Two inodes are changed in memory and written back. */
  lemma SyncTwo(g: Geometry, disk: Disk, inodes: Inodes, disk1: Disk, inodes1: Inodes, d: nat, i: nat)
    requires Coherent(g, disk, inodes) && forall l :: 0 <= l < g.dataStart ==> Read(disk1, l) == Read(disk, l)
    requires d in inodes1 && FitsInode(inodes1[d]) && inodes1[d].no == d < 256
    requires i in inodes1 && FitsInode(inodes1[i]) && inodes1[i].no == i < 256
    requires forall j :: j in inodes1 && j != d && j != i ==> j in inodes && inodes1[j] == inodes[j]
    ensures Coherent(g, Sync(Sync(disk1, g.tableLba, inodes1[d]), g.tableLba, inodes1[i]), inodes1)
  {
    var disk2 := Sync(disk1, g.tableLba, inodes1[d]);
    forall j | j in inodes1 ensures Synced(g, Sync(disk2, g.tableLba, inodes1[i]), j, inodes1[j]) {
      if j != d && j != i {
        assert Synced(g, disk, j, inodes[j]);
        DataKeepsTable(g, disk, disk1, j, inodes[j]);
      }
      if j != i {
        SyncKeeps(g, disk1, inodes1[d], j, inodes1[j]);
      }
      SyncKeeps(g, disk2, inodes1[i], j, inodes1[j]);
    }
  }

  /** inode_delete: zeros over the slot of inode `i`. */
  function Delete(disk: Disk, tableLba: nat, i: nat): (disk1: Disk)
    requires i < 4096
  {
    PutSlot(disk, tableLba, i, Zeros(76))
  }

  lemma DeleteKeeps(g: Geometry, disk: Disk, i: nat, j: nat, ino: Inode)
    requires i < 4096 && j != i && Synced(g, disk, j, ino)
    ensures Synced(g, Delete(disk, g.tableLba, i), j, ino)
  {
    forall t | 0 <= t < 76 ensures TableByte(Delete(disk, g.tableLba, i), g.tableLba, 76 * j + t) == EncInode(ino)[t] {
      SlotByte(disk, g.tableLba, i, Zeros(76), j, t);
    }
  }

  /** One inode is changed in memory and written back. */
  lemma SyncOne(g: Geometry, disk: Disk, inodes: Inodes, disk1: Disk, inodes1: Inodes, d: nat)
    requires Coherent(g, disk, inodes) && forall l :: 0 <= l < g.dataStart ==> Read(disk1, l) == Read(disk, l)
    requires d in inodes1 && FitsInode(inodes1[d]) && inodes1[d].no == d < 256
    requires forall j :: j in inodes1 && j != d ==> j in inodes && inodes1[j] == inodes[j]
    ensures Coherent(g, Sync(disk1, g.tableLba, inodes1[d]), inodes1)
  {
    forall j | j in inodes1 ensures Synced(g, Sync(disk1, g.tableLba, inodes1[d]), j, inodes1[j]) {
      if j != d {
        assert Synced(g, disk, j, inodes[j]);
        DataKeepsTable(g, disk, disk1, j, inodes[j]);
      }
      SyncKeeps(g, disk1, inodes1[d], j, inodes1[j]);
    }
  }

  /** inode_delete of an inode that is no longer live. */
  lemma DeleteCoherent(g: Geometry, disk: Disk, inodes: Inodes, i: nat)
    requires Coherent(g, disk, inodes) && i < 4096
    ensures Coherent(g, Delete(disk, g.tableLba, i), inodes - {i})
  {
    var inodes1 := inodes - {i};
    forall j | j in inodes1 ensures Synced(g, Delete(disk, g.tableLba, i), j, inodes1[j]) {
      assert Synced(g, disk, j, inodes[j]);
      DeleteKeeps(g, disk, i, j, inodes[j]);
    }
  }

  /** The data areas agree. */
  ghost predicate SameData(g: Geometry, disk: Disk, disk1: Disk) {
    forall l :: g.dataStart <= l ==> Read(disk1, l) == Read(disk, l)
  }

  lemma SyncSameData(g: Geometry, disk: Disk, ino: Inode)
    requires FitsInode(ino) && g.tableLba + 608 <= g.dataStart
    ensures SameData(g, disk, Sync(disk, g.tableLba, ino))
  {
    forall l | g.dataStart <= l ensures Read(Sync(disk, g.tableLba, ino), l) == Read(disk, l) {
      PutSlotElsewhere(disk, g.tableLba, ino.no % 256, EncInode(ino), l);
    }
  }

  lemma DeleteSameData(g: Geometry, disk: Disk, i: nat)
    requires i < 4096 && g.tableLba + 608 <= g.dataStart
    ensures SameData(g, disk, Delete(disk, g.tableLba, i))
  {
    forall l | g.dataStart <= l ensures Read(Delete(disk, g.tableLba, i), l) == Read(disk, l) {
      PutSlotElsewhere(disk, g.tableLba, i, Zeros(76), l);
    }
  }

  /** Changes below the data area touch no file and no directory. */
  lemma SameDataKeeps(g: Geometry, disk: Disk, disk1: Disk, inodes: Inodes, owner: Owner)
    requires Owned(disk, inodes, owner) && SameData(g, disk, disk1)
    requires forall l :: l in owner ==> g.dataStart <= l
    ensures Owned(disk1, inodes, owner)
    ensures forall j :: j in inodes ==> Untouched(disk, disk1, inodes[j])
  {
    forall j, k | j in inodes && 0 <= k <= 140
      ensures Addr(disk1, inodes[j], k) == Addr(disk, inodes[j], k)
    {
      assert inodes[j].sectors[12] == Addr(disk, inodes[j], 140);
    }
  }

  /** Changes in the data area do not touch the inode table. */
  lemma DataKeepsTable(g: Geometry, disk: Disk, disk1: Disk, i: nat, ino: Inode)
    requires g.tableLba + 608 <= g.dataStart && Synced(g, disk, i, ino)
    requires forall l :: 0 <= l < g.dataStart ==> Read(disk1, l) == Read(disk, l)
    ensures Synced(g, disk1, i, ino)
  {
    forall t | 0 <= t < 76 ensures TableByte(disk1, g.tableLba, 76 * i + t) == EncInode(ino)[t] {
      assert EncInode(ino)[t] == TableByte(disk, g.tableLba, 76 * i + t);
      assert (76 * i + t) / 512 < 608;
    }
  }

  // ----- giving an inode back

  /** The owners without the slots of inode `i` that are already released: its table and its slots
      below `idx`. */
  ghost predicate Released(owner: Owner, own: Owner, i: nat, idx: nat) {
    && (forall l :: l in own ==> l in owner && own[l] == owner[l])
    && (forall l :: l in owner ==>
          (l !in own <==> owner[l].0 == i && (owner[l].1 == 140 || owner[l].1 < idx)))
  }

  /** inode_release: clear the bits of the table and of every block, then the bit of the inode. */
  method Release(v: Vol, ghost owner: Owner, i: nat) returns (v1: Vol, ghost owner1: Owner)
    requires BlocksOk(v, owner) && i in v.inodes && i < |v.ibits|
    requires v.g.dataStart in owner && owner[v.g.dataStart].0 != i
    ensures BlocksOk(v1, owner1)
    ensures v1 == v.(bits := v1.bits, ibits := v.ibits[i := false], inodes := v.inodes - {i})
    ensures forall l :: l in owner1 <==> l in owner && owner[l].0 != i
    ensures forall l :: l in owner1 ==> owner1[l] == owner[l]
  {
    var ino := v.inodes[i];
    var all := seq(140, k requires 0 <= k < 140 => if k < 12 then ino.sectors[k] else 0);
    var cnt := 12;
    var bits := v.bits;
    owner1 := owner;
    assert Addr(v.disk, v.inodes[i], 140) == ino.sectors[12];
    if ino.sectors[12] != 0 {
      all := all[..12] + seq(128, k requires 0 <= k < 128 => TableAt(Read(v.disk, ino.sectors[12]), k));
      cnt := 140;
      assert ino.sectors[12] - v.g.dataStart > 0;
      UnmarkOne(v.g, bits, owner, ino.sectors[12]);
      bits := bits[ino.sectors[12] - v.g.dataStart := false];
      owner1 := owner - {ino.sectors[12]};
    }
    assert forall k | 0 <= k < 140 :: all[k] == Addr(v.disk, v.inodes[i], k);
    bits, owner1 := ReleaseBlocks(v, owner, owner1, bits, i, all, cnt);
    v1 := v.(bits := bits, ibits := v.ibits[i := false], inodes := v.inodes - {i});
    ReleasedOwned(v.disk, v.inodes, owner, owner1, i);
  }

  /** One round of the loop of inode_release. */
  lemma ReleaseOne(disk: Disk, inodes: Inodes, owner: Owner, own: Owner, i: nat, idx: nat, lba: nat)
    requires Owned(disk, inodes, owner) && Released(owner, own, i, idx) && i in inodes && idx < 140
    requires lba == Addr(disk, inodes[i], idx)
    ensures lba == 0 ==> Released(owner, own, i, idx + 1)
    ensures lba != 0 ==> lba in own && own[lba].0 == i && Released(owner, own - {lba}, i, idx + 1)
  {
  }

  /** The block at `lba`, if there is one, is free again. */
  method ReleaseRound(v: Vol, ghost owner: Owner, ghost own: Owner, bits0: seq<bool>, ghost i: nat, ghost idx: nat,
      ghost next: nat, lba: nat)
    returns (bits: seq<bool>, ghost owner1: Owner)
    requires BlocksOk(v, owner) && i in v.inodes && v.g.dataStart in owner && owner[v.g.dataStart].0 != i
    requires Released(owner, own, i, idx) && Marked(v.g, bits0, own) && idx < 140 && next == idx + 1
    requires lba == Addr(v.disk, v.inodes[i], idx)
    ensures Released(owner, owner1, i, next) && Marked(v.g, bits, owner1)
  {
    bits, owner1 := bits0, own;
    ReleaseOne(v.disk, v.inodes, owner, own, i, idx, lba);
    if lba != 0 {
      assert lba - v.g.dataStart > 0;
      UnmarkOne(v.g, bits0, own, lba);
      bits := bits0[lba - v.g.dataStart := false];
      owner1 := own - {lba};
    }
  }

  /** The loop of inode_release over all block addresses. */
  method ReleaseBlocks(v: Vol, ghost owner: Owner, ghost own: Owner, bits0: seq<bool>, i: nat, all: seq<nat>, cnt: nat)
    returns (bits: seq<bool>, ghost owner1: Owner)
    requires BlocksOk(v, owner) && i in v.inodes && v.g.dataStart in owner && owner[v.g.dataStart].0 != i
    requires Released(owner, own, i, 0) && Marked(v.g, bits0, own)
    requires |all| == 140 && forall k :: 0 <= k < 140 ==> all[k] == Addr(v.disk, v.inodes[i], k)
    requires cnt <= 140 && forall k :: cnt <= k < 140 ==> Addr(v.disk, v.inodes[i], k) == 0
    ensures Released(owner, owner1, i, 140) && Marked(v.g, bits, owner1)
  {
    bits, owner1 := bits0, own;
    var idx := 0;
    while idx < cnt
      invariant 0 <= idx <= cnt && Released(owner, owner1, i, idx) && Marked(v.g, bits, owner1)
    {
      var next := idx + 1;
      bits, owner1 := ReleaseRound(v, owner, owner1, bits, i, idx, next, all[idx]);
      idx := next;
    }
    ReleaseRest(v.disk, v.inodes, owner, owner1, i, cnt);
  }

  /** Slots without a block need no release. */
  lemma ReleaseRest(disk: Disk, inodes: Inodes, owner: Owner, own: Owner, i: nat, cnt: nat)
    requires Owned(disk, inodes, owner) && Released(owner, own, i, cnt) && i in inodes && cnt <= 140
    requires forall k :: cnt <= k < 140 ==> Addr(disk, inodes[i], k) == 0
    ensures Released(owner, own, i, 140)
  {
  }

  lemma ReleasedOwned(disk: Disk, inodes: Inodes, owner: Owner, owner1: Owner, i: nat)
    requires Owned(disk, inodes, owner) && Released(owner, owner1, i, 140)
    ensures Owned(disk, inodes - {i}, owner1)
  {
    var inodes1 := inodes - {i};
    forall j, k | j in inodes1 && 0 <= k <= 140 && Addr(disk, inodes1[j], k) != 0
      ensures Addr(disk, inodes1[j], k) in owner1 && owner1[Addr(disk, inodes1[j], k)] == (j, k)
    {
      assert owner[Addr(disk, inodes[j], k)] == (j, k);
    }
  }
}
