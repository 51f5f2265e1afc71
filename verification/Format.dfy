/**
 partition_format (fs/fs.c): where the areas of a partition lie, what the block bitmap starts with,
 and a file system that has the root directory only.
 */
module Format {
  import opened Sectors
  import opened Volume
  import opened InodeTable
  import opened Dir
  import opened Tree
  import opened Fs
  import opened Bitmap

  /** DIV_ROUND_UP(n, 4096) */
  function Bitmaps(n: nat): (k: nat)
    ensures 4096 * k >= n && 4096 * k < n + 4096
  {
    (n + 4095) / 4096
  }

  /** The areas of a partition: each starts where the one before it ends. */
  datatype Layout = Layout(super: nat, blockBitmap: nat, inodeBitmap: nat, table: nat, dataStart: nat, blocks: nat)

  /** The layout of a partition of `sectors` sectors from sector `start` on.  The number of bitmap
      sectors is estimated once with all free sectors and once more with what remains of them. */
  function LayoutOf(start: nat, sectors: nat): (l: Layout)
    requires 613 <= sectors
  {
    var free := sectors - 611;
    var blocks := free - Bitmaps(free);
    var inodeBitmap := start + 2 + Bitmaps(blocks);
    Layout(start + 1, start + 2, inodeBitmap, inodeBitmap + 1, inodeBitmap + 609, blocks)
  }

  /** The areas follow each other, the block bitmap has a bit for every block, and all of it fits the
      partition; up to 8 GB at most one sector is left over. */
  lemma LayoutFits(start: nat, sectors: nat)
    requires 613 <= sectors
    ensures var l := LayoutOf(start, sectors);
            && start < l.super < l.blockBitmap < l.inodeBitmap < l.table && l.table + 608 == l.dataStart
            && 0 < l.blocks <= 4096 * (l.inodeBitmap - l.blockBitmap)
            && l.dataStart + l.blocks <= start + sectors
            && (sectors <= 0x100_0000 ==> start + sectors - 1 <= l.dataStart + l.blocks)
  {
    var free := sectors - 611;
    var a := Bitmaps(free);
    var blocks := free - a;
    assert Bitmaps(blocks) <= a && (a <= 4096 ==> a <= Bitmaps(blocks) + 1);
  }

  // ----- the block bitmap

  /** Bits of the memory from the start of the block bitmap on: the root block is taken, the blocks are
      free, and so is the bit behind the last block; the rest of its sector is taken. */
  ghost predicate FreshBits(bits: seq<bool>, blocks: nat, n: nat) {
    && n <= |bits|
    && forall i :: 0 <= i < n ==> (bits[i] <==> if i <= blocks then i == 0 && blocks >= 8 else true)
  }

  /** The clearing loop of partition_format: bits 0 to `last` of the byte, one too many. */
  method ClearLow(b0: bv8, last: nat) returns (b: bv8)
    requires last < 8
    ensures forall k: nat :: k < 8 ==> (BitOf(b, k) <==> k > last && BitOf(b0, k))
  {
    b := b0;
    var k := 0;
    while k <= last
      invariant 0 <= k <= last + 1
      invariant forall m: nat :: m < 8 ==> (BitOf(b, m) <==> m >= k && BitOf(b0, m))
    {
      forall m: nat | m < 8 ensures BitOf(b & !Mask(k), m) == (m != k && BitOf(b, m)) {
        SetMask(b, k, m);
      }
      b := b & !Mask(k);
      k := k + 1;
    }
  }

  /** The first byte that is not free as a whole, and the end of its sector. */
  function Edge(blocks: nat): (e: nat) {
    blocks / 8
  }

  function EdgeEnd(blocks: nat): (e: nat)
    ensures e % 512 == 0 && Edge(blocks) < e <= Edge(blocks) + 512
  {
    blocks / 8 + (512 - blocks / 8 % 512)
  }

  /** The block bitmap as it is made in the buffer. */
  method MakeBlockBitmap(buf: array<bv8>, blocks: nat)
    requires 0 < blocks && EdgeEnd(blocks) <= buf.Length && forall i :: 0 <= i < buf.Length ==> buf[i] == 0
    modifies buf
    ensures FreshBits(Unpack(buf[..], 8 * EdgeEnd(blocks)), blocks, 8 * EdgeEnd(blocks))
  {
    buf[0] := buf[0] | 0x01;
    var last, bit, end := blocks / 8, blocks % 8, EdgeEnd(blocks);
    var i := last;
    while i < end
      invariant last <= i <= end
      invariant forall j :: 0 <= j < buf.Length ==> buf[j] == if last <= j < i then 0xff else if j == 0 then 1 else 0
    {
      buf[i] := 0xff;
      i := i + 1;
    }
    var b := ClearLow(0xff, bit);
    buf[last] := b;
    forall m | 0 <= m < 8 * end
      ensures Unpack(buf[..], 8 * end)[m] <==> if m <= blocks then m == 0 && blocks >= 8 else true
    {
      UnpackAt(buf[..], 8 * end, m);
      FreshBit(buf[m / 8], b, blocks, m);
    }
  }

  /** One bit of the fresh bitmap, from the byte it lies in. */
  lemma FreshBit(byte: bv8, b: bv8, blocks: nat, m: nat)
    requires byte == if m / 8 == blocks / 8 then b else if m / 8 > blocks / 8 then 0xff else if m / 8 == 0 then 1 else 0
    requires forall k: nat :: k < 8 ==> (BitOf(b, k) <==> k > blocks % 8 && BitOf(0xff, k))
    ensures BitOf(byte, m % 8) <==> if m <= blocks then m == 0 && blocks >= 8 else true
  {
    FullByte(0xff);
    assert m == 8 * (m / 8) + m % 8 && blocks == 8 * (blocks / 8) + blocks % 8;
    assert BitOf(0xff, m % 8);
    assert !BitOf(0, m % 8);
    assert BitOf(1, m % 8) <==> m % 8 == 0;
  }

  /** A bit that stands for no block is left free exactly when the blocks do not fill the last sector
      of the bitmap: the clearing loop goes one bit too far.  It is the bit behind the last block, and
      block_bitmap_alloc will hand it out when all blocks are taken. */
  lemma StrayBit(v: Vol)
    requires 0 < v.g.blocks && |v.bits| == 4096 * Bitmaps(v.g.blocks) && FreshBits(v.bits, v.g.blocks, |v.bits|)
    ensures StrayClear(v) <==> v.g.blocks % 4096 != 0
    ensures (exists i :: v.g.blocks <= i < |v.bits| && !v.bits[i]) <==> v.g.blocks % 4096 != 0
  {
    if v.g.blocks % 4096 != 0 {
      assert v.g.blocks < |v.bits|;
      assert !v.bits[v.g.blocks];
    }
  }

  // ----- the root directory

  /** ide_write of a run of sectors. */
  method WriteRun(disk0: Disk, lba: nat, buf: seq<Byte>, n: nat) returns (disk: Disk)
    requires |buf| == 512 * n
    ensures forall l :: lba <= l < lba + n ==> Read(disk, l) == buf[512 * (l - lba)..512 * (l - lba) + 512]
    ensures forall l :: 0 <= l && !(lba <= l < lba + n) ==> Read(disk, l) == Read(disk0, l)
  {
    disk := disk0;
    var k := 0;
    while k < n
      invariant 0 <= k <= n
      invariant forall l :: lba <= l < lba + k ==> Read(disk, l) == buf[512 * (l - lba)..512 * (l - lba) + 512]
      invariant forall l :: 0 <= l && !(lba <= l < lba + k) ==> Read(disk, l) == Read(disk0, l)
    {
      disk := Write(disk, lba + k, buf[512 * k..512 * k + 512]);
      k := k + 1;
    }
  }

  /** The inode of the root. */
  function RootInode(dataStart: nat): (ino: Inode) {
    DirInode(0, dataStart)
  }

  /** The table with the inode of the root in its first slot. */
  method WriteTable(disk0: Disk, tableLba: nat, ino: Inode) returns (disk: Disk)
    requires FitsInode(ino) && ino.no == 0
    ensures forall t :: 0 <= t < 76 ==> TableByte(disk, tableLba, t) == EncInode(ino)[t]
    ensures forall l :: 0 <= l && !(tableLba <= l < tableLba + 608) ==> Read(disk, l) == Read(disk0, l)
  {
    var buf := Patch(Zeros(311296), 0, EncInode(ino));
    disk := WriteRun(disk0, tableLba, buf, 608);
    forall t | 0 <= t < 76 ensures TableByte(disk, tableLba, t) == EncInode(ino)[t] {
      assert Read(disk, tableLba) == buf[0..512];
      assert t / 512 == 0 && t % 512 == t;
    }
  }

  /** The tree of a fresh partition. */
  function RootTree(): (t: Tree) {
    Tree(map[0 := NewDirRows(0, 0)], {0}, map[], map[0 := 0])
  }

  lemma RootTreeOk()
    ensures TreeOk(RootTree())
  {
    var t := RootTree();
    NewDirProper(0, 0);
    assert DirOk(t, 0) && DepthOk(t, 0);
    forall k, j | 0 <= k < 12 && 0 <= j < 21 ensures EntryOk(t, 0, k, j) {
      NameAt(t.imgs[0], k, j);
    }
  }

  lemma RootBlocks(disk: Disk, g: Geometry, bits: seq<bool>)
    requires 0 < g.dataStart && g.dataStart + g.blocks <= 0x1_0000_0000 && 8 <= g.blocks <= |bits|
    requires FreshBits(bits, g.blocks, |bits|)
    ensures Owned(disk, map[0 := RootInode(g.dataStart)], map[g.dataStart := (0, 0)])
    ensures Marked(g, bits, map[g.dataStart := (0, 0)])
  {
    var inodes: Inodes := map[0 := RootInode(g.dataStart)];
    forall k | 0 <= k <= 140 ensures Addr(disk, inodes[0], k) == if k == 0 then g.dataStart else 0 {
    }
  }

  /** A fresh partition obeys the rule. */
  lemma FreshOk(v: Vol, owner: Owner)
    requires 0 < v.g.dataStart && v.g.dataStart + v.g.blocks <= 0x1_0000_0000 && v.g.tableLba + 608 <= v.g.dataStart
    requires 8 <= v.g.blocks <= |v.bits| && FreshBits(v.bits, v.g.blocks, |v.bits|)
    requires v.inodes == map[0 := RootInode(v.g.dataStart)] && owner == map[v.g.dataStart := (0, 0)]
    requires v.ibits == [true] + seq(4095, _ => false) && v.kept == {} && v.stale == map[]
    requires forall t :: 0 <= t < 76 ==> TableByte(v.disk, v.g.tableLba, t) == EncInode(RootInode(v.g.dataStart))[t]
    requires EntriesOf(Read(v.disk, v.g.dataStart)) == NewDirRows(0, 0)[0]
    ensures FsOk(v, owner, RootTree()) && Files(v.disk, v.inodes, RootTree()) == map[]
  {
    RootTreeOk();
    RootBlocks(v.disk, v.g, v.bits);
    var ino := RootInode(v.g.dataStart);
    NewDirShape(v.disk, ino, 0, 0);
    assert NodeOk(v.disk, ino, RootTree(), 0);
    assert FitsInode(ino);
    assert Synced(v.g, v.disk, 0, ino);
  }

  /**
   partition_format and mounting.  `super` is the sector of the super block, whose layout is not
   modelled.  The buffer must reach to the end of the sector that the last bits are in.
   */
  method FormatPartition(disk0: Disk, start: nat, sectors: nat, super: Sector) returns (v: Vol, ghost owner: Owner)
    requires 620 <= sectors && start + sectors <= 0x1_0000_0000 && LayoutOf(start, sectors).blocks < 0x26_0000
    ensures var l := LayoutOf(start, sectors); v.g == Geometry(l.table, l.dataStart, l.blocks)
    ensures |v.bits| == 4096 * Bitmaps(v.g.blocks) && FreshBits(v.bits, v.g.blocks, |v.bits|)
    ensures v.kept == {} && v.stale == map[]
    ensures FsOk(v, owner, RootTree()) && Files(v.disk, v.inodes, RootTree()) == map[]
  {
    var l := LayoutOf(start, sectors);
    LayoutFits(start, sectors);
    var disk := Write(disk0, l.super, super);
    var bits := FreshBitmap(l.blocks);
    var ino := RootInode(l.dataStart);
    disk := WriteTable(disk, l.table, ino);
    var s := DotsSector(0, 0);
    disk := Write(disk, l.dataStart, s);
    v := Vol(Geometry(l.table, l.dataStart, l.blocks), disk, bits, [true] + seq(4095, _ => false),
             map[0 := ino], {}, map[]);
    owner := map[l.dataStart := (0, 0)];
    FreshOk(v, owner);
  }

  /** The bits that mounting reads back: those of the sectors that were written. */
  method FreshBitmap(blocks: nat) returns (bits: seq<bool>)
    requires 0 < blocks < 0x26_0000
    ensures |bits| == 4096 * Bitmaps(blocks) && FreshBits(bits, blocks, |bits|)
  {
    var buf := new bv8[311296](_ => 0);
    MakeBlockBitmap(buf, blocks);
    var n := 4096 * Bitmaps(blocks);
    EdgeCovers(blocks);
    bits := Bools(buf[..], n);
    assert forall i | 0 <= i < n :: bits[i] == Unpack(buf[..], 8 * EdgeEnd(blocks))[i] by {
      forall i | 0 <= i < n ensures bits[i] == Unpack(buf[..], 8 * EdgeEnd(blocks))[i] {
        UnpackAt(buf[..], 8 * EdgeEnd(blocks), i);
      }
    }
  }

  /** The sectors of the bitmap end where the last sector that was filled in ends, or one before. */
  lemma EdgeCovers(blocks: nat)
    requires 0 < blocks < 0x26_0000
    ensures 4096 * Bitmaps(blocks) <= 8 * EdgeEnd(blocks) && EdgeEnd(blocks) <= 311296
  {
  }

  method Bools(bytes: seq<bv8>, n: nat) returns (bits: seq<bool>)
    requires n <= 8 * |bytes|
    ensures |bits| == n && forall i :: 0 <= i < n ==> bits[i] == BitOf(bytes[i / 8], i % 8)
  {
    bits := seq(n, i requires 0 <= i < n => BitOf(bytes[i / 8], i % 8));
  }
}
