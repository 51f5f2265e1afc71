/**
 The file system as a whole: what create, write, unlink, mkdir and rmdir do to the tree of names and
 to the contents of the files, and the rule that holds between any two of them.
 */
module Fs {
  import opened Sectors
  import opened Volume
  import opened InodeTable
  import opened File
  import opened Dir
  import opened Tree
  import opened Bitmap

  // ----- the rule

  /** Inode `i` is a directory with the image the tree says, or a regular file. */
  ghost predicate NodeOk(disk: Disk, ino: Inode, t: Tree, i: nat) {
    && |ino.sectors| == 13
    && (i in t.imgs ==> DirShape(disk, ino) && Image(disk, ino) == t.imgs[i])
    && (i !in t.imgs ==> FileShape(disk, ino))
  }

  ghost predicate NodesOk(disk: Disk, inodes: Inodes, t: Tree) {
    forall i {:trigger NodeOk(disk, inodes[i], t, i)} :: i in inodes ==> NodeOk(disk, inodes[i], t, i)
  }

  /** The inode bitmap marks exactly the live inodes. */
  ghost predicate BitsOk(ibits: seq<bool>, live: set<nat>) {
    && |ibits| == 4096 && (forall i :: i in live ==> i < 4096)
    && forall i :: 0 <= i < 4096 ==> (ibits[i] <==> i in live)
  }

  /** The first data block is the first block of the root. */
  ghost predicate RootOk(g: Geometry, owner: Owner) {
    g.dataStart in owner && owner[g.dataStart] == (0, 0)
  }

  /** The inode of a directory with one block and nothing in it but "." and "..". */
  function DirInode(i: nat, lba: nat): (ino: Inode)
    ensures |ino.sectors| == 13
  {
    Inode(i, 48, [lba] + seq(12, _ => 0))
  }

  /** The inode of a directory that holds nothing but its two dots. */
  predicate BareDir(i: nat, ino: Inode) {
    |ino.sectors| == 13 && ino.sectors[0] != 0 && ino == DirInode(i, ino.sectors[0])
  }

  /** The inodes that stay on the list of open inodes: those of directories of the tree, and those of empty
      directories that are gone, whose numbers are free. */
  ghost predicate ListOk(v: Vol, t: Tree) {
    && (forall d {:trigger KeptOk(t, d)} :: d in v.kept ==> KeptOk(t, d))
    && (forall i {:trigger StaleOk(v, t, i)} :: i in v.stale ==> StaleOk(v, t, i))
  }

  /** A directory that was left open is there, and is not the root, which is always open. */
  ghost predicate KeptOk(t: Tree, d: nat) {
    d != 0 && d in t.imgs
  }

  /** An inode that is gone is that of an empty directory, and its number is free. */
  ghost predicate StaleOk(v: Vol, t: Tree, i: nat)
    requires i in v.stale
  {
    i !in t.live && v.stale[i] == DirInode(i, StaleBlock(v, i)) && StaleBlock(v, i) != 0
  }

  /** The list has no other inode with the number of a live one. */
  lemma NotStale(v: Vol, t: Tree, i: nat)
    requires ListOk(v, t) && i in t.live
    ensures i !in v.stale
  {
    assert i in v.stale ==> StaleOk(v, t, i);
  }

  /** The block of a directory that is gone. */
  function StaleBlock(v: Vol, i: nat): (lba: nat)
    requires i in v.stale
  {
    if |v.stale[i].sectors| == 0 then 0 else v.stale[i].sectors[0]
  }

  /** The list of open inodes has an inode of a removed directory with the number of a live inode, which has
      another block or none. */
  ghost predicate StaleAt(v: Vol, i: nat) {
    && i in v.stale && i in v.inodes && |v.inodes[i].sectors| == 13
    && v.stale[i] == DirInode(i, StaleBlock(v, i)) && StaleBlock(v, i) != 0
    && v.inodes[i].sectors[12] == 0 && (forall k :: 0 <= k < 12 ==> v.inodes[i].sectors[k] != StaleBlock(v, i))
    && (forall j :: j in v.stale && j in v.inodes ==> j == i)
  }

  ghost predicate StaleLeft(v: Vol) {
    exists i :: StaleAt(v, i)
  }

  /** The volume with the inodes that inode_open finds. */
  ghost function AsOpened(v: Vol): (v1: Vol) {
    v.(inodes := map i | i in v.inodes :: if i in v.stale then v.stale[i] else v.inodes[i])
  }

  /** With such an inode on the list, blocks are no longer held once and marked exactly: the block of the
      removed directory is either free or that of another inode. */
  lemma SeenTwice(v: Vol, owner: Owner, owner1: Owner)
    requires BlocksOk(v, owner) && StaleLeft(v)
    ensures !BlocksOk(AsOpened(v), owner1)
  {
    var i :| StaleAt(v, i);
    var b, inodes := StaleBlock(v, i), AsOpened(v).inodes;
    assert inodes[i] == DirInode(i, b) && Addr(v.disk, inodes[i], 0) == b;
    if b in owner {
      var j, k := owner[b].0, owner[b].1;
      assert Addr(v.disk, v.inodes[j], k) == b;
      assert j != i;
      assert inodes[j] == v.inodes[j] && Addr(v.disk, inodes[j], k) == b;
    } else {
      assert v.g.dataStart <= b < v.g.dataStart + v.g.blocks ==> !v.bits[b - v.g.dataStart];
    }
  }

  /** As long as the rule holds, inode_open finds the right inodes. */
  lemma OpenedRight(v: Vol, owner: Owner, t: Tree)
    requires FsOk(v, owner, t)
    ensures AsOpened(v) == v
  {
    forall i | i in v.inodes ensures i !in v.stale {
      NotStale(v, t, i);
    }
    assert AsOpened(v).inodes == v.inodes;
  }

  /** A number that is given out again. */
  lemma GivenAgain(v: Vol, v1: Vol, t: Tree, t1: Tree, i: nat)
    requires ListOk(v, t) && v1.stale == v.stale && i in v.stale && v1.inodes.Keys == t1.live == t.live + {i}
    requires |v1.inodes[i].sectors| == 13 && v1.inodes[i].sectors[12] == 0
    requires forall k :: 0 <= k < 12 ==> v1.inodes[i].sectors[k] == 0 || v1.inodes[i].sectors[k] != StaleBlock(v, i)
    ensures StaleLeft(v1)
  {
    assert StaleOk(v, t, i);
    forall j | j in v1.stale && j in v1.inodes ensures j == i {
      assert StaleOk(v, t, j);
    }
    assert StaleAt(v1, i);
  }

  /**
   The rule between operations.  Blocks are held once and marked exactly; names form a tree; every
   inode is a well-formed directory or file; the inode bitmap marks the live inodes; the inode
   table on disk agrees with memory; and the list of open inodes has no other inode with the number of a
   live one.
   */
  ghost predicate FsOk(v: Vol, owner: Owner, t: Tree) {
    DiskOk(v, owner, t) && ListOk(v, t)
  }

  /** The rule with a stale inode on the list: no volume of this kind obeys it. */
  lemma StaleBreaks(v: Vol, owner: Owner, t: Tree)
    requires StaleLeft(v)
    ensures !FsOk(v, owner, t)
  {
    var i :| StaleAt(v, i);
    if DiskOk(v, owner, t) && ListOk(v, t) {
      NotStale(v, t, i);
    }
  }

  /** The part of the rule that is about the disk. */
  ghost predicate DiskOk(v: Vol, owner: Owner, t: Tree) {
    && BlocksOk(v, owner) && TreeOk(t) && v.inodes.Keys == t.live
    && NodesOk(v.disk, v.inodes, t) && BitsOk(v.ibits, t.live)
    && Coherent(v.g, v.disk, v.inodes) && RootOk(v.g, owner)
  }

  /** What the regular files say. */
  ghost function Files(disk: Disk, inodes: Inodes, t: Tree): (fs: map<nat, seq<Byte>>) {
    map i | i in inodes && i !in t.imgs :: Text(disk, inodes[i])
  }

  /** What a regular file says. */
  ghost function Text(disk: Disk, ino: Inode): (c: seq<Byte>) {
    if |ino.sectors| == 13 && ino.size < 71680 then Contents(disk, ino) else []
  }

  // ----- keeping the rule

  lemma UntouchedImage(disk: Disk, disk1: Disk, ino: Inode)
    requires |ino.sectors| == 13 && Untouched(disk, disk1, ino)
    ensures Image(disk1, ino) == Image(disk, ino)
  {
    forall k | 0 <= k < 12 ensures Row(disk1, ino.sectors[k]) == Row(disk, ino.sectors[k]) {
      assert Addr(disk, ino, k) == ino.sectors[k];
    }
    assert Image(disk1, ino) == Image(disk, ino);
  }

  /** An inode none of whose sectors changed is what it was. */
  lemma NodeKept(disk: Disk, disk1: Disk, ino: Inode, t: Tree, t1: Tree, i: nat)
    requires NodeOk(disk, ino, t, i) && Untouched(disk, disk1, ino)
    requires i in t.imgs <==> i in t1.imgs
    requires i in t.imgs ==> t1.imgs[i] == t.imgs[i]
    ensures NodeOk(disk1, ino, t1, i)
    ensures i !in t.imgs ==> Text(disk1, ino) == Text(disk, ino)
  {
    if i in t.imgs {
      UntouchedImage(disk, disk1, ino);
    } else {
      UntouchedContents(disk, disk1, ino);
    }
  }

  lemma {:induction false} ListingBound(rows: seq<seq<Entry>>)
    requires forall k :: 0 <= k < |rows| ==> |rows[k]| == 21
    ensures |Listing(rows)| <= 21 * |rows|
  {
    if rows != [] {
      ListingBound(rows[..|rows| - 1]);
    }
  }

  /** Everything in an inode fits the 32-bit fields it is written to. */
  lemma NodeFits(v: Vol, owner: Owner, t: Tree, i: nat)
    requires BlocksOk(v, owner) && i in v.inodes && i < 0x1_0000_0000 && NodeOk(v.disk, v.inodes[i], t, i)
    ensures FitsInode(v.inodes[i])
  {
    var ino := v.inodes[i];
    forall k | 0 <= k < 13 ensures ino.sectors[k] < 0x1_0000_0000 {
      assert Addr(v.disk, v.inodes[i], if k == 12 then 140 else k) == ino.sectors[k];
    }
    if i in t.imgs {
      ListingBound(Image(v.disk, ino));
    }
  }

  /** The state before and after an operation on directory or file `d`, if the inodes were `inodes`. */
  ghost predicate Others(disk: Disk, inodes: Inodes, t: Tree, disk1: Disk, inodes1: Inodes, t1: Tree, d: nat) {
    && inodes1.Keys == inodes.Keys && d in inodes1 && NodeOk(disk1, inodes1[d], t1, d)
    && forall j {:trigger NodeSame(disk, inodes[j], t, disk1, inodes1[j], t1, j)} :: j in inodes && j != d ==>
         NodeSame(disk, inodes[j], t, disk1, inodes1[j], t1, j)
  }

  ghost predicate NodeSame(disk: Disk, ino: Inode, t: Tree, disk1: Disk, ino1: Inode, t1: Tree, j: nat) {
    && ino1 == ino && |ino.sectors| == 13 && Untouched(disk, disk1, ino)
    && (j in t.imgs <==> j in t1.imgs) && (j in t.imgs ==> t1.imgs[j] == t.imgs[j])
  }

  lemma OthersKeep(disk: Disk, inodes: Inodes, t: Tree, disk1: Disk, inodes1: Inodes, t1: Tree, d: nat)
    requires NodesOk(disk, inodes, t) && Others(disk, inodes, t, disk1, inodes1, t1, d)
    ensures NodesOk(disk1, inodes1, t1)
    ensures forall j :: j in inodes && j != d && j !in t.imgs ==> j !in t1.imgs
                                                                  && Text(disk1, inodes1[j]) == Text(disk, inodes[j])
  {
    forall j | j in inodes && j != d
      ensures NodeOk(disk1, inodes1[j], t1, j)
      ensures j !in t.imgs ==> j !in t1.imgs && Text(disk1, inodes1[j]) == Text(disk, inodes[j])
    {
      assert NodeSame(disk, inodes[j], t, disk1, inodes1[j], t1, j) && NodeOk(disk, inodes[j], t, j);
      NodeKept(disk, disk1, inodes[j], t, t1, j);
    }
  }

  /** Writes below the data area keep every node and every file. */
  lemma TableWriteKeeps(g: Geometry, disk: Disk, disk1: Disk, inodes: Inodes, owner: Owner, t: Tree)
    requires NodesOk(disk, inodes, t) && Owned(disk, inodes, owner) && SameData(g, disk, disk1)
    requires forall l :: l in owner ==> g.dataStart <= l
    ensures Owned(disk1, inodes, owner) && NodesOk(disk1, inodes, t)
    ensures Files(disk1, inodes, t) == Files(disk, inodes, t)
  {
    SameDataKeeps(g, disk, disk1, inodes, owner);
    forall j | j in inodes
      ensures NodeOk(disk1, inodes[j], t, j)
      ensures j !in t.imgs ==> Text(disk1, inodes[j]) == Text(disk, inodes[j])
    {
      assert NodeOk(disk, inodes[j], t, j);
      NodeKept(disk, disk1, inodes[j], t, t, j);
    }
  }

  /** A new inode without blocks. */
  function NewInode(i: nat): (ino: Inode) {
    Inode(i, 0, seq(13, _ => 0))
  }

  lemma NewInodeOwned(disk: Disk, inodes: Inodes, owner: Owner, i: nat)
    requires Owned(disk, inodes, owner) && i !in inodes
    ensures Owned(disk, inodes[i := NewInode(i)], owner) && FileShape(disk, NewInode(i))
    ensures Text(disk, NewInode(i)) == []
  {
    var inodes1 := inodes[i := NewInode(i)];
    forall j, k | j in inodes1 && 0 <= k <= 140
      ensures Addr(disk, inodes1[j], k) == if j == i then 0 else Addr(disk, inodes[j], k)
    {
    }
    forall k | 0 <= k <= 140 ensures Addr(disk, NewInode(i), k) == 0 {
    }
  }

  /** The first block of the root stays where it is. */
  lemma RootKept(v: Vol, owner: Owner, v1: Vol, owner1: Owner)
    requires BlocksOk(v, owner) && BlocksOk(v1, owner1) && RootOk(v.g, owner) && v1.g == v.g
    requires 0 in v.inodes && 0 in v1.inodes && v1.inodes[0].sectors[0] == v.inodes[0].sectors[0]
    ensures RootOk(v1.g, owner1)
  {
    assert Addr(v.disk, v.inodes[0], 0) == v.g.dataStart;
    assert Addr(v1.disk, v1.inodes[0], 0) == v.g.dataStart;
  }

  /** inode_sync of two inodes that changed in memory. */
  function SyncBoth(w: Vol, d: nat, i: nat): (v1: Vol)
    requires d in w.inodes && FitsInode(w.inodes[d]) && i in w.inodes && FitsInode(w.inodes[i])
  {
    w.(disk := Sync(Sync(w.disk, w.g.tableLba, w.inodes[d]), w.g.tableLba, w.inodes[i]))
  }

  /** A volume that obeys the rule except that inodes `d` and `i` have not been written back. */
  ghost predicate Unsynced(v: Vol, w: Vol, owner: Owner, t: Tree, d: nat, i: nat) {
    && Coherent(v.g, v.disk, v.inodes) && w.g == v.g
    && BlocksOk(w, owner) && NodesOk(w.disk, w.inodes, t)
    && (forall l :: 0 <= l < v.g.dataStart ==> Read(w.disk, l) == Read(v.disk, l))
    && d in w.inodes && d < 256 && i in w.inodes && i < 256
    && (forall j :: j in w.inodes && j != d && j != i ==> j in v.inodes && w.inodes[j] == v.inodes[j])
  }

  lemma UnsyncedFits(v: Vol, w: Vol, owner: Owner, t: Tree, d: nat, i: nat)
    requires Unsynced(v, w, owner, t, d, i)
    ensures FitsInode(w.inodes[d]) && w.inodes[d].no == d && FitsInode(w.inodes[i]) && w.inodes[i].no == i
  {
    assert NodeOk(w.disk, w.inodes[d], t, d) && NodeOk(w.disk, w.inodes[i], t, i);
    NodeFits(w, owner, t, d);
    NodeFits(w, owner, t, i);
  }

  lemma Settle(v: Vol, w: Vol, owner: Owner, t: Tree, d: nat, i: nat)
    requires Unsynced(v, w, owner, t, d, i) && FitsInode(w.inodes[d]) && FitsInode(w.inodes[i])
    ensures var v1 := SyncBoth(w, d, i);
            && BlocksOk(v1, owner) && NodesOk(v1.disk, v1.inodes, t) && Coherent(v1.g, v1.disk, v1.inodes)
            && Files(v1.disk, v1.inodes, t) == Files(w.disk, w.inodes, t)
  {
    UnsyncedFits(v, w, owner, t, d, i);
    var disk := Sync(w.disk, w.g.tableLba, w.inodes[d]);
    SyncTwo(v.g, v.disk, v.inodes, w.disk, w.inodes, d, i);
    SyncSameData(w.g, w.disk, w.inodes[d]);
    SyncSameData(w.g, disk, w.inodes[i]);
    TableWriteKeeps(w.g, w.disk, SyncBoth(w, d, i).disk, w.inodes, owner, t);
  }

  /** All that is missing of the rule is that inodes `d` and `i` are written back. */
  ghost predicate Ready(v: Vol, w: Vol, owner: Owner, t: Tree, d: nat, i: nat) {
    Unsynced(v, w, owner, t, d, i) && TreeOk(t) && w.inodes.Keys == t.live && BitsOk(w.ibits, t.live)
      && RootOk(w.g, owner)
  }

  method WriteBack(ghost v: Vol, w: Vol, ghost owner: Owner, ghost t: Tree, d: nat, i: nat) returns (v1: Vol)
    requires Ready(v, w, owner, t, d, i)
    ensures DiskOk(v1, owner, t) && v1 == w.(disk := v1.disk)
    ensures Files(v1.disk, v1.inodes, t) == Files(w.disk, w.inodes, t)
  {
    UnsyncedFits(v, w, owner, t, d, i);
    Settle(v, w, owner, t, d, i);
    v1 := SyncBoth(w, d, i);
  }

  /** inode_sync of one inode that changed in memory. */
  method WriteBackOne(ghost v: Vol, w: Vol, ghost owner: Owner, ghost t: Tree, d: nat) returns (v1: Vol)
    requires Unsynced(v, w, owner, t, d, d)
    ensures v1 == w.(disk := v1.disk) && BlocksOk(v1, owner) && NodesOk(v1.disk, v1.inodes, t)
    ensures Coherent(v1.g, v1.disk, v1.inodes) && Files(v1.disk, v1.inodes, t) == Files(w.disk, w.inodes, t)
  {
    UnsyncedFits(v, w, owner, t, d, d);
    var disk := Sync(w.disk, w.g.tableLba, w.inodes[d]);
    SyncOne(v.g, v.disk, v.inodes, w.disk, w.inodes, d);
    SyncSameData(w.g, w.disk, w.inodes[d]);
    TableWriteKeeps(w.g, w.disk, disk, w.inodes, owner, t);
    v1 := w.(disk := disk);
  }

  /** An operation on inode `d` leaves only that inode to be written back. */
  lemma OnlyUnsynced(v: Vol, owner: Owner, w: Vol, own: Owner, t: Tree, d: nat)
    requires Coherent(v.g, v.disk, v.inodes) && BlocksOk(w, own) && NodesOk(w.disk, w.inodes, t) && w.g == v.g
    requires OnlyInode(v.g, v.disk, v.inodes, owner, w.disk, w.inodes, own, d)
    ensures Unsynced(v, w, own, t, d, d)
  {
    assert Synced(v.g, v.disk, d, v.inodes[d]);
  }

  // ----- making a new inode

  /** What becomes of a new inode: its number fits the 8 bits that inode_sync keeps, or it does not, or
      there is none. */
  function InodeFate(ibits: seq<bool>): (f: Fate)
    requires |ibits| == 4096
  {
    if CountFree(ibits, 256) > 0 then Done else if CountFree(ibits, 4096) > 0 then WideInode else Halts
  }

  lemma InodeFateOf(ibits: seq<bool>, i: nat)
    requires |ibits| == 4096 && i < 4096 && Leftmost(ibits, 1, i)
    ensures !ibits[i] && InodeFate(ibits) == if i < 256 then Done else WideInode
  {
    OneBit(ibits, i);
    SomeFree(ibits, 256);
    SomeFree(ibits, 4096);
  }

  /** inode_bitmap_alloc: the lowest free number. */
  method InodeAlloc(v: Vol) returns (f: Fate, i: nat)
    requires |v.ibits| == 4096
    ensures f == InodeFate(v.ibits)
    ensures f == Halts <==> Full(v.ibits)
    ensures f != Halts ==> i < 4096 && Leftmost(v.ibits, 1, i) && (f == Done <==> i < 256)
  {
    SomeFree(v.ibits, 4096);
    var halts, b := ScanBits(v.ibits, 1);
    OneBit(v.ibits, b);
    if halts {
      SomeFree(v.ibits, 256);
      return Halts, 0;
    }
    InodeFateOf(v.ibits, b);
    f, i := if b < 256 then Done else WideInode, b;
  }

  /** The volume with a new, empty inode `i`. */
  function WithInode(v: Vol, i: nat): (w: Vol)
    requires i < |v.ibits|
  {
    v.(ibits := v.ibits[i := true], inodes := v.inodes[i := NewInode(i)])
  }

  lemma NotThere(v: Vol, owner: Owner, t: Tree, i: nat)
    requires FsOk(v, owner, t) && i < 4096 && !v.ibits[i]
    ensures i !in t.live && i !in t.imgs && i !in v.inodes && i != 0
  {
    assert i !in t.live;
    ParentsThere(t, i);
  }

  lemma NewBits(ibits: seq<bool>, live: set<nat>, i: nat)
    requires BitsOk(ibits, live) && i < 4096
    ensures BitsOk(ibits[i := true], live + {i})
  {
  }

  lemma NewNodes(disk: Disk, inodes: Inodes, t: Tree, i: nat)
    requires NodesOk(disk, inodes, t) && i !in t.imgs && FileShape(disk, NewInode(i))
    ensures NodesOk(disk, inodes[i := NewInode(i)], t)
  {
    assert NodeOk(disk, NewInode(i), t, i);
  }

  lemma NewFiles(disk: Disk, inodes: Inodes, inodes1: Inodes, t: Tree, i: nat)
    requires NodesOk(disk, inodes, t) && NodesOk(disk, inodes1, t) && inodes1 == inodes[i := NewInode(i)]
    requires i !in t.imgs
    ensures Files(disk, inodes1, t) == Files(disk, inodes, t)[i := []]
  {
  }

  lemma NewInodeOk(v: Vol, owner: Owner, t: Tree, i: nat)
    requires FsOk(v, owner, t) && i < 4096 && !v.ibits[i] && i !in v.inodes && i !in t.imgs
    ensures var w := WithInode(v, i);
            && BlocksOk(w, owner) && NodesOk(w.disk, w.inodes, t) && BitsOk(w.ibits, t.live + {i})
            && Files(w.disk, w.inodes, t) == Files(v.disk, v.inodes, t)[i := []]
  {
    NewInodeOwned(v.disk, v.inodes, owner, i);
    NewBits(v.ibits, t.live, i);
    NewNodes(v.disk, v.inodes, t, i);
    NewFiles(v.disk, v.inodes, v.inodes[i := NewInode(i)], t, i);
  }

  // ----- adding a name to a directory

  /** Trees that agree on every directory but `d`. */
  ghost predicate SameImages(inodes: Inodes, t: Tree, t1: Tree, d: nat) {
    forall c :: c in inodes && c != d ==> (c in t.imgs <==> c in t1.imgs) && (c in t.imgs ==> t1.imgs[c] == t.imgs[c])
  }

  lemma OnlyOthers(g: Geometry, disk: Disk, inodes: Inodes, owner: Owner, t: Tree, disk1: Disk, inodes1: Inodes,
      owner1: Owner, t1: Tree, d: nat)
    requires OnlyInode(g, disk, inodes, owner, disk1, inodes1, owner1, d) && SameImages(inodes, t, t1, d)
    requires NodeOk(disk1, inodes1[d], t1, d)
    ensures Others(disk, inodes, t, disk1, inodes1, t1, d)
  {
    forall c | c in inodes && c != d ensures NodeSame(disk, inodes[c], t, disk1, inodes1[c], t1, c) {
      assert inodes1[c] == inodes[c];
    }
  }

  /** A directory to which an entry was added. */
  lemma AddedHere(w: Vol, owner: Owner, w1: Vol, owner1: Owner, t: Tree, t1: Tree, d: nat, k: nat, j: nat, e: Entry)
    requires d in w.inodes && NodeOk(w.disk, w.inodes[d], t, d) && d in t.imgs
    requires Added(w, owner, w1, owner1, d, k, j, e)
    requires FirstFree(t.imgs[d], k, j) && Live(e) && GoodName(e.name)
    requires forall o :: o in Listing(t.imgs[d]) ==> o.name != e.name
    requires d in t1.imgs && t1.imgs[d] == Put(t.imgs[d], k, j, e)
    ensures NodeOk(w1.disk, w1.inodes[d], t1, d)
  {
    AddedShape(w, owner, w1, owner1, d, k, j, e);
  }

  // ----- file_create

  /** `w` is `v` with a new node `i`, not yet named anywhere. */
  ghost predicate Prepared(v: Vol, w: Vol, tw: Tree, i: nat) {
    && Coherent(v.g, v.disk, v.inodes) && w.g == v.g && i < 256
    && NodesOk(w.disk, w.inodes, tw)
    && (forall l :: 0 <= l < v.g.dataStart ==> Read(w.disk, l) == Read(v.disk, l))
    && i !in v.inodes && i in w.inodes && w.inodes == v.inodes[i := w.inodes[i]]
  }

  lemma CreatedUnsynced(v: Vol, w: Vol, own: Owner, tw: Tree, t1: Tree, w1: Vol, owner1: Owner, d: nat, i: nat, k: nat,
      j: nat, e: Entry)
    requires Prepared(v, w, tw, i) && d in v.inodes && BlocksOk(w1, owner1) && NodesOk(w1.disk, w1.inodes, t1)
    requires Added(w, own, w1, owner1, d, k, j, e)
    ensures Unsynced(v, w1, owner1, t1, d, i)
  {
    assert Synced(v.g, v.disk, d, v.inodes[d]);
    forall c | c in w1.inodes && c != d && c != i ensures c in v.inodes && w1.inodes[c] == v.inodes[c] {
      assert w1.inodes[c] == w.inodes[c];
    }
  }

  /** Files are what they were when the only node that changed is a directory. */
  lemma DirOnlyFiles(disk: Disk, inodes: Inodes, t: Tree, disk1: Disk, inodes1: Inodes, t1: Tree, d: nat)
    requires NodesOk(disk, inodes, t) && NodesOk(disk1, inodes1, t1) && inodes1.Keys == inodes.Keys
    requires d in t.imgs && d in t1.imgs && SameImages(inodes, t, t1, d)
    requires forall j :: j in inodes && j != d && j !in t.imgs ==> j !in t1.imgs
                                                                   && Text(disk1, inodes1[j]) == Text(disk, inodes[j])
    ensures Files(disk1, inodes1, t1) == Files(disk, inodes, t)
  {
  }

  /** An operation on a directory keeps all other nodes and all files. */
  lemma DirChanged(g: Geometry, disk: Disk, inodes: Inodes, owner: Owner, t: Tree, disk1: Disk, inodes1: Inodes,
      owner1: Owner, t1: Tree, d: nat)
    requires NodesOk(disk, inodes, t) && OnlyInode(g, disk, inodes, owner, disk1, inodes1, owner1, d)
    requires SameImages(inodes, t, t1, d) && d in t.imgs && d in t1.imgs && NodeOk(disk1, inodes1[d], t1, d)
    ensures NodesOk(disk1, inodes1, t1) && Files(disk1, inodes1, t1) == Files(disk, inodes, t)
  {
    OnlyOthers(g, disk, inodes, owner, t, disk1, inodes1, owner1, t1, d);
    OthersKeep(disk, inodes, t, disk1, inodes1, t1, d);
    DirOnlyFiles(disk, inodes, t, disk1, inodes1, t1, d);
  }

  /** sync_dir_entry, in terms of the tree. */
  method AddName(w: Vol, ghost own: Owner, ghost rows: Rows, ghost ino: Inode, d: nat, e: Entry)
    returns (f: Fate, w1: Vol, ghost owner1: Owner, ghost k: nat, ghost j: nat)
    requires BlocksOk(w, own) && d in w.inodes && w.inodes[d] == ino && Image(w.disk, ino) == rows && FitsEntry(e)
    ensures f == EntryFate(w, rows, ino, 0)
    ensures f == Done ==> FirstFree(rows, k, j) && Added(w, own, w1, owner1, d, k, j, e)
  {
    f, w1, owner1, k, j := SyncEntry(w, own, d, e);
  }

  lemma EntryFateAfter(v: Vol, w: Vol, rows: Rows, ino: Inode, n: nat)
    requires |ino.sectors| == 13 && v.g.blocks <= |v.bits| && w.g.blocks <= |w.bits| && Shorter(v, w, n)
    ensures EntryFate(w, rows, ino, 0) == EntryFate(v, rows, ino, n)
  {
  }

  /** Nothing in directory `d` has this name. */
  ghost predicate NoEntry(t: Tree, d: nat, name: string) {
    d in t.imgs && forall o :: o in Listing(t.imgs[d]) ==> o.name != name
  }

  lemma ImagesOfAdded(t: Tree, d: nat, k: nat, j: nat, e: Entry, inodes: Inodes)
    requires FreeSlot(t, d, k, j, e) && e.ftype == FT_REGULAR
    ensures SameImages(inodes, t, AddFile(t, d, k, j, e), d)
    ensures AddFile(t, d, k, j, e).imgs[d] == Put(t.imgs[d], k, j, e)
  {
  }

  /** The nodes and the files after a name was added. */
  lemma CreatedNodes(w: Vol, owner: Owner, t: Tree, w1: Vol, owner1: Owner, t1: Tree, d: nat, k: nat, j: nat, e: Entry)
    requires NodesOk(w.disk, w.inodes, t) && d in w.inodes && NoEntry(t, d, e.name)
    requires Added(w, owner, w1, owner1, d, k, j, e) && FirstFree(t.imgs[d], k, j) && Live(e) && GoodName(e.name)
    requires SameImages(w.inodes, t, t1, d) && d in t1.imgs && t1.imgs[d] == Put(t.imgs[d], k, j, e)
    ensures NodesOk(w1.disk, w1.inodes, t1)
    ensures Files(w1.disk, w1.inodes, t1) == Files(w.disk, w.inodes, t)
  {
    AddedHere(w, owner, w1, owner1, t, t1, d, k, j, e);
    DirChanged(w.g, w.disk, w.inodes, owner, t, w1.disk, w1.inodes, owner1, t1, d);
  }

  /** The first block of an inode is not moved by an added name. */
  lemma AddedFirst(w: Vol, owner: Owner, w1: Vol, owner1: Owner, d: nat, k: nat, j: nat, e: Entry, c: nat)
    requires Added(w, owner, w1, owner1, d, k, j, e) && c in w.inodes && |w.inodes[c].sectors| == 13
    requires w.inodes[c].sectors[0] != 0
    ensures c in w1.inodes && |w1.inodes[c].sectors| == 13 && w1.inodes[c].sectors[0] == w.inodes[c].sectors[0]
  {
    assert c != d ==> w1.inodes[c] == w.inodes[c];
  }

  lemma AddedRoot(v: Vol, owner: Owner, w: Vol, own: Owner, w1: Vol, owner1: Owner, d: nat, k: nat, j: nat, e: Entry)
    requires BlocksOk(v, owner) && RootOk(v.g, owner) && w.g == v.g && BlocksOk(w1, owner1)
    requires 0 in v.inodes && 0 in w.inodes && w.inodes[0] == v.inodes[0]
    requires Added(w, own, w1, owner1, d, k, j, e)
    ensures RootOk(w1.g, owner1)
  {
    assert Addr(v.disk, v.inodes[0], 0) == v.g.dataStart;
    AddedFirst(w, own, w1, owner1, d, k, j, e, 0);
    RootKept(v, owner, w1, owner1);
  }

  lemma NamedKeys(v: Vol, w: Vol, own: Owner, w1: Vol, owner1: Owner, d: nat, i: nat, k: nat, j: nat, e: Entry)
    requires i !in v.inodes && i in w.inodes && w.inodes == v.inodes[i := w.inodes[i]] && 0 in v.inodes
    requires Added(w, own, w1, owner1, d, k, j, e)
    ensures w1.inodes.Keys == v.inodes.Keys + {i} && w1.ibits == w.ibits && 0 in w.inodes && w.inodes[0] == v.inodes[0]
  {
    assert w1.inodes.Keys == w.inodes.Keys;
  }

  /** The volume side of a new name: all that is left is to write two inodes back. */
  lemma NamedVol(v: Vol, owner: Owner, w: Vol, own: Owner, tw: Tree, w1: Vol, owner1: Owner, t1: Tree, d: nat, i: nat,
      k: nat, j: nat, e: Entry)
    requires BlocksOk(v, owner) && RootOk(v.g, owner) && 0 in v.inodes && d in v.inodes
    requires Prepared(v, w, tw, i) && Added(w, own, w1, owner1, d, k, j, e)
    requires NoEntry(tw, d, e.name) && FirstFree(tw.imgs[d], k, j) && Live(e) && GoodName(e.name)
    requires SameImages(w.inodes, tw, t1, d) && d in t1.imgs && t1.imgs[d] == Put(tw.imgs[d], k, j, e)
    ensures Unsynced(v, w1, owner1, t1, d, i) && RootOk(w1.g, owner1)
    ensures w1.inodes.Keys == v.inodes.Keys + {i} && w1.ibits == w.ibits
    ensures Files(w1.disk, w1.inodes, t1) == Files(w.disk, w.inodes, tw)
  {
    NamedKeys(v, w, own, w1, owner1, d, i, k, j, e);
    CreatedNodes(w, own, tw, w1, owner1, t1, d, k, j, e);
    CreatedUnsynced(v, w, own, tw, t1, w1, owner1, d, i, k, j, e);
    AddedRoot(v, owner, w, own, w1, owner1, d, k, j, e);
  }

  lemma CreatedTree(v: Vol, owner: Owner, t: Tree, d: nat, k: nat, j: nat, e: Entry)
    requires FsOk(v, owner, t) && NoEntry(t, d, e.name) && GoodName(e.name) && e.ino !in t.live && e.ftype == FT_REGULAR
    requires FirstFree(t.imgs[d], k, j)
    ensures var t1 := AddFile(t, d, k, j, e);
            && TreeOk(t1) && 0 in v.inodes && d in v.inodes && d in t1.imgs && t1.imgs[d] == Put(t.imgs[d], k, j, e)
            && SameImages(v.inodes[e.ino := NewInode(e.ino)], t, t1, d)
  {
    AddFileOk(t, d, k, j, e);
    ParentsThere(t, e.ino);
    assert DirOk(t, 0) && DirOk(t, d);
    ImagesOfAdded(t, d, k, j, e, v.inodes[e.ino := NewInode(e.ino)]);
  }

  /** Everything file_create promises, from the outcome of sync_dir_entry. */
  lemma CreateOk(v: Vol, owner: Owner, t: Tree, w: Vol, owner1: Owner, d: nat, i: nat, k: nat, j: nat, e: Entry)
    requires FsOk(v, owner, t) && i < 256 && !v.ibits[i] && NoEntry(t, d, e.name) && GoodName(e.name)
    requires e.ino == i && e.ftype == FT_REGULAR && FirstFree(t.imgs[d], k, j)
    requires Added(WithInode(v, i), owner, w, owner1, d, k, j, e)
    ensures var t1 := AddFile(t, d, k, j, e);
            Ready(v, w, owner1, t1, d, i) && Files(w.disk, w.inodes, t1) == Files(v.disk, v.inodes, t)[i := []]
  {
    NotThere(v, owner, t, i);
    NewInodeOk(v, owner, t, i);
    CreatedTree(v, owner, t, d, k, j, e);
    NamedVol(v, owner, WithInode(v, i), owner, t, w, owner1, AddFile(t, d, k, j, e), d, i, k, j, e);
  }

  /** The number that the next inode gets is that of an inode which is gone but still on the list. */
  ghost predicate Reused(v: Vol) {
    exists i: nat :: Leftmost(v.ibits, 1, i) && i in v.stale
  }

  lemma ReusedIs(v: Vol, i: nat)
    requires Leftmost(v.ibits, 1, i)
    ensures Reused(v) <==> i in v.stale
  {
    forall j: nat | Leftmost(v.ibits, 1, j) ensures j == i {
      LeftmostOnce(v.ibits, 1, i, j);
    }
  }

  /** What becomes of file_create in directory `d` on disk, once there is an inode number and a file slot. */
  ghost function EnterFate(v: Vol, t: Tree, d: nat): (f: Fate)
    requires |v.ibits| == 4096 && d in t.imgs && d in v.inodes && |v.inodes[d].sectors| == 13 && v.g.blocks <= |v.bits|
  {
    if InodeFate(v.ibits) != Done then InodeFate(v.ibits) else EntryFate(v, t.imgs[d], v.inodes[d], 0)
  }

  /** The same with the list of open inodes. */
  ghost function CreateFate(v: Vol, t: Tree, d: nat): (f: Fate)
    requires |v.ibits| == 4096 && d in t.imgs && d in v.inodes && |v.inodes[d].sectors| == 13 && v.g.blocks <= |v.bits|
  {
    if EnterFate(v, t, d) == Done && Reused(v) then StaleInode else EnterFate(v, t, d)
  }

  /** The call has come to its end, with or without the rule. */
  predicate Came(f: Fate) {
    f == Done || f == StaleInode
  }

  /** No inode but `d` differs, and neither does the list of open inodes. */
  ghost predicate SameBut(w: Vol, w1: Vol, d: nat) {
    && w1.kept == w.kept && w1.stale == w.stale && w1.inodes.Keys == w.inodes.Keys
    && forall i :: i in w.inodes && i != d ==> w1.inodes[i] == w.inodes[i]
  }

  lemma OthersSame(w: Vol, own: Owner, w1: Vol, owner1: Owner, d: nat, k: nat, j: nat, e: Entry)
    requires Added(w, own, w1, owner1, d, k, j, e)
    ensures SameBut(w, w1, d)
  {
  }

  /** file_create on disk: a new empty file `i` with this name in directory `d`. */
  method Enter(v: Vol, ghost owner: Owner, ghost t: Tree, d: nat, name: string, i: nat)
    returns (f: Fate, v1: Vol, ghost owner1: Owner, ghost t1: Tree)
    requires FsOk(v, owner, t) && NoEntry(t, d, name) && GoodName(name)
    requires i < 4096 && Leftmost(v.ibits, 1, i)
    ensures d in v.inodes && |v.inodes[d].sectors| == 13
    ensures f == EnterFate(v, t, d)
    ensures f == Done ==> DiskOk(v1, owner1, t1) && v1.g == v.g && v1.kept == v.kept && v1.stale == v.stale
                          && i !in t.live
    ensures f == Done ==> exists k: nat, j: nat :: FirstFree(t.imgs[d], k, j)
                                                   && t1 == AddFile(t, d, k, j, Entry(name, i, FT_REGULAR))
    ensures f == Done ==> Files(v1.disk, v1.inodes, t1) == Files(v.disk, v.inodes, t)[i := []]
    ensures f == Done ==> i in v1.inodes && v1.inodes[i] == NewInode(i)
  {
    owner1, t1, v1 := owner, t, v;
    assert DirOk(t, d) && NodeOk(v.disk, v.inodes[d], t, d);
    InodeFateOf(v.ibits, i);
    if i >= 256 {
      return WideInode, v, owner, t;
    }
    NotThere(v, owner, t, i);
    NewInodeOk(v, owner, t, i);
    var w := WithInode(v, i);
    ghost var k, j;
    var e := Entry(name, i, FT_REGULAR);
    EntryFateAfter(v, w, t.imgs[d], v.inodes[d], 0);
    f, w, owner1, k, j := AddName(w, owner, t.imgs[d], v.inodes[d], d, e);
    if f == Done {
      OthersSame(WithInode(v, i), owner, w, owner1, d, k, j, e);
      CreateOk(v, owner, t, w, owner1, d, i, k, j, e);
      t1 := AddFile(t, d, k, j, e);
      v1 := WriteBack(v, w, owner1, t1, d, i);
    }
  }

  /** A file with a new number that is not on the list. */
  lemma FileListed(v: Vol, v1: Vol, t: Tree, t1: Tree, i: nat)
    requires ListOk(v, t) && v1.kept == v.kept && v1.stale == v.stale && i !in v.stale
    requires t1.live == t.live + {i} && forall d :: d in t.imgs ==> d in t1.imgs
    ensures ListOk(v1, t1)
  {
    forall d | d in v1.kept ensures KeptOk(t1, d) {
      assert KeptOk(t, d);
    }
    forall c | c in v1.stale ensures StaleOk(v1, t1, c) {
      assert StaleOk(v, t, c);
    }
  }

  /** file_create, as far as the volume goes.  The code does not see whether the list of open inodes still
      has an inode with the number that the new file gets. */
  method Create(v: Vol, ghost owner: Owner, ghost t: Tree, d: nat, name: string, i: nat)
    returns (f: Fate, v1: Vol, ghost owner1: Owner, ghost t1: Tree)
    requires FsOk(v, owner, t) && NoEntry(t, d, name) && GoodName(name)
    requires i < 4096 && Leftmost(v.ibits, 1, i)
    ensures d in v.inodes && |v.inodes[d].sectors| == 13
    ensures f == CreateFate(v, t, d)
    ensures Came(f) ==> DiskOk(v1, owner1, t1) && v1.g == v.g && v1.kept == v.kept && v1.stale == v.stale
    ensures Came(f) ==> exists k: nat, j: nat :: FirstFree(t.imgs[d], k, j)
                                                 && t1 == AddFile(t, d, k, j, Entry(name, i, FT_REGULAR))
    ensures Came(f) ==> Files(v1.disk, v1.inodes, t1) == Files(v.disk, v.inodes, t)[i := []]
    ensures f == Done ==> FsOk(v1, owner1, t1)
    ensures f == StaleInode ==> StaleLeft(v1)
  {
    f, v1, owner1, t1 := Enter(v, owner, t, d, name, i);
    ReusedIs(v, i);
    if f == Done {
      if i in v.stale {
        GivenAgain(v, v1, t, t1, i);
        f := StaleInode;
      } else {
        FileListed(v, v1, t, t1, i);
      }
    }
  }

  // ----- sys_mkdir

  /** The sector of a new directory. */
  method DotsSector(i: nat, up: nat) returns (s: Sector)
    requires i < 0x1_0000_0000 && up < 0x1_0000_0000
    ensures EntriesOf(s) == NewDirRows(i, up)[0]
  {
    s := StoreFresh(Entry(".", i, FT_DIRECTORY));
    s := Store(s, 1, Entry("..", up, FT_DIRECTORY));
    assert EntriesOf(s) == NewDirRows(i, up)[0];
  }

  /** `w2` is `w` with the first block of the new directory `i` below `up`. */
  ghost predicate Started(w: Vol, owner: Owner, w2: Vol, owner1: Owner, i: nat, up: nat) {
    && BlocksOk(w2, owner1) && OnlyInode(w.g, w.disk, w.inodes, owner, w2.disk, w2.inodes, owner1, i)
    && w2 == w.(disk := w2.disk, bits := w2.bits, inodes := w2.inodes)
    && |w2.inodes[i].sectors| == 13 && w2.inodes[i].size == 48 && w2.inodes[i].sectors[0] != 0
    && (forall k :: 1 <= k < 13 ==> w2.inodes[i].sectors[k] == 0)
    && Row(w2.disk, w2.inodes[i].sectors[0]) == NewDirRows(i, up)[0]
  }

  /** The inode of a new directory: it has the block that is handed out next. */
  ghost predicate MadeInode(v: Vol, i: nat, ino: Inode) {
    exists b: nat :: Leftmost(v.bits, 1, b) && ino == DirInode(i, v.g.dataStart + b)
  }

  /** The first block of a new directory `i` below `up`. */
  method FirstBlock(w: Vol, ghost owner: Owner, i: nat, up: nat) returns (f: Fate, w2: Vol, ghost owner1: Owner)
    requires BlocksOk(w, owner) && i in w.inodes && w.inodes[i] == NewInode(i)
    requires RootOk(w.g, owner) && i < 0x1_0000_0000 && up < 0x1_0000_0000
    ensures f == BlockFate(w, 1)
    ensures f == Done ==> Started(w, owner, w2, owner1, i, up) && Shorter(w, w2, 1) && MadeInode(w, i, w2.inodes[i])
  {
    var w1, lba;
    f, w1, lba, owner1 := AllocBlock(w, owner, i, 0);
    if f != Done {
      return f, w, owner;
    }
    assert lba != w.g.dataStart;
    w2 := WriteDots(w, owner, w1, owner1, i, up, lba);
    assert w2.inodes[i].sectors == DirInode(i, lba).sectors;
    assert lba == w.g.dataStart + (lba - w.g.dataStart);
  }

  /** "." and ".." go to the block. */
  method WriteDots(ghost w: Vol, ghost owner: Owner, w1: Vol, ghost owner1: Owner, i: nat, up: nat, lba: Word)
    returns (w2: Vol)
    requires BlocksOk(w, owner) && i in w.inodes && w.inodes[i] == NewInode(i) && i < 0x1_0000_0000
    requires up < 0x1_0000_0000
    requires w1 == w.(bits := w1.bits, inodes := w.inodes[i := WithSlot(w.inodes[i], 0, lba)])
    requires Marked(w1.g, w1.bits, owner1)
    requires w.g.dataStart <= lba && lba !in owner && owner1 == owner[lba := (i, 0)]
    ensures Started(w, owner, w2, owner1, i, up) && w2.bits == w1.bits && w2.inodes[i].sectors[0] == lba
    ensures w2.inodes[i].no == i
  {
    GainSlot(w.g, w.disk, w.inodes, owner, i, 0, lba);
    var s := DotsSector(i, up);
    w2 := PutSector(w1, owner1, i, 0, s, 48);
    OnlyInodeTrans(w.g, w.disk, w.inodes, owner, w1.disk, w1.inodes, owner1, w2.disk, w2.inodes, owner1, i);
  }

  lemma NewDirShape(disk: Disk, ino: Inode, i: nat, up: nat)
    requires |ino.sectors| == 13 && ino.size == 48 && ino.sectors[0] != 0
    requires forall k :: 1 <= k < 13 ==> ino.sectors[k] == 0
    requires Row(disk, ino.sectors[0]) == NewDirRows(i, up)[0]
    ensures Image(disk, ino) == NewDirRows(i, up) && DirShape(disk, ino)
  {
    forall k | 1 <= k < 12 ensures Image(disk, ino)[k] == NewDirRows(i, up)[k] {
      assert NewDirRows(i, up)[k] == EmptyRow();
    }
    assert Image(disk, ino) == NewDirRows(i, up);
    NewDirProper(i, up);
    TwoListed(NewDirRows(i, up));
  }

  /** The tree with the image of a directory that has no name yet. */
  ghost function WithImage(t: Tree, i: nat, up: nat): (tw: Tree) {
    t.(imgs := t.imgs[i := NewDirRows(i, up)])
  }

  /** The new directory is a node, and the regular files are those of before. */
  lemma NewDirNodes(w: Vol, owner: Owner, w2: Vol, owner1: Owner, t: Tree, i: nat, up: nat, fs: map<nat, seq<Byte>>)
    requires NodesOk(w.disk, w.inodes, t) && OnlyInode(w.g, w.disk, w.inodes, owner, w2.disk, w2.inodes, owner1, i)
    requires i !in t.imgs
    requires DirShape(w2.disk, w2.inodes[i]) && Image(w2.disk, w2.inodes[i]) == NewDirRows(i, up)
    requires Files(w.disk, w.inodes, t) == fs[i := []] && i !in fs
    ensures NodesOk(w2.disk, w2.inodes, WithImage(t, i, up))
    ensures Files(w2.disk, w2.inodes, WithImage(t, i, up)) == fs
  {
    var tw := WithImage(t, i, up);
    assert NodeOk(w2.disk, w2.inodes[i], tw, i);
    OnlyOthers(w.g, w.disk, w.inodes, owner, t, w2.disk, w2.inodes, owner1, tw, i);
    OthersKeep(w.disk, w.inodes, t, w2.disk, w2.inodes, tw, i);
    FilesWithout(w.disk, w.inodes, t, w2.disk, w2.inodes, tw, i);
  }

  /** An inode that became a directory is no file any more. */
  lemma FilesWithout(disk: Disk, inodes: Inodes, t: Tree, disk1: Disk, inodes1: Inodes, t1: Tree, i: nat)
    requires inodes1.Keys == inodes.Keys && SameImages(inodes, t, t1, i) && i in t1.imgs
    requires forall j :: j in inodes && j != i && j !in t.imgs ==> j !in t1.imgs
                                                                   && Text(disk1, inodes1[j]) == Text(disk, inodes[j])
    ensures Files(disk1, inodes1, t1) == Files(disk, inodes, t) - {i}
  {
  }

  lemma MadeTree(v: Vol, owner: Owner, t: Tree, d: nat, k: nat, j: nat, e: Entry)
    requires FsOk(v, owner, t) && NoEntry(t, d, e.name) && GoodName(e.name) && e.ino !in t.live
    requires e.ftype == FT_DIRECTORY
    requires FirstFree(t.imgs[d], k, j)
    ensures d in t.depth
    ensures var t1, tw := AddDir(t, d, k, j, e), WithImage(t, e.ino, d);
            && TreeOk(t1) && 0 in v.inodes && d in v.inodes && d in t1.imgs && t1.imgs[d] == Put(t.imgs[d], k, j, e)
            && d in tw.imgs && tw.imgs[d] == t.imgs[d]
            && SameImages(v.inodes[e.ino := NewInode(e.ino)], tw, t1, d)
  {
    AddDirOk(t, d, k, j, e);
    ParentsThere(t, e.ino);
    assert DirOk(t, 0) && DirOk(t, d) && DepthOk(t, d);
  }

  /** Everything sys_mkdir promises, from the outcome of sync_dir_entry. */
  lemma MakeOk(v: Vol, owner: Owner, t: Tree, w: Vol, own: Owner, w1: Vol, owner1: Owner, d: nat, i: nat, k: nat,
      j: nat, e: Entry)
    requires FsOk(v, owner, t) && i !in t.live && i < 4096 && NoEntry(t, d, e.name) && GoodName(e.name)
    requires Prepared(v, w, WithImage(t, i, d), i)
    requires Files(w.disk, w.inodes, WithImage(t, i, d)) == Files(v.disk, v.inodes, t)
    requires e.ino == i && e.ftype == FT_DIRECTORY && FirstFree(t.imgs[d], k, j) && w.ibits == v.ibits[i := true]
    requires Added(w, own, w1, owner1, d, k, j, e)
    ensures d in t.depth
    ensures var t1 := AddDir(t, d, k, j, e);
            Ready(v, w1, owner1, t1, d, i) && Files(w1.disk, w1.inodes, t1) == Files(v.disk, v.inodes, t)
  {
    NewBits(v.ibits, t.live, i);
    MadeTree(v, owner, t, d, k, j, e);
    NamedVol(v, owner, w, own, WithImage(t, i, d), w1, owner1, AddDir(t, d, k, j, e), d, i, k, j, e);
  }

  lemma NodeMade(v: Vol, w: Vol, owner: Owner, w2: Vol, owner1: Owner, t: Tree, i: nat, up: nat)
    requires Coherent(v.g, v.disk, v.inodes) && i !in v.inodes && i !in t.imgs && i < 256
    requires w.g == w2.g == v.g && w.disk == v.disk && w.inodes == v.inodes[i := NewInode(i)]
    requires NodesOk(w.disk, w.inodes, t) && OnlyInode(w.g, w.disk, w.inodes, owner, w2.disk, w2.inodes, owner1, i)
    requires DirShape(w2.disk, w2.inodes[i]) && Image(w2.disk, w2.inodes[i]) == NewDirRows(i, up)
    requires Files(w.disk, w.inodes, t) == Files(v.disk, v.inodes, t)[i := []]
    ensures Prepared(v, w2, WithImage(t, i, up), i)
    ensures Files(w2.disk, w2.inodes, WithImage(t, i, up)) == Files(v.disk, v.inodes, t)
  {
    NewDirNodes(w, owner, w2, owner1, t, i, up, Files(v.disk, v.inodes, t));
  }

  /** The block of a new inode does not depend on the inode. */
  lemma MadeFor(v: Vol, i: nat, ino: Inode)
    requires i < |v.ibits| && MadeInode(WithInode(v, i), i, ino)
    ensures MadeInode(v, i, ino)
  {
    var b: nat :| Leftmost(v.bits, 1, b) && ino == DirInode(i, v.g.dataStart + b);
  }

  /** The new inode and its first block. */
  method FirstOf(v: Vol, ghost owner: Owner, d: nat, i: nat) returns (f: Fate, w: Vol, ghost own: Owner)
    requires i < 256 <= |v.ibits| && d < 256 && v.g.blocks <= |v.bits|
    requires BlocksOk(WithInode(v, i), owner) && RootOk(v.g, owner)
    ensures f == BlockFate(v, 1)
    ensures f == Done ==> Started(WithInode(v, i), owner, w, own, i, d) && Shorter(v, w, 1)
                          && MadeInode(v, i, w.inodes[i])
  {
    f, w, own := FirstBlock(WithInode(v, i), owner, i, d);
    if f == Done {
      MadeFor(v, i, w.inodes[i]);
    }
  }

  /** The new inode and its first block, before the name. */
  method MakeNode(v: Vol, ghost owner: Owner, ghost t: Tree, d: nat, i: nat) returns (f: Fate, w: Vol, ghost own: Owner)
    requires FsOk(v, owner, t) && d in t.imgs && d in v.inodes && i < 256 && !v.ibits[i]
    ensures f == BlockFate(v, 1)
    ensures f == Done ==> i !in t.live && Prepared(v, w, WithImage(t, i, d), i) && BlocksOk(w, own)
    ensures f == Done ==> Files(w.disk, w.inodes, WithImage(t, i, d)) == Files(v.disk, v.inodes, t)
    ensures f == Done ==> w.ibits == v.ibits[i := true] && w.kept == v.kept && w.stale == v.stale && Shorter(v, w, 1)
    ensures f == Done ==> MadeInode(v, i, w.inodes[i])
    ensures f == Done ==> d in w.inodes && w.inodes[d] == v.inodes[d] && |v.inodes[d].sectors| == 13
                          && Image(w.disk, v.inodes[d]) == t.imgs[d]
  {
    NotThere(v, owner, t, i);
    NewInodeOk(v, owner, t, i);
    assert Synced(v.g, v.disk, d, v.inodes[d]);
    f, w, own := FirstOf(v, owner, d, i);
    if f == Done {
      NodeReady(v, owner, w, own, t, i, d);
    }
  }

  lemma NodeReady(v: Vol, owner: Owner, w: Vol, own: Owner, t: Tree, i: nat, d: nat)
    requires Coherent(v.g, v.disk, v.inodes) && i !in v.inodes && i !in t.imgs && i < 256 <= |v.ibits| && d in v.inodes
    requires d in t.imgs && d != i
    requires Started(WithInode(v, i), owner, w, own, i, d) && NodesOk(v.disk, WithInode(v, i).inodes, t)
    requires Files(v.disk, WithInode(v, i).inodes, t) == Files(v.disk, v.inodes, t)[i := []]
    ensures Prepared(v, w, WithImage(t, i, d), i)
    ensures Files(w.disk, w.inodes, WithImage(t, i, d)) == Files(v.disk, v.inodes, t)
    ensures d in w.inodes && w.inodes[d] == v.inodes[d] && |v.inodes[d].sectors| == 13
    ensures Image(w.disk, v.inodes[d]) == t.imgs[d]
  {
    NewDirShape(w.disk, w.inodes[i], i, d);
    NodeMade(v, WithInode(v, i), owner, w, own, t, i, d);
    assert NodeOk(w.disk, w.inodes[d], WithImage(t, i, d), d);
  }

  /** What becomes of sys_mkdir in directory `d` on disk: an inode, a block for it, and the name. */
  ghost function BuildFate(v: Vol, t: Tree, d: nat): (f: Fate)
    requires |v.ibits| == 4096 && d in t.imgs && d in v.inodes && |v.inodes[d].sectors| == 13 && v.g.blocks <= |v.bits|
  {
    if InodeFate(v.ibits) != Done then InodeFate(v.ibits)
    else if BlockFate(v, 1) != Done then BlockFate(v, 1)
    else EntryFate(v, t.imgs[d], v.inodes[d], 1)
  }

  /** The number that the next inode gets is that of a directory which is gone but still on the list, and
      the block that is handed out next is not the one it had. */
  ghost predicate ReusedElsewhere(v: Vol) {
    exists i: nat, b: nat :: Leftmost(v.ibits, 1, i) && Leftmost(v.bits, 1, b) && i in v.stale
                             && StaleBlock(v, i) != v.g.dataStart + b
  }

  lemma ReusedWhere(v: Vol, i: nat, ino: Inode)
    requires Leftmost(v.ibits, 1, i) && MadeInode(v, i, ino)
    requires i in v.stale ==> v.stale[i] == DirInode(i, StaleBlock(v, i))
    ensures ReusedElsewhere(v) <==> i in v.stale && v.stale[i] != ino
  {
    var b: nat :| Leftmost(v.bits, 1, b) && ino == DirInode(i, v.g.dataStart + b);
    assert ino.sectors[0] == v.g.dataStart + b;
    forall j: nat | Leftmost(v.ibits, 1, j) ensures j == i {
      LeftmostOnce(v.ibits, 1, i, j);
    }
    forall c: nat | Leftmost(v.bits, 1, c) ensures c == b {
      LeftmostOnce(v.bits, 1, b, c);
    }
  }

  /** The same with the list of open inodes. */
  ghost function MakeFate(v: Vol, t: Tree, d: nat): (f: Fate)
    requires |v.ibits| == 4096 && d in t.imgs && d in v.inodes && |v.inodes[d].sectors| == 13 && v.g.blocks <= |v.bits|
  {
    if BuildFate(v, t, d) == Done && ReusedElsewhere(v) then StaleInode else BuildFate(v, t, d)
  }

  /** sys_mkdir on disk: a new empty directory with this name in directory `d`. */
  method Build(v: Vol, ghost owner: Owner, ghost t: Tree, d: nat, name: string)
    returns (f: Fate, v1: Vol, i: nat, ghost owner1: Owner, ghost t1: Tree)
    requires FsOk(v, owner, t) && NoEntry(t, d, name) && GoodName(name)
    ensures d in v.inodes && |v.inodes[d].sectors| == 13 && d in t.depth
    ensures f == BuildFate(v, t, d)
    ensures f == Done ==> DiskOk(v1, owner1, t1) && v1.g == v.g && v1.kept == v.kept && v1.stale == v.stale
                          && i !in t.live
    ensures f == Done ==> Leftmost(v.ibits, 1, i) && i in v1.inodes && MadeInode(v, i, v1.inodes[i])
    ensures f == Done ==> exists k: nat, j: nat :: FirstFree(t.imgs[d], k, j)
                                                   && t1 == AddDir(t, d, k, j, Entry(name, i, FT_DIRECTORY))
    ensures f == Done ==> Files(v1.disk, v1.inodes, t1) == Files(v.disk, v.inodes, t)
  {
    owner1, t1, v1 := owner, t, v;
    assert DirOk(t, d) && DepthOk(t, d) && NodeOk(v.disk, v.inodes[d], t, d);
    f, i := InodeAlloc(v);
    if f != Done {
      return;
    }
    OneBit(v.ibits, i);
    var w;
    ghost var own, k, j;
    f, w, own := MakeNode(v, owner, t, d, i);
    if f != Done {
      return;
    }
    var e := Entry(name, i, FT_DIRECTORY);
    f, w, owner1, k, j := NameDir(v, owner, t, w, own, d, i, e);
    if f == Done {
      t1 := AddDir(t, d, k, j, e);
      v1 := WriteBack(v, w, owner1, t1, d, i);
    }
  }

  /** The volume once directory `i` is there: an inode with this number on the list is that of the directory. */
  function Relisted(v: Vol, i: nat): (v1: Vol) {
    if i in v.stale then v.(kept := v.kept + {i}, stale := v.stale - {i}) else v
  }

  lemma DirListed(v: Vol, v1: Vol, t: Tree, t1: Tree, i: nat)
    requires ListOk(v, t) && v1 == Relisted(v, i) && i != 0 && i in t1.imgs
    requires t1.live == t.live + {i} && forall d :: d in t.imgs ==> d in t1.imgs
    ensures ListOk(v1, t1)
  {
    forall d | d in v1.kept ensures KeptOk(t1, d) {
      assert d in v.kept ==> KeptOk(t, d);
    }
    forall c | c in v1.stale ensures StaleOk(v1, t1, c) {
      assert StaleOk(v, t, c);
    }
  }

  /** sys_mkdir, as far as the volume goes.  The code does not see whether the list of open inodes still has
      an inode with the number that the new directory gets; if it is the same in all of its fields, it does
      no harm. */
  method Make(v: Vol, ghost owner: Owner, ghost t: Tree, d: nat, name: string)
    returns (f: Fate, v1: Vol, i: nat, ghost owner1: Owner, ghost t1: Tree)
    requires FsOk(v, owner, t) && NoEntry(t, d, name) && GoodName(name)
    ensures d in v.inodes && |v.inodes[d].sectors| == 13 && d in t.depth
    ensures f == MakeFate(v, t, d)
    ensures Came(f) ==> DiskOk(v1, owner1, t1) && v1.g == v.g && Leftmost(v.ibits, 1, i)
    ensures Came(f) ==> exists k: nat, j: nat :: FirstFree(t.imgs[d], k, j)
                                                 && t1 == AddDir(t, d, k, j, Entry(name, i, FT_DIRECTORY))
    ensures Came(f) ==> Files(v1.disk, v1.inodes, t1) == Files(v.disk, v.inodes, t)
    ensures f == Done ==> FsOk(v1, owner1, t1) && v1.kept == Relisted(v, i).kept && v1.stale == Relisted(v, i).stale
    ensures f == StaleInode ==> StaleLeft(v1)
  {
    f, v1, i, owner1, t1 := Build(v, owner, t, d, name);
    if f == Done {
      assert i in v.stale ==> StaleOk(v, t, i);
      ReusedWhere(v, i, v1.inodes[i]);
      if i in v1.stale && v1.stale[i] != v1.inodes[i] {
        GivenAgain(v, v1, t, t1, i);
        f := StaleInode;
      } else {
        ghost var v0 := v1;
        v1 := Relisted(v1, i);
        NewDirListed(v, v0, v1, owner1, t, t1, d, i);
      }
    }
  }

  lemma NewDirListed(v: Vol, v0: Vol, v1: Vol, owner1: Owner, t: Tree, t1: Tree, d: nat, i: nat)
    requires ListOk(v, t) && DiskOk(v0, owner1, t1) && v0.kept == v.kept && v0.stale == v.stale && v1 == Relisted(v0, i)
    requires i !in t.live && 0 in t.live && i in t1.imgs && t1.live == t.live + {i}
    requires forall c :: c in t.imgs ==> c in t1.imgs
    ensures FsOk(v1, owner1, t1)
  {
    forall c | c in v0.kept ensures KeptOk(t, c) {
    }
    forall c | c in v0.stale ensures StaleOk(v0, t, c) {
      assert StaleOk(v, t, c);
    }
    DirListed(v0, v1, t, t1, i);
  }

  /** The name of the new directory. */
  method NameDir(ghost v: Vol, ghost owner: Owner, ghost t: Tree, w: Vol, ghost own: Owner, d: nat, i: nat, e: Entry)
    returns (f: Fate, w1: Vol, ghost owner1: Owner, ghost k: nat, ghost j: nat)
    requires FsOk(v, owner, t) && i !in t.live && i < 256 && NoEntry(t, d, e.name) && GoodName(e.name)
    requires Prepared(v, w, WithImage(t, i, d), i)
    requires Files(w.disk, w.inodes, WithImage(t, i, d)) == Files(v.disk, v.inodes, t)
    requires e.ino == i && e.ftype == FT_DIRECTORY && w.ibits == v.ibits[i := true] && BlocksOk(w, own)
    requires Shorter(v, w, 1)
    requires d in v.inodes && d in w.inodes && w.inodes[d] == v.inodes[d] && |v.inodes[d].sectors| == 13
    requires Image(w.disk, v.inodes[d]) == t.imgs[d]
    ensures d in t.depth && f == EntryFate(v, t.imgs[d], v.inodes[d], 1)
    ensures f == Done ==> FirstFree(t.imgs[d], k, j) && Ready(v, w1, owner1, AddDir(t, d, k, j, e), d, i) && w1.g == v.g
    ensures f == Done ==> Files(w1.disk, w1.inodes, AddDir(t, d, k, j, e)) == Files(v.disk, v.inodes, t)
    ensures f == Done ==> SameBut(w, w1, d) && i != d
  {
    assert DepthOk(t, d);
    EntryFateAfter(v, w, t.imgs[d], v.inodes[d], 1);
    f, w1, owner1, k, j := AddName(w, own, t.imgs[d], v.inodes[d], d, e);
    if f == Done {
      OthersSame(w, own, w1, owner1, d, k, j, e);
      MakeOk(v, owner, t, w, own, w1, owner1, d, i, k, j, e);
    }
  }

  // ----- sys_unlink and dir_remove

  /** The tree with slot (`d`, `k`, `j`) cleared; the inode that lost its name is still there. */
  ghost function Cleared(t: Tree, d: nat, k: nat, j: nat): (tw: Tree)
    requires d in t.imgs && k < |t.imgs[d]| && j < |t.imgs[d][k]|
  {
    t.(imgs := t.imgs[d := Put(t.imgs[d], k, j, NO_ENTRY)])
  }

  lemma ClearedHere(v: Vol, owner: Owner, w: Vol, own: Owner, t: Tree, d: nat, k: nat, j: nat)
    requires NodesOk(v.disk, v.inodes, t) && d in t.imgs && d in v.inodes && Grid(t.imgs[d])
    requires Removed(v, owner, w, own, d, k, j) && Plain(t.imgs[d][k][j])
    ensures NodeOk(w.disk, w.inodes[d], Cleared(t, d, k, j), d)
  {
    assert NodeOk(v.disk, v.inodes[d], t, d);
    RemovedShape(v, owner, w, own, d, k, j);
  }

  lemma ClearedNodes(v: Vol, owner: Owner, w: Vol, own: Owner, t: Tree, tw: Tree, d: nat, k: nat, j: nat)
    requires NodesOk(v.disk, v.inodes, t) && d in t.imgs && Grid(t.imgs[d]) && k < 12 && j < 21
    requires tw == Cleared(t, d, k, j)
    requires OnlyInode(v.g, v.disk, v.inodes, owner, w.disk, w.inodes, own, d) && NodeOk(w.disk, w.inodes[d], tw, d)
    ensures NodesOk(w.disk, w.inodes, tw)
    ensures Files(w.disk, w.inodes, tw) == Files(v.disk, v.inodes, t)
  {
    DirChanged(v.g, v.disk, v.inodes, owner, t, w.disk, w.inodes, own, tw, d);
  }

  lemma RemovedFirst(v: Vol, owner: Owner, w: Vol, own: Owner, d: nat, k: nat, j: nat, c: nat)
    requires Removed(v, owner, w, own, d, k, j) && c in v.inodes && |v.inodes[c].sectors| == 13
    ensures c in w.inodes && |w.inodes[c].sectors| == 13 && w.inodes[c].sectors[0] == v.inodes[c].sectors[0]
  {
    assert c != d ==> w.inodes[c] == v.inodes[c];
  }

  /** In directory `d` exactly one entry is for inode `i`. */
  lemma NamedOnceIn(t: Tree, d: nat, i: nat)
    requires TreeOk(t) && d in t.imgs && DirOk(t, d)
    ensures NamedOnce(t.imgs[d], i)
  {
    forall k, j, m, n | 0 <= k < 12 && 0 <= j < 21 && 0 <= m < 12 && 0 <= n < 21 && IsFor(t.imgs[d][k][j], i)
      && IsFor(t.imgs[d][m][n], i)
      ensures k == m && j == n
    {
      NamedByOne(t, d, k, j, d, m, n, i);
    }
  }

  /** What delete_dir_entry asks of a directory. */
  lemma ReadyToClear(v: Vol, owner: Owner, t: Tree, d: nat, i: nat)
    requires FsOk(v, owner, t) && d in t.imgs
    ensures BlocksOk(v, owner) && d in v.inodes && DirShape(v.disk, v.inodes[d])
    ensures Image(v.disk, v.inodes[d]) == t.imgs[d]
    ensures NamedOnce(Image(v.disk, v.inodes[d]), i)
  {
    assert DirOk(t, d) && NodeOk(v.disk, v.inodes[d], t, d);
    NamedOnceIn(t, d, i);
  }

  /** The entry that delete_dir_entry finds in directory `d`, or does not. */
  lemma FoundOrNot(t: Tree, d: nat, i: nat, ok: bool, k: nat, j: nat)
    requires TreeOk(t) && NamedOk(t, i) && d in t.imgs && Grid(t.imgs[d])
    requires ok ==> k < 12 && j < 21 && IsFor(t.imgs[d][k][j], i)
    requires !ok ==> NoneFor(t.imgs[d], 12, i)
    ensures ok <==> t.place[i].0 == d
    ensures ok ==> t.place[i] == (d, k, j)
  {
    var c, m, n := t.place[i].0, t.place[i].1, t.place[i].2;
    assert d == c ==> IsFor(t.imgs[d][m][n], i);
    if ok {
      NamedByOne(t, d, k, j, c, m, n, i);
    }
  }

  /** delete_dir_entry for inode `i` in directory `d`: it finds the entry exactly if `d` names the inode. */
  method ClearName(v: Vol, ghost owner: Owner, ghost t: Tree, d: nat, i: nat)
    returns (ok: bool, w: Vol, ghost own: Owner, ghost k: nat, ghost j: nat)
    requires FsOk(v, owner, t) && i in t.live && i != 0 && NamedOk(t, i) && d in t.imgs
    ensures ok <==> t.place[i].0 == d
    ensures ok ==> t.place[i] == (d, k, j) && Removed(v, owner, w, own, d, k, j)
    ensures !ok ==> w == v && own == owner
  {
    ReadyToClear(v, owner, t, d, i);
    ok, w, own, k, j := DeleteEntry(v, owner, d, i);
    FoundOrNot(t, d, i, ok, k, j);
  }

  /** The tree that delete_dir_entry leaves. */
  ghost function Unlisted(t: Tree, d: nat, i: nat): (tw: Tree)
    requires NamedOk(t, i)
  {
    if t.place[i].0 == d then Cleared(t, d, t.place[i].1, t.place[i].2) else t
  }

  /** The same, in terms of the tree. */
  method ClearSlot(v: Vol, ghost owner: Owner, ghost t: Tree, d: nat, i: nat)
    returns (ok: bool, w: Vol, ghost own: Owner, ghost tw: Tree)
    requires FsOk(v, owner, t) && i in t.live && i != 0 && NamedOk(t, i) && d in t.imgs
    ensures tw == Unlisted(t, d, i) && (ok <==> t.place[i].0 == d) && (!ok ==> w == v && own == owner)
    ensures BlocksOk(w, own) && w == v.(disk := w.disk, bits := w.bits, inodes := w.inodes) && RootOk(w.g, own)
    ensures ok ==> OnlyInode(v.g, v.disk, v.inodes, owner, w.disk, w.inodes, own, d)
                   && NodeOk(w.disk, w.inodes[d], tw, d)
  {
    ghost var k, j;
    ok, w, own, k, j := ClearName(v, owner, t, d, i);
    tw := Unlisted(t, d, i);
    if ok {
      assert DirOk(t, d) && DirOk(t, 0);
      ClearedHere(v, owner, w, own, t, d, k, j);
      RemovedFirst(v, owner, w, own, d, k, j, 0);
      RootKept(v, owner, w, own);
    }
  }

  /** The inode_sync of a directory that lost a name. */
  method SyncCleared(ghost v: Vol, ghost owner: Owner, w: Vol, ghost own: Owner, ghost t: Tree, ghost tw: Tree, d: nat,
      ghost i: nat)
    returns (w1: Vol)
    requires Coherent(v.g, v.disk, v.inodes) && NodesOk(v.disk, v.inodes, t) && BlocksOk(w, own) && w.g == v.g
    requires d in t.imgs && Grid(t.imgs[d]) && NamedOk(t, i) && t.place[i].0 == d && tw == Unlisted(t, d, i)
    requires OnlyInode(v.g, v.disk, v.inodes, owner, w.disk, w.inodes, own, d) && NodeOk(w.disk, w.inodes[d], tw, d)
    ensures w1 == w.(disk := w1.disk) && BlocksOk(w1, own) && NodesOk(w1.disk, w1.inodes, tw)
    ensures Coherent(w1.g, w1.disk, w1.inodes) && Files(w1.disk, w1.inodes, tw) == Files(v.disk, v.inodes, t)
  {
    ClearedNodes(v, owner, w, own, t, tw, d, t.place[i].1, t.place[i].2);
    OnlyUnsynced(v, owner, w, own, tw, d);
    w1 := WriteBackOne(v, w, own, tw, d);
  }

  /** delete_dir_entry, up to its inode_sync of the directory. */
  method Unname(v: Vol, ghost owner: Owner, ghost t: Tree, d: nat, i: nat)
    returns (ok: bool, w: Vol, ghost own: Owner, ghost tw: Tree)
    requires FsOk(v, owner, t) && i in t.live && i != 0 && NamedOk(t, i) && d in t.imgs
    ensures tw == Unlisted(t, d, i) && (ok <==> t.place[i].0 == d)
    ensures w.g == v.g && w.ibits == v.ibits && w.inodes.Keys == v.inodes.Keys && w.kept == v.kept && w.stale == v.stale
    ensures BlocksOk(w, own) && NodesOk(w.disk, w.inodes, tw) && RootOk(w.g, own) && Coherent(w.g, w.disk, w.inodes)
    ensures Files(w.disk, w.inodes, tw) == Files(v.disk, v.inodes, t)
  {
    ok, w, own, tw := ClearSlot(v, owner, t, d, i);
    if ok {
      assert DirOk(t, d);
      w := SyncCleared(v, owner, w, own, t, tw, d, i);
    }
  }

  /** An inode that is gone. */
  lemma GoneNodes(disk: Disk, inodes: Inodes, tw: Tree, t1: Tree, i: nat)
    requires NodesOk(disk, inodes, tw) && t1.imgs == tw.imgs - {i}
    ensures NodesOk(disk, inodes - {i}, t1)
    ensures Files(disk, inodes - {i}, t1) == Files(disk, inodes, tw) - {i}
  {
    var inodes1 := inodes - {i};
    forall c | c in inodes1 ensures NodeOk(disk, inodes1[c], t1, c) {
      assert NodeOk(disk, inodes[c], tw, c);
    }
  }

  lemma GoneBits(ibits: seq<bool>, live: set<nat>, i: nat)
    requires BitsOk(ibits, live) && i < 4096
    ensures BitsOk(ibits[i := false], live - {i})
  {
  }

  /** inode_release: the blocks, the bit and the slot of an inode without a name. */
  method Forget(w: Vol, ghost own: Owner, ghost tw: Tree, ghost t1: Tree, i: nat) returns (v1: Vol, ghost owner1: Owner)
    requires BlocksOk(w, own) && NodesOk(w.disk, w.inodes, tw) && RootOk(w.g, own) && Coherent(w.g, w.disk, w.inodes)
    requires i in w.inodes && 0 < i < 4096 && |w.ibits| == 4096 && t1.imgs == tw.imgs - {i}
    ensures v1 == w.(disk := v1.disk, bits := v1.bits, ibits := w.ibits[i := false], inodes := w.inodes - {i})
    ensures BlocksOk(v1, owner1) && NodesOk(v1.disk, v1.inodes, t1) && RootOk(v1.g, owner1)
    ensures Coherent(v1.g, v1.disk, v1.inodes)
    ensures Files(v1.disk, v1.inodes, t1) == Files(w.disk, w.inodes, tw) - {i}
  {
    assert Synced(w.g, w.disk, i, w.inodes[i]);
    v1, owner1 := Release(w, own, i);
    GoneNodes(w.disk, w.inodes, tw, t1, i);
    DeleteCoherent(w.g, w.disk, w.inodes, i);
    DeleteSameData(w.g, w.disk, i);
    TableWriteKeeps(w.g, w.disk, Delete(w.disk, w.g.tableLba, i), v1.inodes, owner1, t1);
    v1 := v1.(disk := Delete(v1.disk, v1.g.tableLba, i));
  }

  /** Inode `i` is gone, and the entry that names it is still there. */
  ghost predicate NameLeft(v: Vol, t: Tree, i: nat) {
    && NamedOk(t, i) && i !in v.inodes
    && var d := t.place[i].0;
       d in v.inodes && |v.inodes[d].sectors| == 13 && Image(v.disk, v.inodes[d]) == t.imgs[d]
  }

  /** A name in a directory is the name of an inode that is there. */
  lemma NamedIsThere(v: Vol, owner: Owner, t: Tree, d: nat, k: nat, j: nat, i: nat)
    requires FsOk(v, owner, t) && Names(t, d, k, j, i)
    ensures i in v.inodes
  {
    assert EntryOk(t, d, k, j);
  }

  /** No tree with that directory in it fits such a volume. */
  lemma NameLeftBreaks(v: Vol, t: Tree, i: nat, owner: Owner, t1: Tree)
    requires NameLeft(v, t, i) && t.place[i].0 in t1.imgs
    ensures !FsOk(v, owner, t1)
  {
    if FsOk(v, owner, t1) {
      var d, k, j := t.place[i].0, t.place[i].1, t.place[i].2;
      assert NodeOk(v.disk, v.inodes[d], t1, d);
      NamedIsThere(v, owner, t1, d, k, j, i);
    }
  }

  /** The disk side of taking away the name and the inode of a file or of an empty directory. */
  method Erase(v: Vol, ghost owner: Owner, ghost t: Tree, d: nat, i: nat)
    returns (ok: bool, v1: Vol, ghost owner1: Owner, ghost t1: Tree)
    requires FsOk(v, owner, t) && i in t.live && i != 0 && NamedOk(t, i) && d in t.imgs
    requires i in t.imgs ==> OnlyDots(t.imgs[i])
    ensures ok <==> t.place[i].0 == d
    ensures v1.kept == v.kept && v1.stale == v.stale
    ensures ok ==> DiskOk(v1, owner1, t1) && v1.g == v.g && t1 == Remove(t, d, t.place[i].1, t.place[i].2)
    ensures ok ==> Files(v1.disk, v1.inodes, t1) == Files(v.disk, v.inodes, t) - {i}
    ensures !ok ==> NameLeft(v1, t, i)
  {
    var w;
    ghost var own, tw;
    ok, w, own, tw := Unname(v, owner, t, d, i);
    assert DirOk(t, d);
    GoneBits(v.ibits, t.live, i);
    t1 := if ok then Remove(t, d, t.place[i].1, t.place[i].2) else t.(imgs := t.imgs - {i});
    if ok {
      RemoveOk(t, d, t.place[i].1, t.place[i].2);
    }
    v1, owner1 := Forget(w, own, tw, t1, i);
    if !ok {
      NamedElsewhere(t, i);
      StillNamed(v1, t, t1, i);
    }
  }

  /** The volume once inode `i` is gone, which was `ino`: if its directory was left open, the inode stays on
      the list. */
  function Delisted(v: Vol, i: nat, ino: Inode): (v1: Vol) {
    if i in v.kept then v.(kept := v.kept - {i}, stale := v.stale[i := ino]) else v
  }

  lemma GoneListed(v: Vol, v1: Vol, t: Tree, t1: Tree, i: nat, ino: Inode)
    requires ListOk(v, t) && v1 == Delisted(v, i, ino)
    requires i in v.kept ==> BareDir(i, ino)
    requires t1.live == t.live - {i} && forall d :: d in t.imgs && d != i ==> d in t1.imgs
    ensures ListOk(v1, t1)
  {
    forall d | d in v1.kept ensures KeptOk(t1, d) {
      assert KeptOk(t, d);
    }
    forall c | c in v1.stale ensures StaleOk(v1, t1, c) {
      assert c in v.stale ==> StaleOk(v, t, c);
    }
  }

  /** Take away the name and the inode of a file or of an empty directory.  The code goes on when
      directory `d` has no entry for the inode; the name then stays. */
  method Drop(v: Vol, ghost owner: Owner, ghost t: Tree, d: nat, i: nat)
    returns (ok: bool, v1: Vol, ghost owner1: Owner, ghost t1: Tree)
    requires FsOk(v, owner, t) && i in t.live && i != 0 && NamedOk(t, i) && d in t.imgs
    requires i in t.imgs ==> OnlyDots(t.imgs[i])
    ensures ok <==> t.place[i].0 == d
    ensures ok ==> FsOk(v1, owner1, t1) && v1.g == v.g && t1 == Remove(t, d, t.place[i].1, t.place[i].2)
    ensures ok ==> v1.kept == Delisted(v, i, v.inodes[i]).kept && v1.stale == Delisted(v, i, v.inodes[i]).stale
    ensures ok ==> Files(v1.disk, v1.inodes, t1) == Files(v.disk, v.inodes, t) - {i}
    ensures !ok ==> NameLeft(v1, t, i)
  {
    ok, v1, owner1, t1 := Erase(v, owner, t, d, i);
    if ok {
      EmptyInode(v, owner, t, i);
      assert DirOk(t, d);
      ghost var v0 := v1;
      v1 := Delisted(v1, i, v.inodes[i]);
      GoneFromList(v, v0, v1, t, t1, i);
    }
  }

  /** The inode of a directory that may be removed. */
  lemma EmptyInode(v: Vol, owner: Owner, t: Tree, i: nat)
    requires FsOk(v, owner, t) && i in t.live && (i in t.imgs ==> OnlyDots(t.imgs[i]))
    ensures i in v.kept ==> BareDir(i, v.inodes[i])
  {
    if i in v.kept {
      assert KeptOk(t, i) && NodeOk(v.disk, v.inodes[i], t, i);
      var ino := v.inodes[i];
      EmptyBySize(v.disk, ino);
      forall k | 1 <= k < 13 ensures ino.sectors[k] == 0 {
        EmptyHasOneBlock(v.disk, ino, k);
      }
      assert ino.sectors == DirInode(i, ino.sectors[0]).sectors;
    }
  }

  lemma GoneFromList(v: Vol, v0: Vol, v1: Vol, t: Tree, t1: Tree, i: nat)
    requires ListOk(v, t) && v0.kept == v.kept && v0.stale == v.stale && i in v.inodes
    requires v1 == Delisted(v0, i, v.inodes[i])
    requires i in v.kept ==> BareDir(i, v.inodes[i])
    requires t1.live == t.live - {i} && forall d :: d in t.imgs && d != i ==> d in t1.imgs
    ensures ListOk(v1, t1)
  {
    forall c | c in v0.kept ensures KeptOk(t, c) {
    }
    forall c | c in v0.stale ensures StaleOk(v0, t, c) {
      assert StaleOk(v, t, c);
    }
    GoneListed(v0, v1, t, t1, i, v.inodes[i]);
  }

  /** The directory that names an inode is another inode. */
  lemma NamedElsewhere(t: Tree, i: nat)
    requires TreeOk(t) && NamedOk(t, i) && i != 0
    ensures t.place[i].0 != i && t.place[i].0 in t.live
  {
    assert i in t.imgs ==> DepthOk(t, i);
    assert DirOk(t, t.place[i].0);
  }

  lemma StillNamed(v1: Vol, t: Tree, t1: Tree, i: nat)
    requires NamedOk(t, i) && t.place[i].0 != i && i !in v1.inodes && t.place[i].0 in v1.inodes
    requires t1.imgs == t.imgs - {i} && NodesOk(v1.disk, v1.inodes, t1)
    ensures NameLeft(v1, t, i)
  {
    assert NodeOk(v1.disk, v1.inodes[t.place[i].0], t1, t.place[i].0);
  }

  // ----- file_write

  lemma WrittenFiles(v: Vol, owner: Owner, w: Vol, own: Owner, t: Tree, i: nat, buf: seq<Byte>)
    requires Coherent(v.g, v.disk, v.inodes) && NodesOk(v.disk, v.inodes, t) && BlocksOk(w, own) && w.g == v.g
    requires OnlyInode(v.g, v.disk, v.inodes, owner, w.disk, w.inodes, own, i) && i !in t.imgs
    requires FileShape(v.disk, v.inodes[i]) && FileShape(w.disk, w.inodes[i])
    requires Contents(w.disk, w.inodes[i]) == Contents(v.disk, v.inodes[i]) + buf
    ensures Unsynced(v, w, own, t, i, i)
    ensures Files(w.disk, w.inodes, t) == Files(v.disk, v.inodes, t)[i := Files(v.disk, v.inodes, t)[i] + buf]
  {
    OnlyOthers(v.g, v.disk, v.inodes, owner, t, w.disk, w.inodes, own, t, i);
    OthersKeep(v.disk, v.inodes, t, w.disk, w.inodes, t, i);
    OnlyUnsynced(v, owner, w, own, t, i);
  }

  /** `v1` is `v` with `buf` appended to regular file `i`. */
  ghost predicate Appended(v: Vol, v1: Vol, owner1: Owner, t: Tree, i: nat, buf: seq<Byte>)
    requires i in v.inodes && i !in t.imgs
  {
    && FsOk(v1, owner1, t) && v1.g == v.g && v1.ibits == v.ibits && v1.kept == v.kept && v1.stale == v.stale
    && Files(v1.disk, v1.inodes, t) == Files(v.disk, v.inodes, t)[i := Files(v.disk, v.inodes, t)[i] + buf]
  }

  /** inode_sync at the end of file_write. */
  method SyncWritten(ghost v: Vol, ghost owner: Owner, w: Vol, ghost own: Owner, ghost t: Tree, i: nat,
      ghost buf: seq<Byte>)
    returns (v1: Vol)
    requires FsOk(v, owner, t) && i in v.inodes && i !in t.imgs && BlocksOk(w, own)
    requires w == v.(disk := w.disk, bits := w.bits, inodes := w.inodes)
    requires OnlyInode(v.g, v.disk, v.inodes, owner, w.disk, w.inodes, own, i)
    requires FileShape(v.disk, v.inodes[i]) && FileShape(w.disk, w.inodes[i])
    requires Contents(w.disk, w.inodes[i]) == Contents(v.disk, v.inodes[i]) + buf
    ensures Appended(v, v1, own, t, i, buf) && v1.bits == w.bits
  {
    WrittenFiles(v, owner, w, own, t, i, buf);
    WrittenRoot(v, owner, w, own, t, i);
    v1 := WriteBackOne(v, w, own, t, i);
    SameList(v, v1, t);
  }

  lemma WrittenRoot(v: Vol, owner: Owner, w: Vol, own: Owner, t: Tree, i: nat)
    requires FsOk(v, owner, t) && i !in t.imgs && BlocksOk(w, own) && w.g == v.g
    requires OnlyInode(v.g, v.disk, v.inodes, owner, w.disk, w.inodes, own, i)
    ensures RootOk(w.g, own)
  {
    assert DirOk(t, 0);
    assert w.inodes[0] == v.inodes[0];
    RootKept(v, owner, w, own);
  }

  /** A regular file of the tree. */
  lemma IsFile(v: Vol, owner: Owner, t: Tree, i: nat)
    requires FsOk(v, owner, t) && i in t.live && i !in t.imgs
    ensures BlocksOk(v, owner) && i in v.inodes && FileShape(v.disk, v.inodes[i]) && v.g.dataStart in owner
    ensures i in Files(v.disk, v.inodes, t)
  {
    assert NodeOk(v.disk, v.inodes[i], t, i);
  }

  /** file_write of a text that is not too long: `buf` is appended to regular file `i`. */
  method AppendTo(v: Vol, ghost owner: Owner, ghost t: Tree, i: nat, buf: seq<Byte>)
    returns (f: Fate, v1: Vol, pos: nat, ghost owner1: Owner)
    requires FsOk(v, owner, t) && i in t.live && i !in t.imgs && |v.inodes[i].sectors| == 13
    requires v.inodes[i].size + |buf| <= 71680
    ensures f == WriteFate(v, v.inodes[i], |buf|) && i in Files(v.disk, v.inodes, t)
    ensures f == Done ==> Appended(v, v1, owner1, t, i, buf) && Shorter(v, v1, WriteNeed(v.inodes[i], |buf|))
    ensures f == Done ==> pos == Wrap(v.inodes[i].size + |buf| - 1)
  {
    IsFile(v, owner, t, i);
    var w;
    f, w, pos, owner1 := Append(v, owner, i, buf);
    if f != Done {
      return f, v, 0, owner;
    }
    v1 := SyncWritten(v, owner, w, owner1, t, i, buf);
  }

  lemma SameList(v: Vol, v1: Vol, t: Tree)
    requires ListOk(v, t) && v1.kept == v.kept && v1.stale == v.stale
    ensures ListOk(v1, t)
  {
    forall c | c in v1.kept ensures KeptOk(t, c) {
    }
    forall c | c in v1.stale ensures StaleOk(v1, t, c) {
      assert StaleOk(v, t, c);
    }
  }
}
