/**
 A run from a fresh partition after which the list of open inodes has the inode of a removed directory
 under the number of a file.  sys_open of a file that is there never closes the directory of the file
 (fs/fs.c), so the inode of that directory stays on the list when the directory is removed, and
 inode_open finds it for whatever gets its number next.
 */
module StaleRun {
  import opened Sectors
  import opened Bitmap
  import opened Volume
  import opened Dir
  import opened Tree
  import opened Walks
  import opened Path
  import opened Fs
  import opened Search
  import opened Format
  import opened FileSystem

  // ----- the trees of the run

  const D := Entry("d", 1, FT_DIRECTORY)
  const F := Entry("f", 2, FT_REGULAR)

  /** A slot of a row that a new name goes to: the first one behind the two dots. */
  ghost predicate ThirdFree(rows: Rows) {
    Grid(rows) && Live(rows[0][0]) && Live(rows[0][1]) && !Live(rows[0][2])
  }

  lemma ThirdIsFirst(rows: Rows)
    requires ThirdFree(rows)
    ensures FirstFree(rows, 0, 2)
    ensures forall k: nat, j: nat :: FirstFree(rows, k, j) ==> k == 0 && j == 2
  {
    forall k: nat, j: nat | FirstFree(rows, k, j) ensures k == 0 && j == 2 {
      FirstFreeOnce(rows, 0, 2, k, j);
    }
  }

  /** The tree with the empty directory "/d". */
  function WithD(): (t: Tree)
    requires 0 in RootTree().depth
  {
    AddDir(RootTree(), 0, 0, 2, D)
  }

  /** The tree with "/d" and the file "/d/f". */
  function WithF(): (t: Tree)
    requires 0 in RootTree().depth
  {
    AddFile(WithD(), 1, 0, 2, F)
  }

  /** The tree after "/d/f" was taken away. */
  function WithoutF(): (t: Tree)
    requires 0 in RootTree().depth
  {
    Remove(WithF(), 1, 0, 2)
  }

  /** The tree after "/d" was taken away. */
  function WithoutD(): (t: Tree)
    requires 0 in RootTree().depth
  {
    Remove(WithoutF(), 0, 0, 2)
  }

  lemma WithDIs()
    ensures 0 in RootTree().depth && TreeOk(WithD()) && WithD().live == {0, 1} && WithD().imgs.Keys == {0, 1}
    ensures WithD().imgs[0] == Put(NewDirRows(0, 0), 0, 2, D) && WithD().imgs[1] == NewDirRows(1, 0)
    ensures WithD().place == map[1 := (0, 0, 2)]
  {
    RootSlot(D);
    AddDirOk(RootTree(), 0, 0, 2, D);
  }

  lemma WithFIs()
    ensures 0 in RootTree().depth && TreeOk(WithF()) && WithF().live == {0, 1, 2} && WithF().imgs.Keys == {0, 1}
    ensures WithF().imgs[0] == Put(NewDirRows(0, 0), 0, 2, D) && WithF().imgs[1] == Put(NewDirRows(1, 0), 0, 2, F)
    ensures WithF().place == map[1 := (0, 0, 2), 2 := (1, 0, 2)]
  {
    WithDIs();
    var t := WithD();
    assert DirOk(t, 1);
    forall o | o in Listing(t.imgs[1]) ensures o.name != F.name {
      var k, j := ListedAt(t, 1, o);
    }
    AddFileOk(t, 1, 0, 2, F);
  }

  /** Clearing a slot that was filled gives the rows back. */
  lemma PutBack(rows: Rows, e: Entry)
    requires Grid(rows) && rows[0][2] == NO_ENTRY
    ensures Put(Put(rows, 0, 2, e), 0, 2, NO_ENTRY) == rows
  {
    assert rows[0][2 := e][2 := NO_ENTRY] == rows[0];
  }

  lemma WithoutFIs()
    ensures 0 in RootTree().depth && TreeOk(WithoutF()) && WithoutF().live == {0, 1} && WithoutF().imgs.Keys == {0, 1}
    ensures WithoutF().imgs[0] == Put(NewDirRows(0, 0), 0, 2, D) && WithoutF().imgs[1] == NewDirRows(1, 0)
    ensures WithoutF().place == map[1 := (0, 0, 2)]
  {
    WithFIs();
    var t := WithF();
    assert DirOk(t, 1);
    assert t.imgs[1][0][2] == F;
    RemoveOk(t, 1, 0, 2);
    PutBack(NewDirRows(1, 0), F);
  }

  lemma WithoutDIs()
    ensures 0 in RootTree().depth && TreeOk(WithoutD()) && WithoutD().live == {0} && WithoutD().imgs.Keys == {0}
    ensures WithoutD().imgs[0] == NewDirRows(0, 0)
  {
    WithoutFIs();
    var t := WithoutF();
    assert DirOk(t, 0);
    assert t.imgs[0][0][2] == D;
    NewDirProper(1, 0);
    RemoveOk(t, 0, 0, 2);
    PutBack(NewDirRows(0, 0), D);
  }

  // ----- the walks of the run

  /** A name that no slot of the directory has is not found. */
  lemma NotFound(t: Tree, d: nat, c: string)
    requires d in t.imgs && Proper(t.imgs[d]) && forall k, j :: 0 <= k < 12 && 0 <= j < 21 ==> t.imgs[d][k][j].name != c
    ensures Lookup(Listing(t.imgs[d]), c).None?
  {
    var f := Lookup(Listing(t.imgs[d]), c);
    if f.Some? {
      var k, j := ListedAt(t, d, f.e);
    }
  }

  lemma MissingHere(t: Tree, c: string)
    requires 0 in t.imgs && Lookup(Listing(t.imgs[0]), c).None?
    ensures Find(t, [c]) == Missing(0, 1)
  {
  }

  /** The root of these trees leads to "/d", inode 1. */
  lemma FindD(t: Tree)
    requires TreeOk(t) && t.imgs.Keys == {0, 1} && 1 in t.live && 1 in t.place && t.place[1] == (0, 0, 2)
    requires Grid(t.imgs[0]) && t.imgs[0][0][2] == D
    ensures Lookup(Listing(t.imgs[0]), "d") == Some(D) && Find(t, ["d"]) == DirAt(0, 1)
  {
    assert NamedOk(t, 1);
    NameFound(t, 1);
    assert Walk(t, ["d"], 1, 0, 1) == DirAt(0, 1);
  }

  lemma FindNoF(t: Tree)
    requires TreeOk(t) && t.imgs.Keys == {0, 1} && Lookup(Listing(t.imgs[0]), "d") == Some(D)
    requires t.imgs[1] == NewDirRows(1, 0)
    ensures Find(t, ["d", "f"]) == Missing(1, 2)
  {
    NewDirProper(1, 0);
    NotFound(t, 1, "f");
    assert Walk(t, ["d", "f"], 1, 0, 1) == Missing(1, 2);
  }

  lemma FindF(t: Tree)
    requires TreeOk(t) && t.imgs.Keys == {0, 1} && Lookup(Listing(t.imgs[0]), "d") == Some(D)
    requires 2 in t.live && 2 in t.place && t.place[2] == (1, 0, 2) && Grid(t.imgs[1]) && t.imgs[1][0][2] == F
    ensures Find(t, ["d", "f"]) == FileAt(1, 2, 2)
  {
    assert NamedOk(t, 2);
    NameFound(t, 2);
    assert Walk(t, ["d", "f"], 1, 0, 1) == FileAt(1, 2, 2);
  }

  lemma OneComponent(c: string, path: string)
    requires Piece(c) && path == "/" + c
    ensures Components(path) == [c]
  {
    assert Join([c]) == path by {
      assert [c][..0] == [];
    }
    ShowThenCut([c]);
  }

  lemma Paths()
    ensures Components("/d") == ["d"] && Components("/d/f") == ["d", "f"] && Components("/y") == ["y"]
    ensures Searchable("/d") && Searchable("/d/f") && Searchable("/y")
  {
    OneComponent("d", "/d");
    OneComponent("y", "/y");
    TwoComponents("d", "f", "/d/f");
  }

  // ----- numbers and blocks

  /** The lowest number that is not in use. */
  lemma LowestIs(ibits: seq<bool>, live: set<nat>, n: nat)
    requires BitsOk(ibits, live) && n < 256 && n !in live && forall j :: 0 <= j < n ==> j in live
    ensures Leftmost(ibits, 1, n) && InodeFate(ibits) == Done
    ensures forall i: nat :: Leftmost(ibits, 1, i) ==> i == n
  {
    assert IsRun(ibits, n, 1);
    forall j | j < n ensures !IsRun(ibits, j, 1) {
      assert 0 <= j ==> ibits[j];
    }
    InodeFateOf(ibits, n);
    forall i: nat | Leftmost(ibits, 1, i) ensures i == n {
      LeftmostOnce(ibits, 1, i, n);
    }
  }

  /** A name in a directory whose first block has a free slot needs no block. */
  lemma RowsFit(v: Vol, rows: seq<seq<Entry>>, ino: Inode, before: nat)
    requires ThirdFree(rows) && |ino.sectors| == 13 && ino.sectors[0] != 0 && v.g.blocks <= |v.bits|
    ensures EntryFate(v, rows, ino, before) == BlockFate(v, before)
  {
    ThirdIsFirst(rows);
    SlotNeeds(rows, ino, 0, 2);
    assert !Live(rows[0][2]);
  }

  lemma EntryFits(v: Vol, owner: Owner, t: Tree, d: nat, before: nat)
    requires FsOk(v, owner, t) && d in t.imgs && ThirdFree(t.imgs[d])
    ensures Place(v, t, d) && EntryFate(v, t.imgs[d], v.inodes[d], before) == BlockFate(v, before)
  {
    PlaceOk(v, owner, t, d);
    assert DirOk(t, d) && NodeOk(v.disk, v.inodes[d], t, d);
    RowsFit(v, t.imgs[d], v.inodes[d], before);
  }

  /** file_create in such a directory, when the next number is `n`. */
  lemma CreateWorks(v: Vol, owner: Owner, t: Tree, d: nat, n: nat)
    requires FsOk(v, owner, t) && d in t.imgs && ThirdFree(t.imgs[d])
    requires n < 256 && n !in t.live && forall j :: 0 <= j < n ==> j in t.live
    ensures Place(v, t, d) && CreateFate(v, t, d) == (if n in v.stale then StaleInode else Done)
    ensures InodeFate(v.ibits) == Done
    ensures forall i: nat :: Leftmost(v.ibits, 1, i) ==> i == n
  {
    LowestIs(v.ibits, t.live, n);
    EntryFits(v, owner, t, d, 0);
    ReusedIs(v, n);
  }

  /** sys_mkdir in the root of a fresh partition. */
  lemma MakeWorks(v: Vol, owner: Owner)
    requires FsOk(v, owner, RootTree()) && v.stale == map[] && 8 <= v.g.blocks
    requires FreshBits(v.bits, v.g.blocks, |v.bits|)
    ensures Place(v, RootTree(), 0) && MakeFate(v, RootTree(), 0) == Done
    ensures forall i: nat :: Leftmost(v.ibits, 1, i) ==> i == 1
  {
    var t := RootTree();
    assert ThirdFree(t.imgs[0]);
    LowestIs(v.ibits, t.live, 1);
    EntryFits(v, owner, t, 0, 1);
    SomeFree(v.bits, v.g.blocks);
    assert !v.bits[1];
  }

  // ----- the run

  /** What the calls of the run see of a state: the tree, the open files, the descriptors, and the numbers
      of the inodes that stay on the list. */
  ghost predicate At(s: Moment, t: Tree, files: seq<Slot>, fds: seq<int>, kept: set<nat>, stale: set<nat>) {
    s.fs.tree == t && s.fs.files == files && s.fds == fds && s.fs.vol.kept == kept && s.fs.vol.stale.Keys == stale
  }

  function NoFiles(): (files: seq<Slot>) {
    seq(32, _ => Closed)
  }

  function NoFds(): (fds: seq<int>) {
    [0, 1, 2, -1, -1, -1, -1, -1]
  }

  function OneFile(flags: nat): (files: seq<Slot>) {
    NoFiles()[3 := Opened(2, 0, flags)]
  }

  function OneFd(): (fds: seq<int>) {
    NoFds()[3 := 3]
  }

  /** The first slot and the first descriptor are free. */
  lemma ThirdSlot()
    ensures FirstClosed(NoFiles(), 3) && forall g: nat :: FirstClosed(NoFiles(), g) ==> g == 3
    ensures forall fds1, r :: Installed(NoFds(), 3, fds1, r) ==> r == Ok(3) && fds1 == OneFd()
  {
    SlotIsOne(NoFiles(), 3);
    forall fds1, r | Installed(NoFds(), 3, fds1, r) ensures r == Ok(3) && fds1 == OneFd() {
      assert NoFds()[3] == -1;
    }
  }

  /** What the mkdir of "/d" finds. */
  ghost predicate RoomForDir(s: Fsys) {
    && Place(s.vol, s.tree, 0) && MakeFate(s.vol, s.tree, 0) == Done
    && forall i: nat :: Leftmost(s.vol.ibits, 1, i) ==> i == 1
  }

  lemma RoomForD(s: Moment, start: nat, sectors: nat)
    requires 620 <= sectors && 8 <= LayoutOf(start, sectors).blocks && MomentOk(s) && Fresh(s, start, sectors)
    ensures RoomForDir(s.fs) && At(s, RootTree(), NoFiles(), NoFds(), {}, {})
  {
    MakeWorks(s.fs.vol, s.fs.owner);
  }

  lemma NoD()
    ensures 0 in RootTree().imgs && Find(RootTree(), ["d"]) == Missing(0, 1) && ThirdFree(RootTree().imgs[0])
  {
    RootTreeOk();
    assert DirOk(RootTree(), 0);
    NotFound(RootTree(), 0, "d");
    MissingHere(RootTree(), "d");
  }

  /** A call of sys_mkdir is made. */
  lemma MkdirMade(s: Moment, path: string, r: Result, s1: Moment)
    requires Searchable(path) && Stepped(s, CallMkdir(path), r, s1)
    ensures s1.fds == s.fds && MkdirDone(s.fs, path, r, s1.fs)
  {
  }

  lemma MakesD(s: Moment, r: Result, s1: Moment)
    requires RoomForDir(s.fs) && At(s, RootTree(), NoFiles(), NoFds(), {}, {}) && Stepped(s, CallMkdir("/d"), r, s1)
    ensures 0 in RootTree().depth && r == Ok(0) && At(s1, WithD(), NoFiles(), NoFds(), {}, {})
  {
    Paths();
    WithDIs();
    NoD();
    ThirdIsFirst(RootTree().imgs[0]);
    MkdirMade(s, "/d", r, s1);
    assert s.fs.vol.stale == map[];
  }

  /** A call of sys_open is made. */
  lemma OpenMade(s: Moment, path: string, flags: nat, r: Result, s1: Moment) returns (g: nat, i: nat)
    requires Searchable(path) && flags <= 7 && Stepped(s, CallOpen(path, flags, false), r, s1)
    ensures Opens(s.fs, s.fds, path, flags, false, r, s1.fs, s1.fds, g, i)
  {
    g, i :| Opens(s.fs, s.fds, path, flags, false, r, s1.fs, s1.fds, g, i);
  }

  /** sys_open of a new name in directory `d`, when it has a slot for the name, the next number is `n`, and
      nothing is open. */
  lemma NewNameOpens(s: Fsys, path: string, flags: nat, r: Result, s1: Fsys, fds1: seq<int>, g: nat, i: nat,
      d: nat, n: nat)
    requires CanOpen(s.tree, path, flags) && 4 <= flags
    requires Find(s.tree, Components(path)) == Missing(d, |Components(path)|)
    requires s.files == NoFiles() && Place(s.vol, s.tree, d) && InodeFate(s.vol.ibits) == Done
    requires CreateFate(s.vol, s.tree, d) == Done && forall i: nat :: Leftmost(s.vol.ibits, 1, i) ==> i == n
    requires d in s.tree.imgs && ThirdFree(s.tree.imgs[d]) && Opens(s, NoFds(), path, flags, false, r, s1, fds1, g, i)
    ensures r == Ok(3) && s1.files == NoFiles()[3 := Opened(n, 0, flags)] && fds1 == OneFd() && Components(path) != []
    ensures s1.tree == AddFile(s.tree, d, 0, 2, Entry(Components(path)[|Components(path)| - 1], n, FT_REGULAR))
    ensures s1.tree != s.tree ==> s1.vol.kept == s.vol.kept && s1.vol.stale == s.vol.stale
  {
    ThirdSlot();
    ThirdIsFirst(s.tree.imgs[d]);
    assert NewFate(s.vol, s.tree, d, 3) == Ok(0);
  }

  /** What the create of "/d/f" finds. */
  ghost predicate RoomFor(s: Fsys, d: nat, n: nat, f: Fate) {
    && Place(s.vol, s.tree, d) && InodeFate(s.vol.ibits) == Done && CreateFate(s.vol, s.tree, d) == f
    && forall i: nat :: Leftmost(s.vol.ibits, 1, i) ==> i == n
  }

  lemma RoomForF(s: Moment)
    requires 0 in RootTree().depth && MomentOk(s) && At(s, WithD(), NoFiles(), NoFds(), {}, {})
    ensures RoomFor(s.fs, 1, 2, Done)
  {
    WithDIs();
    CreateWorks(s.fs.vol, s.fs.owner, WithD(), 1, 2);
  }

  lemma PathToF()
    ensures 0 in RootTree().depth && CanOpen(WithD(), "/d/f", 4) && Find(WithD(), ["d", "f"]) == Missing(1, 2)
    ensures 1 in WithD().imgs && ThirdFree(WithD().imgs[1])
  {
    Paths();
    WithDIs();
    FindD(WithD());
    FindNoF(WithD());
  }

  lemma CreatesF(s: Moment, r: Result, s1: Moment)
    requires 0 in RootTree().depth && RoomFor(s.fs, 1, 2, Done) && At(s, WithD(), NoFiles(), NoFds(), {}, {})
    requires Stepped(s, CallOpen("/d/f", 4, false), r, s1)
    ensures r == Ok(3) && At(s1, WithF(), OneFile(4), OneFd(), {}, {})
  {
    Paths();
    PathToF();
    var g, i := OpenMade(s, "/d/f", 4, r, s1);
    NewNameOpens(s.fs, "/d/f", 4, r, s1.fs, s1.fds, g, i, 1, 2);
    WithDIs();
    WithFIs();
  }

  lemma ClosesF(s: Moment, t: Tree, flags: nat, kept: set<nat>, r: Result, s1: Moment)
    requires At(s, t, OneFile(flags), OneFd(), kept, {}) && Stepped(s, CallClose(3), r, s1)
    ensures r == Ok(0) && At(s1, t, NoFiles(), NoFds(), kept, {})
  {
    assert OneFile(flags)[3 := Closed] == NoFiles() && OneFd()[3 := -1] == NoFds();
  }

  lemma PathToOldF()
    ensures 0 in RootTree().depth && CanOpen(WithF(), "/d/f", 0) && Find(WithF(), ["d", "f"]) == FileAt(1, 2, 2)
  {
    Paths();
    WithFIs();
    FindD(WithF());
    FindF(WithF());
  }

  /** sys_open of a file that is there, when nothing is open. */
  lemma OldNameOpens(s: Fsys, path: string, flags: nat, r: Result, s1: Fsys, fds1: seq<int>, g: nat, i: nat,
      d: nat, n: nat)
    requires CanOpen(s.tree, path, flags) && flags < 4
    requires Find(s.tree, Components(path)) == FileAt(d, |Components(path)|, n) && d != 0
    requires s.files == NoFiles() && Opens(s, NoFds(), path, flags, false, r, s1, fds1, g, i)
    ensures r == Ok(3) && s1.files == NoFiles()[3 := Opened(n, 0, flags)] && fds1 == OneFd() && s1.tree == s.tree
    ensures s1.vol == s.vol.(kept := s.vol.kept + {d})
  {
    ThirdSlot();
  }

  /** The open of the file that is there leaves "/d" open. */
  lemma OpensF(s: Moment, r: Result, s1: Moment)
    requires 0 in RootTree().depth && At(s, WithF(), NoFiles(), NoFds(), {}, {})
    requires Stepped(s, CallOpen("/d/f", 0, false), r, s1)
    ensures r == Ok(3) && At(s1, WithF(), OneFile(0), OneFd(), {1}, {})
  {
    Paths();
    PathToOldF();
    var g, i := OpenMade(s, "/d/f", 0, r, s1);
    OldNameOpens(s.fs, "/d/f", 0, r, s1.fs, s1.fds, g, i, 1, 2);
    assert {} + {1} == {1};
  }

  lemma UnlinksF(s: Moment, r: Result, s1: Moment)
    requires 0 in RootTree().depth && At(s, WithF(), NoFiles(), NoFds(), {1}, {})
    requires Stepped(s, CallUnlink("/d/f"), r, s1)
    ensures r == Ok(0) && At(s1, WithoutF(), NoFiles(), NoFds(), {1}, {})
  {
    Paths();
    WithFIs();
    FindD(WithF());
    FindF(WithF());
    UnlinkMade(s, "/d/f", r, s1);
  }

  /** A call of sys_unlink is made. */
  lemma UnlinkMade(s: Moment, path: string, r: Result, s1: Moment)
    requires Searchable(path) && Stepped(s, CallUnlink(path), r, s1)
    ensures s1.fds == s.fds && UnlinkDone(s.fs, path, r, s1.fs)
  {
  }

  /** The removal of "/d" leaves its inode on the list. */
  lemma RemovesD(s: Moment, r: Result, s1: Moment)
    requires 0 in RootTree().depth && At(s, WithoutF(), NoFiles(), NoFds(), {1}, {})
    requires Stepped(s, CallRmdir("/d"), r, s1)
    ensures r == Ok(0) && At(s1, WithoutD(), NoFiles(), NoFds(), {}, {1})
  {
    Paths();
    WithoutFIs();
    FindD(WithoutF());
    NewDirProper(1, 0);
    RmdirMade(s, "/d", r, s1);
    assert {1} - {1} == {};
  }

  /** A call of sys_rmdir is made. */
  lemma RmdirMade(s: Moment, path: string, r: Result, s1: Moment)
    requires Searchable(path) && Stepped(s, CallRmdir(path), r, s1)
    ensures s1.fds == s.fds && RmdirDone(s.fs, path, r, s1.fs)
  {
  }

  lemma RoomForY(s: Moment)
    requires 0 in RootTree().depth && MomentOk(s) && At(s, WithoutD(), NoFiles(), NoFds(), {}, {1})
    ensures RoomFor(s.fs, 0, 1, StaleInode)
  {
    WithoutDIs();
    CreateWorks(s.fs.vol, s.fs.owner, WithoutD(), 0, 1);
  }

  /** The next file gets number 1. */
  lemma CreatesY(s: Moment, r: Result, s1: Moment)
    requires 0 in RootTree().depth && RoomFor(s.fs, 0, 1, StaleInode) && At(s, WithoutD(), NoFiles(), NoFds(), {}, {1})
    requires Stepped(s, CallOpen("/y", 6, false), r, s1)
    ensures r == Beyond(StaleInode)
  {
    Paths();
    NoY();
    var g, i := OpenMade(s, "/y", 6, r, s1);
    StaleOpens(s.fs, "/y", 6, r, s1.fs, s1.fds, g, i, 0);
  }

  lemma NoY()
    ensures 0 in RootTree().depth && 0 in WithoutD().imgs && Find(WithoutD(), ["y"]) == Missing(0, 1)
  {
    WithoutDIs();
    assert DirOk(WithoutD(), 0);
    NotFound(WithoutD(), 0, "y");
    MissingHere(WithoutD(), "y");
  }

  lemma StaleOpens(s: Fsys, path: string, flags: nat, r: Result, s1: Fsys, fds1: seq<int>, g: nat, i: nat, d: nat)
    requires CanOpen(s.tree, path, flags) && 4 <= flags
    requires Find(s.tree, Components(path)) == Missing(d, |Components(path)|)
    requires s.files == NoFiles() && Place(s.vol, s.tree, d) && InodeFate(s.vol.ibits) == Done
    requires CreateFate(s.vol, s.tree, d) == StaleInode && Opens(s, NoFds(), path, flags, false, r, s1, fds1, g, i)
    ensures r == Beyond(StaleInode)
  {
    ThirdSlot();
    assert NewFate(s.vol, s.tree, d, 3) == Beyond(StaleInode);
  }

  function Calls(): (calls: seq<Call>) {
    [CallMkdir("/d"), CallOpen("/d/f", 4, false), CallClose(3), CallOpen("/d/f", 0, false), CallClose(3),
     CallUnlink("/d/f"), CallRmdir("/d"), CallOpen("/y", 6, false)]
  }

  /** The run has made its first `n` calls, and is in a state that the next one sees like this. */
  ghost predicate Reached(trace: seq<Moment>, results: seq<Result>, n: nat, t: Tree, files: seq<Slot>, fds: seq<int>,
      kept: set<nat>, stale: set<nat>) {
    && IsRunOf(trace, Calls(), results) && n <= |results| && n < |trace| && (0 < n ==> results[n - 1].Returns())
    && At(trace[n], t, files, fds, kept, stale)
  }

  /** Call `k` of a run was made and is a step. */
  lemma MadeCall(trace: seq<Moment>, calls: seq<Call>, results: seq<Result>, k: nat)
    requires IsRunOf(trace, calls, results) && k < |calls| && k <= |results| && (0 < k ==> results[k - 1].Returns())
    ensures k < |results| && |trace| == |results| + 1 && StepAt(trace, calls, results, k)
  {
  }

  /** It starts in a state with the rule. */
  lemma RuleBefore(trace: seq<Moment>, calls: seq<Call>, results: seq<Result>, k: nat)
    requires IsRunOf(trace, calls, results) && k < |results|
    ensures RuleAt(trace, k)
  {
  }

  lemma Call0(trace: seq<Moment>, results: seq<Result>, start: nat, sectors: nat)
    requires 620 <= sectors && 8 <= LayoutOf(start, sectors).blocks
    requires IsRunOf(trace, Calls(), results) && |trace| > 0 && Fresh(trace[0], start, sectors)
    ensures 0 in RootTree().depth && Reached(trace, results, 1, WithD(), NoFiles(), NoFds(), {}, {})
    ensures results[0] == Ok(0)
  {
    MadeCall(trace, Calls(), results, 0);
    RuleBefore(trace, Calls(), results, 0);
    RoomForD(trace[0], start, sectors);
    MakesD(trace[0], results[0], trace[1]);
  }

  lemma Call1(trace: seq<Moment>, results: seq<Result>)
    requires 0 in RootTree().depth && Reached(trace, results, 1, WithD(), NoFiles(), NoFds(), {}, {})
    ensures Reached(trace, results, 2, WithF(), OneFile(4), OneFd(), {}, {}) && results[1] == Ok(3)
  {
    MadeCall(trace, Calls(), results, 1);
    RuleBefore(trace, Calls(), results, 1);
    RoomForF(trace[1]);
    CreatesF(trace[1], results[1], trace[2]);
  }

  lemma Call2(trace: seq<Moment>, results: seq<Result>)
    requires 0 in RootTree().depth && Reached(trace, results, 2, WithF(), OneFile(4), OneFd(), {}, {})
    ensures Reached(trace, results, 3, WithF(), NoFiles(), NoFds(), {}, {}) && results[2] == Ok(0)
  {
    MadeCall(trace, Calls(), results, 2);
    ClosesF(trace[2], WithF(), 4, {}, results[2], trace[3]);
  }

  lemma Call3(trace: seq<Moment>, results: seq<Result>)
    requires 0 in RootTree().depth && Reached(trace, results, 3, WithF(), NoFiles(), NoFds(), {}, {})
    ensures Reached(trace, results, 4, WithF(), OneFile(0), OneFd(), {1}, {}) && results[3] == Ok(3)
  {
    MadeCall(trace, Calls(), results, 3);
    OpensF(trace[3], results[3], trace[4]);
  }

  lemma Call4(trace: seq<Moment>, results: seq<Result>)
    requires 0 in RootTree().depth && Reached(trace, results, 4, WithF(), OneFile(0), OneFd(), {1}, {})
    ensures Reached(trace, results, 5, WithF(), NoFiles(), NoFds(), {1}, {}) && results[4] == Ok(0)
  {
    MadeCall(trace, Calls(), results, 4);
    ClosesF(trace[4], WithF(), 0, {1}, results[4], trace[5]);
  }

  lemma Call5(trace: seq<Moment>, results: seq<Result>)
    requires 0 in RootTree().depth && Reached(trace, results, 5, WithF(), NoFiles(), NoFds(), {1}, {})
    ensures Reached(trace, results, 6, WithoutF(), NoFiles(), NoFds(), {1}, {}) && results[5] == Ok(0)
  {
    MadeCall(trace, Calls(), results, 5);
    UnlinksF(trace[5], results[5], trace[6]);
  }

  lemma Call6(trace: seq<Moment>, results: seq<Result>)
    requires 0 in RootTree().depth && Reached(trace, results, 6, WithoutF(), NoFiles(), NoFds(), {1}, {})
    ensures Reached(trace, results, 7, WithoutD(), NoFiles(), NoFds(), {}, {1}) && results[6] == Ok(0)
  {
    MadeCall(trace, Calls(), results, 6);
    RemovesD(trace[6], results[6], trace[7]);
  }

  lemma Call7(trace: seq<Moment>, results: seq<Result>)
    requires 0 in RootTree().depth && Reached(trace, results, 7, WithoutD(), NoFiles(), NoFds(), {}, {1})
    ensures |results| == 8 && |trace| == 9 && results[7] == Beyond(StaleInode) && StaleLeft(trace[8].fs.vol)
    ensures !RuleAt(trace, 8) && !SeenRight(trace[8])
  {
    MadeCall(trace, Calls(), results, 7);
    RuleBefore(trace, Calls(), results, 7);
    RoomForY(trace[7]);
    CreatesY(trace[7], results[7], trace[8]);
    StaleCall(trace[7], Calls()[7], trace[8]);
  }

  /** From any fresh partition: "/d" is made, "/d/f" is made in it, closed, opened again and closed, both are
      taken away, and a new file gets the number of "/d", whose inode is still on the list.  For whoever opens
      the file, blocks are no longer held once and marked exactly. */
  lemma FileGetsStaleInode(trace: seq<Moment>, results: seq<Result>, start: nat, sectors: nat)
    requires 620 <= sectors && 8 <= LayoutOf(start, sectors).blocks
    requires IsRunOf(trace, Calls(), results) && |trace| > 0 && Fresh(trace[0], start, sectors)
    ensures results == [Ok(0), Ok(3), Ok(0), Ok(3), Ok(0), Ok(0), Ok(0), Beyond(StaleInode)]
    ensures |trace| == 9 && !RuleAt(trace, 8) && !SeenRight(trace[8])
  {
    Call0(trace, results, start, sectors);
    Call1(trace, results);
    Call2(trace, results);
    Call3(trace, results);
    Call4(trace, results);
    Call5(trace, results);
    Call6(trace, results);
    Call7(trace, results);
  }
}
