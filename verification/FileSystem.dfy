/**
 The file system calls (fs/fs.c): paths in, and what they do to the tree of names, to the contents of
 the files and to the table of open files.
 */
module FileSystem {
  import opened Sectors
  import opened Volume
  import opened File
  import opened Dir
  import opened Tree
  import opened Walks
  import opened Path
  import opened Fs
  import opened Search
  import opened Format
  import Descriptors
  import opened Bitmap

  /** Success with a value, failure with -1, a call that the kernel does not come back from, or a call in
      which it goes on but leaves the rule, and how. */
  datatype Result = Ok(value: nat) | Err | Stopped | Beyond(why: Fate) {
    /** The call comes back, and the rule holds. */
    predicate Returns() {
      Ok? || Err?
    }
  }

  /** The result of a call whose last part ends like this; with success its value is `n`. */
  function Outcome(f: Fate, n: nat): (r: Result) {
    match f
    case Done => Ok(n)
    case Halts => Stopped
    case _ => Beyond(f)
  }

  /** strrchr(p, '/') + 1, and what is before the slash. */
  method BaseName(p: string) returns (name: string, ghost a: string)
    requires '/' in p
    ensures '/' !in name && p == a + "/" + name
  {
    var i := LastSlash(p);
    name, a := p[i + 1..], p[..i];
  }

  lemma BaseIsLast(p: string, a: string, name: string)
    requires '/' !in name && p == a + "/" + name && p[|p| - 1] != '/'
    ensures var cs := Components(p); cs != [] && cs[|cs| - 1] == name
  {
    CutAppend(a, name, "");
  }

  /** A slot for the last component of a path in the directory the walk ended in. */
  ghost predicate NewName(t: Tree, cs: seq<string>) {
    0 in t.imgs && Find(t, cs).Missing? && Find(t, cs).depth == |cs|
  }

  lemma NewNameOk(t: Tree, path: string)
    requires TreeOk(t) && Fits(Components(path)) && NewName(t, Components(path))
    ensures var cs := Components(path);
            |cs| > 0 && NoEntry(t, Find(t, cs).dir, cs[|cs| - 1]) && GoodName(cs[|cs| - 1])
  {
    MissingName(t, Components(path));
    CutPieces(path, "");
    assert Piece(Components(path)[|Components(path)| - 1]);
  }

  /** The search of sys_open and sys_mkdir: where the last component would go, if everything before it
      is there and it is not. */
  method WhereNew(v: Vol, ghost owner: Owner, ghost t: Tree, path: string) returns (r: Spot, whole: bool, name: string)
    requires FsOk(v, owner, t) && Searchable(path)
    ensures 0 in t.imgs && r == Find(t, Components(path))
    ensures whole <==> !r.DirAt? && r.depth == |Components(path)|
    ensures whole ==> Components(path) != [] && name == Components(path)[|Components(path)| - 1]
  {
    var searched;
    r, searched := SearchFile(v, owner, t, path);
    whole, name := false, "";
    if !r.DirAt? {
      WalkDepth(t, Components(path), 0, 0, 0);
      whole, name := SearchedWhole(path, searched, r.depth);
    }
  }

  /** Was the whole path looked at?  The two depths are counted and compared. */
  method SearchedWhole(path: string, searched: string, ghost n: nat) returns (whole: bool, name: string)
    requires 0 < n <= |Components(path)| && searched == Join(Components(path)[..n])
    ensures whole <==> n == |Components(path)|
    ensures name == Components(path)[n - 1]
  {
    ghost var cs := Components(path)[..n];
    CutPieces(path, "");
    assert Pieces(cs);
    ShowThenCut(cs);
    var junk: string := *;
    var depth := PathDepth(path, junk);
    var depth1 := PathDepth(searched, junk);
    whole := depth == depth1;
    ghost var a;
    name, a := BaseName(searched);
    LastSearched(cs, searched, a, name);
  }

  lemma LastSearched(cs: seq<string>, searched: string, a: string, name: string)
    requires Pieces(cs) && cs != [] && searched == Join(cs) && '/' !in name && searched == a + "/" + name
    ensures name == cs[|cs| - 1]
  {
    var c := cs[|cs| - 1];
    assert Piece(c) && searched[|searched| - 1] == c[|c| - 1];
    CutAppend(a, name, "");
    ShowThenCut(cs);
  }

  /** Directory `d` is there, on disk and in the tree. */
  ghost predicate Place(v: Vol, t: Tree, d: nat) {
    |v.ibits| == 4096 && d in t.imgs && d in v.inodes && |v.inodes[d].sectors| == 13 && v.g.blocks <= |v.bits|
  }

  // ----- sys_mkdir, sys_rmdir, sys_unlink

  /** sys_mkdir */
  method Mkdir(v: Vol, ghost owner: Owner, ghost t: Tree, path: string)
    returns (r: Result, v1: Vol, ghost owner1: Owner, ghost t1: Tree)
    requires FsOk(v, owner, t) && Searchable(path)
    ensures r.Err? <==> !NewName(t, Components(path))
    ensures NewName(t, Components(path)) ==>
              Place(v, t, Find(t, Components(path)).dir)
                && r == Outcome(MakeFate(v, t, Find(t, Components(path)).dir), 0)
    ensures r.Err? ==> v1 == v && owner1 == owner && t1 == t
    ensures r.Ok? ==> FsOk(v1, owner1, t1) && v1.g == v.g && Files(v1.disk, v1.inodes, t1) == Files(v.disk, v.inodes, t)
    ensures r.Ok? ==> Named(t, t1, Components(path), v.ibits, FT_DIRECTORY) && MadeListed(v, v1)
    ensures r == Beyond(StaleInode) ==> DiskOk(v1, owner1, t1) && StaleLeft(v1)
  {
    r, v1, owner1, t1 := Err, v, owner, t;
    var spot, whole, name := WhereNew(v, owner, t, path);
    if spot.Missing? && whole {
      NewNameOk(t, path);
      var f, w, i;
      ghost var own, tw;
      f, w, i, own, tw := Make(v, owner, t, spot.dir, name);
      r := Outcome(f, 0);
      if Came(f) {
        v1, owner1, t1 := w, own, tw;
        assert NamedAs(t, t1, spot.dir, name, i, FT_DIRECTORY);
      }
    }
  }

  /** The list of open inodes after a new directory got the lowest free number. */
  ghost predicate MadeListed(v: Vol, v1: Vol) {
    exists i: nat :: Leftmost(v.ibits, 1, i) && v1.kept == Relisted(v, i).kept && v1.stale == Relisted(v, i).stale
  }

  /** The list of open inodes after inode `i` was freed. */
  ghost predicate GoneListed(v: Vol, v1: Vol, i: nat) {
    i in v.inodes && v1.kept == Delisted(v, i, v.inodes[i]).kept && v1.stale == Delisted(v, i, v.inodes[i]).stale
  }

  /** The tree gained one entry, in the first free slot of directory `d`. */
  ghost predicate NamedAs(t: Tree, t1: Tree, d: nat, name: string, i: nat, ftype: nat) {
    && d in t.imgs && d in t.depth
    && exists k: nat, j: nat :: FirstFree(t.imgs[d], k, j) &&
         t1 == if ftype == FT_DIRECTORY then AddDir(t, d, k, j, Entry(name, i, ftype))
           else AddFile(t, d, k, j, Entry(name, i, ftype))
  }

  /** The tree gained the last component of a path, as the name of the lowest free inode. */
  ghost predicate Named(t: Tree, t1: Tree, cs: seq<string>, ibits: seq<bool>, ftype: nat) {
    && 0 in t.imgs && cs != [] && Find(t, cs).Missing?
    && exists i: nat :: Leftmost(ibits, 1, i) && NamedAs(t, t1, Find(t, cs).dir, cs[|cs| - 1], i, ftype)
  }

  /** The path does not end in "." or "..". */
  predicate PlainEnd(cs: seq<string>) {
    cs == [] || (cs[|cs| - 1] != "." && cs[|cs| - 1] != "..")
  }

  /** The tree without inode `i` and its name. */
  ghost predicate Unnamed(t: Tree, t1: Tree, i: nat) {
    i in t.live && NamedOk(t, i) && t1 == Remove(t, t.place[i].0, t.place[i].1, t.place[i].2)
  }

  /** An empty directory other than the root. */
  ghost predicate EmptyDir(t: Tree, i: nat) {
    i != 0 && i in t.imgs && OnlyDots(t.imgs[i])
  }

  /** sys_rmdir, with dir_is_empty and dir_remove.  The root stops the kernel.  If the path ends in a dot
      the directory is freed but its name stays. */
  method Rmdir(v: Vol, ghost owner: Owner, ghost t: Tree, path: string)
    returns (r: Result, v1: Vol, ghost owner1: Owner, ghost t1: Tree)
    requires FsOk(v, owner, t) && Searchable(path)
    ensures 0 in t.imgs
    ensures var spot := Find(t, Components(path));
            && (r.Stopped? <==> spot.DirAt? && spot.ino == 0)
            && (r.Ok? <==> spot.DirAt? && EmptyDir(t, spot.ino) && PlainEnd(Components(path))) && (r.Ok? ==> r == Ok(0))
            && (r.Beyond? <==> spot.DirAt? && EmptyDir(t, spot.ino) && !PlainEnd(Components(path)))
            && (r.Beyond? ==> r.why == NameStays && NameLeft(v1, t, spot.ino))
    ensures r.Err? ==> v1 == v && owner1 == owner && t1 == t
    ensures r.Ok? ==> FsOk(v1, owner1, t1) && v1.g == v.g && Unnamed(t, t1, Find(t, Components(path)).ino)
    ensures r.Ok? ==> Files(v1.disk, v1.inodes, t1) == Files(v.disk, v.inodes, t)
    ensures r.Ok? ==> GoneListed(v, v1, Find(t, Components(path)).ino)
  {
    r, v1, owner1, t1 := Err, v, owner, t;
    var spot, searched := SearchFile(v, owner, t, path);
    ghost var cs := Components(path);
    if spot.DirAt? {
      if spot.ino == 0 {
        return Stopped, v, owner, t;
      }
      FoundBelow(t, cs);
      var empty := IsEmpty(v, owner, t, spot.ino);
      if empty {
        var ok;
        ok, v1, owner1, t1 := Drop(v, owner, t, spot.above, spot.ino);
        r := if ok then Ok(0) else Beyond(NameStays);
      }
    }
  }

  /** A directory other than the root that a path leads to: the directory search_file reports names it
      exactly when the path does not end in a dot. */
  lemma FoundBelow(t: Tree, cs: seq<string>)
    requires TreeOk(t) && Find(t, cs).DirAt? && Find(t, cs).ino != 0
    ensures var r := Find(t, cs);
            && NamedOk(t, r.ino) && r.ino in t.imgs && r.ino in t.live && r.above in t.imgs
            && (t.place[r.ino].0 == r.above <==> PlainEnd(cs))
  {
    AboveNames(t, cs);
    AboveThere(t, cs);
  }

  lemma AboveThere(t: Tree, cs: seq<string>)
    requires TreeOk(t) && cs != [] && Find(t, cs).DirAt?
    ensures Find(t, cs).above in t.imgs
  {
    var n := |cs| - 1;
    var pre, c := cs[..n], cs[n];
    assert pre + [c] == cs;
    WalkAppend(t, pre, c, 0, 0, 0);
    WalkDepth(t, pre, 0, 0, 0);
  }

  /** A path that ends in ".." never leads to an empty directory: it comes from one below it. */
  lemma DotDotNotEmpty(t: Tree, cs: seq<string>)
    requires TreeOk(t) && cs != [] && cs[|cs| - 1] == ".." && Find(t, cs).DirAt?
    ensures !EmptyDir(t, Find(t, cs).ino)
  {
    var n := |cs| - 1;
    var pre, c := cs[..n], cs[n];
    assert pre + [c] == cs;
    WalkAppend(t, pre, c, 0, 0, 0);
    WalkDepth(t, pre, 0, 0, 0);
    var d, x := Find(t, pre).ino, Find(t, cs).ino;
    var e := Lookup(Listing(t.imgs[d]), c).e;
    if x != 0 {
      UpFrom(t, d, e);
      var k, j := t.place[d].1, t.place[d].2;
      assert DirOk(t, x);
      assert Plain(t.imgs[x][k][j]);
    }
  }

  /** ".." of a directory that does not lead to the root leads to the one that names it. */
  lemma UpFrom(t: Tree, d: nat, e: Entry)
    requires TreeOk(t) && d in t.imgs && e in Listing(t.imgs[d]) && e.name == ".." && e.ino != 0
    ensures d != 0 && NamedOk(t, d) && t.place[d].0 == e.ino
  {
    assert DirOk(t, d);
    var k, j := ListedAt(t, d, e);
    if d != 0 {
      Parent(t, d);
    }
  }

  /** dir_is_empty, and the assertions of dir_remove. */
  method IsEmpty(v: Vol, ghost owner: Owner, ghost t: Tree, d: nat) returns (empty: bool)
    requires FsOk(v, owner, t) && d in t.imgs
    ensures empty <==> OnlyDots(t.imgs[d])
  {
    assert DirOk(t, d) && NodeOk(v.disk, v.inodes[d], t, d);
    EmptyBySize(v.disk, v.inodes[d]);
    empty := v.inodes[d].size == 48;
    if empty {
      var k := 1;
      while k < 13
        invariant 1 <= k <= 13
      {
        EmptyHasOneBlock(v.disk, v.inodes[d], k);
        assert v.inodes[d].sectors[k] == 0;
        k := k + 1;
      }
    }
  }

  /** struct file: a slot of the table of open files. */
  datatype Slot = Closed | Opened(ino: nat, pos: nat, flag: nat)

  /** Some slot has the file open. */
  predicate InUse(files: seq<Slot>, i: nat) {
    exists g :: 0 <= g < |files| && files[g].Opened? && files[g].ino == i
  }

  /** The loop of sys_unlink over the table of open files. */
  method FindOpen(files: seq<Slot>, i: nat) returns (used: bool)
    ensures used <==> InUse(files, i)
  {
    var g := 0;
    while g < |files|
      invariant g <= |files| && forall h :: 0 <= h < g ==> !(files[h].Opened? && files[h].ino == i)
    {
      if files[g].Opened? && files[g].ino == i {
        return true;
      }
      g := g + 1;
    }
    used := false;
  }

  /** sys_unlink.  It takes away the first regular file on the path, whatever follows it. */
  method Unlink(v: Vol, files: seq<Slot>, ghost owner: Owner, ghost t: Tree, path: string)
    returns (r: Result, v1: Vol, ghost owner1: Owner, ghost t1: Tree)
    requires FsOk(v, owner, t) && Searchable(path)
    ensures 0 in t.imgs && !r.Beyond?
    ensures var spot := Find(t, Components(path));
            && (r.Stopped? <==> spot.DirAt? && spot.ino == 0)
            && (r.Ok? <==> spot.FileAt? && !InUse(files, spot.ino)) && (r.Ok? ==> r == Ok(0))
    ensures r.Err? ==> v1 == v && owner1 == owner && t1 == t
    ensures r.Ok? ==> FsOk(v1, owner1, t1) && v1.g == v.g && Unnamed(t, t1, Find(t, Components(path)).ino)
    ensures r.Ok? ==> Files(v1.disk, v1.inodes, t1) == Files(v.disk, v.inodes, t) - {Find(t, Components(path)).ino}
    ensures r.Ok? ==> v1.kept == v.kept && v1.stale == v.stale
  {
    r, v1, owner1, t1 := Err, v, owner, t;
    var spot, searched := SearchFile(v, owner, t, path);
    if spot.DirAt? && spot.ino == 0 {
      return Stopped, v, owner, t;
    }
    if spot.FileAt? {
      FileNamed(t, Components(path));
      var used := FindOpen(files, spot.ino);
      if !used {
        var ok;
        ok, v1, owner1, t1 := Drop(v, owner, t, spot.dir, spot.ino);
        assert spot.ino in v.kept ==> KeptOk(t, spot.ino);
        r := Ok(0);
      }
    }
  }

  // ----- sys_open

  /** The lowest closed slot from 3 on, or the length of the table. */
  ghost predicate FirstClosed(files: seq<Slot>, g: nat) {
    3 <= g <= |files| && (g < |files| ==> files[g].Closed?) && forall h :: 3 <= h < g ==> files[h].Opened?
  }

  method FreeSlotOf(files: seq<Slot>) returns (g: nat)
    requires |files| == 32
    ensures FirstClosed(files, g)
  {
    var used := seq(32, h requires 0 <= h < 32 => files[h].Opened?);
    g := Descriptors.FreeSlot(used);
    assert forall h :: 3 <= h < g ==> used[h] == files[h].Opened?;
  }

  /** pcb_fd_install put slot `g` in the lowest free descriptor from 3 on, or failed for want of one. */
  ghost predicate Installed(fds: seq<int>, g: nat, fds1: seq<int>, r: Result) {
    if r.Ok? then
      3 <= r.value < |fds| && fds[r.value] == -1 && (forall f :: 3 <= f < r.value ==> fds[f] != -1)
        && fds1 == fds[r.value := g]
    else
      r.Err? && fds1 == fds && forall f :: 3 <= f < |fds| ==> fds[f] != -1
  }

  method FdInstall(fds: seq<int>, g: nat) returns (fds1: seq<int>, r: Result)
    requires |fds| == 8
    ensures Installed(fds, g, fds1, r)
  {
    var f;
    fds1, f := Descriptors.Install(fds, g);
    r := if f < 8 then Ok(f) else Err;
  }

  /** A path that sys_open can act on: the file is there, or with O_CREAT in `flags` is not there. */
  ghost predicate CanOpen(t: Tree, path: string, flags: nat) {
    && 0 in t.imgs && path != "" && path[|path| - 1] != '/'
    && var spot := Find(t, Components(path));
       !spot.DirAt? && spot.depth == |Components(path)| && (spot.FileAt? <==> flags < 4)
  }

  /** sys_open of a file that is there.  `busy` is the write_deny flag of its inode. */
  method OpenOld(files: seq<Slot>, fds: seq<int>, i: nat, flags: nat, busy: bool)
    returns (r: Result, files1: seq<Slot>, fds1: seq<int>, ghost g: nat)
    requires |files| == 32 && |fds| == 8
    ensures FirstClosed(files, g)
    ensures g == 32 ==> r == Err && files1 == files && fds1 == fds
    ensures g < 32 ==> files1 == files[g := Opened(i, 0, flags)]
    ensures g < 32 && busy && (flags == 1 || flags == 2) ==> r == Err && fds1 == fds
    ensures g < 32 && !(busy && (flags == 1 || flags == 2)) ==> Installed(fds, g, fds1, r)
  {
    files1, fds1, r := files, fds, Err;
    var slot := FreeSlotOf(files);
    g := slot;
    if slot < 32 {
      files1 := files[slot := Opened(i, 0, flags)];
      if busy && (flags == 1 || flags == 2) {
        return;
      }
      fds1, r := FdInstall(fds, slot);
    }
  }

  /** What becomes of file_create: the inode number comes first, then the slot `g` of the table of open
      files, for want of which all is undone, and then the name. */
  ghost function NewFate(v: Vol, t: Tree, d: nat, g: nat): (r: Result)
    requires Place(v, t, d)
  {
    if InodeFate(v.ibits) == Halts then Stopped else if g == 32 then Err else Outcome(CreateFate(v, t, d), 0)
  }

  /** `v1` is `v` with the new empty file `i`, named in directory `d`. */
  ghost predicate FileMade(v: Vol, t: Tree, d: nat, name: string, i: nat, v1: Vol, owner1: Owner, t1: Tree) {
    && FsOk(v1, owner1, t1) && v1.g == v.g && v1.kept == v.kept && v1.stale == v.stale && Leftmost(v.ibits, 1, i)
    && NamedAs(t, t1, d, name, i, FT_REGULAR) && Files(v1.disk, v1.inodes, t1) == Files(v.disk, v.inodes, t)[i := []]
  }

  lemma PlaceOk(v: Vol, owner: Owner, t: Tree, d: nat)
    requires FsOk(v, owner, t) && d in t.imgs
    ensures Place(v, t, d) && d in t.depth
  {
    assert DirOk(t, d) && DepthOk(t, d) && NodeOk(v.disk, v.inodes[d], t, d);
  }

  /** The volume side of file_create. */
  method NewFile(v: Vol, ghost owner: Owner, ghost t: Tree, d: nat, name: string, i: nat)
    returns (f: Fate, v1: Vol, ghost owner1: Owner, ghost t1: Tree)
    requires FsOk(v, owner, t) && NoEntry(t, d, name) && GoodName(name) && i < 4096 && Leftmost(v.ibits, 1, i)
    ensures Place(v, t, d) && f == CreateFate(v, t, d)
    ensures f == Done ==> FileMade(v, t, d, name, i, v1, owner1, t1)
    ensures f == StaleInode ==> DiskOk(v1, owner1, t1) && StaleLeft(v1)
  {
    PlaceOk(v, owner, t, d);
    f, v1, owner1, t1 := Create(v, owner, t, d, name, i);
  }

  /** file_create of a name that is not there. */
  method OpenNew(v: Vol, files: seq<Slot>, fds: seq<int>, ghost owner: Owner, ghost t: Tree, d: nat, name: string,
      flags: nat)
    returns (r: Result, v1: Vol, files1: seq<Slot>, fds1: seq<int>, ghost owner1: Owner, ghost t1: Tree,
             ghost g: nat, i: nat)
    requires FsOk(v, owner, t) && |files| == 32 && |fds| == 8 && NoEntry(t, d, name) && GoodName(name)
    ensures FirstClosed(files, g) && Place(v, t, d)
    ensures !NewFate(v, t, d, g).Ok? ==> r == NewFate(v, t, d, g)
    ensures r.Err? && !NewFate(v, t, d, g).Ok? ==> v1 == v && owner1 == owner && t1 == t && files1 == files
                                                   && fds1 == fds
    ensures r == Beyond(StaleInode) ==> DiskOk(v1, owner1, t1) && StaleLeft(v1)
    ensures NewFate(v, t, d, g).Ok? ==> g < 32 && FileMade(v, t, d, name, i, v1, owner1, t1)
    ensures NewFate(v, t, d, g).Ok? ==> files1 == files[g := Opened(i, 0, flags)] && Installed(fds, g, fds1, r)
  {
    r, v1, files1, fds1, owner1, t1, i := Err, v, files, fds, owner, t, 0;
    PlaceOk(v, owner, t, d);
    var f;
    f, i := InodeAlloc(v);
    var slot := FreeSlotOf(files);
    g := slot;
    if f == Halts {
      r := Stopped;
    } else if slot < 32 {
      f, v1, owner1, t1 := NewFile(v, owner, t, d, name, i);
      r := Outcome(f, 0);
      if Came(f) {
        files1 := files[slot := Opened(i, 0, flags)];
        var r1;
        fds1, r1 := FdInstall(fds, slot);
        r := if f == Done then r1 else r;
      }
    }
  }

  /** What sys_open leaves behind when it comes back: tables `files1` and `fds1` in place of `files` and
      `fds`, and tree `t1` in place of `t`, if it opened slot `g` for inode `i`. */
  ghost predicate OpenDone(t: Tree, ibits: seq<bool>, files: seq<Slot>, fds: seq<int>, path: string, flags: nat,
      busy: bool,
                           r: Result, t1: Tree, files1: seq<Slot>, fds1: seq<int>, g: nat, i: nat)
  {
    if !CanOpen(t, path, flags) then r == Err && t1 == t && files1 == files && fds1 == fds
    else
      && FirstClosed(files, g)
      && (g == |files| ==> r == Err && t1 == t && files1 == files && fds1 == fds)
      && (g < |files| ==>
            && files1 == files[g := Opened(i, 0, flags)]
            && (if busy && (flags == 1 || flags == 2) then r == Err && fds1 == fds else Installed(fds, g, fds1, r))
            && (flags < 4 ==> t1 == t && i == Find(t, Components(path)).ino)
            && (flags >= 4 ==>
                  Leftmost(ibits, 1, i) && Components(path) != [] && Find(t, Components(path)).Missing? &&
                  NamedAs(t, t1, Find(t, Components(path)).dir, Components(path)[|Components(path)| - 1], i,
                    FT_REGULAR)))
  }

  /** sys_open does not come back, or leaves the rule: only when it makes a new file, and for the reasons
      of file_create. */
  ghost predicate OpenFails(v: Vol, files: seq<Slot>, t: Tree, path: string, flags: nat, r: Result) {
    && CanOpen(t, path, flags) && flags >= 4 && !r.Returns()
    && exists g: nat :: FirstClosed(files, g) && Place(v, t, Find(t, Components(path)).dir)
                        && r == NewFate(v, t, Find(t, Components(path)).dir, g)
  }

  /** sys_open comes back. */
  ghost predicate OpenReturns(v: Vol, files: seq<Slot>, t: Tree, path: string, flags: nat) {
    CanOpen(t, path, flags) && flags >= 4 ==>
      exists g: nat :: FirstClosed(files, g) && Place(v, t, Find(t, Components(path)).dir)
                       && NewFate(v, t, Find(t, Components(path)).dir, g).Returns()
  }

  /** What sys_open does to the volume when it comes back. */
  ghost predicate OpenKeeps(v: Vol, owner: Owner, t: Tree, path: string, flags: nat, v1: Vol, owner1: Owner, t1: Tree,
      files1: seq<Slot>,
                            fds1: seq<int>, i: nat)
  {
    && FsOk(v1, owner1, t1) && v1.g == v.g && FilesOpen(files1, t1) && |fds1| == 8
    && Files(v1.disk, v1.inodes, t1) == (if t1 == t then Files(v.disk, v.inodes, t)
       else Files(v.disk, v.inodes, t)[i := []])
    && (t1 == t ==> v1 == v.(kept := LeftOpen(v, t, path, flags)) && owner1 == owner)
    && (t1 != t ==> v1.kept == v.kept && v1.stale == v.stale)
  }

  /** sys_open of a name that is not there, with O_CREAT. */
  method OpenMissing(v: Vol, files: seq<Slot>, fds: seq<int>, ghost owner: Owner, ghost t: Tree, path: string,
      flags: nat, d: nat)
    returns (r: Result, v1: Vol, files1: seq<Slot>, fds1: seq<int>, ghost owner1: Owner, ghost t1: Tree, ghost g: nat,
             ghost i: nat)
    requires FsOk(v, owner, t) && FilesOpen(files, t) && |fds| == 8 && Searchable(path) && 4 <= flags <= 7
    requires CanOpen(t, path, flags) && Find(t, Components(path)) == Missing(d, |Components(path)|)
    ensures Place(v, t, d) && FirstClosed(files, g) && (r.Returns() <==> NewFate(v, t, d, g).Returns())
    ensures !r.Returns() ==> r == NewFate(v, t, d, g)
    ensures r.Returns() ==> OpenDone(t, v.ibits, files, fds, path, flags, false, r, t1, files1, fds1, g, i)
    ensures r.Returns() ==> OpenKeeps(v, owner, t, path, flags, v1, owner1, t1, files1, fds1, i)
    ensures r == Beyond(StaleInode) ==> DiskOk(v1, owner1, t1) && StaleLeft(v1)
  {
    NewNameOk(t, path);
    ghost var a;
    var name;
    name, a := BaseName(path);
    BaseIsLast(path, a, name);
    var n;
    r, v1, files1, fds1, owner1, t1, g, n := OpenNew(v, files, fds, owner, t, d, name, flags);
    i := n;
    if NewFate(v, t, d, g).Ok? {
      NewOpen(files, t, t1, v.ibits, d, name, i, g, flags);
    }
  }

  /** sys_open.  O_CREAT is bit 2 of `flags`; `busy` is the write_deny flag of the inode found. */
  method Open(v: Vol, files: seq<Slot>, fds: seq<int>, ghost owner: Owner, ghost t: Tree, path: string, flags: nat,
      busy: bool)
    returns (r: Result, v1: Vol, files1: seq<Slot>, fds1: seq<int>, ghost owner1: Owner, ghost t1: Tree, ghost g: nat,
             ghost i: nat)
    requires FsOk(v, owner, t) && FilesOpen(files, t) && |fds| == 8 && Searchable(path) && flags <= 7
    ensures r.Returns() <==> OpenReturns(v, files, t, path, flags)
    ensures !r.Returns() ==> OpenFails(v, files, t, path, flags, r)
    ensures r.Returns() ==> OpenDone(t, v.ibits, files, fds, path, flags, busy, r, t1, files1, fds1, g, i)
    ensures r.Returns() ==> OpenKeeps(v, owner, t, path, flags, v1, owner1, t1, files1, fds1, i)
    ensures r == Beyond(StaleInode) ==> DiskOk(v1, owner1, t1) && StaleLeft(v1)
  {
    r, v1, files1, fds1, owner1, t1, g, i := Err, v, files, fds, owner, t, 0, 0;
    if path[|path| - 1] == '/' {
      return;
    }
    var spot, whole, name := WhereNew(v, owner, t, path);
    if spot.DirAt? || !whole || (spot.Missing? && flags < 4) || (spot.FileAt? && flags >= 4) {
      return;
    }
    if spot.Missing? {
      r, v1, files1, fds1, owner1, t1, g, i := OpenMissing(v, files, fds, owner, t, path, flags, spot.dir);
      SlotIsOne(files, g);
      CreateNotBusy(t, v.ibits, files, fds, path, flags, busy, r, t1, files1, fds1, g, i);
    } else {
      FileNamed(t, Components(path));
      i := spot.ino;
      r, files1, fds1, g := OpenOld(files, fds, spot.ino, flags, busy);
      if spot.dir != 0 {
        v1 := v.(kept := v.kept + {spot.dir});
      }
      LeftOpenOk(v, v1, owner, t, spot.dir);
    }
  }

  /** The write_deny flag does not matter when a file is made. */
  lemma CreateNotBusy(t: Tree, ibits: seq<bool>, files: seq<Slot>, fds: seq<int>, path: string, flags: nat, busy: bool,
                      r: Result, t1: Tree, files1: seq<Slot>, fds1: seq<int>, g: nat, i: nat)
    requires 4 <= flags
    ensures OpenDone(t, ibits, files, fds, path, flags, false, r, t1, files1, fds1, g, i) <==>
            OpenDone(t, ibits, files, fds, path, flags, busy, r, t1, files1, fds1, g, i)
  {
  }

  /** The directories that are left open: sys_open of a file that is there does not close its directory,
      even if there is no slot for the file.  The root is open anyway. */
  ghost function LeftOpen(v: Vol, t: Tree, path: string, flags: nat): (kept: set<nat>) {
    if CanOpen(t, path, flags) && flags < 4 && Find(t, Components(path)).dir != 0
      then v.kept + {Find(t, Components(path)).dir}
    else v.kept
  }

  lemma LeftOpenOk(v: Vol, v1: Vol, owner: Owner, t: Tree, d: nat)
    requires FsOk(v, owner, t) && d in t.imgs && v1 == v.(kept := if d == 0 then v.kept else v.kept + {d})
    ensures FsOk(v1, owner, t)
  {
    forall c | c in v1.kept ensures KeptOk(t, c) {
      assert c in v.kept ==> KeptOk(t, c);
    }
    forall c | c in v1.stale ensures StaleOk(v1, t, c) {
      assert StaleOk(v, t, c);
    }
  }

  lemma SlotIsOne(files: seq<Slot>, g: nat)
    requires FirstClosed(files, g)
    ensures forall h: nat :: FirstClosed(files, h) ==> h == g
  {
  }

  lemma NewOpen(files: seq<Slot>, t: Tree, t1: Tree, ibits: seq<bool>, d: nat, name: string, i: nat, g: nat, flags: nat)
    requires FilesOpen(files, t) && NamedAs(t, t1, d, name, i, FT_REGULAR) && BitsOk(ibits, t.live) && g < 32
    requires TreeOk(t) && Leftmost(ibits, 1, i)
    ensures FilesOpen(files[g := Opened(i, 0, flags)], t1) && t1 != t
  {
    assert i !in t.live && i in t1.live;
    ParentsThere(t, i);
  }

  /** Open slots have live regular files. */
  ghost predicate FilesOpen(files: seq<Slot>, t: Tree) {
    |files| == 32 && forall g :: 0 <= g < 32 && files[g].Opened? ==> files[g].ino in t.live && files[g].ino !in t.imgs
  }

  lemma NamedKeepsOpen(files: seq<Slot>, t: Tree, t1: Tree, cs: seq<string>, ibits: seq<bool>, ftype: nat)
    requires FilesOpen(files, t) && Named(t, t1, cs, ibits, ftype) && BitsOk(ibits, t.live)
    ensures FilesOpen(files, t1)
  {
  }

  // ----- sys_write and sys_read

  /** sys_write to an open regular file. */
  method WriteFile(v: Vol, files: seq<Slot>, ghost owner: Owner, ghost t: Tree, g: nat, buf: seq<Byte>)
    returns (r: Result, v1: Vol, files1: seq<Slot>, ghost owner1: Owner)
    requires FsOk(v, owner, t) && FilesOpen(files, t) && g < 32 && files[g].Opened? && |buf| <= 0xc000_0000
    ensures files[g].ino in v.inodes && |v.inodes[files[g].ino].sectors| == 13
    ensures r == if files[g].flag % 4 == 0 || v.inodes[files[g].ino].size + |buf| > 71680 then Err
                 else Outcome(WriteFate(v, v.inodes[files[g].ino], |buf|), |buf|)
    ensures r.Err? ==> v1 == v && files1 == files && owner1 == owner
    ensures r.Ok? ==> FsOk(v1, owner1, t) && v1.g == v.g && FilesOpen(files1, t) && v1.kept == v.kept
                      && v1.stale == v.stale
    ensures r.Ok? ==> files1 == files[g := files[g].(pos := Wrap(v.inodes[files[g].ino].size + |buf| - 1))]
    ensures r.Ok? ==> files[g].ino in Files(v.disk, v.inodes, t)
    ensures r.Ok? ==> Files(v1.disk, v1.inodes, t) ==
                      Files(v.disk, v.inodes, t)[files[g].ino := Files(v.disk, v.inodes, t)[files[g].ino] + buf]
  {
    r, v1, files1, owner1 := Err, v, files, owner;
    var i := files[g].ino;
    assert NodeOk(v.disk, v.inodes[i], t, i);
    if files[g].flag % 4 == 0 || Wrap(v.inodes[i].size + |buf|) > 71680 {
      return;
    }
    var f, pos;
    f, v1, pos, owner1 := AppendTo(v, owner, t, i, buf);
    r := Outcome(f, |buf|);
    if f == Done {
      files1 := files[g := files[g].(pos := pos)];
    }
  }

  // ----- calls as steps

  /** A mounted partition with the table of open files. */
  datatype Fsys = Fsys(vol: Vol, files: seq<Slot>, owner: Owner, tree: Tree)

  /** The rule. */
  ghost predicate FsysOk(s: Fsys) {
    FsOk(s.vol, s.owner, s.tree) && FilesOpen(s.files, s.tree)
  }

  /** What the regular files say. */
  ghost function Texts(s: Fsys): (fs: map<nat, seq<Byte>>) {
    Fs.Files(s.vol.disk, s.vol.inodes, s.tree)
  }

  /** What sys_mkdir does: -1 unless only the last component is missing; otherwise it ends as the inode,
      the block and the name allow, and adds that name and nothing else. */
  ghost predicate MkdirDone(s: Fsys, path: string, r: Result, s1: Fsys) {
    var cs := Components(path);
    && (r.Err? <==> !NewName(s.tree, cs))
    && (NewName(s.tree, cs) ==> Place(s.vol, s.tree, Find(s.tree, cs).dir)
                                && r == Outcome(MakeFate(s.vol, s.tree, Find(s.tree, cs).dir), 0))
    && (r.Err? ==> s1 == s)
    && (r.Ok? ==> s1.files == s.files && s1.vol.g == s.vol.g && Texts(s1) == Texts(s)
                  && Named(s.tree, s1.tree, cs, s.vol.ibits, FT_DIRECTORY))
    && (r.Ok? ==> MadeListed(s.vol, s1.vol))
    && (r == Beyond(StaleInode) ==> DiskOk(s1.vol, s1.owner, s1.tree) && StaleLeft(s1.vol))
  }

  /** What sys_rmdir does: it takes an empty directory away, with its name unless the path ends in a dot. */
  ghost predicate RmdirDone(s: Fsys, path: string, r: Result, s1: Fsys) {
    && 0 in s.tree.imgs
    && var cs := Components(path);
       var spot := Find(s.tree, cs);
       && (r.Stopped? <==> spot.DirAt? && spot.ino == 0)
       && (r.Ok? <==> spot.DirAt? && EmptyDir(s.tree, spot.ino) && PlainEnd(cs)) && (r.Ok? ==> r == Ok(0))
       && (r.Beyond? <==> spot.DirAt? && EmptyDir(s.tree, spot.ino) && !PlainEnd(cs))
       && (r.Beyond? ==> r.why == NameStays && NameLeft(s1.vol, s.tree, spot.ino))
       && (r.Err? ==> s1 == s)
       && (r.Ok? ==> s1.files == s.files && s1.vol.g == s.vol.g && Texts(s1) == Texts(s)
                     && Unnamed(s.tree, s1.tree, spot.ino))
       && (r.Ok? ==> GoneListed(s.vol, s1.vol, spot.ino))
  }

  /** What sys_unlink does: it takes the first regular file on the path away, unless it is open. */
  ghost predicate UnlinkDone(s: Fsys, path: string, r: Result, s1: Fsys) {
    && 0 in s.tree.imgs && !r.Beyond?
    && var spot := Find(s.tree, Components(path));
       && (r.Stopped? <==> spot.DirAt? && spot.ino == 0)
       && (r.Ok? <==> spot.FileAt? && !InUse(s.files, spot.ino)) && (r.Ok? ==> r == Ok(0))
       && (r.Err? ==> s1 == s)
       && (r.Ok? ==> s1.files == s.files && s1.vol.g == s.vol.g && Texts(s1) == Texts(s) - {spot.ino}
                     && Unnamed(s.tree, s1.tree, spot.ino))
       && (r.Ok? ==> s1.vol.kept == s.vol.kept && s1.vol.stale == s.vol.stale)
  }

  /** What sys_open does, in slot `g`, with inode `i`. */
  ghost predicate Opens(s: Fsys, fds: seq<int>, path: string, flags: nat, busy: bool, r: Result, s1: Fsys,
      fds1: seq<int>, g: nat, i: nat) {
    && (r.Returns() <==> OpenReturns(s.vol, s.files, s.tree, path, flags))
    && (!r.Returns() ==> OpenFails(s.vol, s.files, s.tree, path, flags, r))
    && (r.Returns() ==>
          && OpenDone(s.tree, s.vol.ibits, s.files, fds, path, flags, busy, r, s1.tree, s1.files, fds1, g, i)
          && s1.vol.g == s.vol.g && Texts(s1) == (if s1.tree == s.tree then Texts(s) else Texts(s)[i := []])
          && (s1.tree == s.tree ==> s1.vol == s.vol.(kept := LeftOpen(s.vol, s.tree, path, flags))
                                    && s1.owner == s.owner)
          && (s1.tree != s.tree ==> s1.vol.kept == s.vol.kept && s1.vol.stale == s.vol.stale))
    && (r == Beyond(StaleInode) ==> DiskOk(s1.vol, s1.owner, s1.tree) && StaleLeft(s1.vol))
  }

  /** A descriptor of an open regular file. */
  predicate OpenFd(files: seq<Slot>, fds: seq<int>, fd: nat) {
    |files| == 32 && |fds| == 8 && 3 <= fd < 8 && 0 <= fds[fd] < 32 && files[fds[fd]].Opened?
  }

  /** What sys_close of a regular file does. */
  ghost predicate CloseDone(s: Fsys, fds: seq<int>, fd: nat, s1: Fsys, fds1: seq<int>) {
    OpenFd(s.files, fds, fd) && s1 == s.(files := s.files[fds[fd] := Closed]) && fds1 == fds[fd := -1]
  }

  /** What sys_write through slot `g` does: -1 if the file is not open for writing or would get too long;
      otherwise it ends as the blocks allow, and appends to this file and to no other. */
  ghost predicate WroteDone(s: Fsys, g: nat, buf: seq<Byte>, r: Result, s1: Fsys) {
    && g < |s.files| && s.files[g].Opened? && s.files[g].ino in s.vol.inodes && s.vol.g.blocks <= |s.vol.bits|
    && var slot := s.files[g];
       var ino := s.vol.inodes[slot.ino];
       && |ino.sectors| == 13 && slot.ino in Texts(s)
       && r == (if slot.flag % 4 == 0 || ino.size + |buf| > 71680 then Err
          else Outcome(WriteFate(s.vol, ino, |buf|), |buf|))
       && (r.Err? ==> s1 == s)
       && (r.Ok? ==>
             && s1.tree == s.tree && s1.vol.g == s.vol.g && s1.vol.kept == s.vol.kept && s1.vol.stale == s.vol.stale
             && s1.files == s.files[g := slot.(pos := Wrap(ino.size + |buf| - 1))]
             && Texts(s1) == Texts(s)[slot.ino := Texts(s)[slot.ino] + buf])
  }

  /** Slot `g` has a position within its file, from where `count` bytes can be asked for. */
  predicate CanRead(s: Fsys, g: nat, count: nat) {
    && g < |s.files| && s.files[g].Opened? && s.files[g].ino in s.vol.inodes
    && s.files[g].pos <= s.vol.inodes[s.files[g].ino].size && s.files[g].pos + count < 0x1_0000_0000
  }

  /** What sys_read through slot `g` does: the next bytes of the file, fewer at its end. */
  ghost predicate ReadDone(s: Fsys, g: nat, count: nat, r: ReadResult, s1: Fsys) {
    && g < |s.files| && s.files[g].Opened? && s.files[g].ino in Texts(s) && s.files[g].pos <= |Texts(s)[s.files[g].ino]|
    && var slot := s.files[g];
       var text := Texts(s)[slot.ino];
       var n := if slot.pos + count > |text| then |text| - slot.pos else count;
       && (r.AtEnd? <==> slot.pos == |text| && 0 < count)
       && (r.ReadHalted? <==> !r.AtEnd? && (slot.pos + n) / 512 >= 139)
       && (r.Bytes? ==> r.bytes == text[slot.pos..slot.pos + n])
       && s1 == s.(files := s.files[g := slot.(pos := if r.Bytes? then slot.pos + n else slot.pos)])
  }

  // ----- the kernel's view

  /** The part of a task that the file system calls use. */
  class Task {
    var fds: seq<int>
    var cwd: nat

    ghost predicate Valid()
      reads this
    {
      |fds| == 8
    }

    constructor ()
      ensures Valid() && cwd == 0 && fds == [0, 1, 2, -1, -1, -1, -1, -1]
    {
      fds := [0, 1, 2, -1, -1, -1, -1, -1];
      cwd := 0;
    }
  }

  /** A mounted partition with the table of open files.  What a call that does not come back, or that
      leaves the rule, does to the fields is promised only where the contract says so. */
  class Mount {
    var vol: Vol
    var files: seq<Slot>
    ghost var owner: Owner
    ghost var tree: Tree

    ghost function Now(): (s: Fsys)
      reads this
    {
      Fsys(vol, files, owner, tree)
    }

    ghost predicate Valid()
      reads this
    {
      FsysOk(Now())
    }

    constructor (vol: Vol, ghost owner: Owner, ghost tree: Tree)
      requires FsOk(vol, owner, tree)
      ensures Valid() && Now() == Fsys(vol, seq(32, _ => Closed), owner, tree)
    {
      this.vol, this.owner, this.tree := vol, owner, tree;
      files := seq(32, _ => Closed);
    }

    method SysMkdir(path: string) returns (r: Result)
      requires Valid() && Searchable(path)
      modifies this
      ensures MkdirDone(old(Now()), path, r, Now()) && (r.Returns() ==> Valid())
    {
      var v;
      ghost var o, t;
      r, v, o, t := Mkdir(vol, owner, tree, path);
      if r.Ok? {
        NamedKeepsOpen(files, tree, t, Components(path), vol.ibits, FT_DIRECTORY);
      }
      vol, owner, tree := v, o, t;
    }

    method SysRmdir(path: string) returns (r: Result)
      requires Valid() && Searchable(path)
      modifies this
      ensures RmdirDone(old(Now()), path, r, Now()) && (r.Returns() ==> Valid())
    {
      var v;
      ghost var o, t;
      r, v, o, t := Rmdir(vol, owner, tree, path);
      vol, owner, tree := v, o, t;
    }

    method SysUnlink(path: string) returns (r: Result)
      requires Valid() && Searchable(path)
      modifies this
      ensures UnlinkDone(old(Now()), path, r, Now()) && (r.Returns() ==> Valid())
    {
      var v;
      ghost var o, t;
      r, v, o, t := Unlink(vol, files, owner, tree, path);
      vol, owner, tree := v, o, t;
    }

    method SysOpen(task: Task, path: string, flags: nat, busy: bool) returns (r: Result, ghost g: nat, ghost i: nat)
      requires Valid() && task.Valid() && Searchable(path) && flags <= 7
      modifies this, task`fds
      ensures Opens(old(Now()), old(task.fds), path, flags, busy, r, Now(), task.fds, g, i)
      ensures r.Returns() ==> Valid() && task.Valid()
    {
      var v, fs, fds;
      ghost var o, t;
      r, v, fs, fds, o, t, g, i := Open(vol, files, task.fds, owner, tree, path, flags, busy);
      vol, files, owner, tree, task.fds := v, fs, o, t, fds;
    }

    /** sys_close of a regular file. */
    method SysClose(task: Task, fd: nat)
      requires Valid() && task.Valid() && OpenFd(files, task.fds, fd)
      modifies this`files, task`fds
      ensures Valid() && task.Valid() && CloseDone(old(Now()), old(task.fds), fd, Now(), task.fds)
    {
      files := files[task.fds[fd] := Closed];
      task.fds := task.fds[fd := -1];
    }

    /** sys_write to a regular file. */
    method SysWrite(task: Task, fd: nat, buf: seq<Byte>) returns (r: Result)
      requires Valid() && task.Valid() && OpenFd(files, task.fds, fd) && |buf| <= 0xc000_0000
      modifies this
      ensures WroteDone(old(Now()), task.fds[fd], buf, r, Now()) && (r.Returns() ==> Valid())
    {
      var v, fs;
      ghost var o;
      r, v, fs, o := WriteFile(vol, files, owner, tree, task.fds[fd], buf);
      vol, files, owner := v, fs, o;
    }

    /** sys_read from a regular file. */
    method SysRead(task: Task, fd: nat, count: nat) returns (r: ReadResult)
      requires Valid() && task.Valid() && OpenFd(files, task.fds, fd) && CanRead(Now(), task.fds[fd], count)
      modifies this`files
      ensures Valid() && ReadDone(old(Now()), task.fds[fd], count, r, Now())
    {
      var g := task.fds[fd];
      var i := files[g].ino;
      assert NodeOk(vol.disk, vol.inodes[i], tree, i);
      var pos;
      r, pos := FileRead(vol.disk, vol.inodes[i], files[g].pos, count);
      files := files[g := files[g].(pos := pos)];
    }

    method SysChdir(task: Task, path: string) returns (r: Result)
      requires Valid() && Searchable(path)
      modifies task`cwd
      ensures 0 in tree.imgs && r == if Find(tree, Components(path)).DirAt? then Ok(0) else Err
      ensures task.cwd == if r.Ok? then Find(tree, Components(path)).ino else old(task.cwd)
    {
      var ok, cwd := Chdir(vol, owner, tree, task.cwd, path);
      task.cwd := cwd;
      r := if ok then Ok(0) else Err;
    }

    method SysGetcwd(task: Task, size: nat) returns (buf: string)
      requires Valid() && task.cwd in tree.imgs && |Show(PathOf(tree, task.cwd))| < size
      requires |Show(PathOf(tree, task.cwd))| < 512
      ensures buf == Show(PathOf(tree, task.cwd))
    {
      buf := Getcwd(vol, owner, tree, task.cwd, size);
    }
  }

  // ----- runs

  /** A call of the file system. */
  datatype Call =
    | CallOpen(path: string, flags: nat, busy: bool)
    | CallClose(fd: nat)
    | CallWrite(fd: nat, buf: seq<Byte>)
    | CallUnlink(path: string)
    | CallMkdir(path: string)
    | CallRmdir(path: string)
    | CallChdir(path: string)

  /** The file system, and the descriptors and the working directory of the task that makes the calls. */
  datatype Moment = Moment(fs: Fsys, fds: seq<int>, cwd: nat)

  ghost predicate MomentOk(s: Moment) {
    FsysOk(s.fs) && |s.fds| == 8
  }

  /** A call that makes sense: a path that can be searched, or a descriptor of an open file. */
  predicate CanCall(s: Moment, c: Call) {
    match c
    case CallOpen(path, flags, busy) => Searchable(path) && flags <= 7
    case CallClose(fd) => OpenFd(s.fs.files, s.fds, fd)
    case CallWrite(fd, buf) => OpenFd(s.fs.files, s.fds, fd) && |buf| <= 0xc000_0000
    case _ => Searchable(c.path)
  }

  /** What a call does. */
  ghost predicate Called(s: Moment, c: Call, r: Result, s1: Moment)
    requires CanCall(s, c)
  {
    match c
    case CallOpen(path, flags, busy) =>
      s1.cwd == s.cwd && exists g: nat, i: nat :: Opens(s.fs, s.fds, path, flags, busy, r, s1.fs, s1.fds, g, i)
    case CallClose(fd) => r == Ok(0) && s1.cwd == s.cwd && CloseDone(s.fs, s.fds, fd, s1.fs, s1.fds)
    case CallWrite(fd, buf) => s1.cwd == s.cwd && s1.fds == s.fds && WroteDone(s.fs, s.fds[fd], buf, r, s1.fs)
    case CallUnlink(path) => s1.cwd == s.cwd && s1.fds == s.fds && UnlinkDone(s.fs, path, r, s1.fs)
    case CallMkdir(path) => s1.cwd == s.cwd && s1.fds == s.fds && MkdirDone(s.fs, path, r, s1.fs)
    case CallRmdir(path) => s1.cwd == s.cwd && s1.fds == s.fds && RmdirDone(s.fs, path, r, s1.fs)
    case CallChdir(path) =>
      && s1.fs == s.fs && s1.fds == s.fds && 0 in s.fs.tree.imgs
      && var spot := Find(s.fs.tree, Components(path));
         r == (if spot.DirAt? then Ok(0) else Err) && s1.cwd == if spot.DirAt? then spot.ino else s.cwd
  }

  /** A step of a run: the call, or nothing if the call makes no sense. */
  ghost predicate Stepped(s: Moment, c: Call, r: Result, s1: Moment) {
    if CanCall(s, c) then Called(s, c, r, s1) else r == Err && s1 == s
  }

  ghost function Now(m: Mount, task: Task): (s: Moment)
    reads m, task
  {
    Moment(m.Now(), task.fds, task.cwd)
  }

  /** One call; a call that makes no sense is not made. */
  method Step(m: Mount, task: Task, c: Call) returns (r: Result)
    requires MomentOk(Now(m, task))
    modifies m, task
    ensures Stepped(old(Now(m, task)), c, r, Now(m, task))
    ensures r.Returns() ==> MomentOk(Now(m, task))
  {
    r := Err;
    match c
    case CallOpen(path, flags, busy) =>
      if Searchable(path) && flags <= 7 {
        ghost var g, i;
        r, g, i := m.SysOpen(task, path, flags, busy);
      }
    case CallClose(fd) =>
      if OpenFd(m.files, task.fds, fd) {
        m.SysClose(task, fd);
        r := Ok(0);
      }
    case CallWrite(fd, buf) =>
      if OpenFd(m.files, task.fds, fd) && |buf| <= 0xc000_0000 {
        r := m.SysWrite(task, fd, buf);
      }
    case CallUnlink(path) =>
      if Searchable(path) {
        r := m.SysUnlink(path);
      }
    case CallMkdir(path) =>
      if Searchable(path) {
        r := m.SysMkdir(path);
      }
    case CallRmdir(path) =>
      if Searchable(path) {
        r := m.SysRmdir(path);
      }
    case CallChdir(path) =>
      if Searchable(path) {
        r := m.SysChdir(task, path);
      }
  }

  /** The rule holds in state `k` of a run. */
  ghost predicate RuleAt(trace: seq<Moment>, k: nat) {
    k < |trace| && MomentOk(trace[k])
  }

  /** State `k` of a run leads to the next one by its call. */
  ghost predicate StepAt(trace: seq<Moment>, calls: seq<Call>, results: seq<Result>, k: nat) {
    k < |calls| && k < |results| && k + 1 < |trace| && Stepped(trace[k], calls[k], results[k], trace[k + 1])
  }

  /** The rule holds in the first `n` states, each of which follows from the one before by its call. */
  ghost predicate Follows(trace: seq<Moment>, calls: seq<Call>, results: seq<Result>, n: nat) {
    && |results| <= |calls| && |trace| == |results| + 1 && n <= |trace|
    && (forall k: nat {:trigger RuleAt(trace, k)} :: k < n ==> RuleAt(trace, k))
    && (forall k: nat {:trigger StepAt(trace, calls, results, k)} :: k < |results| ==> StepAt(trace, calls, results, k))
  }

  /** A run so far: all calls came back and the rule holds throughout. */
  ghost predicate Running(trace: seq<Moment>, calls: seq<Call>, results: seq<Result>) {
    && |results| <= |calls| && Follows(trace, calls, results, |results| + 1)
    && forall k :: 0 <= k < |results| ==> results[k].Returns()
  }

  /** A run: all calls come back and the rule holds throughout; or all but the last one, which does not
      come back or leaves the rule. */
  ghost predicate IsRunOf(trace: seq<Moment>, calls: seq<Call>, results: seq<Result>) {
    || (|results| == |calls| && Running(trace, calls, results))
    || (0 < |results| && Follows(trace, calls, results, |results|) && !results[|results| - 1].Returns() &&
        forall k :: 0 <= k < |results| - 1 ==> results[k].Returns())
  }

  /** One more call. */
  lemma FollowsMore(trace: seq<Moment>, calls: seq<Call>, results: seq<Result>, r: Result, s: Moment)
    requires |results| < |calls| && Follows(trace, calls, results, |results| + 1)
    requires Stepped(trace[|results|], calls[|results|], r, s)
    ensures Follows(trace + [s], calls, results + [r], |results + [r]|)
    ensures MomentOk(s) ==> Follows(trace + [s], calls, results + [r], |results + [r]| + 1)
  {
    var trace1, results1 := trace + [s], results + [r];
    forall k: nat | k < |results1| ensures StepAt(trace1, calls, results1, k) {
      assert k < |results| ==> StepAt(trace, calls, results, k);
    }
    forall k: nat | k < |trace| ensures RuleAt(trace1, k) {
      assert RuleAt(trace, k);
    }
  }

  lemma RunsOn(trace: seq<Moment>, calls: seq<Call>, results: seq<Result>, r: Result, s: Moment)
    requires |results| < |calls| && Running(trace, calls, results) && Stepped(trace[|results|], calls[|results|], r, s)
    requires r.Returns() ==> MomentOk(s)
    ensures if r.Returns() then Running(trace + [s], calls, results + [r])
            else IsRunOf(trace + [s], calls, results + [r])
  {
    FollowsMore(trace, calls, results, r, s);
  }

  /** Any run of calls keeps the rule, up to a call that does not come back or leaves it. */
  method Run(m: Mount, task: Task, calls: seq<Call>) returns (results: seq<Result>, ghost trace: seq<Moment>)
    requires MomentOk(Now(m, task))
    modifies m, task
    ensures IsRunOf(trace, calls, results)
    ensures trace[0] == old(Now(m, task)) && trace[|results|] == Now(m, task)
  {
    results, trace := [], [Now(m, task)];
    assert RuleAt(trace, 0);
    while |results| < |calls|
      invariant Running(trace, calls, results)
      invariant trace[0] == old(Now(m, task)) && trace[|results|] == Now(m, task)
    {
      assert RuleAt(trace, |results|);
      var r := Step(m, task, calls[|results|]);
      RunsOn(trace, calls, results, r, Now(m, task));
      results, trace := results + [r], trace + [Now(m, task)];
      if !r.Returns() {
        return;
      }
    }
  }

  /** The state of a fresh partition before the first call. */
  ghost predicate Fresh(s: Moment, start: nat, sectors: nat)
    requires 620 <= sectors
  {
    var l := LayoutOf(start, sectors);
    && s.fs.vol.g == Geometry(l.table, l.dataStart, l.blocks) && |s.fs.vol.bits| == 4096 * Bitmaps(l.blocks)
    && FreshBits(s.fs.vol.bits, l.blocks, |s.fs.vol.bits|)
    && s.fs.vol.kept == {} && s.fs.vol.stale == map[]
    && s.fs.tree == RootTree() && Texts(s.fs) == map[] && s.fs.files == seq(32, _ => Closed)
    && s.fds == [0, 1, 2, -1, -1, -1, -1, -1] && s.cwd == 0
  }

  /** Every run from a fresh partition. */
  method RunFromFormat(disk: Disk, start: nat, sectors: nat, super: Sector, calls: seq<Call>)
    returns (m: Mount, task: Task, results: seq<Result>, ghost trace: seq<Moment>)
    requires 620 <= sectors && start + sectors <= 0x1_0000_0000 && LayoutOf(start, sectors).blocks < 0x26_0000
    ensures IsRunOf(trace, calls, results) && Fresh(trace[0], start, sectors) && trace[|results|] == Now(m, task)
  {
    var v;
    ghost var owner;
    v, owner := FormatPartition(disk, start, sectors, super);
    m := new Mount(v, owner, RootTree());
    task := new Task();
    results, trace := Run(m, task, calls);
  }

  // ----- what the rule says

  /** Nothing is shared, lost, or freed while it is in use: addresses in live inodes are pairwise
      distinct, and the data blocks they hold are exactly the marked ones. */
  lemma BlocksExact(v: Vol, owner: Owner, t: Tree, i: nat, k: nat, j: nat, m: nat, l: nat)
    requires FsOk(v, owner, t) && i in v.inodes && j in v.inodes && k <= 140 && m <= 140
    requires v.g.dataStart <= l < v.g.dataStart + v.g.blocks
    ensures |v.inodes[i].sectors| == 13 == |v.inodes[j].sectors| && l - v.g.dataStart < |v.bits|
    ensures Addr(v.disk, v.inodes[i], k) == Addr(v.disk, v.inodes[j], m) != 0 ==> i == j && k == m
    ensures Addr(v.disk, v.inodes[i], k) != 0 ==>
            v.g.dataStart <= Addr(v.disk, v.inodes[i], k) < v.g.dataStart + v.g.blocks
    ensures v.bits[l - v.g.dataStart] <==> exists c, n :: c in v.inodes && 0 <= n <= 140
                                                          && Addr(v.disk, v.inodes[c], n) == l
  {
    if Addr(v.disk, v.inodes[i], k) == Addr(v.disk, v.inodes[j], m) != 0 {
      OwnedOnce(v.disk, v.inodes, owner, i, k, j, m);
    }
    MarkedExactly(v.g, v.disk, v.inodes, v.bits, owner, l);
  }

  /** Every live inode but the root is named by exactly one entry other than "." and "..", which is of
      the right type; it lies in the directory that ".." of a named directory leads to; going up from
      any directory ends at the root; and the inode bitmap marks exactly the live inodes. */
  lemma NamesFormTree(v: Vol, owner: Owner, t: Tree, i: nat)
    requires FsOk(v, owner, t) && i < 4096
    ensures |v.ibits| == 4096 && (v.ibits[i] <==> i in v.inodes)
    ensures i in v.inodes && i != 0 ==>
              exists d: nat, k: nat, j: nat :: Names(t, d, k, j, i) && forall d1: nat, k1: nat,
                j1: nat :: Names(t, d1, k1, j1, i) ==> d1 == d && k1 == k && j1 == j
    ensures i in t.imgs ==> Up(t, i)[|Up(t, i)| - 1] == 0
    ensures i in t.imgs && i != 0 ==> i in t.place && Grid(t.imgs[i]) && t.imgs[i][0][1].ino == t.place[i].0
  {
    if i in v.inodes && i != 0 {
      assert NamedOk(t, i);
      var d, k, j := t.place[i].0, t.place[i].1, t.place[i].2;
      assert Names(t, d, k, j, i);
      forall d1: nat, k1: nat, j1: nat | Names(t, d1, k1, j1, i) ensures d1 == d && k1 == k && j1 == j {
        NamedByOne(t, d, k, j, d1, k1, j1, i);
      }
    }
    if i in t.imgs && i != 0 {
      Parent(t, i);
    }
  }

  /** sys_unlink takes away a file in front of the end of the path exactly when some proper prefix of the
      path names a regular file. */
  lemma UnlinkStopsEarly(t: Tree, cs: seq<string>)
    requires TreeOk(t)
    ensures Find(t, cs).FileAt? && Find(t, cs).depth < |cs| <==>
            exists k :: 0 <= k < |cs| && Find(t, cs[..k]).FileAt? && Find(t, cs[..k]).depth == k
  {
    if Find(t, cs).FileAt? && Find(t, cs).depth < |cs| {
      WalkDepth(t, cs, 0, 0, 0);
      FilePrefix(t, cs, 0, 0, 0);
    }
    if k :| 0 <= k < |cs| && Find(t, cs[..k]).FileAt? && Find(t, cs[..k]).depth == k {
      WalkStopsAtFile(t, cs[..k], cs[k..]);
      assert cs[..k] + cs[k..] == cs;
    }
  }

  /** A new name may go to the third slot of a fresh root. */
  lemma RootSlot(e: Entry)
    requires GoodName(e.name) && e.ino != 0
    ensures CanAdd(RootTree(), 0, 0, 2, e) && 0 in RootTree().depth
  {
    var t := RootTree();
    RootTreeOk();
    assert DirOk(t, 0);
    forall o | o in Listing(t.imgs[0]) ensures o.name != e.name {
      var k, j := ListedAt(t, 0, o);
    }
  }

  /** The tree with the one file "/f", inode 1. */
  function FileTree(): (t: Tree) {
    AddFile(RootTree(), 0, 0, 2, Entry("f", 1, FT_REGULAR))
  }

  /** sys_unlink of "/f/x" takes "/f" away, although "/f" has nothing below it. */
  lemma UnlinkBehindFile()
    ensures TreeOk(FileTree()) && Components("/f/x") == ["f", "x"] && Find(FileTree(), ["f", "x"]) == FileAt(0, 1, 1)
  {
    var t, e := FileTree(), Entry("f", 1, FT_REGULAR);
    RootSlot(e);
    AddFileOk(RootTree(), 0, 0, 2, e);
    assert t.imgs[0][0][2] == e;
    NameFound(t, 1);
    assert Walk(t, ["f", "x"], 0, 0, 0) == FileAt(0, 1, 1);
    TwoComponents("f", "x", "/f/x");
  }

  /** The tree with the one directory "/d", inode 1, which is empty. */
  function DirTree(): (t: Tree)
    requires 0 in RootTree().depth
  {
    AddDir(RootTree(), 0, 0, 2, Entry("d", 1, FT_DIRECTORY))
  }

  /** sys_rmdir of "/d/." frees "/d", and its name stays. */
  lemma RmdirDot()
    ensures 0 in RootTree().depth && TreeOk(DirTree()) && Components("/d/.") == ["d", "."]
    ensures Find(DirTree(), ["d", "."]) == DirAt(1, 1) && EmptyDir(DirTree(), 1) && !PlainEnd(["d", "."])
  {
    var e := Entry("d", 1, FT_DIRECTORY);
    RootSlot(e);
    AddDirOk(RootTree(), 0, 0, 2, e);
    var t := DirTree();
    assert t.imgs[0][0][2] == e && t.imgs[1] == NewDirRows(1, 0);
    NewDirProper(1, 0);
    NameFound(t, 1);
    assert DirOk(t, 1);
    var dot := t.imgs[1][0][0];
    ListingMember(t.imgs[1], dot);
    LookupOnly(t, 1, dot);
    assert Walk(t, ["d", "."], 2, 1, 1) == DirAt(1, 1);
    assert Walk(t, ["d", "."], 1, 0, 1) == DirAt(1, 1);
    TwoComponents("d", ".", "/d/.");
  }

  lemma TwoComponents(a: string, b: string, path: string)
    requires Piece(a) && Piece(b) && path == "/" + a + "/" + b
    ensures Components(path) == [a, b]
  {
    assert Join([a, b]) == path by {
      assert [a, b][..1] == [a] && [a][..0] == [];
      assert Join([a]) == "/" + a;
    }
    ShowThenCut([a, b]);
  }

  // ----- the list of open inodes

  /** With the inodes that inode_open finds, blocks are held once and marked exactly. */
  ghost predicate SeenRight(s: Moment) {
    exists owner :: BlocksOk(AsOpened(s.fs.vol), owner)
  }

  /** A call that gives out a number again while the list of open inodes has another inode with it leaves a
      state without the rule, in which the blocks are not right for whoever opens an inode. */
  lemma StaleCall(s: Moment, c: Call, s1: Moment)
    requires CanCall(s, c) && Called(s, c, Beyond(StaleInode), s1)
    ensures StaleLeft(s1.fs.vol) && !MomentOk(s1) && !SeenRight(s1)
  {
    StaleBreaks(s1.fs.vol, s1.fs.owner, s1.fs.tree);
    if owner :| BlocksOk(AsOpened(s1.fs.vol), owner) {
      SeenTwice(s1.fs.vol, s1.fs.owner, owner);
    }
  }

  /** A run in which every call comes back to its caller keeps the rule exactly if there is no such call, and
      as long as it does, blocks are right for whoever opens an inode. */
  lemma RunKeeps(trace: seq<Moment>, calls: seq<Call>, results: seq<Result>)
    requires IsRunOf(trace, calls, results)
    requires forall k :: 0 <= k < |results| ==> results[k].Returns() || results[k] == Beyond(StaleInode)
    ensures (forall k: nat :: k < |trace| ==> RuleAt(trace, k)) <==>
            forall k :: 0 <= k < |results| ==> results[k] != Beyond(StaleInode)
    ensures (forall k: nat :: k < |trace| ==> SeenRight(trace[k])) <==>
            forall k :: 0 <= k < |results| ==> results[k] != Beyond(StaleInode)
  {
    if k :| 0 <= k < |results| && results[k] == Beyond(StaleInode) {
      assert k == |results| - 1 && StepAt(trace, calls, results, k);
      StaleCall(trace[k], calls[k], trace[k + 1]);
      assert !RuleAt(trace, k + 1) && !SeenRight(trace[k + 1]);
    } else {
      forall k: nat | k < |trace| ensures SeenRight(trace[k]) {
        assert RuleAt(trace, k);
        OpenedRight(trace[k].fs.vol, trace[k].fs.owner, trace[k].fs.tree);
      }
    }
  }

  // ----- the working directory

  /** A call keeps the working directory of a task in the tree unless it takes that directory away. */
  lemma CwdStays(s: Moment, c: Call, r: Result, s1: Moment)
    requires MomentOk(s) && CanCall(s, c) && Called(s, c, r, s1) && r.Returns() && s.cwd in s.fs.tree.imgs
    ensures s1.cwd in s1.fs.tree.imgs <==> !(c.CallRmdir? && r.Ok? && Find(s.fs.tree, Components(c.path)).ino == s.cwd)
  {
    if c.CallChdir? {
      WalkDepth(s.fs.tree, Components(c.path), 0, 0, 0);
    }
    if c.CallUnlink? && r.Ok? {
      FileNamed(s.fs.tree, Components(c.path));
    }
  }
}
