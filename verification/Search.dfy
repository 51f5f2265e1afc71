/**
 search_file, sys_getcwd and sys_chdir (fs/fs.c): from a path to an inode and back.
 */
module Search {
  import opened Sectors
  import opened Volume
  import opened InodeTable
  import opened Dir
  import opened Tree
  import opened Walks
  import opened Path
  import opened Fs

  // ----- search_file

  /** The type of an entry tells whether it names a directory. */
  lemma KindOf(t: Tree, d: nat, e: Entry)
    requires TreeOk(t) && d in t.imgs && e in Listing(t.imgs[d])
    ensures e.ftype == FT_DIRECTORY <==> e.ino in t.imgs
    ensures e.ftype == FT_DIRECTORY || e.ftype == FT_REGULAR
  {
    assert DirOk(t, d);
    var k, j := ListedAt(t, d, e);
    assert EntryOk(t, d, k, j);
    if d != 0 {
      Parent(t, d);
    }
  }

  /** search_dir_entry in an open directory. */
  method SearchIn(v: Vol, ghost owner: Owner, ghost t: Tree, d: nat, name: string) returns (r: Found)
    requires FsOk(v, owner, t) && d in t.imgs && name != ""
    ensures r == Lookup(Listing(t.imgs[d]), name)
    ensures r.Some? ==> (r.e.ftype == FT_DIRECTORY <==> r.e.ino in t.imgs)
                        && (r.e.ftype == FT_DIRECTORY || r.e.ftype == FT_REGULAR)
  {
    assert DirOk(t, d) && NodeOk(v.disk, v.inodes[d], t, d);
    NotStale(v, t, d);
    var ino := InodeOpen(v, d);
    r := Dir.Search(v.disk, ino, name);
    if r.Some? {
      LookupOnly(t, d, r.e);
      KindOf(t, d, r.e);
    }
  }

  lemma Associate(a: string, b: string, c: string)
    ensures a + b + "/" + c == a + (b + "/" + c)
  {
  }

  lemma {:induction false} JoinAppend(a: seq<string>, b: seq<string>)
    ensures Join(a + b) == Join(a) + Join(b)
    decreases |b|
  {
    if b == [] {
      assert a + b == a;
    } else {
      var n := |b| - 1;
      JoinAppend(a, b[..n]);
      var c := a + b;
      assert c[..|c| - 1] == a + b[..n] && c[|c| - 1] == b[n];
      Associate(Join(a), Join(b[..n]), b[n]);
    }
  }

  lemma {:induction false} CutLength(p: string, cur: string)
    ensures |Join(Cut(p, cur))| <= |p| + |cur| + 1
    decreases |p|
  {
    if p != "" {
      if p[0] == '/' {
        CutLength(p[1..], "");
        JoinAppend(Flush(cur), Cut(p[1..], ""));
        assert cur != "" ==> Flush(cur)[..0] == [] && Join(Flush(cur)) == "/" + cur;
      } else {
        CutLength(p[1..], cur + [p[0]]);
      }
    } else if cur != "" {
      assert Flush(cur)[..0] == [];
    }
  }

  /** The path searched so far is no longer than the path itself. */
  lemma SearchedFits(path: string, k: nat)
    requires path != "" && path[0] == '/' && k <= |Components(path)|
    ensures |Join(Components(path)[..k])| <= |path|
  {
    CutRoot(path);
    CutLength(path[1..], "");
    JoinPrefix(Components(path), k);
  }

  lemma CutRoot(path: string)
    requires path != "" && path[0] == '/'
    ensures Components(path) == Cut(path[1..], "")
  {
  }

  lemma JoinPrefix(cs: seq<string>, k: nat)
    requires k <= |cs|
    ensures |Join(cs[..k])| <= |Join(cs)|
  {
    JoinAppend(cs[..k], cs[k..]);
    assert cs[..k] + cs[k..] == cs;
  }

  lemma RootDots(t: Tree)
    requires TreeOk(t)
    ensures Find(t, []) == DirAt(0, 0) && Find(t, ["."]) == DirAt(0, 0) && Find(t, [".."]) == DirAt(0, 0)
  {
    assert DirOk(t, 0);
    var rows := t.imgs[0];
    ListingMember(rows, rows[0][0]);
    ListingMember(rows, rows[0][1]);
    LookupOnly(t, 0, rows[0][0]);
    LookupOnly(t, 0, rows[0][1]);
  }

  lemma ShortPaths()
    ensures Components("/") == [] && Components("/.") == ["."] && Components("/..") == [".."]
  {
    assert "/"[1..] == "";
    assert "/."[1..] == ".";
    assert "/.."[1..] == "..";
    CutName(".", "");
    CutName("..", "");
    assert "" + "." == "." && "" + ".." == "..";
  }

  /** Every component fits the 16 bytes of the name buffers. */
  predicate Fits(cs: seq<string>) {
    forall k :: 0 <= k < |cs| ==> FitsName(cs[k])
  }

  /** An absolute path that search_file can take: the root, or with something to look for, and with names
      that fit the buffers it copies them to. */
  predicate Searchable(path: string) {
    && path != "" && path[0] == '/' && |path| < 512 && (path == "/" || Components(path) != [])
    && Fits(Components(path))
  }

  lemma NextName(cs: seq<string>, k: nat, name: string, left: seq<string>)
    requires k <= |cs| && cs[k..] == Flush(name) + left && name != ""
    ensures k < |cs| && cs[k] == name && cs[k + 1..] == left && Join(cs[..k + 1]) == Join(cs[..k]) + "/" + name
  {
    assert cs[k..][0] == name && cs[k..][1..] == cs[k + 1..] == left;
    assert cs[..k + 1][..k] == cs[..k];
  }

  /** One round of the loop of search_file: component `k`, looked up in directory `d`. */
  method SearchRound(v: Vol, ghost owner: Owner, ghost t: Tree, d: nat, name: string, ghost cs: seq<string>,
      ghost k: nat, ghost above: nat)
    returns (f: Found)
    requires FsOk(v, owner, t) && d in t.imgs && k < |cs| && cs[k] == name != ""
    ensures f.None? ==> Walk(t, cs, k, above, d) == Missing(d, k + 1)
    ensures f.Some? && f.e.ftype == FT_DIRECTORY ==> f.e.ino in t.imgs
                                                     && Walk(t, cs, k, above, d) == Walk(t, cs, k + 1, d, f.e.ino)
    ensures f.Some? && f.e.ftype != FT_DIRECTORY ==> Walk(t, cs, k, above, d) == FileAt(d, k + 1, f.e.ino)
  {
    f := SearchIn(v, owner, t, d, name);
  }

  /** The loop of search_file. */
  method SearchLoop(v: Vol, ghost owner: Owner, ghost t: Tree, path: string) returns (r: Spot, searched: string)
    requires FsOk(v, owner, t) && Searchable(path) && 0 in t.imgs
    ensures r == Find(t, Components(path))
    ensures !r.DirAt? ==> r.depth <= |Components(path)| && searched == Join(Components(path)[..r.depth])
  {
    ghost var cs := Components(path);
    var above, d := 0, 0;
    searched := "";
    var rest, name := PathParse(path);
    var k := 0;
    assert cs[0..] == cs && cs[..0] == [];
    while name != ""
      invariant k <= |cs| && (name == "" ==> rest == End)
      invariant cs[k..] == Flush(name) + Left(rest)
      invariant d in t.imgs && Find(t, cs) == Walk(t, cs, k, above, d)
      invariant searched == Join(cs[..k])
      decreases |cs| - k
    {
      SearchedFits(path, k);
      assert |searched| < 512;
      NextName(cs, k, name, Left(rest));
      searched := searched + "/" + name;
      var f := SearchRound(v, owner, t, d, name, cs, k, above);
      if f.None? {
        return Missing(d, k + 1), searched;
      }
      name := "";
      if rest.More? {
        rest, name := PathParse(rest.s);
      }
      if f.e.ftype == FT_DIRECTORY {
        above, d := d, f.e.ino;
      } else {
        return FileAt(d, k + 1, f.e.ino), searched;
      }
      k := k + 1;
    }
    r := DirAt(above, d);
  }

  /** search_file: the walk from the root, and the part of the path that was looked at. */
  method SearchFile(v: Vol, ghost owner: Owner, ghost t: Tree, path: string) returns (r: Spot, searched: string)
    requires FsOk(v, owner, t) && Searchable(path)
    ensures 0 in t.imgs && r == Find(t, Components(path))
    ensures !r.DirAt? ==> r.depth <= |Components(path)| && searched == Join(Components(path)[..r.depth])
  {
    if path == "/" || path == "/." || path == "/.." {
      ShortPaths();
      RootDots(t);
      return DirAt(0, 0), "";
    }
    r, searched := SearchLoop(v, owner, t, path);
  }

  // ----- sys_getcwd

  /** get_parent_dir_inode_nr: the second entry of the first block. */
  method ParentNo(v: Vol, ghost owner: Owner, ghost t: Tree, child: nat) returns (up: nat)
    requires FsOk(v, owner, t) && child in t.imgs && child != 0
    ensures child in t.place && up == t.place[child].0 && up in t.imgs
  {
    Parent(t, child);
    assert NodeOk(v.disk, v.inodes[child], t, child);
    NotStale(v, t, child);
    var ino := InodeOpen(v, child);
    FirstInData(v, owner, child);
    assert ino.sectors[0] >= v.g.dataStart;
    assert t.imgs[child][0] == EntriesOf(Read(v.disk, ino.sectors[0]));
    var e := Load(Read(v.disk, ino.sectors[0]), 1);
    assert e.ino < 4096 && e.ftype == FT_DIRECTORY;
    up := e.ino;
  }

  lemma FirstInData(v: Vol, owner: Owner, i: nat)
    requires BlocksOk(v, owner) && i in v.inodes
    ensures v.inodes[i].sectors[0] != 0 ==> v.inodes[i].sectors[0] >= v.g.dataStart
  {
    assert Addr(v.disk, v.inodes[i], 0) == v.inodes[i].sectors[0];
  }

  /** Any slot of the directory above that has the number of a directory is the slot of its name. */
  lemma OnlySlot(t: Tree, child: nat, k: nat, j: nat)
    requires TreeOk(t) && child in t.imgs && child != 0 && k < 12 && j < 21
    ensures NamedOk(t, child) && Grid(t.imgs[t.place[child].0])
    ensures t.imgs[t.place[child].0][k][j].ino == child ==> t.place[child] == (t.place[child].0, k, j)
  {
    Parent(t, child);
    var up := t.place[child].0;
    if t.imgs[up][k][j].ino == child {
      NameAt(t.imgs[up], k, j);
      assert EntryOk(t, up, k, j) && SlotOk(t.imgs[up], k, j);
      if up != 0 {
        Parent(t, up);
      }
    }
  }

  /** One sector: the first slot with inode number `n`, or 21. */
  method FindIno(s: Sector, n: nat) returns (j: nat)
    ensures j <= 21 && (j < 21 ==> EntriesOf(s)[j].ino == n)
    ensures forall m :: 0 <= m < j ==> EntriesOf(s)[m].ino != n
  {
    j := 0;
    while j < 21
      invariant j <= 21
      invariant forall m :: 0 <= m < j ==> EntriesOf(s)[m].ino != n
    {
      var e := Load(s, j);
      if e.ino == n {
        return;
      }
      j := j + 1;
    }
  }

  /** The loop of get_child_dir_name over the blocks. */
  method ScanForIno(disk: Disk, ino: Inode, n: nat) returns (ok: bool, e: Entry, ghost k: nat, ghost j: nat)
    requires |ino.sectors| == 13 && ino.sectors[12] == 0 && n != 0
    ensures ok ==> k < 12 && j < 21 && e == Image(disk, ino)[k][j] && e.ino == n
    ensures !ok ==> forall m, i :: 0 <= m < 12 && 0 <= i < 21 ==> Image(disk, ino)[m][i].ino != n
  {
    ghost var rows: Rows := Image(disk, ino);
    ok, e, k, j := false, NO_ENTRY, 0, 0;
    var idx := 0;
    while idx < 12
      invariant 0 <= idx <= 12 && !ok
      invariant forall m, i :: 0 <= m < idx && 0 <= i < 21 ==> rows[m][i].ino != n
    {
      if ino.sectors[idx] != 0 {
        var s := Read(disk, ino.sectors[idx]);
        assert rows[idx] == EntriesOf(s);
        var i := FindIno(s, n);
        if i < 21 {
          e := Load(s, i);
          ok, k, j := true, idx, i;
          return;
        }
      } else {
        assert rows[idx] == EmptyRow();
      }
      idx := idx + 1;
    }
  }

  /** get_child_dir_name: the name of directory `child` in the directory above. */
  method ChildName(v: Vol, ghost owner: Owner, ghost t: Tree, up: nat, child: nat) returns (ok: bool, name: string)
    requires FsOk(v, owner, t) && child in t.imgs && child != 0 && child in t.place && t.place[child].0 == up
    ensures NamedOk(t, child) && ok && name == NameOf(t, child)
  {
    Parent(t, child);
    assert NodeOk(v.disk, v.inodes[up], t, up);
    NotStale(v, t, up);
    var ino := InodeOpen(v, up);
    ghost var k, j;
    var e;
    ok, e, k, j := ScanForIno(v.disk, ino, child);
    name := e.name;
    assert t.imgs[up][t.place[child].1][t.place[child].2].ino == child;
    OnlySlot(t, child, k, j);
  }

  /** Each name behind a slash, the last one first. */
  function Backward(cs: seq<string>): (p: string)
    ensures '/' in p <==> cs != []
  {
    if cs == [] then "" else Backward(cs[1..]) + "/" + cs[0]
  }

  lemma {:induction false} BackwardLength(cs: seq<string>)
    ensures |Backward(cs)| == |Join(cs)|
    decreases |cs|
  {
    if cs != [] {
      BackwardLength(cs[1..]);
      JoinAppend([cs[0]], cs[1..]);
      assert [cs[0]] + cs[1..] == cs;
      assert [cs[0]][..0] == [] && Join([cs[0]]) == "/" + cs[0];
    }
  }

  /** The climb of sys_getcwd, name by name, to the root. */
  method Climb(v: Vol, ghost owner: Owner, ghost t: Tree, cwd: nat) returns (rev: string)
    requires FsOk(v, owner, t) && cwd in t.imgs
    ensures rev == Backward(PathOf(t, cwd))
  {
    rev := "";
    var child := cwd;
    ghost var done: seq<string> := [];
    while child != 0
      invariant child in t.imgs && rev == Backward(done) && PathOf(t, cwd) == PathOf(t, child) + done
      decreases if child in t.depth then t.depth[child] else 0
    {
      Parent(t, child);
      var up := ParentNo(v, owner, t, child);
      var ok, name := ChildName(v, owner, t, up, child);
      rev := rev + "/" + name;
      assert ([name] + done)[1..] == done;
      assert PathOf(t, up) + [name] + done == PathOf(t, up) + ([name] + done);
      done := [name] + done;
      child := up;
    }
    assert [] + done == done;
  }

  /** The strrchr loop of sys_getcwd turns the path round. */
  method TurnRound(rev0: string, ghost cs: seq<string>) returns (buf: string)
    requires Pieces(cs) && rev0 == Backward(cs)
    ensures buf == Join(cs)
  {
    var rev := rev0;
    buf := "";
    ghost var k := 0;
    while '/' in rev
      invariant k <= |cs| && rev == Backward(cs[k..]) && buf == Join(cs[..k])
      decreases |cs| - k
    {
      var slash := LastSlash(rev);
      assert Piece(cs[k]);
      LastSlashAt(Backward(cs[k..][1..]), cs[k], rev, slash);
      assert cs[k..][1..] == cs[k + 1..] && cs[..k + 1][..k] == cs[..k];
      buf := buf + rev[slash..];
      rev := rev[..slash];
      k := k + 1;
    }
    assert cs[..k] == cs;
  }

  lemma {:induction false} PathPieces(t: Tree, d: nat)
    requires TreeOk(t) && d in t.imgs
    ensures Pieces(PathOf(t, d)) && NoDots(PathOf(t, d))
    decreases if d in t.depth then t.depth[d] else 0
  {
    if d != 0 {
      Parent(t, d);
      PathPieces(t, t.place[d].0);
      NameAt(t.imgs[t.place[d].0], t.place[d].1, t.place[d].2);
      assert SlotOk(t.imgs[t.place[d].0], t.place[d].1, t.place[d].2);
    }
  }

  /** sys_getcwd: the path of the working directory, which must fit the buffers with its final zero. */
  method Getcwd(v: Vol, ghost owner: Owner, ghost t: Tree, cwd: nat, size: nat) returns (buf: string)
    requires FsOk(v, owner, t) && cwd in t.imgs && |Show(PathOf(t, cwd))| < size && |Show(PathOf(t, cwd))| < 512
    ensures buf == Show(PathOf(t, cwd))
  {
    if cwd == 0 {
      return "/";
    }
    var rev := Climb(v, owner, t, cwd);
    BackwardLength(PathOf(t, cwd));
    assert |rev| <= size;
    PathPieces(t, cwd);
    buf := TurnRound(rev, PathOf(t, cwd));
  }

  // ----- sys_chdir

  /** sys_chdir: the new working directory, or nothing for a path that does not lead to one. */
  method Chdir(v: Vol, ghost owner: Owner, ghost t: Tree, cwd: nat, path: string) returns (ok: bool, cwd1: nat)
    requires FsOk(v, owner, t) && Searchable(path)
    ensures 0 in t.imgs && (ok <==> Find(t, Components(path)).DirAt?)
    ensures cwd1 == if ok then Find(t, Components(path)).ino else cwd
  {
    var r, searched := SearchFile(v, owner, t, path);
    ok := r.DirAt?;
    cwd1 := if ok then r.ino else cwd;
  }

  /** After sys_chdir(p), sys_getcwd gives back the washed form of p, and so p itself exactly when p
      was washed; the result fits wherever p does. */
  lemma CwdIsWashed(t: Tree, path: string)
    requires TreeOk(t) && path != "" && path[0] == '/' && Find(t, Components(path)).DirAt?
    ensures var x := Find(t, Components(path)).ino;
            && x in t.imgs && Show(PathOf(t, x)) == Show(Wash([], Components(path)))
            && |Show(PathOf(t, x))| <= |path|
  {
    var cs := Components(path);
    WalkWashed(t, cs, 0, 0, 0);
    assert cs[0..] == cs;
    SearchedFits(path, |cs|);
    assert cs[..|cs|] == cs;
    WashShrinks([], cs);
  }

  lemma {:induction false} WashShrinks(st: seq<string>, cs: seq<string>)
    ensures |Join(Wash(st, cs))| <= |Join(st)| + |Join(cs)|
    decreases |cs|
  {
    if cs != [] {
      WashShrinks(Step(st, cs[0]), cs[1..]);
      JoinAppend([cs[0]], cs[1..]);
      assert [cs[0]] + cs[1..] == cs;
      JoinAppend(st, [cs[0]]);
      if st != [] {
        JoinAppend(st[..|st| - 1], [st[|st| - 1]]);
        assert st[..|st| - 1] + [st[|st| - 1]] == st;
      }
    }
  }
}
