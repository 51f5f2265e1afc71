/**
 The directory tree: which entry names which inode.  Every live inode but the root is named by exactly
 one entry other than "." and "..", and going up from any directory ends at the root.
 */
module Tree {
  import opened Sectors
  import opened Dir

  type Rows = seq<seq<Entry>>

  /** The images of the directories, the live inodes, the slot (directory, block, slot in block) of the
      entry that names an inode, and the depth of the directories. */
  datatype Tree = Tree(imgs: map<nat, Rows>, live: set<nat>, place: map<nat, (nat, nat, nat)>, depth: map<nat, nat>)

  /** The image of `d` is well formed and its dot entries name the directory and the one above. */
  ghost predicate DirOk(t: Tree, d: nat) {
    && d in t.imgs && d in t.live && Proper(t.imgs[d]) && t.imgs[d][0][0].ino == d
    && t.imgs[d][0][1].ino == (if d == 0 then 0 else if d in t.place then t.place[d].0 else 0)
  }

  /** A plain entry names a live inode, of the type it says, and is its only name. */
  ghost predicate EntryOk(t: Tree, d: nat, k: nat, j: nat) {
    && d in t.imgs && Grid(t.imgs[d]) && k < 12 && j < 21
    && (Plain(t.imgs[d][k][j]) ==>
          var e := t.imgs[d][k][j];
          && e.ino in t.live && e.ino != 0 && e.ino in t.place && t.place[e.ino] == (d, k, j)
          && (e.ftype == FT_REGULAR || e.ftype == FT_DIRECTORY) && (e.ftype == FT_DIRECTORY <==> e.ino in t.imgs))
  }

  /** Slot (`d`, `k`, `j`) has a plain entry for inode `i`. */
  ghost predicate Names(t: Tree, d: nat, k: nat, j: nat, i: nat) {
    d in t.imgs && Grid(t.imgs[d]) && k < 12 && j < 21 && Plain(t.imgs[d][k][j]) && t.imgs[d][k][j].ino == i
  }

  /** A live inode other than the root has a name. */
  ghost predicate NamedOk(t: Tree, i: nat) {
    i in t.place && Names(t, t.place[i].0, t.place[i].1, t.place[i].2, i)
  }

  /** A directory other than the root is one deeper than the one above. */
  ghost predicate DepthOk(t: Tree, d: nat) {
    d in t.depth && (d != 0 ==> d in t.place && t.place[d].0 in t.depth && t.depth[d] == t.depth[t.place[d].0] + 1)
  }

  ghost predicate DirsOk(t: Tree) {
    0 in t.imgs && forall d {:trigger DirOk(t, d)} :: d in t.imgs ==> DirOk(t, d)
  }

  ghost predicate EntriesOk(t: Tree) {
    forall d, k, j {:trigger EntryOk(t, d, k, j)} :: d in t.imgs && 0 <= k < 12 && 0 <= j < 21 ==> EntryOk(t, d, k, j)
  }

  ghost predicate NamesOk(t: Tree) {
    forall i {:trigger NamedOk(t, i)} :: i in t.live && i != 0 ==> NamedOk(t, i)
  }

  ghost predicate DepthsOk(t: Tree) {
    forall d {:trigger DepthOk(t, d)} :: d in t.imgs ==> DepthOk(t, d)
  }

  ghost predicate TreeOk(t: Tree) {
    DirsOk(t) && EntriesOk(t) && NamesOk(t) && DepthsOk(t)
  }

  // ----- what it means

  /** No inode is named twice. */
  lemma NamedByOne(t: Tree, d: nat, k: nat, j: nat, d1: nat, k1: nat, j1: nat, i: nat)
    requires TreeOk(t) && Names(t, d, k, j, i) && Names(t, d1, k1, j1, i)
    ensures d == d1 && k == k1 && j == j1
  {
    assert EntryOk(t, d, k, j) && EntryOk(t, d1, k1, j1);
  }

  /** The directory above. */
  lemma UpOk(t: Tree, d: nat)
    requires TreeOk(t) && d in t.imgs && d != 0
    ensures Proper(t.imgs[d])
    ensures var up := t.imgs[d][0][1].ino; up in t.imgs && up in t.depth && d in t.depth && t.depth[up] < t.depth[d]
  {
    assert DirOk(t, d) && NamedOk(t, d) && DepthOk(t, d);
  }

  /** The directories from `d` up to the root, following "..". */
  ghost function Up(t: Tree, d: nat): (ds: seq<nat>)
    requires TreeOk(t) && d in t.imgs
    ensures |ds| > 0 && ds[0] == d && ds[|ds| - 1] == 0
    decreases if d in t.depth then t.depth[d] else 0
  {
    if d == 0 then [0] else UpOk(t, d); [d] + Up(t, t.imgs[d][0][1].ino)
  }

  // ----- adding a name

  /** The tree with entry `e` in slot (`d`, `k`, `j`) for a new regular file. */
  function AddFile(t: Tree, d: nat, k: nat, j: nat, e: Entry): (t1: Tree)
    requires d in t.imgs && k < |t.imgs[d]| && j < |t.imgs[d][k]|
  {
    t.(imgs := t.imgs[d := Put(t.imgs[d], k, j, e)], live := t.live + {e.ino}, place := t.place[e.ino := (d, k, j)])
  }

  /** A slot where a new name may go. */
  ghost predicate CanAdd(t: Tree, d: nat, k: nat, j: nat, e: Entry) {
    && TreeOk(t) && d in t.imgs && Grid(t.imgs[d]) && k < 12 && j < 21 && !Live(t.imgs[d][k][j])
    && GoodName(e.name) && (forall o :: o in Listing(t.imgs[d]) ==> o.name != e.name)
    && e.ino !in t.live
  }

  /** The slot of a new name is not a dot slot, and the image stays well formed. */
  lemma AddHere(t: Tree, d: nat, k: nat, j: nat, e: Entry)
    requires CanAdd(t, d, k, j, e) && Live(e)
    ensures DirOk(t, d) && !DotSlot(k, j) && Proper(Put(t.imgs[d], k, j, e))
  {
    assert DirOk(t, d);
    AddProper(t.imgs[d], k, j, e);
  }

  /** `t1` is `t` with `e` in slot (`d`, `k`, `j`), and perhaps a new directory. */
  ghost predicate Extends(t: Tree, t1: Tree, d: nat, k: nat, j: nat, e: Entry) {
    && d in t.imgs && Grid(t.imgs[d]) && k < 12 && j < 21 && !Live(t.imgs[d][k][j]) && Plain(e) && e.ino !in t.live
    && e.ino != 0
    && (forall c :: c in t.imgs && c != d ==> c in t1.imgs && t1.imgs[c] == t.imgs[c])
    && d in t1.imgs && t1.imgs[d] == Put(t.imgs[d], k, j, e)
    && (forall c :: c in t1.imgs ==> c in t.imgs || (c == e.ino && e.ftype == FT_DIRECTORY))
    && (if e.ftype == FT_DIRECTORY then e.ino in t1.imgs else e.ftype == FT_REGULAR)
    && t1.live == t.live + {e.ino} && t1.place == t.place[e.ino := (d, k, j)]
  }

  lemma AddedDirOk(t: Tree, t1: Tree, d: nat, k: nat, j: nat, e: Entry, c: nat)
    requires Extends(t, t1, d, k, j, e) && DirOk(t, c) && !DotSlot(k, j) && Proper(Put(t.imgs[d], k, j, e))
    ensures DirOk(t1, c)
  {
  }

  lemma AddedEntryOk(t: Tree, t1: Tree, d: nat, k: nat, j: nat, e: Entry, c: nat, m: nat, n: nat)
    requires Extends(t, t1, d, k, j, e) && EntryOk(t, c, m, n) && e.ino !in t.imgs
    ensures EntryOk(t1, c, m, n)
  {
    if c == d {
      assert Grid(t1.imgs[d]);
    }
  }

  lemma AddedNamedOk(t: Tree, t1: Tree, d: nat, k: nat, j: nat, e: Entry, i: nat)
    requires Extends(t, t1, d, k, j, e) && i in t1.live && (i in t.live ==> NamedOk(t, i))
    ensures NamedOk(t1, i)
  {
    assert Grid(t1.imgs[d]);
  }

  lemma AddedNames(t: Tree, t1: Tree, d: nat, k: nat, j: nat, e: Entry)
    requires NamesOk(t) && Extends(t, t1, d, k, j, e)
    ensures NamesOk(t1)
  {
    forall i | i in t1.live && i != 0 ensures NamedOk(t1, i) {
      AddedNamedOk(t, t1, d, k, j, e, i);
    }
  }

  lemma AddedOldDirs(t: Tree, t1: Tree, d: nat, k: nat, j: nat, e: Entry)
    requires DirsOk(t) && Extends(t, t1, d, k, j, e) && !DotSlot(k, j) && Proper(Put(t.imgs[d], k, j, e))
    ensures 0 in t1.imgs && forall c :: c in t.imgs ==> DirOk(t1, c)
  {
    forall c | c in t.imgs ensures DirOk(t1, c) {
      AddedDirOk(t, t1, d, k, j, e, c);
    }
  }

  lemma AddedOldEntries(t: Tree, t1: Tree, d: nat, k: nat, j: nat, e: Entry)
    requires EntriesOk(t) && Extends(t, t1, d, k, j, e) && e.ino !in t.imgs
    ensures forall c, m, n :: c in t.imgs && 0 <= m < 12 && 0 <= n < 21 ==> EntryOk(t1, c, m, n)
  {
    forall c, m, n | c in t.imgs && 0 <= m < 12 && 0 <= n < 21 ensures EntryOk(t1, c, m, n) {
      AddedEntryOk(t, t1, d, k, j, e, c, m, n);
    }
  }

  lemma AddedOldDepths(t: Tree, t1: Tree, d: nat, k: nat, j: nat, e: Entry)
    requires DepthsOk(t) && Extends(t, t1, d, k, j, e) && e.ino !in t.imgs
    requires forall c :: c in t.depth && c != e.ino ==> c in t1.depth && t1.depth[c] == t.depth[c]
    requires forall c :: c in t.imgs && c != 0 ==> c in t.place && t.place[c].0 != e.ino
    ensures forall c :: c in t.imgs ==> DepthOk(t1, c)
  {
    forall c | c in t.imgs ensures DepthOk(t1, c) {
      assert DepthOk(t, c);
    }
  }

  /** Every directory but the root is named in a directory that is there. */
  lemma ParentsThere(t: Tree, i: nat)
    requires TreeOk(t) && i !in t.live
    ensures i !in t.imgs && 0 in t.live && forall c :: c in t.imgs && c != 0 ==> c in t.place && t.place[c].0 != i
  {
    assert DirOk(t, 0) && (i in t.imgs ==> DirOk(t, i));
    forall c | c in t.imgs && c != 0 ensures c in t.place && t.place[c].0 != i {
      assert DirOk(t, c) && NamedOk(t, c);
    }
  }

  /** A free slot of a grid, and an entry for an inode that is not there. */
  ghost predicate FreeSlot(t: Tree, d: nat, k: nat, j: nat, e: Entry) {
    && d in t.imgs && Grid(t.imgs[d]) && k < 12 && j < 21 && !Live(t.imgs[d][k][j])
    && Plain(e) && e.ino !in t.live && e.ino != 0 && e.ino !in t.imgs
  }

  lemma AddFileExtends(t: Tree, d: nat, k: nat, j: nat, e: Entry)
    requires FreeSlot(t, d, k, j, e) && e.ftype == FT_REGULAR
    ensures Extends(t, AddFile(t, d, k, j, e), d, k, j, e)
  {
  }

  lemma AddDirExtends(t: Tree, d: nat, k: nat, j: nat, e: Entry)
    requires FreeSlot(t, d, k, j, e) && e.ftype == FT_DIRECTORY && d in t.depth
    ensures Extends(t, AddDir(t, d, k, j, e), d, k, j, e)
  {
  }

  lemma AddFileOk(t: Tree, d: nat, k: nat, j: nat, e: Entry)
    requires CanAdd(t, d, k, j, e) && e.ftype == FT_REGULAR
    ensures TreeOk(AddFile(t, d, k, j, e))
  {
    AddHere(t, d, k, j, e);
    ParentsThere(t, e.ino);
    var t1 := AddFile(t, d, k, j, e);
    AddFileExtends(t, d, k, j, e);
    AddedOldDirs(t, t1, d, k, j, e);
    AddedOldEntries(t, t1, d, k, j, e);
    AddedOldDepths(t, t1, d, k, j, e);
    AddedNames(t, t1, d, k, j, e);
  }

  /** The image of a new directory: "." and "..". */
  function NewDirRows(i: nat, up: nat): (rows: Rows) {
    seq(12, k => seq(21, j => if k == 0 && j == 0 then Entry(".", i, FT_DIRECTORY)
                              else if k == 0 && j == 1 then Entry("..", up, FT_DIRECTORY) else NO_ENTRY))
  }

  function AddDir(t: Tree, d: nat, k: nat, j: nat, e: Entry): (t1: Tree)
    requires d in t.imgs && k < |t.imgs[d]| && j < |t.imgs[d][k]| && d in t.depth
  {
    t.(imgs := t.imgs[d := Put(t.imgs[d], k, j, e)][e.ino := NewDirRows(e.ino, d)], live := t.live + {e.ino},
       place := t.place[e.ino := (d, k, j)], depth := t.depth[e.ino := t.depth[d] + 1])
  }

  lemma AddDirOk(t: Tree, d: nat, k: nat, j: nat, e: Entry)
    requires CanAdd(t, d, k, j, e) && e.ftype == FT_DIRECTORY
    ensures d in t.depth && Grid(t.imgs[d]) && TreeOk(AddDir(t, d, k, j, e))
  {
    AddHere(t, d, k, j, e);
    ParentsThere(t, e.ino);
    assert DepthOk(t, d);
    var t1 := AddDir(t, d, k, j, e);
    AddDirExtends(t, d, k, j, e);
    AddedOldDirs(t, t1, d, k, j, e);
    AddedOldEntries(t, t1, d, k, j, e);
    AddedOldDepths(t, t1, d, k, j, e);
    AddedNames(t, t1, d, k, j, e);
    NewDirOk(t1, e.ino, d);
  }

  lemma NewDirOk(t: Tree, i: nat, up: nat)
    requires i in t.imgs && i in t.live && i != 0 && t.imgs[i] == NewDirRows(i, up) && i in t.place
    requires t.place[i].0 == up
    ensures DirOk(t, i) && forall m, n :: 0 <= m < 12 && 0 <= n < 21 ==> EntryOk(t, i, m, n)
  {
    NewDirProper(i, up);
  }

  lemma NewDirProper(i: nat, up: nat)
    ensures Proper(NewDirRows(i, up)) && OnlyDots(NewDirRows(i, up))
  {
  }

  // ----- taking a name away

  /** The tree without the entry in slot (`d`, `k`, `j`) and the inode it names. */
  function Remove(t: Tree, d: nat, k: nat, j: nat): (t1: Tree)
    requires d in t.imgs && k < |t.imgs[d]| && j < |t.imgs[d][k]|
  {
    var i := t.imgs[d][k][j].ino;
    t.(imgs := t.imgs[d := Put(t.imgs[d], k, j, NO_ENTRY)] - {i}, live := t.live - {i}, place := t.place - {i})
  }

  /** A name that may be removed: that of a file or of an empty directory. */
  ghost predicate CanRemove(t: Tree, d: nat, k: nat, j: nat) {
    && TreeOk(t) && d in t.imgs && k < 12 && j < 21 && DirOk(t, d) && Plain(t.imgs[d][k][j])
    && (t.imgs[d][k][j].ino in t.imgs ==> OnlyDots(t.imgs[t.imgs[d][k][j].ino]))
  }

  /** Nothing is below the inode that goes, so no other directory loses its parent. */
  lemma RemoveHere(t: Tree, d: nat, k: nat, j: nat)
    requires CanRemove(t, d, k, j)
    ensures var i := t.imgs[d][k][j].ino;
            i != 0 && i != d && forall c :: c in t.imgs && c != 0 && c != i ==> c in t.place && t.place[c].0 != i
  {
    var i := t.imgs[d][k][j].ino;
    assert EntryOk(t, d, k, j);
    forall c | c in t.imgs && c != 0 ensures c in t.place && t.place[c].0 != i {
      assert DirOk(t, c);
      NotBelow(t, d, k, j, c);
    }
    assert DirOk(t, d) && DepthOk(t, d);
  }

  /** `t1` is `t` without slot (`d`, `k`, `j`) and inode `i`. */
  ghost predicate Shrinks(t: Tree, t1: Tree, d: nat, k: nat, j: nat, i: nat) {
    && Names(t, d, k, j, i) && i != d
    && (forall c :: c in t1.imgs <==> c in t.imgs && c != i)
    && (forall c :: c in t1.imgs && c != d ==> t1.imgs[c] == t.imgs[c])
    && t1.imgs[d] == Put(t.imgs[d], k, j, NO_ENTRY)
    && t1.live == t.live - {i} && t1.place == t.place - {i}
  }

  lemma RemovedDirOk(t: Tree, t1: Tree, d: nat, k: nat, j: nat, i: nat, c: nat)
    requires Shrinks(t, t1, d, k, j, i) && DirOk(t, c) && DirOk(t, d)
    requires Proper(Put(t.imgs[d], k, j, NO_ENTRY)) && c != i
    ensures DirOk(t1, c)
  {
    assert !DotSlot(k, j);
  }

  lemma RemovedEntryOk(t: Tree, t1: Tree, d: nat, k: nat, j: nat, i: nat, c: nat, m: nat, n: nat)
    requires Shrinks(t, t1, d, k, j, i) && EntryOk(t, c, m, n) && EntryOk(t, d, k, j) && c != i
    ensures EntryOk(t1, c, m, n)
  {
    if c == d {
      assert Grid(t1.imgs[d]);
    }
  }

  lemma RemovedNamedOk(t: Tree, t1: Tree, d: nat, k: nat, j: nat, i: nat, o: nat)
    requires Shrinks(t, t1, d, k, j, i) && NamedOk(t, o) && o != i && t.place[o].0 != i
    ensures NamedOk(t1, o)
  {
    assert Grid(t1.imgs[d]);
  }

  lemma RemoveNames(t: Tree, t1: Tree, d: nat, k: nat, j: nat, i: nat)
    requires NamesOk(t) && Shrinks(t, t1, d, k, j, i) && i != 0
    requires forall o :: o in t.live && o != 0 ==> o in t.place && t.place[o].0 != i
    ensures NamesOk(t1)
  {
    forall o | o in t1.live && o != 0 ensures NamedOk(t1, o) {
      RemovedNamedOk(t, t1, d, k, j, i, o);
    }
  }

  lemma RemoveEntries(t: Tree, t1: Tree, d: nat, k: nat, j: nat, i: nat)
    requires EntriesOk(t) && Shrinks(t, t1, d, k, j, i)
    ensures EntriesOk(t1)
  {
    forall c, m, n | c in t1.imgs && 0 <= m < 12 && 0 <= n < 21 ensures EntryOk(t1, c, m, n) {
      RemovedEntryOk(t, t1, d, k, j, i, c, m, n);
    }
  }

  lemma RemoveDepths(t: Tree, t1: Tree, d: nat, k: nat, j: nat, i: nat)
    requires DepthsOk(t) && Shrinks(t, t1, d, k, j, i) && t1.depth == t.depth
    ensures DepthsOk(t1)
  {
    forall c | c in t1.imgs ensures DepthOk(t1, c) {
      assert DepthOk(t, c);
    }
  }

  lemma RemoveOk(t: Tree, d: nat, k: nat, j: nat)
    requires CanRemove(t, d, k, j)
    ensures TreeOk(Remove(t, d, k, j))
  {
    RemoveHere(t, d, k, j);
    var i := t.imgs[d][k][j].ino;
    var t1 := Remove(t, d, k, j);
    RemoveShrinks(t, d, k, j, i);
    NoneBelow(t, d, k, j);
    RemoveDirs(t, t1, d, k, j, i);
    RemoveEntries(t, t1, d, k, j, i);
    RemoveDepths(t, t1, d, k, j, i);
    RemoveNames(t, t1, d, k, j, i);
  }

  lemma RemoveShrinks(t: Tree, d: nat, k: nat, j: nat, i: nat)
    requires Names(t, d, k, j, i) && i != d
    ensures Shrinks(t, Remove(t, d, k, j), d, k, j, i)
  {
  }

  lemma NoneBelow(t: Tree, d: nat, k: nat, j: nat)
    requires CanRemove(t, d, k, j)
    ensures forall o :: o in t.live && o != 0 ==> o in t.place && t.place[o].0 != t.imgs[d][k][j].ino
  {
    forall o | o in t.live && o != 0 ensures o in t.place && t.place[o].0 != t.imgs[d][k][j].ino {
      NotBelow(t, d, k, j, o);
    }
  }

  lemma RemoveDirs(t: Tree, t1: Tree, d: nat, k: nat, j: nat, i: nat)
    requires DirsOk(t) && Shrinks(t, t1, d, k, j, i) && i != 0
    ensures DirsOk(t1)
  {
    assert DirOk(t, d);
    RemoveProper(t.imgs[d], k, j);
    forall c | c in t1.imgs ensures DirOk(t1, c) {
      RemovedDirOk(t, t1, d, k, j, i, c);
    }
  }

  /** No live inode has its name in the directory that goes. */
  lemma NotBelow(t: Tree, d: nat, k: nat, j: nat, o: nat)
    requires CanRemove(t, d, k, j) && o in t.live && o != 0
    ensures NamedOk(t, o) && t.place[o].0 != t.imgs[d][k][j].ino
  {
    var i := t.imgs[d][k][j].ino;
    assert NamedOk(t, o);
    if i in t.imgs && t.place[o].0 == i {
      assert DirOk(t, i);
      NameAt(t.imgs[i], t.place[o].1, t.place[o].2);
    }
  }
}
