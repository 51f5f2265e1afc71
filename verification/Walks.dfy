/**
 Finding a file by its path: the walk that search_file takes from the root, the path that leads to a
 directory, and what washing a path does to them.
 */
module Walks {
  import opened Sectors
  import opened Dir
  import opened Tree
  import opened Path

  // ----- one directory

  /** The entry with name `n` in a listing. */
  ghost function Lookup(es: seq<Entry>, n: string): (r: Found)
    ensures r.Some? ==> r.e in es && r.e.name == n
    ensures r.None? ==> forall e :: e in es ==> e.name != n
  {
    if es == [] then None
    else if es[0].name == n then Some(es[0])
    else
      assert es == [es[0]] + es[1..];
      Lookup(es[1..], n)
  }

  /** Names are distinct, so an entry is found under its own name only. */
  lemma LookupOnly(t: Tree, d: nat, e: Entry)
    requires d in t.imgs && Proper(t.imgs[d]) && e in Listing(t.imgs[d])
    ensures Lookup(Listing(t.imgs[d]), e.name) == Some(e)
  {
    var rows := t.imgs[d];
    var r := Lookup(Listing(rows), e.name);
    var k, j := ListedAt(t, d, e);
    var m, n := ListedAt(t, d, r.e);
    SameSlot(rows, k, j, m, n);
  }

  /** Where a listed entry is. */
  lemma ListedAt(t: Tree, d: nat, e: Entry) returns (k: nat, j: nat)
    requires d in t.imgs && Proper(t.imgs[d]) && e in Listing(t.imgs[d])
    ensures k < 12 && j < 21 && t.imgs[d][k][j] == e && Live(e)
    ensures (e.name == "." <==> k == 0 && j == 0) && (e.name == ".." <==> k == 0 && j == 1)
  {
    ListingMember(t.imgs[d], e);
    k :| 0 <= k < 12 && e in t.imgs[d][k];
    j :| 0 <= j < 21 && t.imgs[d][k][j] == e;
    NameAt(t.imgs[d], k, j);
  }

  // ----- walks

  /** What search_file finds: nothing in directory `dir`; a regular file named in directory `dir`; or
      a directory and the one it was reached from.  `depth` components were looked at. */
  datatype Spot = Missing(dir: nat, depth: nat) | FileAt(dir: nat, depth: nat, ino: nat) | DirAt(above: nat, ino: nat)

  /** The walk along `cs[k..]` from directory `d`, reached from `above`.  It ends at the first regular
      file it meets. */
  ghost function Walk(t: Tree, cs: seq<string>, k: nat, above: nat, d: nat): (r: Spot)
    requires d in t.imgs && k <= |cs|
    decreases |cs| - k
  {
    if k == |cs| then DirAt(above, d)
    else
      var f := Lookup(Listing(t.imgs[d]), cs[k]);
      if f.None? then Missing(d, k + 1)
      else if f.e.ino in t.imgs then Walk(t, cs, k + 1, d, f.e.ino)
      else FileAt(d, k + 1, f.e.ino)
  }

  /** The walk from the root. */
  ghost function Find(t: Tree, cs: seq<string>): (r: Spot)
    requires 0 in t.imgs
  {
    Walk(t, cs, 0, 0, 0)
  }

  lemma {:induction false} WalkAppend(t: Tree, cs: seq<string>, c: string, k: nat, above: nat, d: nat)
    requires d in t.imgs && k <= |cs|
    ensures Walk(t, cs, k, above, d).DirAt? ==>
              var x := Walk(t, cs, k, above, d).ino;
              x in t.imgs && Walk(t, cs + [c], k, above, d) == Walk(t, cs + [c], |cs|,
                Walk(t, cs, k, above, d).above, x)
    ensures !Walk(t, cs, k, above, d).DirAt? ==> Walk(t, cs + [c], k, above, d) == Walk(t, cs, k, above, d)
    decreases |cs| - k
  {
    if k < |cs| {
      var f := Lookup(Listing(t.imgs[d]), cs[k]);
      if f.Some? && f.e.ino in t.imgs {
        WalkAppend(t, cs, c, k + 1, d, f.e.ino);
      }
    }
  }

  // ----- the path of a directory

  lemma Parent(t: Tree, d: nat)
    requires TreeOk(t) && d in t.imgs && d != 0
    ensures NamedOk(t, d) && t.place[d].0 in t.imgs && d in t.depth && t.place[d].0 in t.depth
    ensures t.depth[t.place[d].0] < t.depth[d] && DirOk(t, d) && DirOk(t, t.place[d].0)
  {
    assert DirOk(t, d) && NamedOk(t, d) && DepthOk(t, d);
  }

  /** The name of an inode. */
  ghost function NameOf(t: Tree, i: nat): (n: string)
    requires NamedOk(t, i)
  {
    t.imgs[t.place[i].0][t.place[i].1][t.place[i].2].name
  }

  /** The names from the root down to directory `d`. */
  ghost function PathOf(t: Tree, d: nat): (cs: seq<string>)
    requires TreeOk(t) && d in t.imgs
    decreases if d in t.depth then t.depth[d] else 0
  {
    if d == 0 then [] else Parent(t, d); PathOf(t, t.place[d].0) + [NameOf(t, d)]
  }

  /** One step down, up or nowhere. */
  lemma StepPath(t: Tree, d: nat, e: Entry)
    requires TreeOk(t) && d in t.imgs && DirOk(t, d) && e in Listing(t.imgs[d]) && e.ino in t.imgs
    ensures PathOf(t, e.ino) == Step(PathOf(t, d), e.name)
    ensures Plain(e) ==> e.ino != 0 && e.ino in t.place && t.place[e.ino].0 == d
  {
    var k, j := ListedAt(t, d, e);
    assert EntryOk(t, d, k, j);
    if d != 0 {
      Parent(t, d);
    }
  }

  /** The path of the directory a walk ends at is the washed list of the components walked. */
  lemma {:induction false} WalkWashed(t: Tree, cs: seq<string>, k: nat, above: nat, d: nat)
    requires TreeOk(t) && d in t.imgs && k <= |cs|
    requires Walk(t, cs, k, above, d).DirAt?
    ensures Walk(t, cs, k, above, d).ino in t.imgs
    ensures PathOf(t, Walk(t, cs, k, above, d).ino) == Wash(PathOf(t, d), cs[k..])
    decreases |cs| - k
  {
    if k < |cs| {
      var f := Lookup(Listing(t.imgs[d]), cs[k]);
      assert DirOk(t, d);
      StepPath(t, d, f.e);
      WalkWashed(t, cs, k + 1, d, f.e.ino);
      assert cs[k..][1..] == cs[k + 1..];
    }
  }

  /** The path of a directory leads to it. */
  lemma {:induction false} PathLeads(t: Tree, d: nat)
    requires TreeOk(t) && d in t.imgs
    ensures Find(t, PathOf(t, d)).DirAt? && Find(t, PathOf(t, d)).ino == d
    ensures d != 0 ==> d in t.place && Find(t, PathOf(t, d)).above == t.place[d].0
    decreases if d in t.depth then t.depth[d] else 0
  {
    if d != 0 {
      Parent(t, d);
      var up, n := t.place[d].0, NameOf(t, d);
      PathLeads(t, up);
      WalkAppend(t, PathOf(t, up), n, 0, 0, 0);
      NameFound(t, d);
    }
  }

  lemma NameFound(t: Tree, i: nat)
    requires TreeOk(t) && NamedOk(t, i) && i in t.live && i != 0
    ensures var up := t.place[i].0;
            && up in t.imgs && Lookup(Listing(t.imgs[up]), NameOf(t, i)).Some?
            && Lookup(Listing(t.imgs[up]), NameOf(t, i)).e == t.imgs[up][t.place[i].1][t.place[i].2]
  {
    var up, k, j := t.place[i].0, t.place[i].1, t.place[i].2;
    assert DirOk(t, up);
    ListingMember(t.imgs[up], t.imgs[up][k][j]);
    LookupOnly(t, up, t.imgs[up][k][j]);
  }

  /** A walk without dots ends at the directory whose path it is, seen from the directory above. */
  lemma FindPlain(t: Tree, cs: seq<string>)
    requires TreeOk(t) && NoDots(cs) && Find(t, cs).DirAt?
    ensures var x := Find(t, cs).ino;
            && x in t.imgs && PathOf(t, x) == cs && (x == 0 <==> cs == [])
            && (x != 0 ==> x in t.place && Find(t, cs).above == t.place[x].0 && t.place[x].0 in t.imgs)
  {
    var x := Find(t, cs).ino;
    WalkWashed(t, cs, 0, 0, 0);
    WashPlain([], cs);
    assert cs[0..] == cs && [] + cs == cs;
    PathLeads(t, x);
    if x != 0 {
      Parent(t, x);
    }
  }

  /** Washing keeps the meaning of a path that leads somewhere: following "." and ".." entry by entry
      or taking them out first ends at the same directory. */
  lemma WashKeepsDir(t: Tree, cs: seq<string>)
    requires TreeOk(t) && Find(t, cs).DirAt?
    ensures Find(t, Wash([], cs)).DirAt? && Find(t, Wash([], cs)).ino == Find(t, cs).ino
  {
    WalkWashed(t, cs, 0, 0, 0);
    assert cs[0..] == cs;
    PathLeads(t, Find(t, cs).ino);
  }

  /** The same for a path to a regular file. */
  lemma WashKeepsFile(t: Tree, cs: seq<string>)
    requires TreeOk(t) && cs != [] && Find(t, cs).FileAt? && Find(t, cs).depth == |cs|
    ensures Find(t, Wash([], cs)) == Find(t, cs).(depth := |Wash([], cs)|)
  {
    var n := |cs| - 1;
    var pre, c := cs[..n], cs[n];
    assert pre + [c] == cs;
    WalkAppend(t, pre, c, 0, 0, 0);
    WalkDepth(t, pre, 0, 0, 0);
    var d := Find(t, pre).ino;
    WashKeepsDir(t, pre);
    WalkWashed(t, pre, 0, 0, 0);
    assert pre[0..] == pre;
    var w := Wash([], pre);
    var f := Lookup(Listing(t.imgs[d]), c);
    assert f.Some? && f.e.ino !in t.imgs;
    NotDots(t, d, f.e);
    WashSplit([], pre, [c]);
    assert Wash(w, [c]) == Wash(w + [c], []) by { assert [c][1..] == []; }
    WalkAppend(t, w, c, 0, 0, 0);
  }

  lemma NotDots(t: Tree, d: nat, e: Entry)
    requires TreeOk(t) && d in t.imgs && e in Listing(t.imgs[d]) && e.ino !in t.imgs
    ensures e.name != "." && e.name != ".."
  {
    assert DirOk(t, d);
    var k, j := ListedAt(t, d, e);
    if d != 0 {
      Parent(t, d);
    }
  }

  lemma {:induction false} WalkDepth(t: Tree, cs: seq<string>, k: nat, above: nat, d: nat)
    requires d in t.imgs && k <= |cs|
    ensures var r := Walk(t, cs, k, above, d);
            (r.DirAt? ==> r.ino in t.imgs) && (!r.DirAt? ==> k < r.depth <= |cs| && r.dir in t.imgs)
    decreases |cs| - k
  {
    if k < |cs| {
      var f := Lookup(Listing(t.imgs[d]), cs[k]);
      if f.Some? && f.e.ino in t.imgs {
        WalkDepth(t, cs, k + 1, d, f.e.ino);
      }
    }
  }

  /** A walk that ends at a regular file ends there when the path does. */
  lemma {:induction false} FilePrefix(t: Tree, cs: seq<string>, k: nat, above: nat, d: nat)
    requires d in t.imgs && k <= |cs| && Walk(t, cs, k, above, d).FileAt? && k <= Walk(t, cs, k, above, d).depth <= |cs|
    ensures var n := Walk(t, cs, k, above, d).depth; Walk(t, cs[..n], k, above, d) == Walk(t, cs, k, above, d)
    decreases |cs| - k
  {
    if k < |cs| {
      var f := Lookup(Listing(t.imgs[d]), cs[k]);
      if f.Some? && f.e.ino in t.imgs {
        WalkDepth(t, cs, k + 1, d, f.e.ino);
        FilePrefix(t, cs, k + 1, d, f.e.ino);
      }
    }
  }

  /** A path that goes on behind a regular file finds that file: the rest is not looked at. */
  lemma WalkStopsAtFile(t: Tree, cs: seq<string>, more: seq<string>)
    requires 0 in t.imgs && Find(t, cs).FileAt?
    ensures Find(t, cs + more) == Find(t, cs)
    decreases |more|
  {
    if more != [] {
      var n := |more| - 1;
      WalkStopsAtFile(t, cs, more[..n]);
      WalkAppend(t, cs + more[..n], more[n], 0, 0, 0);
      assert cs + more == cs + more[..n] + [more[n]];
    } else {
      assert cs + more == cs;
    }
  }

  /** What a walk that does not end at a directory found at its last step. */
  lemma {:induction false} WalkEnd(t: Tree, cs: seq<string>, k: nat, above: nat, d: nat)
    requires d in t.imgs && k <= |cs|
    ensures var r := Walk(t, cs, k, above, d);
            && (r.Missing? ==> k < r.depth <= |cs| && r.dir in t.imgs
                               && Lookup(Listing(t.imgs[r.dir]), cs[r.depth - 1]).None?)
            && (r.FileAt? ==>
                  && k < r.depth <= |cs| && r.dir in t.imgs && r.ino !in t.imgs
                  && Lookup(Listing(t.imgs[r.dir]), cs[r.depth - 1]).Some?
                  && Lookup(Listing(t.imgs[r.dir]), cs[r.depth - 1]).e.ino == r.ino)
    decreases |cs| - k
  {
    if k < |cs| {
      var f := Lookup(Listing(t.imgs[d]), cs[k]);
      if f.Some? && f.e.ino in t.imgs {
        WalkEnd(t, cs, k + 1, d, f.e.ino);
      }
    }
  }

  /** Nothing has the name that was missing, and it is not "." or "..". */
  lemma MissingName(t: Tree, cs: seq<string>)
    requires TreeOk(t) && Find(t, cs).Missing?
    ensures var r := Find(t, cs);
            && 0 < r.depth <= |cs| && r.dir in t.imgs && cs[r.depth - 1] != "." && cs[r.depth - 1] != ".."
            && forall e :: e in Listing(t.imgs[r.dir]) ==> e.name != cs[r.depth - 1]
  {
    WalkEnd(t, cs, 0, 0, 0);
    var rows := t.imgs[Find(t, cs).dir];
    assert DirOk(t, Find(t, cs).dir);
    ListingMember(rows, rows[0][0]);
    ListingMember(rows, rows[0][1]);
  }

  /** A regular file that was found is named in the directory it was found in. */
  lemma FileNamed(t: Tree, cs: seq<string>)
    requires TreeOk(t) && Find(t, cs).FileAt?
    ensures var r := Find(t, cs);
            r.ino in t.live && r.ino != 0 && r.ino !in t.imgs && NamedOk(t, r.ino) && t.place[r.ino].0 == r.dir
  {
    WalkEnd(t, cs, 0, 0, 0);
    var r := Find(t, cs);
    var e := Lookup(Listing(t.imgs[r.dir]), cs[r.depth - 1]).e;
    assert DirOk(t, r.dir) && DirOk(t, 0);
    var k, j := ListedAt(t, r.dir, e);
    NotDots(t, r.dir, e);
    assert EntryOk(t, r.dir, k, j);
    assert NamedOk(t, r.ino);
  }

  /** search_file reports the directory that names the one found exactly when the path does not end in
      "." or "..": what sys_rmdir relies on. */
  lemma AboveNames(t: Tree, cs: seq<string>)
    requires TreeOk(t) && cs != [] && Find(t, cs).DirAt? && Find(t, cs).ino != 0
    ensures var r := Find(t, cs);
            && NamedOk(t, r.ino) && r.ino in t.imgs && r.ino in t.live
            && (t.place[r.ino].0 == r.above <==> cs[|cs| - 1] != "." && cs[|cs| - 1] != "..")
  {
    var n := |cs| - 1;
    var pre, c := cs[..n], cs[n];
    assert pre + [c] == cs;
    WalkAppend(t, pre, c, 0, 0, 0);
    WalkDepth(t, pre, 0, 0, 0);
    var d := Find(t, pre).ino;
    assert DirOk(t, d);
    var e := Lookup(Listing(t.imgs[d]), c).e;
    LastStep(t, d, e);
    Parent(t, e.ino);
  }

  /** An entry leads down to a directory it names; "." and ".." do not. */
  lemma LastStep(t: Tree, d: nat, e: Entry)
    requires TreeOk(t) && d in t.imgs && DirOk(t, d) && e in Listing(t.imgs[d]) && e.ino in t.imgs && e.ino != 0
    ensures NamedOk(t, e.ino) && (t.place[e.ino].0 == d <==> e.name != "." && e.name != "..")
  {
    var k, j := ListedAt(t, d, e);
    assert EntryOk(t, d, k, j);
    Parent(t, e.ino);
    if d != 0 {
      Parent(t, d);
    }
  }
}
