/**
 Path names (path_parse and path_depth_cnt in fs/fs.c, wash_path and make_clear_abs_path in
 shell/buildin_cmd.c): C string code that equals a stack machine on path components.
 */
module Path {
  // ----- components

  function Flush(cur: string): (cs: seq<string>) {
    if cur == "" then [] else [cur]
  }

  /** The pieces of `p` between slashes, where `cur` has been read of the first one. */
  function Cut(p: string, cur: string): (cs: seq<string>) {
    if p == "" then Flush(cur)
    else if p[0] == '/' then Flush(cur) + Cut(p[1..], "")
    else Cut(p[1..], cur + [p[0]])
  }

  /** The non-empty pieces of a path. */
  function Components(p: string): (cs: seq<string>) {
    Cut(p, "")
  }

  /** A piece of a path: not empty, no slash. */
  predicate Piece(c: string) {
    c != "" && '/' !in c
  }

  predicate Pieces(cs: seq<string>) {
    forall k :: 0 <= k < |cs| ==> Piece(cs[k])
  }

  lemma {:induction false} CutPieces(p: string, cur: string)
    requires '/' !in cur
    ensures Pieces(Cut(p, cur))
    decreases |p|
  {
    if p != "" {
      if p[0] == '/' { CutPieces(p[1..], ""); } else { CutPieces(p[1..], cur + [p[0]]); }
    }
  }

  /** Each component behind a slash. */
  function Join(cs: seq<string>): (p: string)
    ensures p == "" <==> cs == []
    ensures p != "" ==> p[0] == '/'
  {
    if cs == [] then "" else Join(cs[..|cs| - 1]) + "/" + cs[|cs| - 1]
  }

  /** The path of a list of components. */
  function Show(cs: seq<string>): (p: string)
    ensures p != "" && p[0] == '/'
  {
    if cs == [] then "/" else Join(cs)
  }

  lemma {:induction false} CutAppend(p: string, c: string, cur: string)
    requires Piece(c)
    ensures Cut(p + "/" + c, cur) == Cut(p, cur) + [c]
    decreases |p|
  {
    if p == "" {
      assert (p + "/" + c)[1..] == c && "" + c == c;
      CutName(c, "");
    } else {
      assert (p + "/" + c)[1..] == p[1..] + "/" + c;
      if p[0] == '/' { CutAppend(p[1..], c, ""); } else { CutAppend(p[1..], c, cur + [p[0]]); }
    }
  }

  lemma {:induction false} CutName(c: string, cur: string)
    requires '/' !in c
    ensures Cut(c, cur) == Flush(cur + c)
    decreases |c|
  {
    if c != "" {
      CutName(c[1..], cur + [c[0]]);
      assert cur + [c[0]] + c[1..] == cur + c;
    } else {
      assert cur + c == cur;
    }
  }

  /** Components are read back from a path made of them. */
  lemma {:induction false} ShowThenCut(cs: seq<string>)
    requires Pieces(cs)
    ensures Components(Join(cs)) == cs && Components(Show(cs)) == cs
  {
    if cs != [] {
      var n := |cs| - 1;
      ShowThenCut(cs[..n]);
      CutAppend(Join(cs[..n]), cs[n], "");
    } else {
      assert Show(cs)[1..] == "";
    }
  }

  // ----- path_parse

  /** The pointer path_parse returns: null at the end of the string. */
  datatype Rest = End | More(s: string)

  /** Components that are left behind a returned pointer. */
  function Left(rest: Rest): (cs: seq<string>) {
    if rest.End? then [] else Components(rest.s)
  }

  /** The first loop of path_parse: the place behind the leading slashes. */
  method SkipSlashes(p: string) returns (i: nat)
    ensures i <= |p| && Components(p) == Cut(p[i..], "") && (i < |p| ==> p[i] != '/')
  {
    i := 0;
    assert p[0..] == p;
    if |p| > 0 && p[0] == '/' {
      i := 1;
      while i < |p| && p[i] == '/'
        invariant 1 <= i <= |p| && Components(p) == Cut(p[i..], "")
      {
        assert p[i..][1..] == p[i + 1..];
        i := i + 1;
      }
    }
  }

  /** path_parse: the first component, and where to go on. */
  method PathParse(p: string) returns (rest: Rest, name: string)
    ensures Components(p) == Flush(name) + Left(rest)
    ensures name == "" ==> rest == End
    ensures '/' !in name && (rest.More? ==> rest.s != "" && rest.s[0] == '/')
  {
    var i := SkipSlashes(p);
    name := "";
    while i < |p| && p[i] != '/'
      invariant i <= |p| && '/' !in name && Components(p) == Cut(p[i..], name)
      invariant name == "" ==> i == |p| || p[i] != '/'
    {
      assert p[i..][1..] == p[i + 1..];
      name := name + [p[i]];
      i := i + 1;
    }
    if i == |p| {
      rest := End;
    } else {
      rest := More(p[i..]);
    }
  }

  /** path_depth_cnt, whose name buffer starts with whatever was on the stack. */
  method PathDepth(p: string, junk: string) returns (depth: nat)
    ensures Components(p) != [] ==> depth == |Components(p)|
    ensures Components(p) == [] ==> depth == if junk == "" then 0 else 1
  {
    depth := 0;
    var rest, name := PathParse(p);
    if name == "" {
      name := junk;
    }
    while name != ""
      invariant name == "" ==> rest == End
      invariant Components(p) != [] ==> depth + |Flush(name) + Left(rest)| == |Components(p)|
      invariant Components(p) == [] ==> Left(rest) == [] && depth + |Flush(name)| == |Flush(junk)|
      decreases |Flush(name) + Left(rest)|
    {
      depth := depth + 1;
      name := "";
      if rest.More? {
        rest, name := PathParse(rest.s);
      }
    }
  }

  // ----- wash_path

  /** One component on a stack of names: "." stays, ".." pops, any other name is pushed. */
  function Step(st: seq<string>, c: string): (r: seq<string>) {
    if c == "." then st
    else if c == ".." then (if st == [] then [] else st[..|st| - 1])
    else st + [c]
  }

  /** The stack after all components. */
  function Wash(st: seq<string>, cs: seq<string>): (r: seq<string>)
    decreases |cs|
  {
    if cs == [] then st else Wash(Step(st, cs[0]), cs[1..])
  }

  /** strrchr(s, '/') */
  method LastSlash(s: string) returns (i: nat)
    requires '/' in s
    ensures i < |s| && s[i] == '/' && forall k :: i < k < |s| ==> s[k] != '/'
  {
    ghost var w :| 0 <= w < |s| && s[w] == '/';
    i := |s| - 1;
    while s[i] != '/'
      invariant w <= i < |s|
      invariant forall k :: i < k < |s| ==> s[k] != '/'
      decreases i
    {
      i := i - 1;
    }
  }

  /** The last slash is the one before a last component. */
  lemma LastSlashAt(a: string, c: string, p: string, i: nat)
    requires p == a + "/" + c && '/' !in c && i < |p| && p[i] == '/' && forall k :: i < k < |p| ==> p[k] != '/'
    ensures i == |a| && p[..i] == a && p[i..] == "/" + c
  {
    assert p[|a|] == '/';
    assert forall k | |a| < k < |p| :: p[k] == c[k - |a| - 1];
  }

  /** Cutting a shown path at its last slash, or behind it when it is the first character, pops. */
  lemma PopShown(st: seq<string>, i: nat)
    requires Pieces(st) && i < |Show(st)| && Show(st)[i] == '/'
    requires forall k :: i < k < |Show(st)| ==> Show(st)[k] != '/'
    ensures Show(st)[..if i != 0 then i else 1] == Show(Step(st, ".."))
  {
    if st != [] {
      LastSlashAt(Join(st[..|st| - 1]), st[|st| - 1], Join(st), i);
    }
  }

  lemma PushShown(st: seq<string>, name: string)
    requires Pieces(st) && name != "." && name != ".."
    ensures (if Show(st) != "/" then Show(st) + "/" else Show(st)) + name == Show(Step(st, name))
  {
    assert (st + [name])[..|st|] == st;
    if st != [] {
      NotRoot(st);
    }
  }

  /** One round of the loop of wash_path. */
  method WashStep(out0: string, name: string, ghost st: seq<string>) returns (out: string)
    requires out0 == Show(st) && Pieces(st)
    ensures out == Show(Step(st, name))
  {
    out := out0;
    if name == ".." {
      var slash := LastSlash(out);
      PopShown(st, slash);
      if slash != 0 {
        out := out[..slash];
      } else {
        out := out[..1];
      }
    } else if name != "." {
      PushShown(st, name);
      if out != "/" {
        out := out + "/";
      }
      out := out + name;
    }
  }

  lemma NotRoot(st: seq<string>)
    requires Pieces(st) && st != []
    ensures Join(st) != "/"
  {
    assert Piece(st[|st| - 1]);
  }

  /** wash_path equals the stack machine. */
  method WashPath(path: string) returns (out: string)
    requires path != "" && path[0] == '/'
    ensures out == Show(Wash([], Components(path)))
  {
    var rest, name := PathParse(path);
    if name == "" {
      return "/";
    }
    out := "/";
    ghost var st, todo := [], Components(path);
    while name != ""
      invariant '/' !in name && (name == "" ==> rest == End)
      invariant out == Show(st) && Pieces(st)
      invariant todo == Flush(name) + Left(rest) && Wash([], Components(path)) == Wash(st, todo)
      decreases |todo|
    {
      out := WashStep(out, name, st);
      StepPieces(st, name);
      WashOne(st, todo, name, Left(rest));
      st, todo := Step(st, name), Left(rest);
      name := "";
      if rest.More? {
        rest, name := PathParse(rest.s);
      }
    }
  }

  lemma StepPieces(st: seq<string>, c: string)
    requires Pieces(st) && Piece(c)
    ensures Pieces(Step(st, c))
  {
  }

  lemma WashOne(st: seq<string>, todo: seq<string>, c: string, rest: seq<string>)
    requires todo == Flush(c) + rest && c != ""
    ensures Wash(st, todo) == Wash(Step(st, c), rest)
  {
    assert todo[1..] == rest;
  }

  /** A name other than "." and "..". */
  predicate NoDots(cs: seq<string>) {
    forall k :: 0 <= k < |cs| ==> cs[k] != "." && cs[k] != ".."
  }

  lemma {:induction false} WashClean(st: seq<string>, cs: seq<string>)
    requires Pieces(st) && NoDots(st) && Pieces(cs)
    ensures Pieces(Wash(st, cs)) && NoDots(Wash(st, cs))
    decreases |cs|
  {
    if cs != [] {
      assert Piece(cs[0]);
      WashClean(Step(st, cs[0]), cs[1..]);
    }
  }

  lemma {:induction false} WashPlain(st: seq<string>, cs: seq<string>)
    requires NoDots(cs)
    ensures Wash(st, cs) == st + cs
    decreases |cs|
  {
    if cs != [] {
      WashPlain(st + [cs[0]], cs[1..]);
      assert st + [cs[0]] + cs[1..] == st + cs;
    }
  }

  /** Washing twice is washing once, and a washed path has the components it was made of. */
  lemma WashTwice(path: string)
    ensures var cs := Wash([], Components(path));
            Components(Show(cs)) == cs && Wash([], Components(Show(cs))) == cs
  {
    CutPieces(path, "");
    var cs := Wash([], Components(path));
    WashClean([], Components(path));
    ShowThenCut(cs);
    WashPlain([], cs);
  }

  lemma {:induction false} WashSplit(st: seq<string>, a: seq<string>, b: seq<string>)
    ensures Wash(st, a + b) == Wash(Wash(st, a), b)
    decreases |a|
  {
    if a != [] {
      WashSplit(Step(st, a[0]), a[1..], b);
      assert (a + b)[1..] == a[1..] + b;
    } else {
      assert a + b == b;
    }
  }

  /** A list that ends in a name is not washed away. */
  lemma WashEnds(cs: seq<string>)
    requires cs != [] && cs[|cs| - 1] != "." && cs[|cs| - 1] != ".."
    ensures Wash([], cs) != []
  {
    var n := |cs| - 1;
    WashSplit([], cs[..n], [cs[n]]);
    assert cs == cs[..n] + [cs[n]] && [cs[n]][1..] == [];
    var st := Wash([], cs[..n]);
    assert Wash(st, [cs[n]]) == Wash(Step(st, cs[n]), []);
  }

  /** make_clear_abs_path: `path`, taken from the working directory `cwd` unless it starts at the root. */
  method MakeClearAbsPath(path: string, cwd: string, ghost here: seq<string>) returns (out: string)
    requires cwd == Show(here) && Pieces(here) && NoDots(here)
    ensures path != "" && path[0] == '/' ==> out == Show(Wash([], Components(path)))
    ensures path == "" || path[0] != '/' ==> out == Show(Wash(here, Components(path)))
  {
    var abs := "";
    if path == "" || path[0] != '/' {
      abs := cwd;
      if abs != "/" {
        abs := abs + "/";
      }
      AbsComponents(here, path);
      WashSplit([], here, Components(path));
      WashPlain([], here);
      assert [] + here == here;
    }
    assert abs == "" ==> abs + path == path;
    abs := abs + path;
    out := WashPath(abs);
  }

  lemma {:induction false} CutJoined(p: string, q: string, cur: string)
    ensures Cut(p + "/" + q, cur) == Cut(p, cur) + Cut(q, "")
    decreases |p|
  {
    if p == "" {
      assert (p + "/" + q)[1..] == q;
    } else {
      assert (p + "/" + q)[1..] == p[1..] + "/" + q;
      if p[0] == '/' { CutJoined(p[1..], q, ""); } else { CutJoined(p[1..], q, cur + [p[0]]); }
    }
  }

  lemma AbsComponents(here: seq<string>, path: string)
    requires Pieces(here)
    ensures Components((if Show(here) == "/" then "/" else Show(here) + "/") + path) == here + Components(path)
  {
    ShowThenCut(here);
    if here == [] {
      assert "/" + path == "" + "/" + path;
      CutJoined("", path, "");
    } else {
      NotRoot(here);
      CutJoined(Join(here), path, "");
    }
  }
}
