/**
 Who still uses a pipe (sys_pipe in shell/pipe.c, sys_close in fs/fs.c, update_inode_open_cnts in
 userprog/fork.c, the descriptors part of release_prog_resource in userprog/wait_exit.c): the file
 position of a pipe slot counts the descriptors that refer to it.  A slot of a regular file has no such
 count: whoever closes it first frees it.
 */
module PipeRefs {
  import opened Descriptors

  /** A slot of file_table: free, a regular file, or a pipe with its count and its page. */
  datatype Slot = Free | File | Pipe(refs: nat)

  /** The descriptor tables of the processes, and file_table. */
  datatype State = State(procs: seq<seq<int>>, table: seq<Slot>)

  /** Descriptors from 3 up to `n` that refer to slot `g`. */
  function CountIn(fds: seq<int>, g: int, n: nat): (c: nat)
    requires n <= |fds|
  {
    if n <= 3 then 0 else CountIn(fds, g, n - 1) + if fds[n - 1] == g then 1 else 0
  }

  /** The live (process, descriptor) pairs that refer to slot `g`. */
  function Count(procs: seq<seq<int>>, g: int): (c: nat)
    requires forall i :: 0 <= i < |procs| ==> |procs[i]| == 8
  {
    if procs == [] then 0 else Count(procs[..|procs| - 1], g) + CountIn(procs[|procs| - 1], g, 8)
  }

  predicate FdsOk(fds: seq<int>) {
    |fds| == 8 && forall f :: 3 <= f < 8 ==> fds[f] == -1 || 3 <= fds[f] < 32
  }

  /** Descriptors are -1 or numbers of slots, and no pipe has the count 0. */
  ghost predicate Shape(s: State) {
    && |s.table| == 32 && (forall i :: 0 <= i < |s.procs| ==> FdsOk(s.procs[i]))
    && forall g :: 3 <= g < 32 ==> s.table[g] != Pipe(0)
  }

  /** The count of a pipe is the number of its live descriptors. */
  predicate Right(slot: Slot, n: nat) {
    slot.Pipe? ==> slot.refs == n
  }

  /** The rule: every pipe counts its descriptors, and a pipe without descriptors does not exist. */
  ghost predicate PipesOk(s: State) {
    Shape(s) && forall g :: 3 <= g < 32 ==> Right(s.table[g], Count(s.procs, g))
  }

  // ----- counting

  lemma {:induction false} CountInUpdate(fds: seq<int>, f: nat, v: int, g: int, n: nat)
    requires 3 <= f < |fds| && n <= |fds|
    ensures CountIn(fds[f := v], g, n) == CountIn(fds, g, n) + if f < n
            then (if v == g then 1 else 0) - (if fds[f] == g then 1 else 0) else 0
  {
    if n > 3 { CountInUpdate(fds, f, v, g, n - 1); }
  }

  lemma {:induction false} CountUpdate(procs: seq<seq<int>>, i: nat, fds: seq<int>, g: int)
    requires i < |procs| && |fds| == 8 && forall j :: 0 <= j < |procs| ==> |procs[j]| == 8
    ensures Count(procs[i := fds], g) == Count(procs, g) - CountIn(procs[i], g, 8) + CountIn(fds, g, 8)
  {
    var n := |procs| - 1;
    if i < n {
      CountUpdate(procs[..n], i, fds, g);
      assert procs[i := fds][..n] == procs[..n][i := fds];
    } else {
      assert procs[i := fds][..n] == procs[..n];
    }
  }

  lemma CountAppend(procs: seq<seq<int>>, fds: seq<int>, g: int)
    requires |fds| == 8 && forall j :: 0 <= j < |procs| ==> |procs[j]| == 8
    ensures Count(procs + [fds], g) == Count(procs, g) + CountIn(fds, g, 8)
  {
    assert (procs + [fds])[..|procs|] == procs;
  }

  lemma {:induction false} CountRemove(procs: seq<seq<int>>, i: nat, g: int)
    requires i < |procs| && forall j :: 0 <= j < |procs| ==> |procs[j]| == 8
    ensures Count(procs[..i] + procs[i + 1..], g) == Count(procs, g) - CountIn(procs[i], g, 8)
  {
    var n := |procs| - 1;
    if i < n {
      CountRemove(procs[..n], i, g);
      var rest := procs[..i] + procs[i + 1..];
      assert rest[..|rest| - 1] == procs[..n][..i] + procs[..n][i + 1..];
    } else {
      assert procs[..i] + procs[i + 1..] == procs[..n];
    }
  }

  lemma {:induction false} CountPositive(procs: seq<seq<int>>, i: nat, f: nat, g: int)
    requires i < |procs| && (forall j :: 0 <= j < |procs| ==> |procs[j]| == 8) && 3 <= f < 8 && procs[i][f] == g
    ensures Count(procs, g) >= CountIn(procs[i], g, 8) >= 1
  {
    var n := |procs| - 1;
    if i < n {
      CountPositive(procs[..n], i, f, g);
    }
    CountInPositive(procs[i], f, g, 8);
  }

  lemma {:induction false} CountInPositive(fds: seq<int>, f: nat, g: int, n: nat)
    requires 3 <= f < n <= |fds| && fds[f] == g
    ensures CountIn(fds, g, n) >= 1
  {
    if f < n - 1 { CountInPositive(fds, f, g, n - 1); }
  }

  lemma {:induction false} NoCount(fds: seq<int>, g: int, n: nat)
    requires n <= |fds| && forall f :: 3 <= f < n ==> fds[f] != g
    ensures CountIn(fds, g, n) == 0
  {
    if n > 3 { NoCount(fds, g, n - 1); }
  }

  // ----- a slot and a descriptor

  /** The lowest free slot from `g` on, or 32. */
  function SlotFrom(table: seq<Slot>, g: nat): (h: nat)
    requires |table| == 32 && g <= 32
    ensures g <= h <= 32 && (h < 32 ==> table[h] == Free) && forall x :: g <= x < h ==> table[x] != Free
    decreases 32 - g
  {
    if g == 32 || table[g] == Free then g else SlotFrom(table, g + 1)
  }

  /** Which slots are in use. */
  function Used(table: seq<Slot>): (used: seq<bool>)
    ensures |used| == |table| && forall g :: 0 <= g < |table| ==> used[g] == (table[g] != Free)
  {
    seq(|table|, g requires 0 <= g < |table| => table[g] != Free)
  }

  /** get_free_slot_in_global */
  method NewSlot(table: seq<Slot>) returns (g: nat)
    requires |table| == 32
    ensures g == SlotFrom(table, 3)
  {
    g := FreeSlot(Used(table));
    assert forall x :: 3 <= x < g ==> Used(table)[x];
    assert g < 32 ==> !Used(table)[g];
  }

  /** The lowest free descriptor from `f` on, or 8. */
  function FdFrom(fds: seq<int>, f: nat): (h: nat)
    requires |fds| == 8 && f <= 8
    ensures f <= h <= 8 && (h < 8 ==> fds[h] == -1) && forall x :: f <= x < h ==> fds[x] != -1
    decreases 8 - f
  {
    if f == 8 || fds[f] == -1 then f else FdFrom(fds, f + 1)
  }

  /** pcb_fd_install: the slot goes to the lowest free descriptor, if there is one. */
  function Fill(fds: seq<int>, g: int): (fds1: seq<int>)
    requires |fds| == 8
    ensures |fds1| == 8
  {
    var f := FdFrom(fds, 3);
    if f < 8 then fds[f := g] else fds
  }

  method NewFd(fds: seq<int>, g: int) returns (fds1: seq<int>)
    requires |fds| == 8
    ensures fds1 == Fill(fds, g)
  {
    var f;
    fds1, f := Install(fds, g);
    assert f == FdFrom(fds, 3);
  }

  /** Free descriptors. */
  function FreeFds(fds: seq<int>): (n: nat)
    requires |fds| == 8
  {
    CountIn(fds, -1, 8)
  }

  lemma FillCount(fds: seq<int>, g: int, h: int)
    requires |fds| == 8 && g != -1
    ensures CountIn(Fill(fds, g), h, 8) ==
            CountIn(fds, h, 8) + if FreeFds(fds) == 0 then 0 else if h == g then 1 else if h == -1 then -1 else 0
  {
    var f := FdFrom(fds, 3);
    if f < 8 {
      CountInUpdate(fds, f, g, h, 8);
      CountInPositive(fds, f, -1, 8);
    } else {
      NoCount(fds, -1, 8);
    }
  }

  // ----- sys_pipe

  /** Descriptors that sys_pipe gets for its slot: two if there are two. */
  function PipeFds(fds: seq<int>): (n: nat)
    requires |fds| == 8
  {
    if FreeFds(fds) < 2 then FreeFds(fds) else 2
  }

  /** sys_pipe, where it finds a slot. */
  function Piped(s: State, i: nat): (s1: State)
    requires |s.table| == 32 && i < |s.procs| && |s.procs[i]| == 8
  {
    var g := SlotFrom(s.table, 3);
    if g == 32 then s else State(s.procs[i := Fill(Fill(s.procs[i], g), g)], s.table[g := Pipe(2)])
  }

  lemma PipedCount(s: State, i: nat, h: nat)
    requires Shape(s) && i < |s.procs| && SlotFrom(s.table, 3) < 32
    ensures Shape(Piped(s, i))
    ensures Count(Piped(s, i).procs, h) == Count(s.procs, h) + if h == SlotFrom(s.table, 3)
            then PipeFds(s.procs[i]) else 0
  {
    var g, fds := SlotFrom(s.table, 3), s.procs[i];
    var once := Fill(fds, g);
    CountUpdate(s.procs, i, Fill(once, g), h);
    FillCount(fds, g, h);
    FillCount(fds, g, -1);
    FillCount(once, g, h);
  }

  /** The count of the new pipe is right exactly when the descriptors that already refer to its slot and
      those it gets are two. */
  lemma PipedRight(s: State, i: nat)
    requires PipesOk(s) && i < |s.procs| && SlotFrom(s.table, 3) < 32
    ensures PipesOk(Piped(s, i)) <==> Count(s.procs, SlotFrom(s.table, 3)) + PipeFds(s.procs[i]) == 2
  {
    var g, s1 := SlotFrom(s.table, 3), Piped(s, i);
    PipedCount(s, i, g);
    forall h | 3 <= h < 32 && h != g ensures Right(s1.table[h], Count(s1.procs, h)) {
      PipedCount(s, i, h);
      assert Right(s.table[h], Count(s.procs, h));
    }
    assert Right(s1.table[g], Count(s1.procs, g)) <==> Count(s.procs, g) + PipeFds(s.procs[i]) == 2;
  }

  /** sys_pipe with a free slot and two free descriptors: the count is right exactly when no descriptor
      still refers to the slot. */
  method MakePipe(s: State, i: nat) returns (s1: State, g: nat)
    requires Shape(s) && i < |s.procs| && SlotFrom(s.table, 3) < 32
    ensures g == SlotFrom(s.table, 3) && s1 == Piped(s, i) && Shape(s1)
    ensures PipesOk(s) && FreeFds(s.procs[i]) >= 2 ==> (PipesOk(s1) <==> Count(s.procs, g) == 0)
    ensures PipesOk(s) && Count(s.procs, g) == 0 ==> (PipesOk(s1) <==> FreeFds(s.procs[i]) >= 2)
  {
    g := NewSlot(s.table);
    var fds := NewFd(s.procs[i], g);
    fds := NewFd(fds, g);
    s1 := State(s.procs[i := fds], s.table[g := Pipe(2)]);
    PipedCount(s, i, 3);
    if PipesOk(s) {
      PipedRight(s, i);
    }
  }

  // ----- sys_close

  /** A slot with `n` references less: the page of a pipe goes with the last one, a file with the first. */
  function Drained(slot: Slot, n: nat): (r: Slot) {
    match slot
    case Pipe(m) => if m <= n then Free else Pipe(m - n)
    case File => if n > 0 then Free else File
    case Free => Free
  }

  /** sys_close of a descriptor whose slot is in use. */
  function Closed(s: State, i: nat, f: nat): (s1: State)
    requires |s.table| == 32 && i < |s.procs| && 3 <= f < |s.procs[i]| && 0 <= s.procs[i][f] < 32
  {
    var g := s.procs[i][f];
    State(s.procs[i := s.procs[i][f := -1]], s.table[g := Drained(s.table[g], 1)])
  }

  lemma ClosedRight(s: State, i: nat, f: nat)
    requires PipesOk(s) && i < |s.procs| && 3 <= f < 8 && s.procs[i][f] != -1
    ensures PipesOk(Closed(s, i, f))
    ensures s.table[s.procs[i][f]].Pipe? ==>
              (Closed(s, i, f).table[s.procs[i][f]] == Free <==> Count(Closed(s, i, f).procs, s.procs[i][f]) == 0)
  {
    var g, s1 := s.procs[i][f], Closed(s, i, f);
    forall h | 3 <= h < 32 ensures Count(s1.procs, h) == Count(s.procs, h) - if h == g then 1 else 0 {
      CountUpdate(s.procs, i, s.procs[i][f := -1], h);
      CountInUpdate(s.procs[i], f, -1, h, 8);
    }
    forall h | 3 <= h < 32 ensures Right(s1.table[h], Count(s1.procs, h)) {
      assert Right(s.table[h], Count(s.procs, h));
    }
  }

  /** sys_close */
  method Close(s: State, i: nat, f: nat) returns (s1: State)
    requires Shape(s) && i < |s.procs| && 3 <= f < 8 && s.procs[i][f] != -1 && s.table[s.procs[i][f]] != Free
    ensures s1 == Closed(s, i, f) && Shape(s1) && (PipesOk(s) ==> PipesOk(s1))
    ensures var g := s.procs[i][f]; PipesOk(s) && s.table[g].Pipe? ==>
            (s1.table[g] == Free <==> Count(s1.procs, g) == 0)
  {
    var g := s.procs[i][f];
    if PipesOk(s) {
      ClosedRight(s, i, f);
    }
    var slot := s.table[g];
    if slot.Pipe? {
      slot := slot.(refs := slot.refs - 1);
      if slot.refs == 0 {
        slot := Free;
      }
    } else {
      slot := Free;
    }
    s1 := State(s.procs[i := s.procs[i][f := -1]], s.table[g := slot]);
  }

  // ----- sys_open of a regular file

  /** A slot for a regular file, and a descriptor; without a descriptor the slot stays taken. */
  function OpenedFile(s: State, i: nat): (s1: State)
    requires |s.table| == 32 && i < |s.procs| && |s.procs[i]| == 8
  {
    var g := SlotFrom(s.table, 3);
    if g == 32 then s else State(s.procs[i := Fill(s.procs[i], g)], s.table[g := File])
  }

  lemma OpenedCount(s: State, i: nat, h: nat)
    requires Shape(s) && i < |s.procs| && SlotFrom(s.table, 3) < 32
    ensures Shape(OpenedFile(s, i))
    ensures Count(OpenedFile(s, i).procs, h) == Count(s.procs, h) + if h == SlotFrom(s.table, 3)
            && FreeFds(s.procs[i]) > 0 then 1 else 0
  {
    var g := SlotFrom(s.table, 3);
    CountUpdate(s.procs, i, Fill(s.procs[i], g), h);
    FillCount(s.procs[i], g, h);
  }

  lemma OpenedRight(s: State, i: nat)
    requires PipesOk(s) && i < |s.procs|
    ensures PipesOk(OpenedFile(s, i))
  {
    var g, s1 := SlotFrom(s.table, 3), OpenedFile(s, i);
    if g < 32 {
      forall h | 3 <= h < 32 ensures Right(s1.table[h], Count(s1.procs, h)) {
        OpenedCount(s, i, h);
        assert Right(s.table[h], Count(s.procs, h));
      }
      OpenedCount(s, i, g);
    }
  }

  /** The table side of sys_open. */
  method Open(s: State, i: nat) returns (s1: State)
    requires Shape(s) && i < |s.procs|
    ensures s1 == OpenedFile(s, i) && Shape(s1) && (PipesOk(s) ==> PipesOk(s1))
  {
    if PipesOk(s) {
      OpenedRight(s, i);
    }
    var g := NewSlot(s.table);
    s1 := s;
    if g < 32 {
      var fds := NewFd(s.procs[i], g);
      s1 := State(s.procs[i := fds], s.table[g := File]);
    }
  }

  // ----- fork

  /** A slot after `n` descriptors of the child were counted. */
  function More(a: Slot, n: nat): (b: Slot) {
    if a.Pipe? then Pipe(a.refs + n) else a
  }

  /** update_inode_open_cnts: a pipe gets one reference more for every descriptor of the child; for a
      regular file only the open count of its inode changes. */
  method CountChild(table0: seq<Slot>, fds: seq<int>) returns (table: seq<Slot>)
    requires |table0| == 32 && FdsOk(fds)
    ensures |table| == 32 && forall g :: 0 <= g < 32 ==> table[g] == More(table0[g], CountIn(fds, g, 8))
  {
    table := table0;
    var f := 3;
    while f < 8
      invariant 3 <= f <= 8 && |table| == 32
      invariant forall g :: 0 <= g < 32 ==> table[g] == More(table0[g], CountIn(fds, g, f))
    {
      var g := fds[f];
      assert g < 32;
      if g != -1 && table[g].Pipe? {
        table := table[g := Pipe(table[g].refs + 1)];
      }
      f := f + 1;
    }
  }

  function Forked(s: State, i: nat): (s1: State)
    requires |s.table| == 32 && i < |s.procs| && |s.procs[i]| == 8
  {
    State(s.procs + [s.procs[i]], seq(32, g requires 0 <= g < 32 => More(s.table[g], CountIn(s.procs[i], g, 8))))
  }

  /** The counts of all pipes are right after a fork, whatever files are open. */
  lemma ForkedRight(s: State, i: nat)
    requires PipesOk(s) && i < |s.procs|
    ensures PipesOk(Forked(s, i))
  {
    var s1 := Forked(s, i);
    forall g | 3 <= g < 32 ensures Right(s1.table[g], Count(s1.procs, g)) {
      CountAppend(s.procs, s.procs[i], g);
      assert Right(s.table[g], Count(s.procs, g));
    }
  }

  /** fork: after it the count of every pipe is the number of its descriptors, those of the child included. */
  method Fork(s: State, i: nat) returns (s1: State)
    requires Shape(s) && i < |s.procs|
    ensures s1 == Forked(s, i) && Shape(s1) && (PipesOk(s) ==> PipesOk(s1))
  {
    if PipesOk(s) {
      ForkedRight(s, i);
    }
    var table := CountChild(s.table, s.procs[i]);
    s1 := State(s.procs + [s.procs[i]], table);
  }

  // ----- exit

  /** The descriptors of a process can be closed one after the other: each finds its slot in use. */
  predicate CanClose(table: seq<Slot>, fds: seq<int>) {
    && |table| == 32 && FdsOk(fds)
    && forall g :: 3 <= g < 32 ==> CountIn(fds, g, 8) <= match table[g] case Free => 0 case File => 1 case Pipe(n) => n
  }

  /** The loop of release_prog_resource over the descriptors. */
  method ReleaseAll(table0: seq<Slot>, fds: seq<int>) returns (table: seq<Slot>)
    requires CanClose(table0, fds) && forall g :: 3 <= g < 32 ==> table0[g] != Pipe(0)
    ensures |table| == 32 && (forall g :: 0 <= g < 3 ==> table[g] == table0[g])
    ensures forall g :: 3 <= g < 32 ==> table[g] == Drained(table0[g], CountIn(fds, g, 8))
  {
    table := table0;
    var f := 3;
    while f < 8
      invariant 3 <= f <= 8 && |table| == 32 && (forall g :: 0 <= g < 3 ==> table[g] == table0[g])
      invariant forall g :: 3 <= g < 32 ==> table[g] == Drained(table0[g], CountIn(fds, g, f))
    {
      var g := fds[f];
      if g != -1 {
        CountMonotone(fds, g, f + 1);
        if table[g].Pipe? {
          var n := table[g].refs - 1;
          table := table[g := if n == 0 then Free else Pipe(n)];
        } else {
          table := table[g := Free];
        }
      }
      f := f + 1;
    }
  }

  lemma {:induction false} CountMonotone(fds: seq<int>, g: int, n: nat)
    requires n <= 8 == |fds|
    ensures CountIn(fds, g, n) <= CountIn(fds, g, 8)
    decreases 8 - n
  {
    if n < 8 { CountMonotone(fds, g, n + 1); }
  }

  function Exited(s: State, i: nat): (s1: State)
    requires |s.table| == 32 && i < |s.procs| && |s.procs[i]| == 8
  {
    State(s.procs[..i] + s.procs[i + 1..],
          seq(32, g requires 0 <= g < 32 => if g < 3 then s.table[g]
            else Drained(s.table[g], CountIn(s.procs[i], g, 8))))
  }

  lemma ExitedRight(s: State, i: nat)
    requires PipesOk(s) && i < |s.procs|
    ensures PipesOk(Exited(s, i))
  {
    var s1 := Exited(s, i);
    forall g | 3 <= g < 32 ensures Right(s1.table[g], Count(s1.procs, g)) {
      CountRemove(s.procs, i, g);
      assert Right(s.table[g], Count(s.procs, g));
    }
  }

  /** The exit of process `i`. */
  method Exit(s: State, i: nat) returns (s1: State)
    requires Shape(s) && i < |s.procs| && CanClose(s.table, s.procs[i])
    ensures s1 == Exited(s, i) && Shape(s1) && (PipesOk(s) ==> PipesOk(s1))
    ensures PipesOk(s) ==> forall g :: 3 <= g < 32 && s.table[g].Pipe? ==>
            (s1.table[g] == Free <==> Count(s1.procs, g) == 0)
  {
    if PipesOk(s) {
      ExitedRight(s, i);
      forall g | 3 <= g < 32 && s.table[g].Pipe?
        ensures Exited(s, i).table[g] == Free <==> Count(Exited(s, i).procs, g) == 0
      {
        CountRemove(s.procs, i, g);
        assert Right(s.table[g], Count(s.procs, g));
      }
    }
    var table := ReleaseAll(s.table, s.procs[i]);
    s1 := State(s.procs[..i] + s.procs[i + 1..], table);
    assert s1.table == Exited(s, i).table;
  }

  // ----- runs

  /** What process `i` does. */
  datatype Act = DoPipe(i: nat) | DoOpen(i: nat) | DoClose(i: nat, f: nat) | DoFork(i: nat) | DoExit(i: nat)

  /** Every descriptor of the process refers to a slot in use. */
  predicate InUse(table: seq<Slot>, fds: seq<int>) {
    |table| == 32 && FdsOk(fds) && forall f :: 3 <= f < 8 && fds[f] != -1 ==> table[fds[f]] != Free
  }

  /** The code finds the slots it takes for granted: a free one for a pipe, used ones behind descriptors. */
  predicate Possible(s: State, a: Act)
    requires |s.table| == 32 && forall i :: 0 <= i < |s.procs| ==> FdsOk(s.procs[i])
  {
    && a.i < |s.procs|
    && match a
       case DoPipe(i) => SlotFrom(s.table, 3) < 32
       case DoOpen(i) => true
       case DoClose(i, f) => FdsOk(s.procs[i]) && 3 <= f < 8 && s.procs[i][f] != -1 && s.table[s.procs[i][f]] != Free
       case DoFork(i) => InUse(s.table, s.procs[i])
       case DoExit(i) => CanClose(s.table, s.procs[i])
  }

  /** The step function; an act that is not possible is not done. */
  ghost function Next(s: State, a: Act): (s1: State)
    requires Shape(s)
  {
    if !Possible(s, a) then s
    else match a
      case DoPipe(i) => Piped(s, i)
      case DoOpen(i) => OpenedFile(s, i)
      case DoClose(i, f) => Closed(s, i, f)
      case DoFork(i) => Forked(s, i)
      case DoExit(i) => Exited(s, i)
  }

  /** The act makes a pipe whose descriptors, old ones of its slot and new ones, are not two. */
  ghost predicate Miscounts(s: State, a: Act)
    requires Shape(s)
  {
    a.DoPipe? && Possible(s, a) && Count(s.procs, SlotFrom(s.table, 3)) + PipeFds(s.procs[a.i]) != 2
  }

  /** Of all acts only such a pipe makes a count wrong. */
  lemma NextRight(s: State, a: Act)
    requires PipesOk(s)
    ensures Shape(Next(s, a)) && (PipesOk(Next(s, a)) <==> !Miscounts(s, a))
  {
    if Possible(s, a) {
      match a
      case DoPipe(i) =>
        PipedCount(s, i, 3);
        PipedRight(s, i);
      case DoOpen(i) => OpenedRight(s, i);
      case DoClose(i, f) => ClosedRight(s, i, f);
      case DoFork(i) => ForkedRight(s, i);
      case DoExit(i) => ExitedRight(s, i);
    }
  }

  /** Every act leaves descriptors that are -1 or numbers of slots. */
  lemma NextShape(s: State, a: Act)
    requires Shape(s)
    ensures Shape(Next(s, a))
  {
    if Possible(s, a) && a.DoPipe? {
      PipedCount(s, a.i, 3);
    }
  }

  /** The state after all acts. */
  ghost function After(s: State, acts: seq<Act>): (s1: State)
    requires Shape(s)
    ensures Shape(s1)
  {
    if acts == [] then s
    else
      var n := |acts| - 1;
      NextShape(After(s, acts[..n]), acts[n]); Next(After(s, acts[..n]), acts[n])
  }

  /** Act `n` of a run makes a pipe that is counted wrong. */
  ghost predicate MiscountsAt(s: State, acts: seq<Act>, n: nat)
    requires Shape(s)
  {
    n < |acts| && Miscounts(After(s, acts[..n]), acts[n])
  }

  lemma AfterOne(s: State, acts: seq<Act>, n: nat)
    requires Shape(s) && n < |acts|
    ensures After(s, acts[..n + 1]) == Next(After(s, acts[..n]), acts[n])
  {
    assert acts[..n + 1][..n] == acts[..n];
  }

  lemma {:induction false} RightTo(s: State, acts: seq<Act>, n: nat)
    requires PipesOk(s) && n <= |acts| && forall k: nat :: k < n ==> !MiscountsAt(s, acts, k)
    ensures PipesOk(After(s, acts[..n]))
  {
    if n > 0 {
      RightTo(s, acts, n - 1);
      AfterOne(s, acts, n - 1);
      assert !MiscountsAt(s, acts, n - 1);
      NextRight(After(s, acts[..n - 1]), acts[n - 1]);
    }
  }

  /** The counts of all pipes are right throughout a run exactly if it makes no pipe that is counted wrong. */
  lemma RunRight(s: State, acts: seq<Act>)
    requires PipesOk(s)
    ensures (forall n: nat :: n <= |acts| ==> PipesOk(After(s, acts[..n]))) <==>
            forall k: nat :: k < |acts| ==> !MiscountsAt(s, acts, k)
  {
    if forall k: nat :: k < |acts| ==> !MiscountsAt(s, acts, k) {
      forall n: nat | n <= |acts| ensures PipesOk(After(s, acts[..n])) {
        RightTo(s, acts, n);
      }
    } else {
      var k: nat :| k < |acts| && MiscountsAt(s, acts, k);
      if PipesOk(After(s, acts[..k])) {
        NextRight(After(s, acts[..k]), acts[k]);
        AfterOne(s, acts, k);
        assert !PipesOk(After(s, acts[..k + 1]));
      }
    }
  }

  /** One process, the first three descriptors standard, no file open. */
  function Start(): (s: State) {
    State([[0, 1, 2, -1, -1, -1, -1, -1]], seq(32, _ => Free))
  }

  lemma StartRight()
    ensures Tidy(Start())
  {
    var s := Start();
    forall g | 3 <= g < 32 ensures Count(s.procs, g) == 0 {
      NoCount(s.procs[0], g, 8);
      CountAppend([], s.procs[0], g);
      assert [] + [s.procs[0]] == s.procs;
    }
  }

  /** The descriptor tables and file_table, changed by one act after another. */
  class Files {
    var s: State

    constructor ()
      ensures Shape(s) && s == Start()
    {
      StartRight();
      s := Start();
    }

    /** One act; one that is not possible is not done. */
    method Do(a: Act)
      requires Shape(s)
      modifies this
      ensures Shape(s) && s == Next(old(s), a)
    {
      if !Possible(s, a) {
        return;
      }
      match a
      case DoPipe(i) =>
        var s1, g := MakePipe(s, i);
        s := s1;
      case DoOpen(i) =>
        var s1 := Open(s, i);
        s := s1;
      case DoClose(i, f) =>
        var s1 := Close(s, i, f);
        s := s1;
      case DoFork(i) =>
        var s1 := Fork(s, i);
        s := s1;
      case DoExit(i) =>
        var s1 := Exit(s, i);
        s := s1;
    }

    /** The acts one after the other. */
    method Run(acts: seq<Act>)
      requires Shape(s)
      modifies this
      ensures Shape(s) && s == After(old(s), acts)
    {
      var n := 0;
      while n < |acts|
        invariant 0 <= n <= |acts| && Shape(s) && s == After(old(s), acts[..n])
      {
        AfterOne(old(s), acts, n);
        Do(acts[n]);
        n := n + 1;
      }
      assert acts[..n] == acts;
    }
  }

  // ----- slots of regular files

  /** No descriptor refers to a free slot, and at most one to that of a regular file. */
  ghost predicate Tidy(s: State) {
    && PipesOk(s)
    && forall g :: 3 <= g < 32 ==> TidySlot(s.table[g], Count(s.procs, g))
  }

  predicate TidySlot(slot: Slot, n: nat) {
    (slot == Free ==> n == 0) && (slot == File ==> n <= 1)
  }

  /** The process has no regular file open. */
  ghost predicate OnlyPipes(s: State, fds: seq<int>) {
    |fds| == 8 && |s.table| == 32 && forall f :: 3 <= f < 8 && 3 <= fds[f] < 32 ==> s.table[fds[f]].Pipe?
  }

  /** A fork shares slots of regular files exactly if the parent has one open. */
  lemma ForkTidy(s: State, i: nat)
    requires Tidy(s) && i < |s.procs|
    ensures Tidy(Forked(s, i)) <==> OnlyPipes(s, s.procs[i])
  {
    var fds, s1 := s.procs[i], Forked(s, i);
    ForkedRight(s, i);
    if OnlyPipes(s, fds) {
      forall g | 3 <= g < 32 ensures TidySlot(s1.table[g], Count(s1.procs, g)) {
        CountAppend(s.procs, fds, g);
        assert TidySlot(s.table[g], Count(s.procs, g));
        if !s.table[g].Pipe? {
          assert forall f :: 3 <= f < 8 ==> fds[f] != g;
          NoCount(fds, g, 8);
        }
      }
    } else {
      var f :| 3 <= f < 8 && 3 <= fds[f] < 32 && !s.table[fds[f]].Pipe?;
      var g := fds[f];
      CountPositive(s.procs, i, f, g);
      CountAppend(s.procs, fds, g);
      assert TidySlot(s.table[g], Count(s.procs, g));
      assert !TidySlot(s1.table[g], Count(s1.procs, g));
    }
  }

  /** As long as no fork shares a regular file and every pipe finds two descriptors, no descriptor refers
      to a free slot, and so the counts of pipes are right. */
  lemma TidyNext(s: State, a: Act)
    requires Tidy(s) && (a.DoFork? && a.i < |s.procs| ==> OnlyPipes(s, s.procs[a.i]))
    requires a.DoPipe? && a.i < |s.procs| ==> FreeFds(s.procs[a.i]) >= 2
    ensures !Miscounts(s, a) && Tidy(Next(s, a))
  {
    assert forall g :: 3 <= g < 32 ==> TidySlot(s.table[g], Count(s.procs, g));
    NextRight(s, a);
    if Possible(s, a) {
      var s1 := Next(s, a);
      if a.DoFork? {
        ForkTidy(s, a.i);
      } else {
        forall g | 3 <= g < 32 ensures TidySlot(s1.table[g], Count(s1.procs, g)) {
          TidyCount(s, a, g);
        }
      }
    }
  }

  /** The act shares no slot of a regular file and, if it makes a pipe, finds two descriptors for it. */
  ghost predicate Careful(s: State, a: Act)
    requires Shape(s)
  {
    a.i < |s.procs| ==> (a.DoFork? ==> OnlyPipes(s, s.procs[a.i])) && (a.DoPipe? ==> FreeFds(s.procs[a.i]) >= 2)
  }

  /** Act `k` of a run from the start is of that kind. */
  ghost predicate CarefulAt(acts: seq<Act>, k: nat)
    requires Shape(Start())
  {
    k < |acts| && Careful(After(Start(), acts[..k]), acts[k])
  }

  /** In every run of such acts from the start the counts of all pipes are right throughout. */
  lemma {:induction false} TidyRun(acts: seq<Act>, n: nat)
    requires Shape(Start()) && n <= |acts| && forall k: nat :: k < n ==> CarefulAt(acts, k)
    ensures Tidy(After(Start(), acts[..n])) && PipesOk(After(Start(), acts[..n]))
  {
    if n == 0 {
      StartRight();
    } else {
      TidyRun(acts, n - 1);
      AfterOne(Start(), acts, n - 1);
      assert CarefulAt(acts, n - 1);
      TidyNext(After(Start(), acts[..n - 1]), acts[n - 1]);
    }
  }

  lemma TidyCount(s: State, a: Act, g: nat)
    requires Tidy(s) && Possible(s, a) && !a.DoFork? && (a.DoPipe? ==> FreeFds(s.procs[a.i]) >= 2) && 3 <= g < 32
    ensures Shape(Next(s, a)) && TidySlot(Next(s, a).table[g], Count(Next(s, a).procs, g))
  {
    NextShape(s, a);
    assert TidySlot(s.table[g], Count(s.procs, g)) && Right(s.table[g], Count(s.procs, g));
    match a
    case DoPipe(i) => PipedCount(s, i, g);
    case DoOpen(i) =>
      if SlotFrom(s.table, 3) < 32 {
        OpenedCount(s, i, g);
      }
    case DoClose(i, f) =>
      CountUpdate(s.procs, i, s.procs[i][f := -1], g);
      CountInUpdate(s.procs[i], f, -1, g, 8);
    case DoExit(i) => CountRemove(s.procs, i, g);
    case DoFork(i) =>
  }

  /** A descriptor table with nothing open, and one with slot 3 in descriptor 3. */
  function NoFds(): (fds: seq<int>) {
    [0, 1, 2, -1, -1, -1, -1, -1]
  }

  function OneFd(): (fds: seq<int>) {
    [0, 1, 2, 3, -1, -1, -1, -1]
  }

  /** The states after an open, a fork, and a close by the parent. */
  function Alone(): (s: State) {
    State([OneFd()], Start().table[3 := File])
  }

  function Sharing(): (s: State) {
    State([OneFd(), OneFd()], Start().table[3 := File])
  }

  function Dangling(): (s: State) {
    State([NoFds(), OneFd()], Start().table)
  }

  lemma OpenStep()
    ensures Shape(Start()) && Next(Start(), DoOpen(0)) == Alone()
  {
    StartRight();
    var s := Start();
    assert SlotFrom(s.table, 3) == 3 && FdFrom(s.procs[0], 3) == 3;
    assert Fill(s.procs[0], 3) == OneFd();
  }

  lemma ForkStep()
    ensures Shape(Alone()) && Next(Alone(), DoFork(0)) == Sharing()
  {
    assert Forked(Alone(), 0).table == Alone().table;
    assert Alone().procs + [OneFd()] == Sharing().procs;
  }

  lemma CloseStep()
    ensures Shape(Sharing()) && Next(Sharing(), DoClose(0, 3)) == Dangling()
  {
    assert OneFd()[3 := -1] == NoFds();
    assert Sharing().procs[0 := NoFds()] == Dangling().procs;
    assert Start().table[3 := File][3 := Free] == Start().table;
  }

  lemma PipeStep()
    ensures Shape(Dangling()) && Miscounts(Dangling(), DoPipe(0))
  {
    var s := Dangling();
    CountPositive(s.procs, 1, 3, 3);
    CountInPositive(NoFds(), 3, -1, 4);
    assert CountIn(NoFds(), -1, 5) >= 2;
    CountMonotone(NoFds(), -1, 5);
  }

  /** A process opens a file and forks, one of the two closes the file, and then makes a pipe: it gets the
      slot that the other one still refers to, and its count is 2 where there are three descriptors. */
  lemma SharedSlot()
    ensures PipesOk(Start()) && MiscountsAt(Start(), [DoOpen(0), DoFork(0), DoClose(0, 3), DoPipe(0)], 3)
  {
    StartRight();
    var acts := [DoOpen(0), DoFork(0), DoClose(0, 3), DoPipe(0)];
    assert acts[..0] == [];
    AfterOne(Start(), acts, 0);
    OpenStep();
    AfterOne(Start(), acts, 1);
    ForkStep();
    AfterOne(Start(), acts, 2);
    CloseStep();
    PipeStep();
  }
}
