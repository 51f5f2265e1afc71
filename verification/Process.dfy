/**
 fork, wait and exit (userprog/fork.c, userprog/wait_exit.c, the pid pool and thread_exit of
 thread/thread.c).  A system call is left only where it blocks: fork and exit can block in the middle
 while they take or give back memory, so each has a first and a last part.
 */
module Process {
  import opened Bitmap

  /** Running or ready; waiting for a child; exited and not yet reaped. */
  datatype Status = Live | Waiting | Hanging

  /** What a task is in the middle of: nothing, fork with the pid of the child to be, exit, or wait. */
  datatype Phase = Usual | Forking(child: nat) | Exiting | InWait

  /** A task of thread_all_list.  `id` tells apart tasks that had the same pid one after the other. */
  datatype Proc = Proc(id: nat, pid: nat, parent: int, status: Status, phase: Phase, exitStatus: int)

  /** A child was reaped: which one, and the pid and status that wait returned. */
  datatype Reaped = Reaped(id: nat, pid: nat, status: int)

  /** thread_all_list, the pid bitmap, the next identity, and what has happened: the pid and the argument
      of every exit, and every reaping. */
  datatype Table = Table(all: seq<Proc>, bits: seq<bool>, next: nat, exits: map<nat, (nat, int)>, reaped: seq<Reaped>)

  /** The value of an int8_t that an int is assigned to. */
  function Int8(n: int): (r: int)
    ensures -128 <= r < 128 && (n - r) % 256 == 0
  {
    (n + 128) % 256 - 128
  }

  // ----- the rule

  /** The task can still have children: it is listed and has not begun to exit. */
  ghost predicate CanParent(t: Table, pid: int) {
    exists j :: 0 <= j < |t.all| && t.all[j].pid == pid && t.all[j].phase != Exiting
  }

  ghost predicate HasChild(t: Table, pid: int) {
    exists j :: 0 <= j < |t.all| && t.all[j].parent == pid
  }

  /** A child of `pid` has exited and was not reaped. */
  ghost predicate HasHanging(t: Table, pid: int) {
    exists j :: 0 <= j < |t.all| && t.all[j].parent == pid && t.all[j].status == Hanging
  }

  /** A pid in use. */
  ghost predicate Taken(t: Table, pid: nat) {
    1 <= pid <= |t.bits| && t.bits[pid - 1]
  }

  ghost predicate ProcOk(t: Table, i: nat)
    requires i < |t.all|
  {
    var p := t.all[i];
    && Taken(t, p.pid) && p.id < t.next
    && (p.parent == -1 || CanParent(t, p.parent)) && p.parent != p.pid && (p.pid == 1 ==> p.parent == -1)
    && (p.status == Hanging ==> p.phase == Exiting)
    && (p.status == Waiting ==> p.phase == InWait && HasChild(t, p.pid) && (p.pid != 1 ==> !HasHanging(t, p.pid)))
    && (p.phase == Exiting ==> p.parent != -1 && p.id in t.exits && t.exits[p.id].0 == p.pid
                               && p.exitStatus == Int8(t.exits[p.id].1))
    && (p.phase != Exiting ==> p.id !in t.exits)
    && (p.phase.Forking? ==> Taken(t, p.phase.child))
  }

  /** The pid of a task, or the one it has taken for a child, is not that of another. */
  ghost predicate PidsApart(t: Table, i: nat, j: nat)
    requires i < |t.all| && j < |t.all|
  {
    var p, q := t.all[i], t.all[j];
    && (i != j ==> p.pid != q.pid && p.id != q.id)
    && (p.phase.Forking? ==> p.phase.child != q.pid)
    && (i != j && p.phase.Forking? && q.phase.Forking? ==> p.phase.child != q.phase.child)
  }

  /** A reaping tells the pid and the status of a child that had exited and is no longer listed. */
  ghost predicate ReapedOk(t: Table, n: nat)
    requires n < |t.reaped|
  {
    var r := t.reaped[n];
    && r.id in t.exits && r.pid == t.exits[r.id].0 && r.status == Int8(t.exits[r.id].1) && r.id < t.next
    && (forall i :: 0 <= i < |t.all| ==> t.all[i].id != r.id)
    && (forall m :: 0 <= m < |t.reaped| && m != n ==> t.reaped[m].id != r.id)
  }

  ghost predicate TableOk(t: Table) {
    && CanParent(t, 1)
    && (forall i {:trigger ProcOk(t, i)} :: 0 <= i < |t.all| ==> ProcOk(t, i))
    && (forall i, j {:trigger PidsApart(t, i, j)} :: 0 <= i < |t.all| && 0 <= j < |t.all| ==> PidsApart(t, i, j))
    && (forall n {:trigger ReapedOk(t, n)} :: 0 <= n < |t.reaped| ==> ReapedOk(t, n))
    && (forall e :: e in t.exits ==> e < t.next)
  }

  // ----- sys_fork

  /** allocate_pid: the lowest free pid; without one bitmap_scan halts the kernel. */
  method AllocatePid(t: Table) returns (halts: bool, pid: nat, t1: Table)
    ensures halts <==> Full(t.bits)
    ensures !halts ==> 1 <= pid <= |t.bits| && Leftmost(t.bits, 1, pid - 1) && t1 == t.(bits := t.bits[pid - 1 := true])
    ensures halts ==> t1 == t
  {
    var b;
    halts, b := ScanBits(t.bits, 1);
    OneBit(t.bits, b);
    pid, t1 := 0, t;
    if !halts {
      pid, t1 := b + 1, t.(bits := t.bits[b := true]);
    }
  }

  /** The table with task `i` replaced. */
  function Set(t: Table, i: nat, p: Proc): (t1: Table)
    requires i < |t.all|
  {
    t.(all := t.all[i := p])
  }

  /** Task `i` has taken the lowest free pid for a child. */
  ghost predicate ForkStarted(t: Table, t1: Table, i: nat, pid: nat)
    requires i < |t.all|
  {
    && 1 <= pid <= |t.bits| && Leftmost(t.bits, 1, pid - 1)
    && t1 == t.(bits := t.bits[pid - 1 := true], all := t.all[i := t.all[i].(phase := Forking(pid))])
  }

  /** The first part of fork: a pid for the child. */
  method ForkBegin(t: Table, i: nat) returns (halts: bool, pid: nat, t1: Table)
    requires TableOk(t) && i < |t.all| && t.all[i].status == Live && t.all[i].phase == Usual
    ensures halts <==> Full(t.bits)
    ensures !halts ==> TableOk(t1) && ForkStarted(t, t1, i, pid)
    ensures halts ==> t1 == t
  {
    halts, pid, t1 := AllocatePid(t);
    if !halts {
      t1 := Set(t1, i, t.all[i].(phase := Forking(pid)));
      ForkBegun(t, t1, i, pid);
    }
  }

  lemma ForkBegun(t: Table, t1: Table, i: nat, pid: nat)
    requires TableOk(t) && i < |t.all| && t.all[i].status == Live && t.all[i].phase == Usual
    requires 1 <= pid <= |t.bits| && !t.bits[pid - 1]
    requires t1 == t.(bits := t.bits[pid - 1 := true], all := t.all[i := t.all[i].(phase := Forking(pid))])
    ensures TableOk(t1)
  {
    forall p | CanParent(t, p) ensures CanParent(t1, p) {
      var j :| 0 <= j < |t.all| && t.all[j].pid == p && t.all[j].phase != Exiting;
      assert t1.all[j].pid == p && t1.all[j].phase != Exiting;
    }
    forall j | 0 <= j < |t1.all| ensures ProcOk(t1, j) {
      assert ProcOk(t, j);
      ChildrenSame(t, t1, t.all[j].pid);
    }
    forall j, m | 0 <= j < |t1.all| && 0 <= m < |t1.all| ensures PidsApart(t1, j, m) {
      assert PidsApart(t, j, m) && ProcOk(t, j) && ProcOk(t, m);
    }
    forall n | 0 <= n < |t1.reaped| ensures ReapedOk(t1, n) {
      assert ReapedOk(t, n);
    }
  }

  /** Children and hanging children are told by parents and statuses. */
  lemma ChildrenSame(t: Table, t1: Table, pid: int)
    requires |t1.all| == |t.all|
    requires forall j :: 0 <= j < |t.all| ==>
             t1.all[j].parent == t.all[j].parent && (t1.all[j].status == Hanging <==> t.all[j].status == Hanging)
    ensures (HasChild(t1, pid) <==> HasChild(t, pid)) && (HasHanging(t1, pid) <==> HasHanging(t, pid))
  {
    if HasChild(t, pid) {
      var j :| 0 <= j < |t.all| && t.all[j].parent == pid;
      assert t1.all[j].parent == pid;
    }
    if HasHanging(t, pid) {
      var j :| 0 <= j < |t.all| && t.all[j].parent == pid && t.all[j].status == Hanging;
      assert t1.all[j].parent == pid && t1.all[j].status == Hanging;
    }
  }

  /** The last part of fork: the child joins the list. */
  method ForkEnd(t: Table, i: nat) returns (pid: nat, t1: Table)
    requires TableOk(t) && i < |t.all| && t.all[i].phase.Forking? && t.all[i].status == Live
    ensures TableOk(t1) && pid == t.all[i].phase.child
    ensures t1 == t.(all := t.all[i := t.all[i].(phase := Usual)] + [Proc(t.next, pid, t.all[i].pid, Live, Usual, 0)],
            next := t.next + 1)
  {
    pid := t.all[i].phase.child;
    t1 := t.(all := t.all[i := t.all[i].(phase := Usual)] + [Proc(t.next, pid, t.all[i].pid, Live, Usual, 0)],
      next := t.next + 1);
    ForkEnded(t, t1, i);
  }

  lemma ForkEnded(t: Table, t1: Table, i: nat)
    requires TableOk(t) && i < |t.all| && t.all[i].phase.Forking? && t.all[i].status == Live
    requires t1 == t.(all := t.all[i := t.all[i].(phase := Usual)] + [Proc(t.next, t.all[i].phase.child, t.all[i].pid,
             Live, Usual, 0)], next := t.next + 1)
    ensures TableOk(t1)
  {
    var n := |t.all|;
    forall p | CanParent(t, p) ensures CanParent(t1, p) {
      var j :| 0 <= j < n && t.all[j].pid == p && t.all[j].phase != Exiting;
      assert t1.all[j].pid == p && t1.all[j].phase != Exiting;
    }
    assert t1.all[i].pid == t.all[i].pid && t1.all[i].phase != Exiting;
    assert CanParent(t1, t.all[i].pid);
    forall j | 0 <= j < |t1.all| ensures ProcOk(t1, j) {
      assert ProcOk(t, i) && PidsApart(t, i, i);
      if j < n {
        assert ProcOk(t, j) && PidsApart(t, i, j);
        OneChildMore(t, t1, i, t.all[j].pid);
      } else {
        var m :| 0 <= m < n && t.all[m].pid == 1;
        assert PidsApart(t, i, m);
      }
    }
    forall j, m | 0 <= j < |t1.all| && 0 <= m < |t1.all| ensures PidsApart(t1, j, m) {
      if j < n && m < n {
        assert PidsApart(t, j, m);
      }
      if j < n {
        assert ProcOk(t, j) && PidsApart(t, i, j) && PidsApart(t, j, i);
      }
      if m < n {
        assert ProcOk(t, m) && PidsApart(t, i, m) && PidsApart(t, m, i);
      }
    }
    forall r | 0 <= r < |t1.reaped| ensures ReapedOk(t1, r) {
      assert ReapedOk(t, r);
    }
  }

  lemma OneChildMore(t: Table, t1: Table, i: nat, pid: int)
    requires i < |t.all| && |t1.all| == |t.all| + 1 && t1.all[|t.all|].status == Live
    requires forall j :: 0 <= j < |t.all| ==> t1.all[j].parent == t.all[j].parent && t1.all[j].status == t.all[j].status
    ensures (HasChild(t, pid) ==> HasChild(t1, pid)) && (HasHanging(t1, pid) ==> HasHanging(t, pid))
  {
    if HasChild(t, pid) {
      var j :| 0 <= j < |t.all| && t.all[j].parent == pid;
      assert t1.all[j].parent == pid;
    }
  }

  /** A fork that finds no memory once it has a pid: nothing is undone, so the pid stays taken. */
  method ForkFail(t: Table, i: nat) returns (t1: Table)
    requires TableOk(t) && i < |t.all| && t.all[i].phase.Forking? && t.all[i].status == Live
    ensures TableOk(t1) && t1 == Set(t, i, t.all[i].(phase := Usual))
    ensures Lost(t1, t.all[i].phase.child)
  {
    t1 := Set(t, i, t.all[i].(phase := Usual));
    ForkFailed(t, t1, i);
  }

  /** The pid is taken, and no task has it or is about to give it to a child. */
  ghost predicate Lost(t: Table, pid: nat) {
    Taken(t, pid) && forall j :: 0 <= j < |t.all| ==> t.all[j].pid != pid && t.all[j].phase != Forking(pid)
  }

  lemma ForkFailed(t: Table, t1: Table, i: nat)
    requires TableOk(t) && i < |t.all| && t.all[i].phase.Forking? && t.all[i].status == Live
    requires t1 == Set(t, i, t.all[i].(phase := Usual))
    ensures TableOk(t1) && Lost(t1, t.all[i].phase.child)
  {
    forall p | CanParent(t, p) ensures CanParent(t1, p) {
      var j :| 0 <= j < |t.all| && t.all[j].pid == p && t.all[j].phase != Exiting;
      assert t1.all[j].pid == p && t1.all[j].phase != Exiting;
    }
    forall j | 0 <= j < |t1.all| ensures ProcOk(t1, j) {
      assert ProcOk(t, j);
      ChildrenSame(t, t1, t.all[j].pid);
    }
    forall j, m | 0 <= j < |t1.all| && 0 <= m < |t1.all| ensures PidsApart(t1, j, m) {
      assert PidsApart(t, j, m);
    }
    forall n | 0 <= n < |t1.reaped| ensures ReapedOk(t1, n) {
      assert ReapedOk(t, n);
    }
    assert ProcOk(t, i);
    forall j | 0 <= j < |t1.all| ensures t1.all[j].pid != t.all[i].phase.child && t1.all[j].phase != t.all[i].phase {
      assert PidsApart(t, i, j);
    }
  }

  // ----- sys_exit

  /** init_adopt_a_child over the list: the children of `pid` become children of init. */
  method Adopt(all: seq<Proc>, pid: nat) returns (all1: seq<Proc>)
    ensures |all1| == |all| && forall j :: 0 <= j < |all| ==> all1[j] == if all[j].parent == pid
            then all[j].(parent := 1) else all[j]
  {
    all1 := all;
    var j := 0;
    while j < |all1|
      invariant 0 <= j <= |all1| == |all|
      invariant forall m :: 0 <= m < |all| ==> all1[m] == if m < j && all[m].parent == pid then all[m].(parent := 1)
                else all[m]
    {
      if all1[j].parent == pid {
        all1 := all1[j := all1[j].(parent := 1)];
      }
      j := j + 1;
    }
  }

  /** The first part of exit: the status is kept and the children go to init.  A task without a parent
      halts the kernel. */
  method ExitBegin(t: Table, i: nat, status: int) returns (halts: bool, t1: Table)
    requires TableOk(t) && i < |t.all| && t.all[i].status == Live && t.all[i].phase == Usual
    ensures halts <==> t.all[i].parent == -1
    ensures !halts ==> TableOk(t1) && ExitStarted(t, t1, i, status)
    ensures halts ==> t1 == t
  {
    halts, t1 := t.all[i].parent == -1, t;
    if halts {
      return;
    }
    var p := t.all[i].(exitStatus := Int8(status), phase := Exiting);
    var all := Adopt(t.all[i := p], p.pid);
    t1 := t.(all := all, exits := t.exits[p.id := (p.pid, status)]);
    assert ProcOk(t, i);
    ExitBegun(t, t1, i, status);
  }

  ghost predicate ExitStarted(t: Table, t1: Table, i: nat, status: int)
    requires i < |t.all|
  {
    && t1 == t.(all := t1.all, exits := t.exits[t.all[i].id := (t.all[i].pid, status)]) && |t1.all| == |t.all|
    && t1.all[i] == t.all[i].(exitStatus := Int8(status), phase := Exiting)
    && forall j :: 0 <= j < |t.all| && j != i ==> t1.all[j] == if t.all[j].parent == t.all[i].pid
       then t.all[j].(parent := 1) else t.all[j]
  }

  lemma ExitBegun(t: Table, t1: Table, i: nat, status: int)
    requires TableOk(t) && i < |t.all| && t.all[i].status == Live && t.all[i].phase == Usual && t.all[i].parent != -1
    requires ExitStarted(t, t1, i, status)
    ensures TableOk(t1)
  {
    assert ProcOk(t, i);
    forall p | CanParent(t, p) && p != t.all[i].pid ensures CanParent(t1, p) {
      var j :| 0 <= j < |t.all| && t.all[j].pid == p && t.all[j].phase != Exiting;
      assert t1.all[j].pid == p && t1.all[j].phase != Exiting;
    }
    forall j | 0 <= j < |t1.all| ensures ProcOk(t1, j) {
      assert ProcOk(t, j) && PidsApart(t, i, j);
      if j != i {
        AdoptedKin(t, t1, i, status, t.all[j].pid);
      }
    }
    forall j, m | 0 <= j < |t1.all| && 0 <= m < |t1.all| ensures PidsApart(t1, j, m) {
      assert PidsApart(t, j, m);
    }
    forall r | 0 <= r < |t1.reaped| ensures ReapedOk(t1, r) {
      assert ReapedOk(t, r);
    }
  }

  /** The children of other tasks stay theirs; init may get more. */
  lemma AdoptedKin(t: Table, t1: Table, i: nat, status: int, pid: int)
    requires i < |t.all| && ExitStarted(t, t1, i, status) && pid != t.all[i].pid
    ensures HasChild(t, pid) ==> HasChild(t1, pid)
    ensures pid != 1 && HasHanging(t1, pid) ==> HasHanging(t, pid)
  {
    if HasChild(t, pid) {
      var j :| 0 <= j < |t.all| && t.all[j].parent == pid;
      assert t1.all[j].parent == pid;
    }
    if pid != 1 && HasHanging(t1, pid) {
      var j :| 0 <= j < |t1.all| && t1.all[j].parent == pid && t1.all[j].status == Hanging;
      assert t.all[j].parent == pid && t.all[j].status == Hanging;
    }
  }

  /** pid2thread: the place of a pid in the list, or its length. */
  method FindPid(all: seq<Proc>, pid: int) returns (j: nat)
    ensures j <= |all| && (j < |all| ==> all[j].pid == pid) && forall m :: 0 <= m < j ==> all[m].pid != pid
  {
    j := 0;
    while j < |all| && all[j].pid != pid
      invariant j <= |all| && forall m :: 0 <= m < j ==> all[m].pid != pid
    {
      j := j + 1;
    }
  }

  /** Task `i` hangs, and its parent, task `j`, does not wait any more. */
  ghost predicate ExitFinished(t: Table, t1: Table, i: nat, j: nat)
    requires i < |t.all|
  {
    && j < |t.all| && j != i && t.all[j].pid == t.all[i].parent
    && t1 == t.(all := t.all[j := t.all[j].(status := if t.all[j].status == Waiting then Live
       else t.all[j].status)][i := t.all[i].(status := Hanging)])
  }

  /** The last part of exit: the parent is found, and woken if it waits; the task hangs. */
  method ExitEnd(t: Table, i: nat) returns (t1: Table, ghost j: nat)
    requires TableOk(t) && i < |t.all| && t.all[i].status == Live && t.all[i].phase == Exiting
    ensures TableOk(t1) && ExitFinished(t, t1, i, j)
  {
    assert ProcOk(t, i);
    ghost var w :| 0 <= w < |t.all| && t.all[w].pid == t.all[i].parent && t.all[w].phase != Exiting;
    var m := FindPid(t.all, t.all[i].parent);
    j := m;
    assert m < |t.all| && PidsApart(t, m, w);
    var parent := t.all[m];
    if parent.status == Waiting {
      parent := parent.(status := Live);
    }
    t1 := t.(all := t.all[m := parent][i := t.all[i].(status := Hanging)]);
    ExitEnded(t, t1, i, m);
  }

  lemma ExitEnded(t: Table, t1: Table, i: nat, j: nat)
    requires TableOk(t) && i < |t.all| && j < |t.all| && i != j && t.all[i].status == Live && t.all[i].phase == Exiting
    requires t.all[j].pid == t.all[i].parent && t.all[j].phase != Exiting
    requires t1 == t.(all := t.all[j := t.all[j].(status := if t.all[j].status == Waiting then Live
             else t.all[j].status)][i := t.all[i].(status := Hanging)])
    ensures TableOk(t1)
  {
    forall p | CanParent(t, p) ensures CanParent(t1, p) {
      var m :| 0 <= m < |t.all| && t.all[m].pid == p && t.all[m].phase != Exiting;
      assert t1.all[m].pid == p && t1.all[m].phase != Exiting;
    }
    forall m | 0 <= m < |t1.all| ensures ProcOk(t1, m) {
      assert ProcOk(t, m) && ProcOk(t, j) && PidsApart(t, j, m);
      HungKin(t, t1, i, t.all[m].pid);
    }
    forall m, n | 0 <= m < |t1.all| && 0 <= n < |t1.all| ensures PidsApart(t1, m, n) {
      assert PidsApart(t, m, n);
    }
    forall r | 0 <= r < |t1.reaped| ensures ReapedOk(t1, r) {
      assert ReapedOk(t, r);
    }
  }

  /** Task `i` now hangs: that concerns its parent only. */
  lemma HungKin(t: Table, t1: Table, i: nat, pid: int)
    requires i < |t.all| == |t1.all| && forall j :: 0 <= j < |t.all| ==> t1.all[j].parent == t.all[j].parent
    requires forall j :: 0 <= j < |t.all| && j != i ==> (t1.all[j].status == Hanging <==> t.all[j].status == Hanging)
    ensures HasChild(t, pid) ==> HasChild(t1, pid)
    ensures pid != t.all[i].parent && HasHanging(t1, pid) ==> HasHanging(t, pid)
  {
    if HasChild(t, pid) {
      var j :| 0 <= j < |t.all| && t.all[j].parent == pid;
      assert t1.all[j].parent == pid;
    }
    if pid != t.all[i].parent && HasHanging(t1, pid) {
      var j :| 0 <= j < |t1.all| && t1.all[j].parent == pid && t1.all[j].status == Hanging;
      assert t.all[j].parent == pid && t.all[j].status == Hanging;
    }
  }

  // ----- sys_wait

  /** find_hanging_child over the list: the first one, or the length of the list. */
  method FindHanging(all: seq<Proc>, pid: nat) returns (j: nat)
    ensures j <= |all| && (j < |all| ==> all[j].parent == pid && all[j].status == Hanging)
    ensures forall m :: 0 <= m < j ==> !(all[m].parent == pid && all[m].status == Hanging)
  {
    j := 0;
    while j < |all| && !(all[j].parent == pid && all[j].status == Hanging)
      invariant j <= |all| && forall m :: 0 <= m < j ==> !(all[m].parent == pid && all[m].status == Hanging)
    {
      j := j + 1;
    }
  }

  /** find_child over the list. */
  method FindChild(all: seq<Proc>, pid: nat) returns (found: bool)
    ensures found <==> exists j :: 0 <= j < |all| && all[j].parent == pid
  {
    var j := 0;
    found := false;
    while j < |all| && !found
      invariant 0 <= j <= |all|
      invariant found <==> exists m :: 0 <= m < j && all[m].parent == pid
    {
      found := all[j].parent == pid;
      j := j + 1;
    }
  }

  /** The list without its place `j`. */
  function Drop(all: seq<Proc>, j: nat): (all1: seq<Proc>)
    requires j < |all|
    ensures |all1| == |all| - 1 && forall m :: 0 <= m < |all1| ==> all1[m] == all[if m < j then m else m + 1]
  {
    all[..j] + all[j + 1..]
  }

  /** The table after task `j` was reaped: thread_exit takes it from the list and release_pid frees its pid. */
  function WithoutTask(t: Table, j: nat): (t1: Table)
    requires j < |t.all| && 1 <= t.all[j].pid <= |t.bits|
  {
    var c := t.all[j];
    t.(all := Drop(t.all, j), bits := t.bits[c.pid - 1 := false],
      reaped := t.reaped + [Reaped(c.id, c.pid, c.exitStatus)])
  }

  lemma ReapedTable(t: Table, j: nat)
    requires TableOk(t) && j < |t.all| && t.all[j].status == Hanging
    requires forall i :: 0 <= i < |t.all| && t.all[i].status == Waiting ==> t.all[i].pid != t.all[j].parent
    ensures 1 <= t.all[j].pid <= |t.bits| && TableOk(WithoutTask(t, j))
  {
    assert ProcOk(t, j);
    var t1 := WithoutTask(t, j);
    forall p | CanParent(t, p) ensures CanParent(t1, p) {
      var m :| 0 <= m < |t.all| && t.all[m].pid == p && t.all[m].phase != Exiting;
      assert t1.all[if m < j then m else m - 1] == t.all[m];
    }
    forall m | 0 <= m < |t1.all| ensures ProcOk(t1, m) {
      var o := if m < j then m else m + 1;
      assert ProcOk(t, o) && PidsApart(t, o, j) && PidsApart(t, j, o);
      DroppedKin(t, t1, j, t.all[o].pid);
    }
    forall m, n | 0 <= m < |t1.all| && 0 <= n < |t1.all| ensures PidsApart(t1, m, n) {
      assert PidsApart(t, if m < j then m else m + 1, if n < j then n else n + 1);
    }
    forall r | 0 <= r < |t1.reaped| ensures ReapedOk(t1, r) {
      ReapedNow(t, t1, j, r);
    }
  }

  /** Only the parent of the reaped task loses a child. */
  lemma DroppedKin(t: Table, t1: Table, j: nat, pid: int)
    requires j < |t.all| && t1.all == Drop(t.all, j)
    ensures pid != t.all[j].parent && HasChild(t, pid) ==> HasChild(t1, pid)
    ensures HasHanging(t1, pid) ==> HasHanging(t, pid)
  {
    if pid != t.all[j].parent && HasChild(t, pid) {
      var m :| 0 <= m < |t.all| && t.all[m].parent == pid;
      assert t1.all[if m < j then m else m - 1] == t.all[m];
    }
    if HasHanging(t1, pid) {
      var m :| 0 <= m < |t1.all| && t1.all[m].parent == pid && t1.all[m].status == Hanging;
      assert t.all[if m < j then m else m + 1] == t1.all[m];
    }
  }

  lemma ReapedNow(t: Table, t1: Table, j: nat, r: nat)
    requires TableOk(t) && j < |t.all| && t.all[j].status == Hanging && 1 <= t.all[j].pid <= |t.bits|
    requires t1 == WithoutTask(t, j) && r < |t1.reaped|
    ensures ReapedOk(t1, r)
  {
    var last := |t.reaped|;
    assert ProcOk(t, j);
    forall m | 0 <= m < last ensures t.reaped[m].id != t.all[j].id {
      assert ReapedOk(t, m);
    }
    if r < last {
      assert ReapedOk(t, r);
    } else {
      forall m | 0 <= m < |t1.all| ensures t1.all[m].id != t.all[j].id {
        assert PidsApart(t, if m < j then m else m + 1, j);
      }
    }
  }

  /** The outcome of a test of sys_wait: a reaped child, -1 for want of children, or the task waits. */
  datatype Waited = Child(pid: nat, status: int) | NoChild | Blocks

  /** Task `j` is the first hanging child of `pid`. */
  ghost predicate FirstHanging(t: Table, pid: nat, j: nat) {
    && j < |t.all| && t.all[j].parent == pid && t.all[j].status == Hanging && 1 <= t.all[j].pid <= |t.bits|
    && forall m :: 0 <= m < j ==> !(t.all[m].parent == pid && t.all[m].status == Hanging)
  }

  /** What a round of sys_wait by task `i` does: the first hanging child `j` is reaped; without children
      the call is over; otherwise the task waits. */
  ghost predicate Tested(t: Table, t1: Table, i: nat, j: nat, r: Waited)
    requires i < |t.all|
  {
    if HasHanging(t, t.all[i].pid) then
      && FirstHanging(t, t.all[i].pid, j) && r == Child(t.all[j].pid, t.all[j].exitStatus)
      && t1 == WithoutTask(Set(t, i, t.all[i].(phase := Usual)), j)
    else if HasChild(t, t.all[i].pid) then r == Blocks && t1 == Set(t, i, t.all[i].(phase := InWait, status := Waiting))
    else r == NoChild && t1 == Set(t, i, t.all[i].(phase := Usual))
  }

  /** One round of sys_wait. */
  method WaitRound(t: Table, i: nat) returns (r: Waited, t1: Table, ghost j: nat)
    requires TableOk(t) && i < |t.all| && t.all[i].status == Live
    requires t.all[i].phase == Usual || t.all[i].phase == InWait
    ensures TableOk(t1) && Tested(t, t1, i, j, r)
  {
    var pid := t.all[i].pid;
    var c := FindHanging(t.all, pid);
    j := c;
    if c < |t.all| {
      PhaseOk(t, i, Usual, Live);
      t1 := Set(t, i, t.all[i].(phase := Usual));
      NotWaiting(t1, i, c);
      ReapedTable(t1, c);
      r := Child(t.all[c].pid, t.all[c].exitStatus);
      t1 := WithoutTask(t1, c);
      return;
    }
    var found := FindChild(t.all, pid);
    if !found {
      PhaseOk(t, i, Usual, Live);
      t1 := Set(t, i, t.all[i].(phase := Usual));
      r := NoChild;
    } else {
      PhaseOk(t, i, InWait, Waiting);
      t1 := Set(t, i, t.all[i].(phase := InWait, status := Waiting));
      r := Blocks;
    }
  }

  /** The parent of the hanging child is the task that looks for one, so no waiting task loses a child. */
  lemma NotWaiting(t: Table, i: nat, j: nat)
    requires TableOk(t) && i < |t.all| && j < |t.all| && t.all[i].status == Live && t.all[j].parent == t.all[i].pid
    ensures forall m :: 0 <= m < |t.all| && t.all[m].status == Waiting ==> t.all[m].pid != t.all[j].parent
  {
    forall m | 0 <= m < |t.all| && t.all[m].status == Waiting ensures t.all[m].pid != t.all[j].parent {
      assert PidsApart(t, i, m);
    }
  }

  /** A task changes between usual and waiting. */
  lemma PhaseOk(t: Table, i: nat, phase: Phase, status: Status)
    requires TableOk(t) && i < |t.all| && t.all[i].status == Live
    requires t.all[i].phase == Usual || t.all[i].phase == InWait
    requires (phase == Usual && status == Live)
             || (phase == InWait && status == Waiting && HasChild(t, t.all[i].pid) && !HasHanging(t, t.all[i].pid))
    ensures TableOk(Set(t, i, t.all[i].(phase := phase, status := status)))
  {
    var t1 := Set(t, i, t.all[i].(phase := phase, status := status));
    forall p | CanParent(t, p) ensures CanParent(t1, p) {
      var j :| 0 <= j < |t.all| && t.all[j].pid == p && t.all[j].phase != Exiting;
      assert t1.all[j].pid == p && t1.all[j].phase != Exiting;
    }
    forall j | 0 <= j < |t1.all| ensures ProcOk(t1, j) {
      assert ProcOk(t, j);
      ChildrenSame(t, t1, t.all[j].pid);
    }
    forall j, m | 0 <= j < |t1.all| && 0 <= m < |t1.all| ensures PidsApart(t1, j, m) {
      assert PidsApart(t, j, m);
    }
    forall n | 0 <= n < |t1.reaped| ensures ReapedOk(t1, n) {
      assert ReapedOk(t, n);
    }
  }

  // ----- runs

  /** What a task can do next, the task given by its place in the list. */
  datatype Act = BeginFork(i: nat) | EndFork(i: nat) | FailFork(i: nat) | BeginExit(i: nat,
    status: int) | EndExit(i: nat) | TestWait(i: nat)

  /** The kernel with init and perhaps other tasks without a parent. */
  ghost predicate Booted(t: Table) {
    && (exists j :: 0 <= j < |t.all| && t.all[j].pid == 1)
    && (forall i :: 0 <= i < |t.all| ==> t.all[i] == Proc(i, t.all[i].pid, -1, Live, Usual, 0)
                                         && Taken(t, t.all[i].pid))
    && (forall i, j :: 0 <= i < j < |t.all| ==> t.all[i].pid != t.all[j].pid)
    && t.next == |t.all| && t.exits == map[] && t.reaped == []
  }

  lemma BootedOk(t: Table)
    requires Booted(t)
    ensures TableOk(t)
  {
    forall i | 0 <= i < |t.all| ensures ProcOk(t, i) {
      assert t.all[i] == Proc(i, t.all[i].pid, -1, Live, Usual, 0);
    }
    forall i, j | 0 <= i < |t.all| && 0 <= j < |t.all| ensures PidsApart(t, i, j) {
      assert t.all[i] == Proc(i, t.all[i].pid, -1, Live, Usual, 0)
             && t.all[j] == Proc(j, t.all[j].pid, -1, Live, Usual, 0);
    }
    var j :| 0 <= j < |t.all| && t.all[j].pid == 1;
    assert t.all[j] == Proc(j, t.all[j].pid, -1, Live, Usual, 0);
  }

  /** The task is listed, runs, and is where the act starts. */
  predicate Possible(t: Table, a: Act) {
    && a.i < |t.all| && t.all[a.i].status == Live
    && match a
       case BeginFork(i) => t.all[i].phase == Usual
       case EndFork(i) => t.all[i].phase.Forking?
       case FailFork(i) => t.all[i].phase.Forking?
       case BeginExit(i, status) => t.all[i].phase == Usual
       case EndExit(i) => t.all[i].phase == Exiting
       case TestWait(i) => t.all[i].phase == Usual || t.all[i].phase == InWait
  }

  /** The kernel does not come back from the act: there is no pid, or the task has no parent. */
  ghost predicate Stuck(t: Table, a: Act) {
    && Possible(t, a)
    && ((a.BeginFork? && Full(t.bits)) || (a.BeginExit? && t.all[a.i].parent == -1))
  }

  /** What an act does when the kernel comes back from it; one that is not possible is not done. */
  ghost predicate Acted(t: Table, a: Act, t1: Table) {
    if !Possible(t, a) then t1 == t
    else
      match a
      case BeginFork(i) => exists pid: nat :: ForkStarted(t, t1, i, pid)
      case EndFork(i) =>
        t1 == t.(all := t.all[i := t.all[i].(phase := Usual)] + [Proc(t.next, t.all[i].phase.child, t.all[i].pid, Live,
          Usual, 0)], next := t.next + 1)
      case FailFork(i) => t1 == Set(t, i, t.all[i].(phase := Usual))
      case BeginExit(i, status) => t.all[i].parent != -1 && ExitStarted(t, t1, i, status)
      case EndExit(i) => exists j: nat :: ExitFinished(t, t1, i, j)
      case TestWait(i) => exists j: nat, r: Waited :: Tested(t, t1, i, j, r)
  }

  /** The rule holds in state `k` of a run. */
  ghost predicate RuleAt(trace: seq<Table>, k: nat) {
    k < |trace| && TableOk(trace[k])
  }

  /** State `k` of a run leads to the next one by its act. */
  ghost predicate StepAt(trace: seq<Table>, acts: seq<Act>, k: nat) {
    k < |acts| && k + 1 < |trace| && Acted(trace[k], acts[k], trace[k + 1])
  }

  /** The states of a run: each follows from the one before it by its act, the rule holds in all of them,
      and the run ends early only where the kernel does not come back. */
  ghost predicate IsRunOf(trace: seq<Table>, acts: seq<Act>) {
    && 0 < |trace| <= |acts| + 1
    && (forall k: nat {:trigger RuleAt(trace, k)} :: k < |trace| ==> RuleAt(trace, k))
    && (forall k: nat {:trigger StepAt(trace, acts, k)} :: k < |trace| - 1 ==> StepAt(trace, acts, k))
    && (|trace| <= |acts| ==> Stuck(trace[|trace| - 1], acts[|trace| - 1]))
  }

  /** thread_all_list and the pid pool, changed by one act after another. */
  class Tasks {
    var t: Table

    constructor (t: Table)
      requires Booted(t)
      ensures TableOk(this.t) && this.t == t
    {
      BootedOk(t);
      this.t := t;
    }

    /** One act; one that is not possible is not done. */
    method Do(a: Act) returns (halts: bool)
      requires TableOk(t)
      modifies this
      ensures TableOk(t) && (halts <==> Stuck(old(t), a))
      ensures if halts then t == old(t) else Acted(old(t), a, t)
    {
      halts := false;
      if !Possible(t, a) {
        return;
      }
      match a
      case BeginFork(i) =>
        var pid, t1;
        halts, pid, t1 := ForkBegin(t, i);
        t := t1;
      case EndFork(i) =>
        var pid, t1 := ForkEnd(t, i);
        t := t1;
      case FailFork(i) =>
        var t1 := ForkFail(t, i);
        t := t1;
      case BeginExit(i, status) =>
        var t1;
        halts, t1 := ExitBegin(t, i, status);
        t := t1;
      case EndExit(i) =>
        var t1;
        ghost var j;
        t1, j := ExitEnd(t, i);
        t := t1;
      case TestWait(i) =>
        var r, t1;
        ghost var j;
        r, t1, j := WaitRound(t, i);
        t := t1;
    }

    /** Any run of acts keeps the rule. */
    method Run(acts: seq<Act>) returns (ghost trace: seq<Table>)
      requires TableOk(t)
      modifies this
      ensures IsRunOf(trace, acts) && trace[0] == old(t) && trace[|trace| - 1] == t
    {
      trace := [t];
      var n := 0;
      while n < |acts|
        invariant 0 <= n <= |acts| && |trace| == n + 1 && trace[0] == old(t) && trace[n] == t && TableOk(t)
        invariant forall k: nat {:trigger RuleAt(trace, k)} :: k <= n ==> RuleAt(trace, k)
        invariant forall k: nat {:trigger StepAt(trace, acts, k)} :: k < n ==> StepAt(trace, acts, k)
      {
        var halts := Do(acts[n]);
        if halts {
          return;
        }
        RunsOn(trace, acts, n, t);
        trace := trace + [t];
        n := n + 1;
      }
    }
  }

  /** One more act. */
  lemma RunsOn(trace: seq<Table>, acts: seq<Act>, n: nat, t: Table)
    requires |trace| == n + 1 && n < |acts| && Acted(trace[n], acts[n], t) && TableOk(t)
    requires forall k: nat {:trigger RuleAt(trace, k)} :: k <= n ==> RuleAt(trace, k)
    requires forall k: nat {:trigger StepAt(trace, acts, k)} :: k < n ==> StepAt(trace, acts, k)
    ensures forall k: nat {:trigger RuleAt(trace + [t], k)} :: k <= n + 1 ==> RuleAt(trace + [t], k)
    ensures forall k: nat {:trigger StepAt(trace + [t], acts, k)} :: k < n + 1 ==> StepAt(trace + [t], acts, k)
  {
    forall k: nat | k <= n + 1 ensures RuleAt(trace + [t], k) {
      assert k <= n ==> RuleAt(trace, k);
    }
    forall k: nat | k < n + 1 ensures StepAt(trace + [t], acts, k) {
      assert k < n ==> StepAt(trace, acts, k);
    }
  }

  // ----- what the rule says

  /** Listed pids are distinct, and a parent is listed, has not begun to exit and is found by its pid. */
  lemma PidsAndParents(t: Table, i: nat, j: nat)
    requires TableOk(t) && i < |t.all| && j < |t.all|
    ensures i != j ==> t.all[i].pid != t.all[j].pid
    ensures t.all[i].parent != -1 ==> exists m :: 0 <= m < |t.all| && t.all[m].pid == t.all[i].parent
                                                  && t.all[m].phase != Exiting && t.all[m].status != Hanging
  {
    assert PidsApart(t, i, j) && ProcOk(t, i);
    if t.all[i].parent != -1 {
      var m :| 0 <= m < |t.all| && t.all[m].pid == t.all[i].parent && t.all[m].phase != Exiting;
      assert ProcOk(t, m);
    }
  }

  /** A task that waits, other than init, has a child to wait for and none that has already exited. */
  lemma WaitersSound(t: Table, i: nat)
    requires TableOk(t) && i < |t.all| && t.all[i].status == Waiting && t.all[i].pid != 1
    ensures HasChild(t, t.all[i].pid) && !HasHanging(t, t.all[i].pid)
  {
    assert ProcOk(t, i);
  }

  /** A child is reaped at most once, after it exited, with its own pid and the low 8 bits of its status. */
  lemma ReapedOnce(t: Table, m: nat, n: nat)
    requires TableOk(t) && m < |t.reaped| && n < |t.reaped|
    ensures m != n ==> t.reaped[m].id != t.reaped[n].id
    ensures t.reaped[m].id in t.exits
    ensures t.reaped[m].pid == t.exits[t.reaped[m].id].0 && (t.reaped[m].status - t.exits[t.reaped[m].id].1) % 256 == 0
  {
    assert ReapedOk(t, m);
  }

  /** A pid that a failed fork lost is never free again and never given to a task. */
  lemma LostForGood(t: Table, a: Act, t1: Table, pid: nat)
    requires Acted(t, a, t1) && Lost(t, pid)
    ensures Lost(t1, pid)
  {
    if Possible(t, a) {
      match a
      case BeginFork(i) => var child: nat :| ForkStarted(t, t1, i, child);
      case EndFork(i) =>
      case FailFork(i) =>
      case BeginExit(i, status) =>
      case EndExit(i) => var j: nat :| ExitFinished(t, t1, i, j);
      case TestWait(i) =>
        var j: nat, r: Waited :| Tested(t, t1, i, j, r);
        LostWhileTested(t, t1, i, j, r, pid);
    }
  }

  lemma LostWhileTested(t: Table, t1: Table, i: nat, j: nat, r: Waited, pid: nat)
    requires i < |t.all| && Tested(t, t1, i, j, r) && Lost(t, pid)
    ensures Lost(t1, pid)
  {
  }

  // ----- init

  ghost predicate InitWaits(t: Table) {
    exists i :: 0 <= i < |t.all| && t.all[i].pid == 1 && t.all[i].status == Waiting
  }

  /** If init waits, none of its children hangs. */
  ghost predicate InitSound(t: Table) {
    InitWaits(t) ==> !HasHanging(t, 1)
  }

  /** The act is the exit of a task whose hanging children go to init while it waits. */
  ghost predicate Overlooked(t: Table, a: Act) {
    Possible(t, a) && a.BeginExit? && InitWaits(t) && HasHanging(t, t.all[a.i].pid)
  }

  /** Adoption does not wake init: the first part of exit keeps init from sleeping over a hanging child
      exactly if init does not wait or the task has no hanging child. */
  lemma AdoptionSound(t: Table, t1: Table, i: nat, status: int)
    requires TableOk(t) && InitSound(t) && i < |t.all| && t.all[i].status == Live && ExitStarted(t, t1, i, status)
    ensures InitSound(t1) <==> !InitWaits(t) || !HasHanging(t, t.all[i].pid)
  {
    forall m | 0 <= m < |t.all| ensures t1.all[m].pid == t.all[m].pid && t1.all[m].status == t.all[m].status {
    }
    assert InitWaits(t1) <==> InitWaits(t);
    if HasHanging(t, t.all[i].pid) {
      var m :| 0 <= m < |t.all| && t.all[m].parent == t.all[i].pid && t.all[m].status == Hanging;
      assert t1.all[m].parent == 1 && t1.all[m].status == Hanging;
    } else if HasHanging(t1, 1) {
      var m :| 0 <= m < |t1.all| && t1.all[m].parent == 1 && t1.all[m].status == Hanging;
      assert t.all[m].status == Hanging && t.all[m].parent == 1;
    }
  }

  /** The last part of exit wakes the parent, init included. */
  lemma HangingSound(t: Table, t1: Table, i: nat, j: nat)
    requires TableOk(t) && InitSound(t) && i < |t.all| && t.all[i].status == Live && ExitFinished(t, t1, i, j)
    ensures InitSound(t1)
  {
    HungKin(t, t1, i, 1);
    if InitWaits(t1) {
      var m :| 0 <= m < |t1.all| && t1.all[m].pid == 1 && t1.all[m].status == Waiting;
      assert t.all[m].pid == 1 && t.all[m].status == Waiting && m != j;
      assert PidsApart(t, j, m);
    }
  }

  /** A round of wait reaps a child, or looks before it sleeps. */
  lemma TestSound(t: Table, t1: Table, i: nat, j: nat, r: Waited)
    requires TableOk(t) && InitSound(t) && i < |t.all| && t.all[i].status == Live && Tested(t, t1, i, j, r)
    ensures InitSound(t1)
  {
    var pid := t.all[i].pid;
    if HasHanging(t, pid) {
      var t0 := Set(t, i, t.all[i].(phase := Usual));
      ChildrenSame(t, t0, 1);
      DroppedKin(t0, t1, j, 1);
      if InitWaits(t1) {
        var m :| 0 <= m < |t1.all| && t1.all[m].pid == 1 && t1.all[m].status == Waiting;
        assert t.all[if m < j then m else m + 1].status == Waiting;
      }
    } else {
      ChildrenSame(t, t1, 1);
      if InitWaits(t1) && pid != 1 {
        var m :| 0 <= m < |t1.all| && t1.all[m].pid == 1 && t1.all[m].status == Waiting;
        assert t.all[m].pid == 1 && t.all[m].status == Waiting;
      }
    }
  }

  /** Of all acts only such an exit makes init sleep over a hanging child. */
  lemma ActSound(t: Table, a: Act, t1: Table)
    requires TableOk(t) && InitSound(t) && Acted(t, a, t1)
    ensures InitSound(t1) <==> !Overlooked(t, a)
  {
    if Possible(t, a) {
      match a
      case BeginFork(i) =>
        var pid: nat :| ForkStarted(t, t1, i, pid);
        ChildrenSame(t, t1, 1);
        assert InitWaits(t1) ==> InitWaits(t);
      case EndFork(i) =>
        OneChildMore(t, t1, i, 1);
        if InitWaits(t1) {
          var m :| 0 <= m < |t1.all| && t1.all[m].pid == 1 && t1.all[m].status == Waiting;
          assert t.all[m].pid == 1 && t.all[m].status == Waiting;
        }
      case FailFork(i) =>
        ChildrenSame(t, t1, 1);
        assert InitWaits(t1) ==> InitWaits(t);
      case BeginExit(i, status) => AdoptionSound(t, t1, i, status);
      case EndExit(i) =>
        var j: nat :| ExitFinished(t, t1, i, j);
        HangingSound(t, t1, i, j);
      case TestWait(i) =>
        var j: nat, r: Waited :| Tested(t, t1, i, j, r);
        TestSound(t, t1, i, j, r);
    }
  }

  /** The same, in a run. */
  lemma StepSound(trace: seq<Table>, acts: seq<Act>, k: nat, next: nat)
    requires IsRunOf(trace, acts) && next == k + 1 < |trace| && InitSound(trace[k])
    ensures InitSound(trace[next]) <==> !Overlooked(trace[k], acts[k])
  {
    assert RuleAt(trace, k) && StepAt(trace, acts, k);
    ActSound(trace[k], acts[k], trace[next]);
  }

  /** An exit of this kind at act `k`. */
  ghost predicate OverlookedAt(trace: seq<Table>, acts: seq<Act>, k: nat) {
    k < |trace| && k < |acts| && Overlooked(trace[k], acts[k])
  }

  lemma {:induction false} SoundTo(trace: seq<Table>, acts: seq<Act>, n: nat)
    requires IsRunOf(trace, acts) && InitSound(trace[0]) && n < |trace|
    requires forall k: nat :: k < n ==> !OverlookedAt(trace, acts, k)
    ensures InitSound(trace[n])
  {
    if n > 0 {
      SoundTo(trace, acts, n - 1);
      assert !OverlookedAt(trace, acts, n - 1);
      StepSound(trace, acts, n - 1, n);
    }
  }

  /** Init never sleeps over a hanging child in a run exactly if the run has no such exit. */
  lemma RunSound(trace: seq<Table>, acts: seq<Act>)
    requires IsRunOf(trace, acts) && InitSound(trace[0])
    ensures (forall n: nat :: n < |trace| ==> InitSound(trace[n])) <==>
            forall k: nat :: k < |trace| - 1 ==> !OverlookedAt(trace, acts, k)
  {
    if forall k: nat :: k < |trace| - 1 ==> !OverlookedAt(trace, acts, k) {
      forall n: nat | n < |trace| ensures InitSound(trace[n]) {
        SoundTo(trace, acts, n);
      }
    } else {
      var k: nat :| k < |trace| - 1 && OverlookedAt(trace, acts, k);
      if InitSound(trace[k]) {
        StepSound(trace, acts, k, k + 1);
      }
    }
  }

  // ----- a run in which init sleeps over a hanging child

  function Usually(id: nat, pid: nat, parent: int): (p: Proc) {
    Proc(id, pid, parent, Live, Usual, 0)
  }

  /** init alone, and room for three more pids. */
  function OnlyInit(): (t: Table) {
    Table([Usually(0, 1, -1)], [true, false, false, false], 1, map[], [])
  }

  /** init, its child, its grandchild and its great-grandchild. */
  function FourGenerations(): (t: Table) {
    Table([Usually(0, 1, -1), Usually(1, 2, 1), Usually(2, 3, 2), Usually(3, 4, 3)], [true, true, true, true],
      4, map[], [])
  }

  /** Three generations are forked; the youngest exits, init waits, and then the parent of the hanging one
      exits. */
  function SleepActs(): (acts: seq<Act>) {
    [BeginFork(0), EndFork(0), BeginFork(1), EndFork(1), BeginFork(2), EndFork(2), BeginExit(3, 0), EndExit(3),
      TestWait(0), BeginExit(2, 0)]
  }

  /** The lowest clear bit. */
  lemma FirstClear(bits: seq<bool>, n: nat)
    requires n < |bits| && !bits[n] && forall j :: 0 <= j < n ==> bits[j]
    ensures Leftmost(bits, 1, n) && !Full(bits) && forall b: nat :: Leftmost(bits, 1, b) ==> b == n
  {
    assert IsRun(bits, n, 1);
    forall j | j < n ensures !IsRun(bits, j, 1) {
      assert 0 <= j ==> bits[j];
    }
    forall b: nat | Leftmost(bits, 1, b) ensures b == n {
      LeftmostOnce(bits, 1, b, n);
    }
  }

  /** A whole fork by task `i`, which gets pid `n + 1` for its child. */
  lemma WholeFork(t: Table, t1: Table, t2: Table, i: nat, n: nat)
    requires i < |t.all| && t.all[i].status == Live && t.all[i].phase == Usual
    requires n < |t.bits| && !t.bits[n] && forall j :: 0 <= j < n ==> t.bits[j]
    requires Acted(t, BeginFork(i), t1) && Acted(t1, EndFork(i), t2)
    ensures !Stuck(t, BeginFork(i)) && !Stuck(t1, EndFork(i))
    ensures t2 == t.(all := t.all + [Usually(t.next, n + 1, t.all[i].pid)], next := t.next + 1,
            bits := t.bits[n := true])
  {
    FirstClear(t.bits, n);
    var pid: nat :| ForkStarted(t, t1, i, pid);
    assert t1.all[i := t1.all[i].(phase := Usual)] == t.all;
  }

  /** Act `k` of a run was done, if the kernel comes back from it. */
  lemma Done(trace: seq<Table>, acts: seq<Act>, k: nat)
    requires IsRunOf(trace, acts) && k < |acts| && k < |trace| && !Stuck(trace[k], acts[k])
    ensures k + 1 < |trace| && Acted(trace[k], acts[k], trace[k + 1])
  {
    assert StepAt(trace, acts, k);
  }

  /** Acts `k` and `k + 1` are a fork by task `i`. */
  lemma ForkedAt(trace: seq<Table>, acts: seq<Act>, k: nat, i: nat, n: nat, t: Table, t2: Table)
    requires IsRunOf(trace, acts) && k + 1 < |acts| && k < |trace| && trace[k] == t && acts[k] == BeginFork(i)
    requires acts[k + 1] == EndFork(i)
    requires i < |t.all| && t.all[i].status == Live && t.all[i].phase == Usual
    requires n < |t.bits| && !t.bits[n] && forall j :: 0 <= j < n ==> t.bits[j]
    requires t2 == t.(all := t.all + [Usually(t.next, n + 1, t.all[i].pid)], next := t.next + 1,
             bits := t.bits[n := true])
    ensures k + 2 < |trace| && trace[k + 2] == t2
  {
    FirstClear(t.bits, n);
    Done(trace, acts, k);
    Done(trace, acts, k + 1);
    WholeFork(t, trace[k + 1], trace[k + 2], i, n);
  }

  lemma ForksThree(trace: seq<Table>)
    requires IsRunOf(trace, SleepActs()) && trace[0] == OnlyInit()
    ensures 6 < |trace| && trace[6] == FourGenerations()
  {
    var one := Table([Usually(0, 1, -1), Usually(1, 2, 1)], [true, true, false, false], 2, map[], []);
    var two := Table([Usually(0, 1, -1), Usually(1, 2, 1), Usually(2, 3, 2)], [true, true, true, false], 3, map[], []);
    ForkedAt(trace, SleepActs(), 0, 0, 1, OnlyInit(), one);
    ForkedAt(trace, SleepActs(), 2, 1, 2, one, two);
    ForkedAt(trace, SleepActs(), 4, 2, 3, two, FourGenerations());
  }

  /** The youngest has exited. */
  function YoungestGone(): (t: Table) {
    FourGenerations().(all := FourGenerations().all[3 := Proc(3, 4, 3, Hanging, Exiting, 0)], exits := map[3 := (4, 0)])
  }

  lemma YoungestExits(trace: seq<Table>)
    requires IsRunOf(trace, SleepActs()) && 6 < |trace| && trace[6] == FourGenerations()
    ensures 8 < |trace| && trace[8] == YoungestGone()
  {
    Done(trace, SleepActs(), 6);
    var t := trace[7];
    assert t.all == FourGenerations().all[3 := Proc(3, 4, 3, Live, Exiting, 0)];
    Done(trace, SleepActs(), 7);
    var j: nat :| ExitFinished(t, trace[8], 3, j);
    assert j == 2;
    assert trace[8].all == YoungestGone().all;
  }

  /** init waits. */
  function InitAsleep(): (t: Table) {
    YoungestGone().(all := YoungestGone().all[0 := Proc(0, 1, -1, Waiting, InWait, 0)])
  }

  lemma InitGoesToSleep(trace: seq<Table>)
    requires IsRunOf(trace, SleepActs()) && 8 < |trace| && trace[8] == YoungestGone()
    ensures 9 < |trace| && trace[9] == InitAsleep()
  {
    Done(trace, SleepActs(), 8);
    var j: nat, r: Waited :| Tested(trace[8], trace[9], 0, j, r);
    assert trace[8].all[1].parent == 1;
  }

  /** A run after which init waits although it has a child that hangs. */
  lemma InitMaySleep(trace: seq<Table>)
    requires IsRunOf(trace, SleepActs()) && trace[0] == OnlyInit()
    ensures Booted(OnlyInit()) && |trace| == 11 && !InitSound(trace[10])
  {
    assert OnlyInit().all[0].pid == 1;
    ForksThree(trace);
    YoungestExits(trace);
    InitGoesToSleep(trace);
    Done(trace, SleepActs(), 9);
    var t := trace[10];
    assert t.all[0].pid == 1 && t.all[0].status == Waiting;
    assert t.all[3].parent == 1 && t.all[3].status == Hanging;
  }
}
