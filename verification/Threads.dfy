/**
 Threads and locks (thread/thread.c, thread/sync.c, device/timer.c) as a step machine.  A step is a
 stretch that no other thread can get into: code with interrupts off, or a single access where they may
 be on.  Each thread has a program counter for the places inside lock_acquire and lock_release where
 another thread may run.
 */
module Threads {
  import opened Seqs

  datatype Status = RUNNING | READY | BLOCKED | WAITING | HANGING

  /** Where a thread is: outside the lock code; past the test of the holder in lock_acquire; about to test the
      value of a semaphore in sema_down; past sema_down but not yet the holder; the holder but not yet
      counted; no longer the holder; no longer counted; or blocked for another reason. */
  datatype Pc =
    | Free
    | Asking(l: nat)
    | Down(l: nat)
    | Got(l: nat)
    | Named(l: nat)
    | Clearing(l: nat)
    | Upping(l: nat)
    | Parked

  /** A task.  `held` has the number of acquires of each lock that are not yet matched by releases. */
  datatype Task = Task(status: Status, pc: Pc, held: map<nat, nat>, ticks: nat, priority: nat)

  datatype Holder = Nobody | By(t: nat)

  /** struct lock with its semaphore. */
  datatype Lock = Lock(value: nat, waiters: seq<nat>, holder: Holder, holderRepeat: nat)

  /** The tasks, thread_ready_list, the running task, the idle task and the locks. */
  datatype Kernel = Kernel(tasks: map<nat, Task>, ready: seq<nat>, cur: nat, idle: nat, locks: map<nat, Lock>)

  /** Which task has passed the semaphore of a lock and not yet given it back. */
  type Owner = map<nat, nat>

  // ----- the rule

  /** The task is between sema_down and sema_up of the lock. */
  predicate Owns(x: Task, l: nat) {
    Inside(x.pc, l) || l in x.held
  }

  /** A place between sema_down and sema_up of the lock. */
  predicate Inside(pc: Pc, l: nat) {
    pc == Got(l) || pc == Named(l) || pc == Clearing(l) || pc == Upping(l)
  }

  /** The status of a task fits the place it is at, and it is in the one list it belongs to. */
  ghost predicate TaskOk(k: Kernel, t: nat)
    requires t in k.tasks
  {
    var x := k.tasks[t];
    && (x.status == READY <==> t in k.ready)
    && (x.pc.Parked? <==> (x.status == BLOCKED && !x.pc.Down?) || x.status == WAITING || x.status == HANGING)
    && (x.pc.Asking? ==> x.pc.l in k.locks && x.pc.l !in x.held)
    && (x.pc.Down? ==> x.pc.l in k.locks && x.pc.l !in x.held && (x.status == BLOCKED ==> t in k.locks[x.pc.l].waiters))
    && (t == k.idle ==> x.held == map[] && (x.pc.Free? || x.pc.Parked?) && x.status != WAITING && x.status != HANGING)
  }

  /** A task that owns a lock is its only owner. */
  ghost predicate OwnOk(k: Kernel, own: Owner, t: nat, l: nat)
    requires t in k.tasks
  {
    var x := k.tasks[t];
    && (Owns(x, l) ==> l in k.locks && l in own && own[l] == t)
    && (l in x.held ==> x.held[l] > 0 && !Inside(x.pc, l))
  }

  /** The semaphore is 1 minus the number of owners, and the fields of the lock say how far its owner is. */
  ghost predicate LockOk(k: Kernel, own: Owner, l: nat)
    requires l in k.locks
  {
    var lock := k.locks[l];
    && lock.value == (if l in own then 0 else 1)
    && (l in own ==> own[l] in k.tasks && Owns(k.tasks[own[l]], l))
    && lock.holder == (if l in own && (k.tasks[own[l]].pc == Named(l) || l in k.tasks[own[l]].held) then By(own[l])
       else Nobody)
    && lock.holderRepeat == (if l !in own then 0 else if l in k.tasks[own[l]].held then k.tasks[own[l]].held[l]
       else if k.tasks[own[l]].pc == Clearing(l) then 1 else 0)
    && NoDups(lock.waiters)
  }

  /** A task in the waiters of a lock is blocked in its sema_down. */
  ghost predicate WaiterOk(k: Kernel, l: nat, t: nat)
    requires l in k.locks
  {
    t in k.locks[l].waiters ==> t in k.tasks && k.tasks[t].status == BLOCKED && k.tasks[t].pc == Down(l)
  }

  /** Some task has been woken, or was never blocked, and has yet to test the value of the lock. */
  ghost predicate Tester(k: Kernel, l: nat) {
    exists t :: t in k.tasks && k.tasks[t].pc == Down(l) && k.tasks[t].status != BLOCKED
  }

  /** No wake-up is lost. */
  ghost predicate WakeOk(k: Kernel, l: nat)
    requires l in k.locks
  {
    k.locks[l].value == 1 && k.locks[l].waiters != [] ==> Tester(k, l)
  }

  /** Everything but who is running. */
  ghost predicate Rest(k: Kernel, own: Owner) {
    && k.idle in k.tasks && NoDups(k.ready)
    && (forall t :: t in k.ready ==> t in k.tasks)
    && (forall t {:trigger TaskOk(k, t)} :: t in k.tasks ==> TaskOk(k, t))
    && (forall t, l {:trigger OwnOk(k, own, t, l)} :: t in k.tasks ==> OwnOk(k, own, t, l))
    && (forall l {:trigger LockOk(k, own, l)} :: l in k.locks ==> LockOk(k, own, l))
    && (forall l, t {:trigger WaiterOk(k, l, t)} :: l in k.locks ==> WaiterOk(k, l, t))
    && (forall l {:trigger WakeOk(k, l)} :: l in k.locks ==> WakeOk(k, l))
    && (forall l :: l in own ==> l in k.locks)
  }

  /** The running task is the only one with that status. */
  ghost predicate OneRuns(k: Kernel) {
    && k.cur in k.tasks
    && forall t {:trigger k.tasks[t]} :: t in k.tasks ==> (k.tasks[t].status == RUNNING <==> t == k.cur)
  }

  ghost predicate NoneRuns(k: Kernel) {
    forall t {:trigger k.tasks[t]} :: t in k.tasks ==> k.tasks[t].status != RUNNING
  }

  /** The rule that holds between any two steps. */
  ghost predicate Inv(k: Kernel, own: Owner) {
    Rest(k, own) && OneRuns(k)
  }

  // ----- steps that change one task

  /** Only task `t`, and its place in the ready list, differ. */
  ghost predicate OnlyTask(k: Kernel, k1: Kernel, t: nat) {
    && t in k.tasks && k1.tasks.Keys == k.tasks.Keys && k1.idle == k.idle && k1.locks.Keys == k.locks.Keys
    && (forall u :: u in k.tasks && u != t ==> k1.tasks[u] == k.tasks[u])
    && NoDups(k1.ready) && (forall u :: u != t ==> (u in k1.ready <==> u in k.ready))
  }

  /** A tester is still one. */
  lemma TesterKept(k: Kernel, k1: Kernel, t: nat, l: nat)
    requires Tester(k, l) && OnlyTask(k, k1, t)
    requires k.tasks[t].pc == Down(l) && k.tasks[t].status != BLOCKED ==> k1.tasks[t].pc == Down(l)
                                                                          && k1.tasks[t].status != BLOCKED
    ensures Tester(k1, l)
  {
    var u :| u in k.tasks && k.tasks[u].pc == Down(l) && k.tasks[u].status != BLOCKED;
    assert k1.tasks[u].pc == Down(l) && k1.tasks[u].status != BLOCKED;
  }

  /** Task `t` changes its status, and its place if both places are outside the lock code. */
  ghost predicate Outside(x: Task, x1: Task) {
    && x1.held == x.held && (x1.pc == x.pc || ((x.pc.Free? || x.pc.Parked?) && (x1.pc.Free? || x1.pc.Parked?)))
    && (x.pc.Down? ==> x.status != BLOCKED && x1.status != BLOCKED)
  }

  lemma StatusStep(k: Kernel, own: Owner, k1: Kernel, t: nat)
    requires Rest(k, own) && OnlyTask(k, k1, t) && k1.locks == k.locks && Outside(k.tasks[t], k1.tasks[t])
    requires TaskOk(k1, t)
    ensures Rest(k1, own)
  {
    forall u | u in k1.tasks ensures TaskOk(k1, u) {
      assert TaskOk(k, u);
    }
    forall u, l | u in k1.tasks ensures OwnOk(k1, own, u, l) {
      assert OwnOk(k, own, u, l);
    }
    forall l | l in k1.locks ensures LockOk(k1, own, l) {
      assert LockOk(k, own, l);
    }
    forall l, u | l in k1.locks ensures WaiterOk(k1, l, u) {
      assert WaiterOk(k, l, u);
    }
    forall l | l in k1.locks ensures WakeOk(k1, l) {
      assert WakeOk(k, l);
      if Tester(k, l) {
        TesterKept(k, k1, t, l);
      }
    }
  }

  /** Task `t` goes on in the code of lock `l`; other locks are as before. */
  ghost predicate OnlyLock(k: Kernel, own: Owner, k1: Kernel, own1: Owner, t: nat, l: nat) {
    && OnlyTask(k, k1, t) && l in k.locks && (forall m :: m in k.locks && m != l ==> k1.locks[m] == k.locks[m])
    && (forall m :: m != l ==> (m in own1 <==> m in own) && (m in own ==> own1[m] == own[m]))
    && (forall m :: m != l ==> (m in k1.tasks[t].held <==> m in k.tasks[t].held)
                               && (m in k.tasks[t].held ==> k1.tasks[t].held[m] == k.tasks[t].held[m]))
    && PcOf(k.tasks[t].pc, l) && PcOf(k1.tasks[t].pc, l)
    && (forall u :: u != t ==> (u in k1.locks[l].waiters <==> u in k.locks[l].waiters))
  }

  /** Outside the lock code, or in that of lock `l`. */
  predicate PcOf(pc: Pc, l: nat) {
    pc.Free? || pc == Asking(l) || pc == Down(l) || Inside(pc, l)
  }

  lemma OtherTask(k: Kernel, own: Owner, k1: Kernel, own1: Owner, t: nat, l: nat, u: nat)
    requires OnlyLock(k, own, k1, own1, t, l) && u in k.tasks && u != t && TaskOk(k, u)
    ensures TaskOk(k1, u)
  {
  }

  lemma OtherOwn(k: Kernel, own: Owner, k1: Kernel, own1: Owner, t: nat, l: nat, u: nat, m: nat)
    requires OnlyLock(k, own, k1, own1, t, l) && u in k.tasks && m != l && OwnOk(k, own, u, m)
    ensures OwnOk(k1, own1, u, m)
  {
  }

  lemma OtherLock(k: Kernel, own: Owner, k1: Kernel, own1: Owner, t: nat, l: nat, m: nat)
    requires OnlyLock(k, own, k1, own1, t, l) && m in k.locks && m != l && LockOk(k, own, m)
    ensures LockOk(k1, own1, m)
  {
  }

  lemma OtherWaiter(k: Kernel, own: Owner, k1: Kernel, own1: Owner, t: nat, l: nat, m: nat, u: nat)
    requires OnlyLock(k, own, k1, own1, t, l) && m in k.locks && (m != l || u != t) && WaiterOk(k, m, u)
    ensures WaiterOk(k1, m, u)
  {
  }

  lemma LockStep(k: Kernel, own: Owner, k1: Kernel, own1: Owner, t: nat, l: nat)
    requires Rest(k, own) && OnlyLock(k, own, k1, own1, t, l)
    requires l in own1 ==> own1[l] == t || (l in own && own1[l] == own[l])
    requires TaskOk(k1, t) && OwnOk(k1, own1, t, l) && LockOk(k1, own1, l) && WaiterOk(k1, l, t) && WakeOk(k1, l)
    requires forall u {:trigger OwnOk(k1, own1, u, l)} :: u in k.tasks && u != t ==> OwnOk(k1, own1, u, l)
    ensures Rest(k1, own1)
  {
    forall u | u in k1.tasks ensures TaskOk(k1, u) {
      assert TaskOk(k, u);
      if u != t { OtherTask(k, own, k1, own1, t, l, u); }
    }
    forall u, m | u in k1.tasks ensures OwnOk(k1, own1, u, m) {
      assert OwnOk(k, own, u, m);
      if m != l { OtherOwn(k, own, k1, own1, t, l, u, m); }
    }
    forall m | m in k1.locks ensures LockOk(k1, own1, m) {
      assert LockOk(k, own, m);
      if m != l { OtherLock(k, own, k1, own1, t, l, m); }
    }
    forall m, u | m in k1.locks ensures WaiterOk(k1, m, u) {
      assert WaiterOk(k, m, u);
      if m != l || u != t { OtherWaiter(k, own, k1, own1, t, l, m, u); }
    }
    forall m | m in k1.locks ensures WakeOk(k1, m) {
      assert WakeOk(k, m);
      if m != l && Tester(k, m) {
        TesterKept(k, k1, t, m);
      }
    }
    assert forall u :: u in k1.ready ==> u in k1.tasks by { assert TaskOk(k1, t); }
  }

  // ----- schedule

  function WithStatus(k: Kernel, t: nat, s: Status): (k1: Kernel)
    requires t in k.tasks
  {
    k.(tasks := k.tasks[t := k.tasks[t].(status := s)])
  }

  /** Making the first task of the ready list the running one. */
  lemma DispatchOk(k: Kernel, own: Owner, t: nat)
    requires Rest(k, own) && NoneRuns(k) && k.ready != [] && t == k.ready[0]
    ensures t in k.tasks && Inv(WithStatus(k, t, RUNNING).(ready := k.ready[1..], cur := t), own)
  {
    assert t in k.ready;
    var k1 := WithStatus(k, t, RUNNING).(ready := k.ready[1..], cur := t);
    assert k.ready == [t] + k1.ready;
    assert TaskOk(k, t);
    StatusStep(k, own, k1, t);
  }

  /** A blocked task goes to the front of the ready list. */
  function Woken(k: Kernel, t: nat, pc: Pc): (k1: Kernel)
    requires t in k.tasks
  {
    k.(tasks := k.tasks[t := k.tasks[t].(status := READY, pc := pc)], ready := [t] + k.ready)
  }

  /** thread_unblock, with its assertions.  `pc` is where the task goes on. */
  method Unblock(k: Kernel, t: nat, pc: Pc) returns (k1: Kernel)
    requires t in k.tasks && k.tasks[t].status != RUNNING && (k.tasks[t].status == READY <==> t in k.ready)
    requires k.tasks[t].status != READY
    ensures k1 == Woken(k, t, pc) && (NoDups(k.ready) ==> NoDups(k1.ready))
  {
    assert k.tasks[t].status == BLOCKED || k.tasks[t].status == WAITING || k.tasks[t].status == HANGING;
    assert t !in k.ready;
    k1 := k.(tasks := k.tasks[t := k.tasks[t].(status := READY, pc := pc)], ready := [t] + k.ready);
  }

  /** The assertions of thread_unblock hold for a task that is blocked for another reason than a lock, and
      the rule is kept: it was in no list and is now in the ready list, once and in front. */
  lemma WokenOk(k: Kernel, own: Owner, t: nat)
    requires Rest(k, own) && t in k.tasks && k.tasks[t].pc.Parked?
    ensures k.tasks[t].status != RUNNING && k.tasks[t].status != READY && t !in k.ready
    ensures Rest(Woken(k, t, Free), own) && NoDups(Woken(k, t, Free).ready) && Woken(k, t, Free).ready[0] == t
  {
    assert TaskOk(k, t);
    StatusStep(k, own, Woken(k, t, Free), t);
  }

  /** The idle task is blocked whenever nobody runs and nobody is ready. */
  lemma IdleBlocked(k: Kernel, own: Owner)
    requires Rest(k, own) && NoneRuns(k) && k.ready == []
    ensures k.tasks[k.idle].status == BLOCKED && k.tasks[k.idle].pc.Parked?
  {
    assert TaskOk(k, k.idle);
    assert k.tasks[k.idle].status != RUNNING;
  }

  /** The processor goes to the first ready task, or to the idle task if there is none. */
  function Picked(k: Kernel): (k1: Kernel)
    requires k.idle in k.tasks && (k.ready != [] ==> k.ready[0] in k.tasks)
  {
    if k.ready == [] then k.(tasks := k.tasks[k.idle := k.tasks[k.idle].(status := RUNNING, pc := Free)], cur := k.idle)
    else WithStatus(k, k.ready[0], RUNNING).(ready := k.ready[1..], cur := k.ready[0])
  }

  /** The second half of schedule: the running task has already got another status. */
  method PickNext(k: Kernel, ghost own: Owner) returns (k1: Kernel)
    requires Rest(k, own) && NoneRuns(k)
    ensures Inv(k1, own) && (k.ready != [] ==> k.ready[0] in k.tasks) && k1 == Picked(k)
  {
    assert k.ready != [] ==> k.ready[0] in k.ready;
    k1 := k;
    if k.ready == [] {
      IdleBlocked(k, own);
      WokenOk(k, own, k.idle);
      k1 := Unblock(k, k.idle, Free);
    }
    assert k1.ready != [];
    var next := k1.ready[0];
    DispatchOk(k1, own, next);
    k1 := WithStatus(k1, next, RUNNING).(ready := k1.ready[1..], cur := next);
  }

  /** The running task gives up the processor: to the end of the ready list. */
  function Preempted(k: Kernel, ticks: nat): (k1: Kernel)
    requires k.cur in k.tasks
  {
    k.(tasks := k.tasks[k.cur := k.tasks[k.cur].(status := READY, ticks := ticks)], ready := k.ready + [k.cur])
  }

  lemma PreemptedOk(k: Kernel, own: Owner, ticks: nat)
    requires Inv(k, own) && !k.tasks[k.cur].pc.Down?
    ensures k.cur !in k.ready && Rest(Preempted(k, ticks), own) && NoneRuns(Preempted(k, ticks))
  {
    assert TaskOk(k, k.cur);
    StatusStep(k, own, Preempted(k, ticks), k.cur);
  }

  /** schedule, called by the timer: the running task has used up its time. */
  method Schedule(k: Kernel, ghost own: Owner) returns (k1: Kernel)
    requires Inv(k, own) && !k.tasks[k.cur].pc.Down?
    ensures Inv(k1, own) && (k.ready != [] ==> k.ready[0] in k.tasks) && k1 == Turned(k, k.tasks[k.cur].priority)
  {
    PreemptedOk(k, own, k.tasks[k.cur].priority);
    assert k.cur !in k.ready;
    k1 := Preempted(k, k.tasks[k.cur].priority);
    k1 := PickNext(k1, own);
  }

  /** Round robin: the running task to the end, the first one to the processor. */
  function Turned(k: Kernel, ticks: nat): (k1: Kernel)
    requires k.cur in k.tasks && (k.ready == [] || k.ready[0] in k.tasks)
  {
    var p := Preempted(k, ticks);
    var next := p.ready[0];
    WithStatus(p, next, RUNNING).(ready := p.ready[1..], cur := next)
  }

  /** A tick: the running task has one less, or its time is up. */
  function Ticked(k: Kernel): (k1: Kernel)
    requires k.cur in k.tasks && (k.ready == [] || k.ready[0] in k.tasks)
  {
    var x := k.tasks[k.cur];
    if x.ticks == 0 then Turned(k, x.priority) else k.(tasks := k.tasks[k.cur := x.(ticks := x.ticks - 1)])
  }

  /** intr_timer_handler, which cannot come in the middle of sema_down. */
  method Timer(k: Kernel, ghost own: Owner) returns (k1: Kernel)
    requires Inv(k, own) && !k.tasks[k.cur].pc.Down?
    ensures Inv(k1, own) && (k.ready != [] ==> k.ready[0] in k.tasks) && k1 == Ticked(k)
  {
    if k.tasks[k.cur].ticks == 0 {
      k1 := Schedule(k, own);
    } else {
      k1 := k.(tasks := k.tasks[k.cur := k.tasks[k.cur].(ticks := k.tasks[k.cur].ticks - 1)]);
      assert k.ready != [] ==> k.ready[0] in k.ready;
      assert TaskOk(k, k.cur);
      StatusStep(k, own, k1, k.cur);
    }
  }

  /** thread_yield */
  method Yield(k: Kernel, ghost own: Owner) returns (k1: Kernel)
    requires Inv(k, own) && k.tasks[k.cur].pc.Free?
    ensures Inv(k1, own) && (k.ready != [] ==> k.ready[0] in k.tasks) && k1 == Turned(k, k.tasks[k.cur].ticks)
  {
    PreemptedOk(k, own, k.tasks[k.cur].ticks);
    assert k.cur !in k.ready;
    k1 := Preempted(k, k.tasks[k.cur].ticks);
    k1 := PickNext(k1, own);
  }

  /** The running task is blocked and the next one runs. */
  function Gone(k: Kernel, s: Status): (k1: Kernel)
    requires k.cur in k.tasks && k.idle in k.tasks && (k.ready != [] ==> k.ready[0] in k.tasks)
  {
    Picked(k.(tasks := k.tasks[k.cur := k.tasks[k.cur].(status := s, pc := Parked)]))
  }

  /** thread_block for another reason than a lock: waiting for a child, for a byte, or for the parent. */
  method Park(k: Kernel, ghost own: Owner, s: Status) returns (k1: Kernel)
    requires Inv(k, own) && k.tasks[k.cur].pc.Free? && (s == BLOCKED || s == WAITING || s == HANGING)
    requires k.cur == k.idle ==> s == BLOCKED
    ensures Inv(k1, own) && (k.ready != [] ==> k.ready[0] in k.tasks) && k1 == Gone(k, s)
  {
    var k0 := k.(tasks := k.tasks[k.cur := k.tasks[k.cur].(status := s, pc := Parked)]);
    assert TaskOk(k, k.cur);
    StatusStep(k, own, k0, k.cur);
    assert k.ready != [] ==> k.ready[0] in k.ready;
    k1 := PickNext(k0, own);
  }

  /** thread_unblock of a task that is blocked for another reason than a lock. */
  method Unpark(k: Kernel, ghost own: Owner, t: nat) returns (k1: Kernel)
    requires Inv(k, own) && t in k.tasks && k.tasks[t].pc.Parked?
    ensures Inv(k1, own) && k1 == Woken(k, t, Free)
  {
    WokenOk(k, own, t);
    k1 := Unblock(k, t, Free);
  }

  // ----- lock_acquire

  function WithLock(k: Kernel, x: Task, l: nat, lock: Lock): (k1: Kernel) {
    k.(tasks := k.tasks[k.cur := x], locks := k.locks[l := lock])
  }

  /** A step of the running task in the code of lock `l`. */
  lemma OwnStep(k: Kernel, own: Owner, x: Task, l: nat, lock: Lock)
    requires Inv(k, own) && l in own && own[l] == k.cur && x == k.tasks[k.cur].(pc := x.pc, held := x.held)
    requires PcOf(k.tasks[k.cur].pc, l) && PcOf(x.pc, l) && !x.pc.Down? && !x.pc.Asking? && !k.tasks[k.cur].pc.Down?
    requires forall m :: m != l ==> (m in x.held <==> m in k.tasks[k.cur].held)
                                    && (m in k.tasks[k.cur].held ==> x.held[m] == k.tasks[k.cur].held[m])
    requires Owns(x, l) && (l in x.held ==> x.held[l] > 0 && !Inside(x.pc, l))
    requires lock == k.locks[l].(holder := lock.holder, holderRepeat := lock.holderRepeat)
    requires lock.holder == if x.pc == Named(l) || l in x.held then By(k.cur) else Nobody
    requires lock.holderRepeat == if l in x.held then x.held[l] else if x.pc == Clearing(l) then 1 else 0
    ensures Inv(WithLock(k, x, l, lock), own)
  {
    var k1 := WithLock(k, x, l, lock);
    assert LockOk(k, own, l) && TaskOk(k, k.cur) && OwnOk(k, own, k.cur, l) && WakeOk(k, l);
    assert WaiterOk(k, l, k.cur);
    assert k.cur != k.idle;
    forall u | u in k.tasks && u != k.cur ensures OwnOk(k1, own, u, l) {
      assert OwnOk(k, own, u, l);
    }
    LockStep(k, own, k1, own, k.cur, l);
  }

  /** lock_acquire by the holder: one more. */
  method AcquireAgain(k: Kernel, ghost own: Owner, l: nat) returns (k1: Kernel)
    requires Inv(k, own) && l in k.locks && k.tasks[k.cur].pc.Free? && k.locks[l].holder == By(k.cur)
    ensures Inv(k1, own) && l in k.tasks[k.cur].held
    ensures k1 == WithLock(k, k.tasks[k.cur].(held := k.tasks[k.cur].held[l := k.tasks[k.cur].held[l] + 1]), l,
            k.locks[l].(holderRepeat := k.locks[l].holderRepeat + 1))
  {
    assert LockOk(k, own, l);
    var x := k.tasks[k.cur];
    x := x.(held := x.held[l := x.held[l] + 1]);
    var lock := k.locks[l].(holderRepeat := k.locks[l].holderRepeat + 1);
    OwnStep(k, own, x, l, lock);
    k1 := k.(tasks := k.tasks[k.cur := x], locks := k.locks[l := lock]);
  }

  /** sema_down: without room the running task joins the waiters and the next one runs; with room it takes
      the semaphore. */
  function Downed(k: Kernel, l: nat): (k1: Kernel)
    requires k.cur in k.tasks && k.idle in k.tasks && (k.ready != [] ==> k.ready[0] in k.tasks) && l in k.locks
  {
    var x, lock := k.tasks[k.cur], k.locks[l];
    if lock.value == 0 then Picked(WithLock(k, x.(status := BLOCKED, pc := Down(l)), l,
      lock.(waiters := lock.waiters + [k.cur])))
    else WithLock(k, x.(pc := Got(l)), l, lock.(value := lock.value - 1))
  }

  /** sema_down blocks: the running task joins the waiters and the next one runs. */
  method DownBlocks(k: Kernel, ghost own: Owner, l: nat) returns (k1: Kernel)
    requires Inv(k, own) && l in k.locks && PcOf(k.tasks[k.cur].pc, l) && !Owns(k.tasks[k.cur], l)
    requires k.locks[l].value == 0 && k.cur != k.idle
    ensures Inv(k1, own) && (k.ready != [] ==> k.ready[0] in k.tasks) && k1 == Downed(k, l)
  {
    var lock := k.locks[l];
    assert LockOk(k, own, l) && TaskOk(k, k.cur) && OwnOk(k, own, k.cur, l) && WaiterOk(k, l, k.cur);
    assert k.cur !in lock.waiters;
    var k0 := WithLock(k, k.tasks[k.cur].(status := BLOCKED, pc := Down(l)), l,
      lock.(waiters := lock.waiters + [k.cur]));
    forall u | u in k.tasks && u != k.cur ensures OwnOk(k0, own, u, l) {
      assert OwnOk(k, own, u, l);
    }
    LockStep(k, own, k0, own, k.cur, l);
    assert k.ready != [] ==> k.ready[0] in k.ready;
    k1 := PickNext(k0, own);
  }

  /** sema_down takes the semaphore. */
  method DownTakes(k: Kernel, ghost own: Owner, l: nat) returns (k1: Kernel, ghost own1: Owner)
    requires Inv(k, own) && l in k.locks && PcOf(k.tasks[k.cur].pc, l) && !Owns(k.tasks[k.cur], l)
    requires k.locks[l].value != 0 && k.cur != k.idle
    ensures Inv(k1, own1) && own1 == own[l := k.cur]
    ensures k1 == WithLock(k, k.tasks[k.cur].(pc := Got(l)), l, k.locks[l].(value := 0))
  {
    var lock := k.locks[l];
    assert LockOk(k, own, l) && TaskOk(k, k.cur) && OwnOk(k, own, k.cur, l) && WaiterOk(k, l, k.cur);
    lock := lock.(value := lock.value - 1);
    assert lock.value == 0;
    k1 := WithLock(k, k.tasks[k.cur].(pc := Got(l)), l, lock);
    own1 := own[l := k.cur];
    forall u | u in k.tasks && u != k.cur ensures OwnOk(k1, own1, u, l) {
      assert OwnOk(k, own, u, l);
    }
    LockStep(k, own, k1, own1, k.cur, l);
  }

  /** sema_down of a lock, from its first test or from the test after being woken. */
  method SemaDown(k: Kernel, ghost own: Owner, l: nat) returns (k1: Kernel, ghost own1: Owner)
    requires Inv(k, own) && l in k.locks && PcOf(k.tasks[k.cur].pc, l) && !Owns(k.tasks[k.cur], l) && k.cur != k.idle
    ensures Inv(k1, own1) && (k.ready != [] ==> k.ready[0] in k.tasks) && k1 == Downed(k, l)
    ensures own1 == if k.locks[l].value == 0 then own else own[l := k.cur]
  {
    own1 := own;
    assert LockOk(k, own, l);
    assert k.ready != [] ==> k.ready[0] in k.ready;
    if k.locks[l].value == 0 {
      k1 := DownBlocks(k, own, l);
    } else {
      k1, own1 := DownTakes(k, own, l);
    }
  }

  /** plock->holder = running_thread() */
  method SetHolder(k: Kernel, ghost own: Owner, l: nat) returns (k1: Kernel)
    requires Inv(k, own) && k.tasks[k.cur].pc == Got(l)
    ensures Inv(k1, own) && l in k.locks
    ensures k1 == WithLock(k, k.tasks[k.cur].(pc := Named(l)), l, k.locks[l].(holder := By(k.cur)))
  {
    assert OwnOk(k, own, k.cur, l) && LockOk(k, own, l);
    var x, lock := k.tasks[k.cur].(pc := Named(l)), k.locks[l].(holder := By(k.cur));
    OwnStep(k, own, x, l, lock);
    k1 := WithLock(k, x, l, lock);
  }

  /** plock->holder_repeat_nr = 1, after the assertion that it is 0. */
  method SetRepeat(k: Kernel, ghost own: Owner, l: nat) returns (k1: Kernel)
    requires Inv(k, own) && k.tasks[k.cur].pc == Named(l)
    ensures Inv(k1, own) && l in k.locks
    ensures k1 == WithLock(k, k.tasks[k.cur].(pc := Free, held := k.tasks[k.cur].held[l := 1]), l,
            k.locks[l].(holderRepeat := 1))
  {
    assert OwnOk(k, own, k.cur, l) && LockOk(k, own, l);
    assert k.locks[l].holderRepeat == 0;
    var x, lock := k.tasks[k.cur].(pc := Free, held := k.tasks[k.cur].held[l := 1]), k.locks[l].(holderRepeat := 1);
    OwnStep(k, own, x, l, lock);
    k1 := WithLock(k, x, l, lock);
  }

  // ----- lock_release

  /** lock_release up to its return, or up to holder = NULL when it is the last release. */
  method Release(k: Kernel, ghost own: Owner, l: nat) returns (k1: Kernel)
    requires Inv(k, own) && k.tasks[k.cur].pc.Free? && l in k.tasks[k.cur].held
    ensures Inv(k1, own) && l in k.locks && k.locks[l].holderRepeat == k.tasks[k.cur].held[l] > 0
    ensures k.tasks[k.cur].held[l] > 1 ==>
              k1 == WithLock(k, k.tasks[k.cur].(held := k.tasks[k.cur].held[l := k.tasks[k.cur].held[l] - 1]), l,
                k.locks[l].(holderRepeat := k.locks[l].holderRepeat - 1))
    ensures k.tasks[k.cur].held[l] == 1 ==>
              k1 == WithLock(k, k.tasks[k.cur].(pc := Clearing(l), held := k.tasks[k.cur].held - {l}), l,
                k.locks[l].(holder := Nobody))
  {
    assert OwnOk(k, own, k.cur, l) && LockOk(k, own, l);
    assert k.locks[l].holder == By(k.cur);
    var x, lock := k.tasks[k.cur], k.locks[l];
    if lock.holderRepeat > 1 {
      x, lock := x.(held := x.held[l := x.held[l] - 1]), lock.(holderRepeat := lock.holderRepeat - 1);
    } else {
      assert lock.holderRepeat == 1;
      x, lock := x.(pc := Clearing(l), held := x.held - {l}), lock.(holder := Nobody);
    }
    OwnStep(k, own, x, l, lock);
    k1 := WithLock(k, x, l, lock);
  }

  /** plock->holder_repeat_nr = 0 */
  method ClearRepeat(k: Kernel, ghost own: Owner, l: nat) returns (k1: Kernel)
    requires Inv(k, own) && k.tasks[k.cur].pc == Clearing(l)
    ensures Inv(k1, own) && l in k.locks
    ensures k1 == WithLock(k, k.tasks[k.cur].(pc := Upping(l)), l, k.locks[l].(holderRepeat := 0))
  {
    assert OwnOk(k, own, k.cur, l) && LockOk(k, own, l);
    var x, lock := k.tasks[k.cur].(pc := Upping(l)), k.locks[l].(holderRepeat := 0);
    OwnStep(k, own, x, l, lock);
    k1 := WithLock(k, x, l, lock);
  }

  /** The first waiter goes to the ready list; it has yet to test the value again. */
  function FirstWoken(k: Kernel, l: nat): (k1: Kernel)
    requires l in k.locks && k.locks[l].waiters != [] && k.locks[l].waiters[0] in k.tasks
  {
    var w := k.locks[l].waiters[0];
    Woken(k, w, Down(l)).(locks := k.locks[l := k.locks[l].(waiters := k.locks[l].waiters[1..])])
  }

  /** The first waiter is blocked, in no other list, and not the running task. */
  lemma FirstWaiter(k: Kernel, own: Owner, l: nat, w: nat)
    requires Inv(k, own) && k.tasks[k.cur].pc == Upping(l) && l in k.locks && w in k.locks[l].waiters
    ensures w in k.tasks && w != k.cur && k.tasks[w].status == BLOCKED && k.tasks[w].pc == Down(l) && w !in k.ready
    ensures l in own && own[l] == k.cur && l !in k.tasks[w].held && w != k.idle
  {
    assert OwnOk(k, own, k.cur, l) && WaiterOk(k, l, w);
    assert TaskOk(k, w) && OwnOk(k, own, w, l);
  }

  lemma FirstWokenOk(k: Kernel, own: Owner, l: nat)
    requires Inv(k, own) && k.tasks[k.cur].pc == Upping(l) && l in k.locks && k.locks[l].waiters != []
    ensures var w := k.locks[l].waiters[0];
            && w in k.tasks && w != k.cur && k.tasks[w].status == BLOCKED && w !in k.ready
            && Inv(FirstWoken(k, l), own) && Tester(FirstWoken(k, l), l)
  {
    var w, rest := k.locks[l].waiters[0], k.locks[l].waiters[1..];
    assert k.locks[l].waiters == [w] + rest;
    FirstWaiter(k, own, l, w);
    var k1 := FirstWoken(k, l);
    assert k1.tasks[w].pc == Down(l) && k1.tasks[w].status != BLOCKED;
    FirstWokenLock(k, own, k1, l, w);
    LockStep(k, own, k1, own, w, l);
  }

  /** The parts of the rule that are about the lock and the task that was woken. */
  lemma FirstWokenLock(k: Kernel, own: Owner, k1: Kernel, l: nat, w: nat)
    requires Inv(k, own) && l in k.locks && k.locks[l].waiters != [] && w == k.locks[l].waiters[0] && w in k.tasks
    requires w != k.cur
    requires k.tasks[w].pc == Down(l) && k.tasks[w].status == BLOCKED && w !in k.ready && l !in k.tasks[w].held
    requires w != k.idle
    requires k1 == FirstWoken(k, l) && l in own && own[l] == k.cur
    ensures TaskOk(k1, w) && OwnOk(k1, own, w, l) && LockOk(k1, own, l) && WaiterOk(k1, l, w) && WakeOk(k1, l)
    ensures forall u {:trigger OwnOk(k1, own, u, l)} :: u in k.tasks && u != w ==> OwnOk(k1, own, u, l)
  {
    assert k.locks[l].waiters == [w] + k1.locks[l].waiters;
    assert LockOk(k, own, l) && TaskOk(k, w) && OwnOk(k, own, w, l);
    forall u | u in k.tasks && u != w ensures OwnOk(k1, own, u, l) {
      assert OwnOk(k, own, u, l);
    }
  }

  /** psema->value++ */
  lemma RaisedOk(k: Kernel, own: Owner, l: nat)
    requires Inv(k, own) && k.tasks[k.cur].pc == Upping(l) && l in k.locks
    requires k.locks[l].waiters != [] ==> Tester(k, l)
    ensures k.locks[l].value == 0 && Inv(WithLock(k, k.tasks[k.cur].(pc := Free), l,
            k.locks[l].(value := 1)), own - {l})
  {
    assert OwnOk(k, own, k.cur, l) && LockOk(k, own, l) && TaskOk(k, k.cur) && WaiterOk(k, l, k.cur);
    var k1, own1 := WithLock(k, k.tasks[k.cur].(pc := Free), l, k.locks[l].(value := 1)), own - {l};
    forall u | u in k.tasks && u != k.cur ensures OwnOk(k1, own1, u, l) {
      assert OwnOk(k, own, u, l);
    }
    if k.locks[l].waiters != [] {
      TesterKept(k, k1, k.cur, l);
    }
    LockStep(k, own, k1, own1, k.cur, l);
  }

  /** sema_up: the first waiter is woken, and the value goes up by one. */
  function Upped(k: Kernel, l: nat): (k1: Kernel)
    requires k.cur in k.tasks && l in k.locks && (k.locks[l].waiters != [] ==> k.locks[l].waiters[0] in k.tasks)
  {
    var k0 := if k.locks[l].waiters == [] then k else FirstWoken(k, l);
    WithLock(k0, k0.tasks[k.cur].(pc := Free), l, k0.locks[l].(value := k0.locks[l].value + 1))
  }

  /** sema_up of a lock, with its assertions. */
  method SemaUp(k: Kernel, ghost own: Owner, l: nat) returns (k1: Kernel, ghost own1: Owner)
    requires Inv(k, own) && k.tasks[k.cur].pc == Upping(l)
    ensures Inv(k1, own1) && own1 == own - {l} && l in k.locks
    ensures k.locks[l].waiters != [] ==> k.locks[l].waiters[0] in k.tasks
    ensures k1 == Upped(k, l)
  {
    assert OwnOk(k, own, k.cur, l) && LockOk(k, own, l);
    assert k.locks[l].value == 0;
    k1 := k;
    if k.locks[l].waiters != [] {
      FirstWokenOk(k, own, l);
      var w := k.locks[l].waiters[0];
      k1 := k.(locks := k.locks[l := k.locks[l].(waiters := k.locks[l].waiters[1..])]);
      k1 := Unblock(k1, w, Down(l));
      assert k1 == FirstWoken(k, l);
    }
    RaisedOk(k1, own, l);
    var lock := k1.locks[l];
    lock := lock.(value := lock.value + 1);
    assert lock.value == 1;
    k1 := WithLock(k1, k1.tasks[k.cur].(pc := Free), l, lock);
    own1 := own - {l};
  }

  // ----- tasks that come and go

  lemma TesterStill(k: Kernel, k1: Kernel, l: nat)
    requires Tester(k, l)
    requires forall u :: u in k.tasks && k.tasks[u].pc.Down? ==> u in k1.tasks && k1.tasks[u] == k.tasks[u]
    ensures Tester(k1, l)
  {
    var u :| u in k.tasks && k.tasks[u].pc == Down(l) && k.tasks[u].status != BLOCKED;
    assert k1.tasks[u].pc == Down(l);
  }

  /** thread_start: a new task at the end of the ready list. */
  method Start(k: Kernel, ghost own: Owner, t: nat, priority: nat) returns (k1: Kernel)
    requires Inv(k, own) && t !in k.tasks && k.tasks[k.cur].pc.Free?
    ensures Inv(k1, own)
    ensures k1 == k.(tasks := k.tasks[t := Task(READY, Free, map[], priority, priority)], ready := k.ready + [t])
  {
    assert t !in k.ready;
    k1 := k.(tasks := k.tasks[t := Task(READY, Free, map[], priority, priority)], ready := k.ready + [t]);
    forall u | u in k1.tasks ensures TaskOk(k1, u) {
      assert u != t ==> TaskOk(k, u);
    }
    forall u, l | u in k1.tasks ensures OwnOk(k1, own, u, l) {
      assert u != t ==> OwnOk(k, own, u, l);
    }
    forall l | l in k1.locks ensures LockOk(k1, own, l) {
      assert LockOk(k, own, l);
    }
    forall l, u | l in k1.locks ensures WaiterOk(k1, l, u) {
      assert WaiterOk(k, l, u);
    }
    forall l | l in k1.locks ensures WakeOk(k1, l) {
      assert WakeOk(k, l);
      if Tester(k, l) {
        TesterStill(k, k1, l);
      }
    }
  }

  /** The rule without task `t`. */
  lemma ReapedOk(k: Kernel, own: Owner, t: nat)
    requires Inv(k, own) && t in k.tasks && k.tasks[t].status == HANGING && k.tasks[t].held == map[]
    ensures Inv(k.(tasks := k.tasks - {t}), own)
  {
    assert TaskOk(k, t);
    var k1 := k.(tasks := k.tasks - {t});
    forall u | u in k1.tasks ensures TaskOk(k1, u) {
      assert TaskOk(k, u);
    }
    forall u, l | u in k1.tasks ensures OwnOk(k1, own, u, l) {
      assert OwnOk(k, own, u, l);
    }
    forall l | l in k1.locks ensures LockOk(k1, own, l) {
      assert LockOk(k, own, l);
    }
    forall l, u | l in k1.locks ensures WaiterOk(k1, l, u) {
      assert WaiterOk(k, l, u);
    }
    forall l | l in k1.locks ensures WakeOk(k1, l) {
      assert WakeOk(k, l);
      if Tester(k, l) {
        TesterStill(k, k1, l);
      }
    }
  }

  /** A lock whose owner is gone can never be had again: its value is 0 and nobody owns it. */
  lemma OwnerGone(k: Kernel, own: Owner, t: nat, l: nat, own1: Owner)
    requires Inv(k, own) && t in k.tasks && t != k.cur && l in k.tasks[t].held
    ensures !Inv(k.(tasks := k.tasks - {t}), own1)
  {
    var k1 := k.(tasks := k.tasks - {t});
    assert OwnOk(k, own, t, l) && LockOk(k, own, l);
    forall u | u in k1.tasks ensures !Owns(k.tasks[u], l) {
      assert OwnOk(k, own, u, l);
    }
    assert !LockOk(k1, own1, l);
  }

  /** thread_exit of a child that hangs: it is in no list but that of all tasks.  The rule is kept exactly if
      the child holds no lock. */
  method Reap(k: Kernel, ghost own: Owner, t: nat) returns (k1: Kernel)
    requires Inv(k, own) && t in k.tasks && k.tasks[t].status == HANGING
    ensures k1 == k.(tasks := k.tasks - {t}) && t !in k.ready
    ensures k.tasks[t].held == map[] ==> Inv(k1, own)
    ensures k.tasks[t].held != map[] ==> forall own1 :: !Inv(k1, own1)
  {
    assert TaskOk(k, t);
    k1 := k.(tasks := k.tasks - {t});
    if k.tasks[t].held == map[] {
      ReapedOk(k, own, t);
    } else {
      ghost var l :| l in k.tasks[t].held;
      forall own1 ensures !Inv(k1, own1) {
        OwnerGone(k, own, t, l, own1);
      }
    }
  }

  // ----- runs

  /** What can happen next: a tick, or something the running task does.  `Go` is the next step inside
      the lock code. */
  datatype Move =
    | Tick
    | GiveUp
    | Block(s: Status)
    | Wake(t: nat)
    | Create(t: nat, priority: nat)
    | Bury(t: nat)
    | Acquire(l: nat)
    | Let(l: nat)
    | Go

  /** What the code takes for granted of tasks, lists and locks. */
  ghost predicate Sane(k: Kernel) {
    && k.cur in k.tasks && k.idle in k.tasks && (k.ready != [] ==> k.ready[0] in k.tasks)
    && (forall l :: l in k.locks && k.locks[l].waiters != [] ==> k.locks[l].waiters[0] in k.tasks)
    && var x := k.tasks[k.cur];
       (x.pc.Free? || x.pc.Parked? || x.pc.l in k.locks) && forall l :: l in x.held ==> l in k.locks
  }

  lemma InvSane(k: Kernel, own: Owner)
    requires Inv(k, own)
    ensures Sane(k)
  {
    assert k.ready != [] ==> k.ready[0] in k.ready;
    var x := k.tasks[k.cur];
    assert TaskOk(k, k.cur);
    assert !x.pc.Free? && !x.pc.Parked? ==> OwnOk(k, own, k.cur, x.pc.l);
    forall l | l in x.held ensures l in k.locks {
      assert OwnOk(k, own, k.cur, l);
    }
    forall l | l in k.locks && k.locks[l].waiters != [] ensures k.locks[l].waiters[0] in k.tasks {
      assert WaiterOk(k, l, k.locks[l].waiters[0]);
    }
  }

  /** The test of the holder in lock_acquire: one more for the holder; anybody else goes on to sema_down. */
  ghost function Acquired(k: Kernel, l: nat): (k1: Kernel)
    requires Sane(k) && l in k.locks
  {
    var x, lock := k.tasks[k.cur], k.locks[l];
    if lock.holder != By(k.cur) then k.(tasks := k.tasks[k.cur := x.(pc := Asking(l))])
    else if l in x.held then WithLock(k, x.(held := x.held[l := x.held[l] + 1]), l,
      lock.(holderRepeat := lock.holderRepeat + 1))
    else k
  }

  /** lock_release up to its return, or up to holder = NULL when it is the last release. */
  ghost function Released(k: Kernel, l: nat): (k1: Kernel)
    requires Sane(k) && l in k.tasks[k.cur].held
  {
    var x, lock := k.tasks[k.cur], k.locks[l];
    if lock.holderRepeat > 1 && x.held[l] > 0
      then WithLock(k, x.(held := x.held[l := x.held[l] - 1]), l, lock.(holderRepeat := lock.holderRepeat - 1))
    else WithLock(k, x.(pc := Clearing(l), held := x.held - {l}), l, lock.(holder := Nobody))
  }

  /** The next step of the running task inside the lock code. */
  ghost function WentOn(k: Kernel): (k1: Kernel)
    requires Sane(k)
  {
    var x := k.tasks[k.cur];
    match x.pc
    case Asking(l) => Downed(k, l)
    case Down(l) => Downed(k, l)
    case Got(l) => WithLock(k, x.(pc := Named(l)), l, k.locks[l].(holder := By(k.cur)))
    case Named(l) => WithLock(k, x.(pc := Free, held := x.held[l := 1]), l, k.locks[l].(holderRepeat := 1))
    case Clearing(l) => WithLock(k, x.(pc := Upping(l)), l, k.locks[l].(holderRepeat := 0))
    case Upping(l) => Upped(k, l)
    case _ => k
  }

  /** A move of a task that is outside the lock code; one that is not possible is not made. */
  ghost function Moved(k: Kernel, m: Move): (k1: Kernel)
    requires Sane(k)
  {
    match m
    case GiveUp => Turned(k, k.tasks[k.cur].ticks)
    case Block(st) => if st == BLOCKED || (k.cur != k.idle && (st == WAITING || st == HANGING)) then Gone(k, st) else k
    case Wake(t) => if t in k.tasks && k.tasks[t].pc.Parked? then Woken(k, t, Free) else k
    case Create(t, priority) =>
      if t !in k.tasks then k.(tasks := k.tasks[t := Task(READY, Free, map[], priority, priority)],
        ready := k.ready + [t]) else k
    case Bury(t) => if t in k.tasks && k.tasks[t].status == HANGING && k.tasks[t].held == map[]
      then k.(tasks := k.tasks - {t}) else k
    case Acquire(l) => if l in k.locks && k.cur != k.idle then Acquired(k, l) else k
    case Let(l) => if l in k.tasks[k.cur].held then Released(k, l) else k
    case _ => k
  }

  /** The step function of the machine. */
  ghost function Next(k: Kernel, m: Move): (k1: Kernel)
    requires Sane(k)
  {
    if m.Tick? then (if k.tasks[k.cur].pc.Down? then k else Ticked(k))
    else if m.Go? then WentOn(k)
    else if k.tasks[k.cur].pc.Free? then Moved(k, m)
    else k
  }

  /** The running task goes on inside the lock code. */
  method GoOn(k: Kernel, ghost own: Owner) returns (k1: Kernel, ghost own1: Owner)
    requires Inv(k, own)
    ensures Inv(k1, own1) && Sane(k) && k1 == WentOn(k)
  {
    k1, own1 := k, own;
    InvSane(k, own);
    assert TaskOk(k, k.cur);
    match k.tasks[k.cur].pc
    case Asking(l) =>
      assert OwnOk(k, own, k.cur, l);
      k1, own1 := SemaDown(k, own, l);
    case Down(l) =>
      assert OwnOk(k, own, k.cur, l);
      k1, own1 := SemaDown(k, own, l);
    case Got(l) =>
      k1 := SetHolder(k, own, l);
    case Named(l) =>
      k1 := SetRepeat(k, own, l);
    case Clearing(l) =>
      k1 := ClearRepeat(k, own, l);
    case Upping(l) =>
      k1, own1 := SemaUp(k, own, l);
    case Free =>
    case Parked =>
  }

  /** A move of a task that is outside the lock code. */
  method FreeMove(k: Kernel, ghost own: Owner, m: Move) returns (k1: Kernel, ghost own1: Owner)
    requires Inv(k, own) && k.tasks[k.cur].pc.Free?
    ensures Inv(k1, own1) && Sane(k) && k1 == Moved(k, m)
  {
    k1, own1 := k, own;
    InvSane(k, own);
    match m
    case GiveUp =>
      k1 := Yield(k, own);
    case Block(s) =>
      if s == BLOCKED || (k.cur != k.idle && (s == WAITING || s == HANGING)) {
        k1 := Park(k, own, s);
      }
    case Wake(t) =>
      if t in k.tasks && k.tasks[t].pc.Parked? {
        k1 := Unpark(k, own, t);
      }
    case Create(t, priority) =>
      if t !in k.tasks {
        k1 := Start(k, own, t, priority);
      }
    case Bury(t) =>
      if t in k.tasks && k.tasks[t].status == HANGING && k.tasks[t].held == map[] {
        k1 := Reap(k, own, t);
      }
    case Acquire(l) =>
      if l in k.locks && k.cur != k.idle {
        k1 := LockAcquire(k, own, l);
      }
    case Let(l) =>
      if l in k.tasks[k.cur].held {
        k1 := Release(k, own, l);
      }
    case _ =>
  }

  /** A task that is not the holder goes on to sema_down.  Another task may run before it gets there, but
      only the task itself can become the holder by its own steps, so the test stays right. */
  method Ask(k: Kernel, ghost own: Owner, l: nat) returns (k1: Kernel)
    requires Inv(k, own) && l in k.locks && k.tasks[k.cur].pc.Free? && k.cur != k.idle && k.locks[l].holder != By(k.cur)
    ensures Inv(k1, own) && k1 == k.(tasks := k.tasks[k.cur := k.tasks[k.cur].(pc := Asking(l))])
  {
    k1 := k.(tasks := k.tasks[k.cur := k.tasks[k.cur].(pc := Asking(l))]);
    assert LockOk(k, own, l) && TaskOk(k, k.cur) && OwnOk(k, own, k.cur, l) && WaiterOk(k, l, k.cur) && WakeOk(k, l);
    forall u | u in k.tasks && u != k.cur ensures OwnOk(k1, own, u, l) {
      assert OwnOk(k, own, u, l);
    }
    if Tester(k, l) {
      TesterKept(k, k1, k.cur, l);
    }
    LockStep(k, own, k1, own, k.cur, l);
  }

  /** lock_acquire up to the test of the holder. */
  method LockAcquire(k: Kernel, ghost own: Owner, l: nat) returns (k1: Kernel)
    requires Inv(k, own) && l in k.locks && k.tasks[k.cur].pc.Free? && k.cur != k.idle
    ensures Inv(k1, own) && Sane(k) && k1 == Acquired(k, l)
  {
    InvSane(k, own);
    if k.locks[l].holder != By(k.cur) {
      k1 := Ask(k, own, l);
    } else {
      k1 := AcquireAgain(k, own, l);
    }
  }

  /** One move; a move that is not possible is not made. */
  method Do(k: Kernel, ghost own: Owner, m: Move) returns (k1: Kernel, ghost own1: Owner)
    requires Inv(k, own)
    ensures Inv(k1, own1) && Sane(k) && k1 == Next(k, m)
  {
    k1, own1 := k, own;
    InvSane(k, own);
    if m.Tick? {
      if !k.tasks[k.cur].pc.Down? {
        k1 := Timer(k, own);
      }
    } else if m.Go? {
      k1, own1 := GoOn(k, own);
    } else if k.tasks[k.cur].pc.Free? {
      k1, own1 := FreeMove(k, own, m);
    }
  }

  /** The states of a run: each is the one before it after its move, and the rule holds in all of them. */
  ghost predicate IsRunOf(trace: seq<Kernel>, owners: seq<Owner>, moves: seq<Move>) {
    && |trace| == |owners| == |moves| + 1
    && (forall i :: 0 <= i < |trace| ==> Inv(trace[i], owners[i]))
    && (forall i {:trigger moves[i]} :: 0 <= i < |moves| ==> Sane(trace[i]) && trace[i + 1] == Next(trace[i], moves[i]))
  }

  /** The kernel after start-up: one task runs, all others, the idle task among them, are ready, and no lock
      is taken. */
  ghost predicate Booted(k: Kernel) {
    && k.cur in k.tasks && k.idle in k.ready && k.tasks.Keys == {k.cur} + (set t | t in k.ready)
    && NoDups(k.ready) && k.cur !in k.ready
    && k.tasks[k.cur].status == RUNNING && k.tasks[k.cur].pc == Free && k.tasks[k.cur].held == map[]
    && (forall t :: t in k.ready ==> t in k.tasks && k.tasks[t].status == READY && k.tasks[t].pc == Free
                                     && k.tasks[t].held == map[])
    && forall l :: l in k.locks ==> k.locks[l] == Lock(1, [], Nobody, 0)
  }

  lemma BootedOk(k: Kernel)
    requires Booted(k)
    ensures Inv(k, map[])
  {
    forall t | t in k.tasks ensures TaskOk(k, t) && (t == k.cur || t in k.ready) {
      assert t in k.tasks.Keys;
    }
    forall t, l | t in k.tasks ensures OwnOk(k, map[], t, l) {
      assert TaskOk(k, t);
    }
    forall l | l in k.locks ensures LockOk(k, map[], l) {
    }
    forall l, t | l in k.locks ensures WaiterOk(k, l, t) {
    }
    forall l | l in k.locks ensures WakeOk(k, l) {
    }
  }

  /** struct list thread_ready_list, the tasks and the locks, changed by one move after another: every
      interleaving keeps the rule. */
  class Machine {
    var k: Kernel
    ghost var own: Owner

    constructor (k: Kernel)
      requires Booted(k)
      ensures Inv(this.k, own) && this.k == k
    {
      BootedOk(k);
      this.k := k;
      own := map[];
    }

    /** Every interleaving keeps the rule, step by step. */
    method Run(moves: seq<Move>) returns (ghost trace: seq<Kernel>, ghost owners: seq<Owner>)
      requires Inv(k, own)
      modifies this
      ensures IsRunOf(trace, owners, moves)
      ensures trace[0] == old(k) && trace[|moves|] == k && owners[|moves|] == own
    {
      trace, owners := [k], [own];
      var n := 0;
      while n < |moves|
        invariant 0 <= n <= |moves| && IsRunOf(trace, owners, moves[..n])
        invariant trace[0] == old(k) && trace[n] == k && owners[n] == own
      {
        var k1;
        ghost var own1;
        k1, own1 := Do(k, own, moves[n]);
        RunMore(trace, owners, moves, n, k1, own1);
        k, own := k1, own1;
        trace, owners := trace + [k], owners + [own];
        n := n + 1;
      }
      assert moves[..n] == moves;
    }
  }

  /** One more move. */
  lemma RunMore(trace: seq<Kernel>, owners: seq<Owner>, moves: seq<Move>, n: nat, k: Kernel, own: Owner)
    requires n < |moves| && IsRunOf(trace, owners, moves[..n]) && Sane(trace[n]) && k == Next(trace[n], moves[n])
    requires Inv(k, own)
    ensures IsRunOf(trace + [k], owners + [own], moves[..n + 1])
  {
    var trace1, moves1 := trace + [k], moves[..n + 1];
    forall i | 0 <= i < |moves1| ensures Sane(trace1[i]) && trace1[i + 1] == Next(trace1[i], moves1[i]) {
      if i < n {
        assert moves1[i] == moves[..n][i];
      }
    }
  }

  // ----- what the rule says

  /** The tasks between sema_down and sema_up of a lock. */
  ghost function Owners(k: Kernel, l: nat): (ts: set<nat>) {
    set t | t in k.tasks && Owns(k.tasks[t], l)
  }

  /** At most one task is inside a lock, and the value of its semaphore is 1 minus their number. */
  lemma ValueIsRoom(k: Kernel, own: Owner, l: nat)
    requires Inv(k, own) && l in k.locks
    ensures |Owners(k, l)| <= 1 && k.locks[l].value == 1 - |Owners(k, l)|
  {
    assert LockOk(k, own, l);
    forall t | t in Owners(k, l) ensures l in own && t == own[l] {
      assert OwnOk(k, own, t, l);
    }
    if l in own {
      assert Owners(k, l) == {own[l]};
    } else {
      assert Owners(k, l) == {};
    }
  }

  /** The holder needs as many releases as it made acquires, and nobody else is the holder. */
  lemma HolderCounts(k: Kernel, own: Owner, l: nat, t: nat)
    requires Inv(k, own) && l in k.locks && t in k.tasks && l in k.tasks[t].held
    ensures k.locks[l].holder == By(t) && k.locks[l].holderRepeat == k.tasks[t].held[l] >= 1 && Owners(k, l) == {t}
  {
    assert LockOk(k, own, l) && OwnOk(k, own, t, l);
    forall u | u in Owners(k, l) ensures u == t {
      assert OwnOk(k, own, u, l);
    }
  }

  /** No wake-up is lost: if a lock is free and tasks wait for it, some task has yet to test it. */
  lemma NoLostWakeUp(k: Kernel, own: Owner, l: nat)
    requires Inv(k, own) && l in k.locks && k.locks[l].value == 1 && k.locks[l].waiters != []
    ensures exists t :: t in k.tasks && k.tasks[t].pc == Down(l)
                        && (k.tasks[t].status == READY || k.tasks[t].status == RUNNING)
  {
    assert WakeOk(k, l);
    var t :| t in k.tasks && k.tasks[t].pc == Down(l) && k.tasks[t].status != BLOCKED;
    assert TaskOk(k, t);
  }

  /** A task is at one place of one list at most: ready tasks in the ready list, tasks blocked in a
      sema_down among the waiters of that lock, all others in none. */
  lemma OneList(k: Kernel, own: Owner, t: nat, l: nat)
    requires Inv(k, own) && t in k.tasks && l in k.locks
    ensures t in k.ready <==> k.tasks[t].status == READY
    ensures t in k.locks[l].waiters <==> k.tasks[t].status == BLOCKED && k.tasks[t].pc == Down(l)
    ensures NoDups(k.ready) && NoDups(k.locks[l].waiters)
  {
    assert TaskOk(k, t) && LockOk(k, own, l) && WaiterOk(k, l, t);
  }
}
