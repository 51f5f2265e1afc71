/**
 The keyboard queue with its waiting (device/ioqueue.c, device/keyboard.c): the keyboard interrupt puts
 bytes and never waits; readers wait in ioq_getchar, asleep with the lock of the queue held.  A step is
 what a reader does between two places where it can be left, or one key.
 */
module Keyboard {
  import opened Seqs

  /** A reader: outside or about to test the queue; asleep as the consumer; woken by a key; waiting for
      the lock; woken from that wait. */
  datatype Pc = Outside | Asleep | Awake | WaitsLock | LockWoken

  datatype By = Nobody | Reader(r: nat)

  /** Bytes in the queue, who has the lock, who waits for it, the consumer field, and the readers. */
  datatype Queue = Queue(len: nat, lock: By, waiters: seq<nat>, consumer: By, pcs: map<nat, Pc>)

  datatype Move = Key | Read(r: nat)

  /** Take the lock and wait: a reader that found the queue empty, or one that got the lock after
      waiting for it, which does not look at the queue again. */
  function Sleep(q: Queue, r: nat): (q1: Queue) {
    if q.lock == Nobody then q.(lock := Reader(r), consumer := Reader(r), pcs := q.pcs[r := Asleep])
    else q.(waiters := q.waiters + [r], pcs := q.pcs[r := WaitsLock])
  }

  /** The loop of ioq_getchar from its test on. */
  function Test(q: Queue, r: nat): (q1: Queue) {
    if q.len == 0 then Sleep(q, r) else q.(len := q.len - 1, pcs := q.pcs[r := Outside])
  }

  /** lock_release: the first waiter for the lock is woken. */
  function Unlock(q: Queue): (q1: Queue) {
    if q.waiters == [] then q.(lock := Nobody)
    else q.(lock := Nobody, waiters := q.waiters[1..], pcs := q.pcs[q.waiters[0] := LockWoken])
  }

  /** A key, or a reader that goes on; a reader that sleeps or waits does not. */
  function Step(q: Queue, m: Move): (q1: Queue) {
    match m
    case Key =>
      if q.len >= 2047 then q
      else if q.consumer == Nobody then q.(len := q.len + 1)
      else q.(len := q.len + 1, consumer := Nobody, pcs := q.pcs[q.consumer.r := Awake])
    case Read(r) =>
      if r !in q.pcs then q
      else match q.pcs[r]
        case Outside => Test(q, r)
        case Awake => Test(Unlock(q), r)
        case LockWoken => Sleep(q, r)
        case _ => q
  }

  function Run(q: Queue, moves: seq<Move>): (q1: Queue)
    decreases |moves|
  {
    if moves == [] then q else Run(Step(q, moves[0]), moves[1..])
  }

  /** The queue before anybody reads. */
  function Start(readers: set<nat>): (q: Queue) {
    Queue(0, Nobody, [], Nobody, map r | r in readers :: Outside)
  }

  // ----- the rule for any number of readers

  /** The consumer sleeps with the lock; whoever has the lock sleeps or was just woken. */
  ghost predicate Ok(q: Queue) {
    && q.len <= 2047 && NoDups(q.waiters)
    && (q.consumer.Reader? ==> q.lock == q.consumer)
    && (q.lock.Reader? ==> q.lock.r in q.pcs && q.pcs[q.lock.r] == if q.consumer == Nobody then Awake else Asleep)
    && (forall r :: r in q.pcs && (q.pcs[r] == Asleep || q.pcs[r] == Awake) ==> q.lock == Reader(r))
    && (forall r :: r in q.waiters <==> r in q.pcs && q.pcs[r] == WaitsLock)
  }

  /** ioq_wait always finds the consumer field empty. */
  lemma SleepOk(q: Queue, r: nat)
    requires Ok(q) && r in q.pcs && q.pcs[r] != Asleep && q.pcs[r] != WaitsLock && q.lock != Reader(r)
    ensures Ok(Sleep(q, r)) && (q.lock == Nobody ==> q.consumer == Nobody)
  {
  }

  lemma UnlockOk(q: Queue, r: nat)
    requires Ok(q) && r in q.pcs && q.pcs[r] == Awake
    ensures var q1 := Unlock(q).(pcs := Unlock(q).pcs[r := Outside]); Ok(q1) && q1.lock == Nobody
                                                                      && q1.consumer == Nobody && q1.len == q.len
  {
    assert q.waiters != [] ==> q.waiters == [q.waiters[0]] + q.waiters[1..];
  }

  lemma StepOk(q: Queue, m: Move)
    requires Ok(q)
    ensures Ok(Step(q, m)) && Step(q, m).pcs.Keys == q.pcs.Keys
  {
    if m.Read? && m.r in q.pcs {
      var r := m.r;
      if q.pcs[r] == Outside {
        TestOk(q, r);
      } else if q.pcs[r] == LockWoken {
        SleepOk(q, r);
      } else if q.pcs[r] == Awake {
        UnlockOk(q, r);
        var q1 := Unlock(q).(pcs := Unlock(q).pcs[r := Outside]);
        TestOk(q1, r);
        assert Test(Unlock(q), r) == Test(q1, r);
      }
    }
  }

  lemma TestOk(q: Queue, r: nat)
    requires Ok(q) && r in q.pcs && q.pcs[r] == Outside
    ensures Ok(Test(q, r)) && Test(q, r).pcs.Keys == q.pcs.Keys
  {
    SleepOk(q, r);
  }

  lemma {:induction false} RunOk(q: Queue, moves: seq<Move>)
    requires Ok(q)
    ensures Ok(Run(q, moves)) && Run(q, moves).pcs.Keys == q.pcs.Keys
    decreases |moves|
  {
    if moves != [] {
      StepOk(q, moves[0]);
      RunOk(Step(q, moves[0]), moves[1..]);
    }
  }

  // ----- one reader

  /** The consumer is set only while the queue is empty. */
  ghost predicate SleepsOnlyEmpty(q: Queue) {
    q.consumer.Reader? ==> q.len == 0
  }

  /** With one reader nobody ever waits for the lock. */
  ghost predicate OneOk(q: Queue, r: nat) {
    Ok(q) && SleepsOnlyEmpty(q) && q.pcs.Keys == {r} && q.pcs[r] != WaitsLock && q.pcs[r] != LockWoken
  }

  lemma OneStep(q: Queue, r: nat, m: Move)
    requires OneOk(q, r)
    ensures OneOk(Step(q, m), r)
  {
    StepOk(q, m);
    assert q.lock.Reader? ==> q.lock.r in q.pcs.Keys;
    assert forall x :: x in q.waiters ==> x in q.pcs.Keys;
    if m.Read? && m.r in q.pcs {
      assert m.r in q.pcs.Keys;
    }
  }

  lemma {:induction false} OneRun(q: Queue, r: nat, moves: seq<Move>)
    requires OneOk(q, r)
    ensures OneOk(Run(q, moves), r)
    decreases |moves|
  {
    if moves != [] {
      OneStep(q, r, moves[0]);
      OneRun(Step(q, moves[0]), r, moves[1..]);
    }
  }

  /** In every run with one reader, a set consumer field means an empty queue. */
  lemma OneReader(r: nat, moves: seq<Move>)
    ensures SleepsOnlyEmpty(Run(Start({r}), moves))
  {
    OneRun(Start({r}), r, moves);
  }

  /** Without readers the consumer field is never set. */
  lemma NoReader(moves: seq<Move>)
    ensures SleepsOnlyEmpty(Run(Start({}), moves))
  {
    RunOk(Start({}), moves);
    var q := Run(Start({}), moves);
    assert forall r :: r in q.pcs ==> r in q.pcs.Keys;
  }

  /** One reads and sleeps, the other one waits for its lock, two keys come, and both go on. */
  function Clash(a: nat, b: nat): (moves: seq<Move>) {
    [Read(a), Read(b), Key, Key, Read(a), Read(b)]
  }

  /** Any two readers can bring it about that one sleeps over a byte: the one that waited for the lock goes
      to sleep without looking again. */
  lemma TwoReaders(readers: set<nat>, a: nat, b: nat)
    requires a in readers && b in readers && a != b
    ensures !SleepsOnlyEmpty(Run(Start(readers), Clash(a, b)))
  {
    var q := Start(readers);
    var q1 := Step(q, Read(a));
    var q2 := Step(q1, Read(b));
    var q3 := Step(q2, Key);
    var q4 := Step(q3, Key);
    var q5 := Step(q4, Read(a));
    var q6 := Step(q5, Read(b));
    assert q2.waiters == [b] && q6.len == 1 && q6.consumer == Reader(b);
    assert Clash(a, b) == [Read(a)] + [Read(b), Key, Key, Read(a), Read(b)];
    assert [Read(b), Key, Key, Read(a), Read(b)] == [Read(b)] + [Key, Key, Read(a), Read(b)];
    assert [Key, Key, Read(a), Read(b)] == [Key] + [Key, Read(a), Read(b)];
    assert [Key, Read(a), Read(b)] == [Key] + [Read(a), Read(b)] && [Read(a), Read(b)] == [Read(a)] + [Read(b)]
           && [Read(b)] == [Read(b)] + [];
    RunCons(q, Read(a), [Read(b), Key, Key, Read(a), Read(b)]);
    RunCons(q1, Read(b), [Key, Key, Read(a), Read(b)]);
    RunCons(q2, Key, [Key, Read(a), Read(b)]);
    RunCons(q3, Key, [Read(a), Read(b)]);
    RunCons(q4, Read(a), [Read(b)]);
    RunCons(q5, Read(b), []);
  }

  /** A set consumer field means an empty queue in every run exactly if there is at most one reader. */
  lemma AtMostOneReader(readers: set<nat>)
    ensures (forall moves :: SleepsOnlyEmpty(Run(Start(readers), moves))) <==> |readers| <= 1
  {
    if readers == {} {
      forall moves ensures SleepsOnlyEmpty(Run(Start(readers), moves)) {
        NoReader(moves);
      }
    } else {
      var a :| a in readers;
      var rest := readers - {a};
      assert readers == {a} + rest && |readers| == 1 + |rest|;
      if rest == {} {
        forall moves ensures SleepsOnlyEmpty(Run(Start(readers), moves)) {
          OneReader(a, moves);
        }
      } else {
        var b :| b in rest;
        assert |rest| >= 1;
        TwoReaders(readers, a, b);
      }
    }
  }

  lemma RunCons(q: Queue, m: Move, ms: seq<Move>)
    ensures Run(q, [m] + ms) == Run(Step(q, m), ms)
  {
    assert ([m] + ms)[1..] == ms;
  }
}
