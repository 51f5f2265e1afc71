/**
 The disk channel (device/ide.c): how a request is cut into commands, and how the driver and the
 interrupt handler tell each other that a command is done.
 */
module Ide {
  const MAX_LBA := 163839

  // ----- commands

  /** A command as it goes to the controller: first sector, and the 8-bit count in which 0 means 256. */
  datatype Command = Command(lba: nat, code: nat)

  /** The sectors a command stands for. */
  function Sectors(c: Command): (n: nat) {
    if c.code == 0 then 256 else c.code
  }

  /** The commands cover `n` sectors from `lba` on, each once and in order, with counts that fit 8 bits. */
  ghost predicate Covers(cs: seq<Command>, lba: nat, n: nat) {
    if cs == [] then n == 0
    else
      var last := cs[|cs| - 1];
      last.code < 256 && Sectors(last) <= n && last.lba == lba + n - Sectors(last)
        && Covers(cs[..|cs| - 1], lba, n - Sectors(last))
  }

  /** What covering means: every sector of the range, and no other, is in exactly one command. */
  lemma {:induction false} CoversOnce(cs: seq<Command>, lba: nat, n: nat, s: nat)
    requires Covers(cs, lba, n)
    ensures lba <= s < lba + n <==> exists i :: 0 <= i < |cs| && InCommand(cs[i], s)
    ensures forall i, j :: 0 <= i < |cs| && 0 <= j < |cs| && InCommand(cs[i], s) && InCommand(cs[j], s) ==> i == j
  {
    if cs != [] {
      var m := |cs| - 1;
      var rest, last := cs[..m], cs[m];
      CoversOnce(rest, lba, n - Sectors(last), s);
      if lba <= s < lba + n - Sectors(last) {
        var i :| 0 <= i < |rest| && InCommand(rest[i], s);
        assert InCommand(cs[i], s);
      } else if lba + n - Sectors(last) <= s < lba + n {
        assert InCommand(cs[m], s);
      }
      forall i | 0 <= i < |cs| && InCommand(cs[i], s) ensures lba <= s < lba + n
        && (i < m ==> s < lba + n - Sectors(last)) {
        if i < m {
          assert InCommand(rest[i], s);
        }
      }
      forall i, j | 0 <= i < m && 0 <= j < m && InCommand(cs[i], s) && InCommand(cs[j], s) ensures i == j {
        assert InCommand(rest[i], s) && InCommand(rest[j], s);
      }
    }
  }

  predicate InCommand(c: Command, s: nat) {
    c.lba <= s < c.lba + Sectors(c)
  }

  /** The size of the next piece: 256 sectors, or what is left. */
  function Piece(done: nat, n: nat): (p: nat)
    requires done < n
    ensures 1 <= p <= 256 && done + p <= n && (p < 256 ==> done + p == n)
  {
    if done + 256 <= n then 256 else n - done
  }

  lemma CoversMore(cs: seq<Command>, lba: nat, done: nat, p: nat)
    requires Covers(cs, lba, done) && 1 <= p <= 256
    ensures Covers(cs + [Command(lba + done, p % 256)], lba, done + p)
  {
    var c := Command(lba + done, p % 256);
    assert Sectors(c) == p;
    assert (cs + [c])[..|cs|] == cs;
  }

  // ----- the protocol

  /** Where the task that has the channel is: nobody has it; about to give a command; past cmd_out;
      blocked in sema_down; woken. */
  datatype Pc = Free | Issue | Issued | Blocked | Woken

  /** What happens next: a request, a step of the driver, or an interrupt, expected or not. */
  datatype Move = Request(lba: nat, n: nat) | Go | Interrupt

  /** struct ide_channel with the request in progress. */
  datatype State = State(expecting: bool, done: nat, pc: Pc, lba: nat, total: nat, secsDone: nat,
    commands: seq<Command>)

  /** An interrupt is expected only while disk_done is 0, and a driver that is not waiting has neither:
      while it waits exactly one of the two holds.  The commands cover what is done and the piece that is
      under way. */
  ghost predicate Ok(s: State) {
    && (s.expecting ==> s.done == 0) && s.done <= 1
    && (s.pc == Free || s.pc == Issue ==> !s.expecting && s.done == 0)
    && (s.pc == Issued ==> (s.expecting <==> s.done == 0))
    && (s.pc == Blocked ==> s.expecting) && (s.pc == Woken ==> s.done == 1)
    && (s.pc != Free ==> s.secsDone < s.total && s.lba + s.total <= MAX_LBA + 1)
    && (s.pc == Free ==> s.secsDone == s.total)
    && Covers(s.commands, s.lba, s.secsDone + if s.pc == Free || s.pc == Issue then 0 else Piece(s.secsDone, s.total))
  }

  /** ide_read or ide_write gets the channel lock. */
  function Begun(s: State, at: nat, n: nat): (s1: State) {
    s.(lba := at, total := n, secsDone := 0, commands := [], pc := Issue)
  }

  /** select_sector and cmd_out for the next piece. */
  function Given(s: State): (s1: State)
    requires s.secsDone < s.total
  {
    s.(commands := s.commands + [Command(s.lba + s.secsDone, Piece(s.secsDone, s.total) % 256)], expecting := true,
      pc := Issued)
  }

  /** sema_down of disk_done, from its first test or from the one after being woken. */
  function Downed(s: State): (s1: State)
    requires s.secsDone < s.total
  {
    if s.done == 0 then s.(pc := Blocked)
    else
      var now := s.secsDone + Piece(s.secsDone, s.total);
      s.(done := s.done - 1, secsDone := now, pc := if now < s.total then Issue else Free)
  }

  /** intr_hd_handler */
  function Interrupted(s: State): (s1: State) {
    if s.expecting then s.(expecting := false, done := s.done + 1, pc := if s.pc == Blocked then Woken else s.pc) else s
  }

  /** The step function: a request waits for the channel, and a driver that is blocked does not go on. */
  function Next(s: State, m: Move): (s1: State) {
    match m
    case Request(at, n) => if s.pc == Free && 0 < n && at + n <= MAX_LBA + 1 then Begun(s, at, n) else s
    case Go =>
      if s.secsDone >= s.total then s
      else if s.pc == Issue then Given(s)
      else if s.pc == Issued || s.pc == Woken then Downed(s)
      else s
    case Interrupt => Interrupted(s)
  }

  function After(s: State, moves: seq<Move>): (s1: State)
    decreases |moves|
  {
    if moves == [] then s else After(Next(s, moves[0]), moves[1..])
  }

  /** A command for the next piece. */
  lemma GivenOk(s: State)
    requires Ok(s) && s.pc == Issue
    ensures Ok(Given(s))
  {
    CoversMore(s.commands, s.lba, s.secsDone, Piece(s.secsDone, s.total));
  }

  /** The test of disk_done. */
  lemma DownedOk(s: State)
    requires Ok(s) && (s.pc == Issued || s.pc == Woken)
    ensures Ok(Downed(s))
  {
  }

  lemma InterruptedOk(s: State)
    requires Ok(s)
    ensures Ok(Interrupted(s))
  {
  }

  lemma NextOk(s: State, m: Move)
    requires Ok(s)
    ensures Ok(Next(s, m))
  {
    if m.Go? && s.pc == Issue {
      GivenOk(s);
    } else if m.Go? && (s.pc == Issued || s.pc == Woken) {
      DownedOk(s);
    } else if m.Interrupt? {
      InterruptedOk(s);
    }
  }

  /** In every run, whenever interrupts come. */
  lemma {:induction false} RunOk(s: State, moves: seq<Move>)
    requires Ok(s)
    ensures Ok(After(s, moves))
    decreases |moves|
  {
    if moves != [] {
      NextOk(s, moves[0]);
      RunOk(Next(s, moves[0]), moves[1..]);
    }
  }

  /** A finished request has had every one of its sectors in exactly one command. */
  lemma Finished(s: State, moves: seq<Move>, sector: nat)
    requires Ok(s) && After(s, moves).pc == Free
    ensures var t := After(s, moves);
            && (t.lba <= sector < t.lba + t.total <==>
                exists i :: 0 <= i < |t.commands| && InCommand(t.commands[i], sector))
            && forall i, j :: 0 <= i < |t.commands| && 0 <= j < |t.commands|
                              && InCommand(t.commands[i], sector) && InCommand(t.commands[j], sector)
                              ==> i == j
  {
    RunOk(s, moves);
    var t := After(s, moves);
    CoversOnce(t.commands, t.lba, t.total, sector);
  }

  // ----- a request comes to its end

  /** How far the driver is from the end of the piece under way. */
  function Phase(s: State): (n: nat)
    ensures n <= 4
  {
    match s.pc
    case Free => 0
    case Issue => 4
    case Issued => if s.expecting then 3 else 1
    case Blocked => 2
    case Woken => 1
  }

  /** How far a request is from its end. */
  function Rank(s: State): (n: nat) {
    if s.pc == Free || s.total <= s.secsDone then 0 else 5 * (s.total - s.secsDone) + Phase(s)
  }

  /** A move within a request brings it nearer to its end or changes nothing. */
  lemma NearerOrSame(s: State, m: Move)
    requires Ok(s) && s.pc != Free
    ensures Next(s, m) == s || (Rank(Next(s, m)) < Rank(s) && Next(s, m).lba == s.lba && Next(s, m).total == s.total)
  {
  }

  /** Either the driver can go on, or it waits for the interrupt. */
  lemma SomeMove(s: State)
    requires Ok(s) && s.pc != Free
    ensures Next(s, Go) != s || Next(s, Interrupt) != s
  {
    if s.pc == Issue {
      assert Next(s, Go).pc == Issued;
    } else if s.pc == Issued && s.expecting {
      assert Next(s, Go).pc == Blocked;
    } else if s.pc == Blocked {
      assert Next(s, Interrupt).pc == Woken;
    } else {
      assert Next(s, Go).secsDone > s.secsDone;
    }
  }

  lemma {:induction false} AfterSplit(s: State, a: seq<Move>, b: seq<Move>)
    ensures After(s, a + b) == After(After(s, a), b)
    decreases |a|
  {
    if a == [] {
      assert a + b == b;
    } else {
      assert (a + b)[1..] == a[1..] + b;
      AfterSplit(Next(s, a[0]), a[1..], b);
    }
  }

  lemma AfterOne(s: State, moves: seq<Move>, k: nat, next: nat)
    requires k < |moves| && next == k + 1
    ensures After(s, moves[..next]) == Next(After(s, moves[..k]), moves[k])
  {
    assert moves[..next] == moves[..k] + [moves[k]];
    AfterSplit(s, moves[..k], [moves[k]]);
    assert [moves[k]][1..] == [];
  }

  /** The moves from `a` to `b` have a step of the driver and an interrupt. */
  predicate Stretch(moves: seq<Move>, a: nat, b: nat) {
    a <= b <= |moves| && Go in moves[a..b] && Interrupt in moves[a..b]
  }

  /** The moves are cut into stretches. */
  ghost predicate Answered(moves: seq<Move>, cuts: seq<nat>) {
    forall c {:trigger cuts[c]} :: 0 <= c < |cuts| - 1 ==> Stretch(moves, cuts[c], cuts[c + 1])
  }

  /** Moves from `from` on that change nothing, up to the first one that does. */
  lemma FirstChange(s0: State, s: State, moves: seq<Move>, from: nat, n: nat) returns (k: nat)
    requires from <= n < |moves| && After(s0, moves[..from]) == s && Next(s, moves[n]) != s
    ensures from <= k <= n && After(s0, moves[..k]) == s && Next(s, moves[k]) != s
  {
    k := from;
    while Next(s, moves[k]) == s
      invariant from <= k <= n && After(s0, moves[..k]) == s
      decreases n - k
    {
      AfterOne(s0, moves, k, k + 1);
      k := k + 1;
    }
  }

  /** A move of a stretch that changes the state. */
  lemma ChangesIn(s: State, moves: seq<Move>, a: nat, b: nat) returns (n: nat)
    requires Ok(s) && s.pc != Free && Stretch(moves, a, b)
    ensures a <= n < b && Next(s, moves[n]) != s
  {
    SomeMove(s);
    var move := if Next(s, Go) != s then Go else Interrupt;
    var j :| 0 <= j < b - a && moves[a..b][j] == move;
    n := a + j;
  }

  /** One stretch brings a request nearer to its end. */
  lemma Nearer(s0: State, s: State, moves: seq<Move>, from: nat, a: nat, b: nat) returns (next: nat, t: State)
    requires Ok(s) && s.pc != Free && from <= a && Stretch(moves, a, b) && After(s0, moves[..from]) == s
    ensures from < next <= b && After(s0, moves[..next]) == t && Ok(t) && Rank(t) < Rank(s) && t.lba == s.lba
    ensures t.total == s.total
  {
    var n := ChangesIn(s, moves, a, b);
    var k := FirstChange(s0, s, moves, from, n);
    NearerOrSame(s, moves[k]);
    NextOk(s, moves[k]);
    next, t := k + 1, Next(s, moves[k]);
    AfterOne(s0, moves, k, next);
  }

  /** A request of `n` sectors at `lba` has ended with state `t`. */
  predicate Over(t: State, lba: nat, n: nat) {
    t.pc == Free && t.lba == lba && t.total == n
  }

  lemma {:induction false} EndsFrom(s0: State, s: State, moves: seq<Move>, from: nat, cuts: seq<nat>, c: nat)
    returns (n: nat)
    requires Answered(moves, cuts) && c < |cuts| && Ok(s) && s.pc != Free && Rank(s) < |cuts| - c
    requires from <= cuts[c] && from <= |moves| && After(s0, moves[..from]) == s
    ensures n <= |moves| && Over(After(s0, moves[..n]), s.lba, s.total)
    decreases |cuts| - c
  {
    assert Stretch(moves, cuts[c], cuts[c + 1]);
    var t;
    n, t := Nearer(s0, s, moves, from, cuts[c], cuts[c + 1]);
    if t.pc != Free {
      n := EndsFrom(s0, t, moves, n, cuts, c + 1);
    }
  }

  /** A request comes to its end in every run, whatever else comes in between, in which the driver goes on
      and interrupts come often enough; then its commands cover it. */
  lemma Ends(s: State, moves: seq<Move>, cuts: seq<nat>) returns (n: nat)
    requires Ok(s) && s.pc != Free && Answered(moves, cuts) && Rank(s) < |cuts|
    ensures n <= |moves| && Over(After(s, moves[..n]), s.lba, s.total)
    ensures Covers(After(s, moves[..n]).commands, s.lba, s.total)
  {
    assert moves[..0] == [];
    n := EndsFrom(s, s, moves, 0, cuts, 0);
    RunOk(s, moves[..n]);
    OverCovers(After(s, moves[..n]));
  }

  lemma OverCovers(t: State)
    requires Ok(t) && t.pc == Free
    ensures Covers(t.commands, t.lba, t.total)
  {
  }

  /** The channel, changed in place. */
  class Channel {
    var expecting: bool
    var done: nat
    var pc: Pc
    var lba: nat
    var total: nat
    var secsDone: nat
    var commands: seq<Command>

    ghost function Now(): (s: State)
      reads this
    {
      State(expecting, done, pc, lba, total, secsDone, commands)
    }

    ghost predicate Valid()
      reads this
    {
      Ok(Now())
    }

    constructor ()
      ensures Valid() && Now() == State(false, 0, Free, 0, 0, 0, [])
    {
      expecting, done, pc := false, 0, Free;
      lba, total, secsDone, commands := 0, 0, 0, [];
    }

    /** ide_read or ide_write gets the channel lock. */
    method Begin(at: nat, n: nat)
      requires Valid() && pc == Free && 0 < n && at + n <= MAX_LBA + 1
      modifies this
      ensures Valid() && Now() == Begun(old(Now()), at, n)
    {
      lba, total, secsDone, commands, pc := at, n, 0, [], Issue;
    }

    /** select_sector and cmd_out for the next piece. */
    method GiveCommand()
      requires Valid() && pc == Issue
      modifies this
      ensures Valid() && Now() == Given(old(Now()))
    {
      ghost var s := Now();
      GivenOk(s);
      var p := Piece(secsDone, total);
      assert lba + secsDone <= MAX_LBA;
      commands := commands + [Command(lba + secsDone, p % 256)];
      expecting := true;
      pc := Issued;
      assert Now() == Given(s);
    }

    /** sema_down of disk_done, from its first test or from the one after being woken. */
    method Down()
      requires Valid() && (pc == Issued || pc == Woken)
      modifies this
      ensures Valid() && Now() == Downed(old(Now()))
      ensures old(done) == 0 ==> pc == Blocked && expecting
      ensures pc == Free ==> Covers(commands, lba, total)
    {
      ghost var s := Now();
      DownedOk(s);
      if done == 0 {
        pc := Blocked;
      } else {
        done := done - 1;
        assert done == 0;
        secsDone := secsDone + Piece(secsDone, total);
        pc := if secsDone < total then Issue else Free;
      }
      assert Now() == Downed(s);
    }

    /** intr_hd_handler */
    method OnInterrupt()
      requires Valid()
      modifies this
      ensures Valid() && Now() == Interrupted(old(Now()))
      ensures old(pc) == Blocked ==> pc == Woken && done == 1
    {
      if expecting {
        expecting := false;
        assert done == 0;
        if pc == Blocked {
          pc := Woken;
        }
        done := done + 1;
        assert done == 1;
      }
    }

    /** Interrupts at any time, requests one after the other. */
    method Run(moves: seq<Move>)
      requires Valid()
      modifies this
      ensures Valid() && Now() == After(old(Now()), moves)
    {
      var i := 0;
      while i < |moves|
        invariant 0 <= i <= |moves| && Valid() && After(Now(), moves[i..]) == After(old(Now()), moves)
      {
        assert moves[i..][1..] == moves[i + 1..];
        match moves[i] {
          case Request(at, n) =>
            if pc == Free && 0 < n && at + n <= MAX_LBA + 1 {
              Begin(at, n);
            }
          case Go =>
            if pc == Issue {
              GiveCommand();
            } else if pc == Issued || pc == Woken {
              Down();
            }
          case Interrupt =>
            OnInterrupt();
        }
        i := i + 1;
      }
    }
  }
}
