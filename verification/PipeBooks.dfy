/** The books of a user pipe over whole runs: announced, opened, closed, received. */
module PipeBooks {
  import opened UserPipes
  import opened Manager
  import opened ManagerRuns
  import opened UserPipeTheorems
  import opened ManagerLaws

  // ----- Announced and opened -------------------------------------------------------------------

  /** How often the operation announces a >b into the pipe that it does not open. */
  ghost function Dropped(m: State, op: Op, p: UserPipe): nat {
    if IdsInRange(m) && Enabled(m, op) && op.NumberedLine? then
      var me := IdOf(m, op.fd);
      (if TailDrops(m, me, op.target, p) then 1 else 0) + DropCount(m, me, op.commands, |op.commands|, p)
    else 0
  }

  lemma OneUnopened(m: State, me: int, a: Redirect, b: Redirect, builtin: bool, p: UserPipe)
    requires |m.ids| == CAPACITY && InRange(a) && InRange(b)
    ensures Unopened(RunOne(m, me, a, b, builtin), p) == Unopened(m, p)
  {
    OneCount(m, me, a, b, builtin, Piped(p));
    OneCount(m, me, a, b, builtin, Opened(p));
    AnnounceBalance(m, me, a, b, p);
    hide RunOne, Announce, Count;
  }

  lemma ChainUnopened(m: State, me: int, rs: seq<Redirect>, p: UserPipe)
    requires |m.ids| == CAPACITY && AllInRange(rs)
    ensures Unopened(RunChain(m, me, rs), p) == Unopened(m, p)
  {
    ChainOpensAnnounced(m, me, rs, |rs|, p);
    hide RunStages, LastFrom;
  }

  lemma LeaveCount(m: State, fd: int, e: Event)
    requires IdsInRange(m) && Known(m, fd) && Unique(m.pipes)
    ensures Count(Leave(m, fd).log, e)
         == Count(m.log, e) + if e.Closed? && e.pipe in Erased(m.pipes, IdOf(m, fd)) then 1 else 0
  {
    LeaveIs(m, fd);
    SweepHalves(m.pipes, IdOf(m, fd));
    ClosedCount(m.log, Erased(m.pipes, IdOf(m, fd)), e);
    hide Leave, Closes, Erased, Sweep, Count;
  }

  lemma StepUnopened(m: State, op: Op, p: UserPipe)
    requires Inv(m)
    ensures Unopened(Step(m, op), p) == Unopened(m, p) + Dropped(m, op, p)
  {
    hide RunOne, RunChain, RunNumbered, Leave, TailDrops, DropCount, Count, Sweep, Erased, InTurn;
    if Enabled(m, op) {
      match op
      case Join(fd, ip, port) =>
      case Quit(fd) =>
        LeaveCount(m, fd, Piped(p));
        LeaveCount(m, fd, Opened(p));
      case Name(fd, name) =>
      case One(fd, a, b, builtin) => OneUnopened(m, IdOf(m, fd), a, b, builtin, p);
      case Chain(fd, rs) => ChainUnopened(m, IdOf(m, fd), rs, p);
      case NumberedLine(fd, a, b, rs) => NumberedLineDrops(m, IdOf(m, fd), a, b, rs, p);
    }
  }

  // ----- Closed and received --------------------------------------------------------------------

  /** How many announcements of <a are ahead of the closings. */
  function Unclosed(m: State, p: UserPipe): int {
    Count(m.log, Received(p)) - Count(m.log, Closed(p))
  }

  /** How often the operation announces the pipe as received and leaves it alone: a built-in command, or a
      <a typed behind a number. */
  ghost function Kept(m: State, op: Op, p: UserPipe): nat {
    if !IdsInRange(m) || !Enabled(m, op) then 0
    else if op.One? && op.builtin then Takings(m, IdOf(m, op.fd), op.source, p)
    else if op.NumberedLine? then Takings(m, IdOf(m, op.fd), op.source, p)
    else 0
  }

  ghost function Takings(m: State, me: int, a: Redirect, p: UserPipe): nat
    requires |m.ids| == CAPACITY && InRange(a)
  {
    if a.From? && UserPipe(a.user, me) == p && AcceptsFrom(m, me, a.user) then 1 else 0
  }

  /** How often the operation closes the pipe though nobody received from it: a departure, or the cleanup
      of a chain that takes the user's new pipe to itself. */
  ghost function Lost(m: State, op: Op, p: UserPipe): nat {
    if !IdsInRange(m) || !Enabled(m, op) then 0
    else if op.Quit? then (if p in Erased(m.pipes, IdOf(m, op.fd)) then 1 else 0)
    else if op.Chain? && CleanupTakes(m, IdOf(m, op.fd), op.commands, p) then 1
    else 0
  }

  /** Judged by the state before the chain. */
  ghost predicate CleanupTakes(m: State, me: int, rs: seq<Redirect>, p: UserPipe)
    requires |m.ids| == CAPACITY && AllInRange(rs)
  {
    p == UserPipe(me, me) && EndsWithOwn(m, me, rs) && SelfPiped(m, me, rs, |rs|)
  }

  lemma StageUnclosed(m: State, me: int, r: Redirect, chain: bool, p: UserPipe)
    requires |m.ids| == CAPACITY && InRange(r)
    ensures Unclosed(RunStage(m, me, r, chain), p) == Unclosed(m, p)
  {}

  /** Within a line each command that receives from a pipe closes it. */
  lemma {:induction false} StagesUnclosed(m: State, me: int, rs: seq<Redirect>, chain: bool, n: nat, p: UserPipe)
    requires |m.ids| == CAPACITY && AllInRange(rs) && n <= |rs|
    ensures Unclosed(RunStages(m, me, rs, chain, n), p) == Unclosed(m, p)
  {
    hide RunStage, Unclosed;
    if n > 0 {
      StagesUnclosed(m, me, rs, chain, n - 1, p);
      StageUnclosed(RunStages(m, me, rs, chain, n - 1), me, rs[n - 1], chain, p);
    }
  }

  lemma AnnounceUnclosed(m: State, me: int, a: Redirect, b: Redirect, p: UserPipe)
    requires |m.ids| == CAPACITY && InRange(a) && InRange(b)
    ensures Unclosed(Announce(m, me, a, b), p) == Unclosed(m, p) + Takings(m, me, a, p)
  {}

  lemma OneUnclosed(m: State, me: int, a: Redirect, b: Redirect, builtin: bool, p: UserPipe)
    requires |m.ids| == CAPACITY && InRange(a) && InRange(b)
    ensures Unclosed(RunOne(m, me, a, b, builtin), p) == Unclosed(m, p) + if builtin then Takings(m, me, a, p) else 0
  {
    OneCount(m, me, a, b, builtin, Received(p));
    OneCount(m, me, a, b, builtin, Closed(p));
    AnnounceUnclosed(m, me, a, b, p);
    hide RunOne, Announce, Count;
  }

  /** What the cleanup of a chain finds in the list: the user's own pipe or nothing. */
  lemma CleanupIs(m: State, me: int, rs: seq<Redirect>, p: UserPipe)
    requires |m.ids| == CAPACITY && AllInRange(rs) && Unique(m.pipes) && 1 <= me <= CAPACITY && m.ids[me - 1]
    ensures var m1, last := RunStages(m, me, rs, true, |rs|), LastFrom(m, me, rs, true, |rs|);
      CleanupTakes(m, me, rs, p) <==> last.From? && UserPipe(last.user, me) == p && p in m1.pipes
  {
    var last := LastFrom(m, me, rs, true, |rs|);
    LastTaken(m, me, rs, |rs|);
    LastFromIs(m, me, rs, |rs|);
    assert last == From(me) <==> EndsWithOwn(m, me, rs);
    SelfAt(m, me, rs, |rs|);
    if last.From? && last.user != me {
      InputAt(m, me, rs, |rs|, last.user);
    }
    hide RunStages, LastFrom, EndsWithOwn, SelfPiped, Takes;
  }

  lemma ChainUnclosed(m: State, me: int, rs: seq<Redirect>, p: UserPipe)
    requires |m.ids| == CAPACITY && AllInRange(rs) && Unique(m.pipes) && 1 <= me <= CAPACITY && m.ids[me - 1]
    ensures Unclosed(RunChain(m, me, rs), p) == Unclosed(m, p) - if CleanupTakes(m, me, rs, p) then 1 else 0
  {
    StagesUnclosed(m, me, rs, true, |rs|, p);
    CleanupIs(m, me, rs, p);
    hide RunStages, LastFrom, CleanupTakes;
  }

  lemma NumberedUnclosed(m: State, me: int, a: Redirect, b: Redirect, rs: seq<Redirect>, p: UserPipe)
    requires |m.ids| == CAPACITY && InRange(a) && InRange(b) && AllInRange(rs)
    ensures Unclosed(RunNumbered(m, me, a, b, rs), p) == Unclosed(m, p) + Takings(m, me, a, p)
  {
    AnnounceUnclosed(m, me, a, b, p);
    StagesUnclosed(Announce(m, me, a, b), me, rs, false, |rs|, p);
    hide Announce, RunStages, Unclosed, Takings;
  }

  /** A connected client's id is set in the bitmap. */
  lemma IdIsSet(m: State, fd: int)
    requires Inv(m) && Known(m, fd)
    ensures 1 <= IdOf(m, fd) <= CAPACITY && m.ids[IdOf(m, fd) - 1]
  {
    InvSuffices(m);
  }

  lemma StepUnclosed(m: State, op: Op, p: UserPipe)
    requires Inv(m)
    ensures Unclosed(Step(m, op), p) == Unclosed(m, p) + Kept(m, op, p) - Lost(m, op, p)
  {
    hide RunOne, RunChain, RunNumbered, Leave, CleanupTakes, Count, Sweep, Erased, InTurn, Takings;
    if Enabled(m, op) {
      match op
      case Join(fd, ip, port) =>
      case Quit(fd) =>
        LeaveCount(m, fd, Received(p));
        LeaveCount(m, fd, Closed(p));
      case Name(fd, name) =>
      case One(fd, a, b, builtin) => OneUnclosed(m, IdOf(m, fd), a, b, builtin, p);
      case Chain(fd, rs) =>
        IdIsSet(m, fd);
        ChainUnclosed(m, IdOf(m, fd), rs, p);
      case NumberedLine(fd, a, b, rs) => NumberedUnclosed(m, IdOf(m, fd), a, b, rs, p);
    }
  }

  // ----- Opened and closed ----------------------------------------------------------------------

  function Balance(u: seq<bool>): int {
    if u == [] then 0 else Balance(u[..|u| - 1]) + if u[|u| - 1] then 1 else -1
  }

  lemma {:induction false} BalanceOfUses(log: seq<Event>, p: UserPipe)
    ensures Balance(Uses(log, p)) == Count(log, Opened(p)) - Count(log, Closed(p))
  {
    if log != [] {
      var front, e := log[..|log| - 1], log[|log| - 1];
      BalanceOfUses(front, p);
      assert log == front + [e];
      hide *;
      UsesSnoc(front, e, p);
      BalanceSnoc(Uses(front, p), e.Opened?);
      CountSnoc(front, e, Opened(p));
      CountSnoc(front, e, Closed(p));
    }
  }

  lemma CountSnoc(log: seq<Event>, e: Event, x: Event)
    ensures Count(log + [e], x) == Count(log, x) + if e == x then 1 else 0
  {}

  lemma BalanceSnoc(u: seq<bool>, opening: bool)
    ensures Balance(u + [opening]) == Balance(u) + if opening then 1 else -1
  {
    assert (u + [opening])[..|u|] == u;
  }

  lemma {:induction false} BalanceOfTurns(u: seq<bool>)
    requires Alternate(u)
    ensures Balance(u) == |u| % 2
  {
    if u != [] {
      BalanceOfTurns(u[..|u| - 1]);
    }
  }

  // ----- Whole runs -----------------------------------------------------------------------------

  ghost function TotalDropped(ops: seq<Op>, p: UserPipe): nat {
    if ops == [] then 0
    else var front := ops[..|ops| - 1]; TotalDropped(front, p) + Dropped(Run(front), ops[|ops| - 1], p)
  }

  ghost function TotalKept(ops: seq<Op>, p: UserPipe): nat {
    if ops == [] then 0
    else var front := ops[..|ops| - 1]; TotalKept(front, p) + Kept(Run(front), ops[|ops| - 1], p)
  }

  ghost function TotalLost(ops: seq<Op>, p: UserPipe): nat {
    if ops == [] then 0
    else var front := ops[..|ops| - 1]; TotalLost(front, p) + Lost(Run(front), ops[|ops| - 1], p)
  }

  /** Operation `n` of the run drops an announcement of the pipe. */
  ghost predicate DropsAt(ops: seq<Op>, n: nat, p: UserPipe) {
    n < |ops| && Dropped(Run(ops[..n]), ops[n], p) > 0
  }

  lemma DropsBefore(ops: seq<Op>, n: nat, p: UserPipe)
    requires n < |ops| - 1
    ensures DropsAt(ops, n, p) <==> DropsAt(ops[..|ops| - 1], n, p)
  {
    hide Run, Dropped;
    assert ops[..|ops| - 1][..n] == ops[..n];
  }

  lemma {:induction false} NothingDropped(ops: seq<Op>, p: UserPipe)
    ensures TotalDropped(ops, p) == 0 <==> forall n: nat :: !DropsAt(ops, n, p)
  {
    if ops != [] {
      var k := |ops| - 1;
      var front := ops[..k];
      NothingDropped(front, p);
      assert DropsAt(ops, k, p) <==> Dropped(Run(front), ops[k], p) > 0;
      hide Run, Dropped, DropsAt;
      forall n: nat
        ensures DropsAt(ops, n, p) <==> DropsAt(front, n, p) || (n == k && DropsAt(ops, k, p))
      {
        DropsWithin(ops, n, p);
      }
    }
  }

  lemma DropsWithin(ops: seq<Op>, n: nat, p: UserPipe)
    requires ops != []
    ensures DropsAt(ops, n, p) <==> DropsAt(ops[..|ops| - 1], n, p) || (n == |ops| - 1 && DropsAt(ops, n, p))
  {
    if n < |ops| - 1 {
      DropsBefore(ops, n, p);
    }
    hide Run, Dropped;
  }

  /** In every run the announcements of >b exceed the openings by exactly those that numbered lines
      dropped, so they agree iff no line of the run dropped one. */
  lemma RunUnopened(ops: seq<Op>, p: UserPipe)
    ensures Unopened(Run(ops), p) == TotalDropped(ops, p)
    ensures Unopened(Run(ops), p) == 0 <==> forall n: nat :: !DropsAt(ops, n, p)
  {
    UnopenedIs(ops, p);
    NothingDropped(ops, p);
    hide Run, Unopened, DropsAt;
  }

  lemma {:induction false} UnopenedIs(ops: seq<Op>, p: UserPipe)
    ensures Unopened(Run(ops), p) == TotalDropped(ops, p)
  {
    if ops != [] {
      var front := ops[..|ops| - 1];
      UnopenedIs(front, p);
      RunInv(front);
      StepUnopened(Run(front), ops[|ops| - 1], p);
      hide Step, Dropped, Unopened, Inv;
    }
  }

  /** And the announcements of <a exceed the closings by the receptions that left the pipe alone, less the
      closings that nobody had announced. */
  lemma {:induction false} RunUnclosed(ops: seq<Op>, p: UserPipe)
    ensures Unclosed(Run(ops), p) == TotalKept(ops, p) - TotalLost(ops, p)
  {
    if ops != [] {
      var front := ops[..|ops| - 1];
      RunUnclosed(front, p);
      RunInv(front);
      StepUnclosed(Run(front), ops[|ops| - 1], p);
      hide Step, Kept, Lost, Unclosed, Inv;
    }
  }

  /** The books of every pipe after every run: what was announced into it went out of it by an announced
      reception, unless it was never opened, was closed unannounced, or is in it still. */
  lemma RunBooks(ops: seq<Op>, p: UserPipe)
    ensures var m := Run(ops);
      Count(m.log, Piped(p)) + TotalKept(ops, p)
      == Count(m.log, Received(p)) + TotalDropped(ops, p) + TotalLost(ops, p) + if p in m.pipes then 1 else 0
  {
    RunUnopened(ops, p);
    RunUnclosed(ops, p);
    RunInv(ops);
    var m := Run(ops);
    assert InTurn(m, p);
    BalanceOfUses(m.log, p);
    BalanceOfTurns(Uses(m.log, p));
    hide Run, Count, Uses, Balance, TotalDropped, TotalKept, TotalLost, Clients, Alternate;
  }
}
