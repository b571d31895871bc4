/** The main results about the multi-user server's user pipes. */
module UserPipeTheorems {
  import opened UserPipes
  import opened Manager
  import opened ManagerRuns
  import Program = ClientManager

  // ----- Departures and newcomers ---------------------------------------------------------------

  /** Both ends of every user pipe are connected clients. */
  ghost predicate LiveEnds(m: State) {
    forall p :: p in m.pipes ==> HasId(m.total, p.sender) && HasId(m.total, p.receiver)
  }

  lemma LeaveMembers(m: State, fd: int)
    requires Clients(m) && Known(m, fd)
    ensures forall x :: x in Leave(m, fd).total <==> x in m.total && x.id != IdOf(m, fd)
    ensures Leave(m, fd).pipes == Sweep(m.pipes, IdOf(m, fd))
    ensures forall id :: HasId(Leave(m, fd).total, id) <==> HasId(m.total, id) && id != IdOf(m, fd)
  {
    DropClient(m.total, IndexOf(m.total, fd));
  }

  /** When a client leaves, the pipes that do not touch it stay, in order; and the pipes that do are
      all removed, so that every pipe still has live ends, iff they were spaced in the list. */
  lemma LeaveIsExact(m: State, fd: int)
    requires Inv(m) && LiveEnds(m) && Known(m, fd)
    ensures Untouched(Leave(m, fd).pipes, IdOf(m, fd)) == Untouched(m.pipes, IdOf(m, fd))
    ensures LiveEnds(Leave(m, fd)) <==> Spaced(m.pipes, IdOf(m, fd))
  {
    var id := IdOf(m, fd);
    var m1 := Leave(m, fd);
    LeaveMembers(m, fd);
    SweepKeepsOthers(m.pipes, id);
    SweepClearsIff(m.pipes, id);
    SweepHalves(m.pipes, id);
    assert LiveEnds(m1) <==> Cleared(m1.pipes, id) by {
      hide Sweep, Leave, Inv;
      assert !HasId(m1.total, id);
    }
  }

  /** A newcomer takes an id that no connected client has, and starts without pipes in either
      direction as long as every pipe has live ends. */
  lemma NewcomerStartsClean(m: State, fd: int, ip: string, port: int)
    requires Inv(m) && Enabled(m, Join(fd, ip, port))
    ensures var m1 := Step(m, Join(fd, ip, port));
      && !HasId(m.total, NextId(m)) && HasId(m1.total, NextId(m))
      && (forall id :: 1 <= id < NextId(m) ==> HasId(m.total, id))
      && (LiveEnds(m) ==> LiveEnds(m1) && Cleared(m1.pipes, NextId(m)))
  {
    var c := Client(fd, NO_NAME, ip, port, 0);
    var m1 := Step(m, Join(fd, ip, port));
    JoinMembers(m, c);
    assert c.(id := NextId(m)) in m1.total;
    forall id | 1 <= id < NextId(m)
      ensures HasId(m.total, id)
    {
      assert m.ids[id - 1] <==> HasId(m.total, (id - 1) + 1);
    }
    assert forall id :: HasId(m.total, id) ==> HasId(m1.total, id);
  }

  lemma StageLive(m: State, me: int, r: Redirect, chain: bool)
    requires BitmapAgrees(m) && InRange(r) && LiveEnds(m) && HasId(m.total, me) && Unique(m.pipes)
    ensures LiveEnds(RunStage(m, me, r, chain)) && Unique(RunStage(m, me, r, chain).pipes)
  {
    match r
    case Nothing =>
    case From(a) => WithoutFacts(m.pipes, UserPipe(a, me));
    case To(b) => assert m.ids[b - 1] <==> HasId(m.total, (b - 1) + 1);
  }

  lemma {:induction false} StagesLive(m: State, me: int, rs: seq<Redirect>, chain: bool, n: nat)
    requires BitmapAgrees(m) && AllInRange(rs) && n <= |rs|
    requires LiveEnds(m) && HasId(m.total, me) && Unique(m.pipes)
    ensures LiveEnds(RunStages(m, me, rs, chain, n)) && Unique(RunStages(m, me, rs, chain, n).pipes)
  {
    if n > 0 {
      StagesLive(m, me, rs, chain, n - 1);
      StageLive(RunStages(m, me, rs, chain, n - 1), me, rs[n - 1], chain);
    }
  }

  lemma LineLive(m: State, op: Op)
    requires Inv(m) && LiveEnds(m) && Enabled(m, op) && (op.One? || op.Chain? || op.NumberedLine?)
    ensures LiveEnds(Step(m, op))
  {
    var me := IdOf(m, op.fd);
    assert m.total[IndexOf(m.total, op.fd)] in m.total;
    assert HasId(m.total, me);
    match op
    case One(fd, a, b, builtin) =>
      if b.To? {
        assert m.ids[b.user - 1] <==> HasId(m.total, (b.user - 1) + 1);
      }
      var more := if b.To? && AcceptsTo(m, me, b.user) then m.pipes + [UserPipe(me, b.user)] else m.pipes;
      assert Unique(more);
      if a.From? {
        WithoutFacts(more, UserPipe(a.user, me));
      }
    case Chain(fd, rs) =>
      StagesLive(m, me, rs, true, |rs|);
      var last := LastFrom(m, me, rs, true, |rs|);
      if last.From? {
        WithoutFacts(RunStages(m, me, rs, true, |rs|).pipes, UserPipe(last.user, me));
      }
    case NumberedLine(fd, a, b, rs) =>
      StagesLive(Announce(m, me, a, b), me, rs, false, |rs|);
  }

  lemma NameLive(m: State, fd: int, name: string)
    requires Inv(m) && LiveEnds(m) && Known(m, fd)
    ensures LiveEnds(Rename(m, fd, name))
  {
    forall id | HasId(m.total, id)
      ensures HasId(Rename(m, fd, name).total, id)
    {
      SameIds(m.total, Rename(m, fd, name).total, id);
    }
  }

  /** The client leaves at a moment when its pipes are spaced. */
  ghost predicate Orderly(m: State, op: Op) {
    op.Quit? && Known(m, op.fd) ==> Spaced(m.pipes, IdOf(m, op.fd))
  }

  /** Exactly the departures of clients whose pipes are not spaced leave dangling pipes behind. */
  lemma StepLiveIff(m: State, op: Op)
    requires Inv(m) && LiveEnds(m)
    ensures LiveEnds(Step(m, op)) <==> Orderly(m, op)
  {
    if Enabled(m, op) {
      match op
      case Join(fd, ip, port) => NewcomerStartsClean(m, fd, ip, port);
      case Quit(fd) => LeaveIsExact(m, fd);
      case Name(fd, name) => NameLive(m, fd, name);
      case One(_, _, _, _) => LineLive(m, op);
      case Chain(_, _) => LineLive(m, op);
      case NumberedLine(_, _, _, _) => LineLive(m, op);
    }
  }

  /** In every run whose departures are orderly, all pipes have live ends at every moment. */
  lemma {:induction false} RunLive(ops: seq<Op>)
    requires forall i :: 0 <= i < |ops| ==> Orderly(Run(ops[..i]), ops[i])
    ensures LiveEnds(Run(ops))
  {
    if ops != [] {
      var front := ops[..|ops| - 1];
      forall i | 0 <= i < |front|
        ensures Orderly(Run(front[..i]), front[i])
      {
        assert front[..i] == ops[..i];
      }
      RunLive(front);
      RunInv(front);
      StepLiveIff(Run(front), ops[|ops| - 1]);
    }
  }

  // ----- The failing run ------------------------------------------------------------------------

  lemma RunSnoc(ops: seq<Op>, op: Op)
    ensures Run(ops + [op]) == Step(Run(ops), op)
  {
    assert (ops + [op])[..|ops|] == ops;
  }

  function User(fd: int, id: int): Client {
    Client(fd, NO_NAME, "", 0, id)
  }

  function Slots(k: nat): seq<bool> {
    seq(CAPACITY, i => i < k)
  }

  /** With users 1 to k connected, on descriptors of their own, the next one is user k + 1. */
  lemma Arrive(m: State, k: nat, fd: int)
    requires IdsInRange(m) && m.ids == Slots(k) && k < CAPACITY && !Known(m, fd)
    requires forall i :: 0 <= i < |m.total| ==> m.total[i].id <= k
    ensures Step(m, Join(fd, "", 0)) == m.(ids := Slots(k + 1), total := m.total + [User(fd, k + 1)])
  {
    var free := Lowest(m.ids, 0);
    assert !m.ids[k];
    assert forall j: nat :: j < k ==> m.ids[j];
    assert Slots(k + 1) == m.ids[k := true];
    AppendLast(m.total, User(fd, k + 1));
  }

  lemma {:induction false} AppendLast(q: seq<Client>, c: Client)
    requires forall i :: 0 <= i < |q| ==> q[i].id < c.id
    ensures InsertById(q, c) == q + [c]
  {
    if q != [] {
      AppendLast(q[1..], c);
      assert q == [q[0]] + q[1..];
    }
  }

  lemma ThreeArrive()
    ensures Run([Join(4, "", 0), Join(5, "", 0), Join(6, "", 0)])
         == State(Slots(3), [User(4, 1), User(5, 2), User(6, 3)], [], [])
  {
    hide Step, Enter, InsertById, Lowest;
    var ops := [Join(4, "", 0), Join(5, "", 0), Join(6, "", 0)];
    RunSnoc([], ops[0]);
    RunSnoc(ops[..1], ops[1]);
    RunSnoc(ops[..2], ops[2]);
    assert [] + [ops[0]] == ops[..1] && ops[..1] + [ops[1]] == ops[..2] && ops[..2] + [ops[2]] == ops;
    assert Init().ids == Slots(0);
    Arrive(Init(), 0, 4);
    Arrive(Run(ops[..1]), 1, 5);
    Arrive(Run(ops[..2]), 2, 6);
  }

  lemma PipeTo(m: State, fd: int, b: int)
    requires IdsInRange(m) && Known(m, fd) && 1 <= b <= CAPACITY && AcceptsTo(m, IdOf(m, fd), b)
    ensures var p := UserPipe(IdOf(m, fd), b);
      Step(m, One(fd, Nothing, To(b), false)) == m.(pipes := m.pipes + [p], log := m.log + [Piped(p)] + [Opened(p)])
  {}

  /** Users 1, 2 and 3 are connected, on descriptors 4, 5 and 6. */
  ghost predicate ThreeUsers(m: State) {
    m.ids == Slots(3) && m.total == [User(4, 1), User(5, 2), User(6, 3)]
  }

  lemma UserOneLeaves(m: State)
    requires ThreeUsers(m) && m.pipes == [UserPipe(1, 2), UserPipe(1, 3)]
    ensures var gone := Step(m, Quit(4));
      && gone.pipes == [UserPipe(1, 3)] && gone.total == [User(5, 2), User(6, 3)] && gone.ids == m.ids[0 := false]
  {
    assert IndexOf(m.total, 4) == 0;
    SweepLeavesOne();
  }

  lemma UserOneReturns(m: State)
    requires m.ids == Slots(3)[0 := false] && m.total == [User(5, 2), User(6, 3)]
    ensures var again := Step(m, Join(7, "", 0));
      again.pipes == m.pipes && again.total == [User(7, 1), User(5, 2), User(6, 3)]
  {
    assert !m.ids[0];
    assert Lowest(m.ids, 0) == 0;
    assert IndexOf(m.total[1..], 7) == 1;
    assert InsertById(m.total, User(7, 1)) == [User(7, 1)] + m.total;
  }

  /** User 1 pipes to 2 and to 3 and leaves: the second pipe stays.  The next newcomer becomes user 1
      and owns a pipe to user 3 that it never wrote. */
  lemma LeftoverIsInherited()
    ensures var ops := [Join(4, "", 0), Join(5, "", 0), Join(6, "", 0)];
      var gone := ops + [One(4, Nothing, To(2), false)] + [One(4, Nothing, To(3), false)] + [Quit(4)];
      && UserPipe(1, 3) in Run(gone).pipes && !HasId(Run(gone).total, 1)
      && UserPipe(1, 3) in Run(gone + [Join(7, "", 0)]).pipes && User(7, 1) in Run(gone + [Join(7, "", 0)]).total
  {
    var ops := [Join(4, "", 0), Join(5, "", 0), Join(6, "", 0)];
    ThreeArrive();
    var one := ops + [One(4, Nothing, To(2), false)];
    RunSnoc(ops, One(4, Nothing, To(2), false));
    PipeTo(Run(ops), 4, 2);
    var two := one + [One(4, Nothing, To(3), false)];
    RunSnoc(one, One(4, Nothing, To(3), false));
    PipeTo(Run(one), 4, 3);
    assert Run(two).pipes == [UserPipe(1, 2), UserPipe(1, 3)];
    var gone := two + [Quit(4)];
    RunSnoc(two, Quit(4));
    UserOneLeaves(Run(two));
    RunSnoc(gone, Join(7, "", 0));
    UserOneReturns(Run(gone));
    hide Run, Step;
  }

  // ----- Announced, opened, closed --------------------------------------------------------------

  function Count(log: seq<Event>, e: Event): nat {
    multiset(log)[e]
  }

  /** How many announcements of >b are ahead of the openings they announce. */
  function Unopened(m: State, p: UserPipe): int {
    Count(m.log, Piped(p)) - Count(m.log, Opened(p))
  }

  lemma StageBalance(m: State, me: int, r: Redirect, chain: bool, p: UserPipe)
    requires |m.ids| == CAPACITY && InRange(r)
    ensures Unopened(RunStage(m, me, r, chain), p) == Unopened(m, p)
      + if !chain && r.To? && UserPipe(me, r.user) == p && AcceptsTo(m, me, r.user) then 1 else 0
  {}

  /** In a plain chain every announced >b is opened, once. */
  lemma {:induction false} ChainOpensAnnounced(m: State, me: int, rs: seq<Redirect>, n: nat, p: UserPipe)
    requires |m.ids| == CAPACITY && AllInRange(rs) && n <= |rs|
    ensures Unopened(RunStages(m, me, rs, true, n), p) == Unopened(m, p)
  {
    hide RunStage, Unopened;
    if n > 0 {
      ChainOpensAnnounced(m, me, rs, n - 1, p);
      StageBalance(RunStages(m, me, rs, true, n - 1), me, rs[n - 1], true, p);
    }
  }

  /** Among the first `n` commands there is a <a. */
  predicate Takes(rs: seq<Redirect>, a: int, n: nat) {
    exists i :: 0 <= i < n && i < |rs| && rs[i] == From(a)
  }

  /** Command i of a line ending in |n announces >b, judged by the state before the line: user b is
      there, and its pipe was not in the list, or the line has taken it out again (from the user itself). */
  ghost predicate Drops(m: State, me: int, rs: seq<Redirect>, i: nat, p: UserPipe)
    requires |m.ids| == CAPACITY && AllInRange(rs) && i < |rs|
  {
    rs[i].To? && UserPipe(me, rs[i].user) == p && m.ids[rs[i].user - 1]
    && (p !in m.pipes || (p.receiver == me && Takes(rs, me, i)))
  }

  /** The user's own outputs in the course of such a line: it opens none, and consumes only the pipe of
      the user to itself. */
  lemma {:induction false} NumberedPipesAt(m: State, me: int, rs: seq<Redirect>, n: nat, p: UserPipe)
    requires |m.ids| == CAPACITY && AllInRange(rs) && n <= |rs|
    requires p.sender == me && (p.receiver == me ==> Unique(m.pipes) && 1 <= me <= CAPACITY)
    ensures var r := RunStages(m, me, rs, false, n);
      && (p in r.pipes <==> p in m.pipes && !(p.receiver == me && m.ids[me - 1] && Takes(rs, me, n)))
      && (p.receiver == me ==> Unique(r.pipes))
    decreases n
  {
    if n > 0 {
      NumberedPipesAt(m, me, rs, n - 1, p);
      TakesOneMore(rs, me, n - 1);
      var before, r := RunStages(m, me, rs, false, n - 1), rs[n - 1];
      hide RunStages, Takes;
      StageTakes(before, me, r, false, p);
    }
  }

  lemma TakesOneMore(rs: seq<Redirect>, a: int, n: nat)
    requires n < |rs|
    ensures Takes(rs, a, n + 1) <==> Takes(rs, a, n) || rs[n] == From(a)
    ensures !Takes(rs, a, 0)
  {
    if Takes(rs, a, n) {
      var i :| 0 <= i < n && i < |rs| && rs[i] == From(a);
      assert 0 <= i < n + 1;
    }
    if rs[n] == From(a) {
      assert 0 <= n < n + 1;
    }
  }

  /** One command and one pipe. */
  lemma StageTakes(m: State, me: int, r: Redirect, chain: bool, p: UserPipe)
    requires |m.ids| == CAPACITY && InRange(r) && (p.receiver == me ==> Unique(m.pipes))
    ensures var m1 := RunStage(m, me, r, chain);
      && (r.From? && UserPipe(r.user, me) == p ==> (p in m1.pipes <==> p in m.pipes && !m.ids[r.user - 1]))
      && (r.To? && UserPipe(me, r.user) == p ==> (p in m1.pipes <==> p in m.pipes || (chain && m.ids[r.user - 1])))
      && (r.Nothing? || (r.From? && UserPipe(r.user, me) != p) || (r.To? && UserPipe(me, r.user) != p)
          ==> (p in m1.pipes <==> p in m.pipes))
      && (p.receiver == me ==> Unique(m1.pipes))
  {
    if r.From? {
      OthersStay(m.pipes, UserPipe(r.user, me), p);
      if p.receiver == me {
        WithoutFacts(m.pipes, UserPipe(r.user, me));
      }
    }
    hide Without;
  }

  lemma {:induction false} OthersStay(q: seq<UserPipe>, x: UserPipe, p: UserPipe)
    ensures p != x ==> (p in Without(q, x) <==> p in q)
  {
    if q != [] {
      OthersStay(q[1..], x, p);
      assert q == [q[0]] + q[1..];
    }
  }

  /** How many of the line's first `n` commands do that. */
  ghost function DropCount(m: State, me: int, rs: seq<Redirect>, n: nat, p: UserPipe): nat
    requires |m.ids| == CAPACITY && AllInRange(rs) && n <= |rs|
  {
    if n == 0 then 0 else DropCount(m, me, rs, n - 1, p) + if Drops(m, me, rs, n - 1, p) then 1 else 0
  }

  /** The commands of a line ending in |n announce a >b but never open it: so many announcements are added
      to the books of a pipe, and the books balance iff no command announces it. */
  lemma {:induction false} NumberedDropsAnnounced(m: State, me: int, rs: seq<Redirect>, n: nat, p: UserPipe)
    requires |m.ids| == CAPACITY && AllInRange(rs) && n <= |rs|
    requires p == UserPipe(me, me) ==> Unique(m.pipes)
    ensures Unopened(RunStages(m, me, rs, false, n), p) == Unopened(m, p) + DropCount(m, me, rs, n, p)
    ensures DropCount(m, me, rs, n, p) == 0 <==> forall i :: 0 <= i < n ==> !Drops(m, me, rs, i, p)
  {
    hide RunStage, Unopened, Drops;
    if n > 0 {
      NumberedDropsAnnounced(m, me, rs, n - 1, p);
      var before, r := RunStages(m, me, rs, false, n - 1), rs[n - 1];
      StageBalance(before, me, r, false, p);
      DropsIff(m, me, rs, n - 1, p);
    }
  }

  lemma DropsIff(m: State, me: int, rs: seq<Redirect>, i: nat, p: UserPipe)
    requires |m.ids| == CAPACITY && AllInRange(rs) && i < |rs| && (p == UserPipe(me, me) ==> Unique(m.pipes))
    ensures Drops(m, me, rs, i, p)
       <==> rs[i].To? && UserPipe(me, rs[i].user) == p && AcceptsTo(RunStages(m, me, rs, false, i), me, rs[i].user)
  {
    if rs[i].To? && UserPipe(me, rs[i].user) == p {
      assert InRange(rs[i]);
      NumberedPipesAt(m, me, rs, i, p);
    }
    hide RunStages, Takes;
  }

  /** The >b behind the number of such a line is announced for the pipe. */
  ghost predicate TailDrops(m: State, me: int, b: Redirect, p: UserPipe)
    requires |m.ids| == CAPACITY && InRange(b)
  {
    b.To? && UserPipe(me, b.user) == p && AcceptsTo(m, me, b.user)
  }

  lemma AnnounceBalance(m: State, me: int, a: Redirect, b: Redirect, p: UserPipe)
    requires |m.ids| == CAPACITY && InRange(a) && InRange(b)
    ensures Unopened(Announce(m, me, a, b), p) == Unopened(m, p) + if TailDrops(m, me, b, p) then 1 else 0
  {}

  lemma {:induction false} SameDrops(m: State, m1: State, me: int, rs: seq<Redirect>, n: nat, p: UserPipe)
    requires |m.ids| == CAPACITY && AllInRange(rs) && n <= |rs| && m1.ids == m.ids && m1.pipes == m.pipes
    ensures DropCount(m1, me, rs, n, p) == DropCount(m, me, rs, n, p)
  {
    if n > 0 {
      SameDrops(m, m1, me, rs, n - 1, p);
    }
  }

  /** The whole line, judged by the state before it: the announcements behind the number and those of the
      commands are all that is added. */
  lemma NumberedLineDrops(m: State, me: int, a: Redirect, b: Redirect, rs: seq<Redirect>, p: UserPipe)
    requires |m.ids| == CAPACITY && InRange(a) && InRange(b) && AllInRange(rs)
    requires p == UserPipe(me, me) ==> Unique(m.pipes)
    ensures Unopened(RunNumbered(m, me, a, b, rs), p)
         == Unopened(m, p) + (if TailDrops(m, me, b, p) then 1 else 0) + DropCount(m, me, rs, |rs|, p)
  {
    var m1 := Announce(m, me, a, b);
    AnnounceBalance(m, me, a, b, p);
    SameDrops(m, m1, me, rs, |rs|, p);
    NumberedDropsAnnounced(m1, me, rs, |rs|, p);
    hide Announce, RunStages, Unopened, TailDrops, DropCount;
  }

  /** So for a pipe to somebody else: the books balance iff the line has no such >b, or it is refused. */
  lemma NumberedDropsToOthers(m: State, me: int, a: Redirect, b: Redirect, rs: seq<Redirect>, c: int)
    requires |m.ids| == CAPACITY && InRange(a) && InRange(b) && AllInRange(rs) && 1 <= c <= CAPACITY && c != me
    ensures Unopened(RunNumbered(m, me, a, b, rs), UserPipe(me, c)) == Unopened(m, UserPipe(me, c))
       <==> (To(c) !in rs && b != To(c)) || !AcceptsTo(m, me, c)
  {
    var p := UserPipe(me, c);
    NumberedLineDrops(m, me, a, b, rs, p);
    NumberedDropsAnnounced(m, me, rs, |rs|, p);
    assert forall i :: 0 <= i < |rs| ==> (Drops(m, me, rs, i, p) <==> rs[i] == To(c) && AcceptsTo(m, me, c));
    assert TailDrops(m, me, b, p) <==> b == To(c) && AcceptsTo(m, me, c);
    hide Drops, TailDrops, RunStages, RunNumbered, Unopened, AcceptsTo;
  }

  /** A pipe to somebody else survives the rest of the chain that opened it. */
  lemma {:induction false} ChainKeepsOthers(m: State, me: int, rs: seq<Redirect>, i: nat, n: nat, b: int)
    requires |m.ids| == CAPACITY && AllInRange(rs) && i <= n <= |rs| && Unique(m.pipes) && Pipes(m)
    requires b != me && UserPipe(me, b) in RunStages(m, me, rs, true, i).pipes
    ensures UserPipe(me, b) in RunStages(m, me, rs, true, n).pipes
    decreases n
  {
    if i < n {
      ChainKeepsOthers(m, me, rs, i, n - 1, b);
      StagesKeepPipes(m, me, rs, true, n - 1);
      var before := RunStages(m, me, rs, true, n - 1);
      if rs[n - 1].From? {
        WithoutFacts(before.pipes, UserPipe(rs[n - 1].user, me));
      }
    }
  }

  /** The user's pipe to itself is in the list when command n comes, judged by the state before a chain:
      nothing has taken it since it was put in, by the line or before. */
  ghost predicate SelfPiped(m: State, me: int, rs: seq<Redirect>, n: nat) {
    (exists i :: 0 <= i < n && i < |rs| && rs[i] == To(me) && !TakesFrom(rs, me, i, n))
    || (UserPipe(me, me) in m.pipes && !Takes(rs, me, n))
  }

  predicate TakesFrom(rs: seq<Redirect>, a: int, from: nat, n: nat) {
    exists k :: from <= k < n && k < |rs| && rs[k] == From(a)
  }

  /** Command j of a chain consumes a pipe, judged by the state before the chain. */
  ghost predicate Consumes(m: State, me: int, rs: seq<Redirect>, j: nat)
    requires |m.ids| == CAPACITY && AllInRange(rs)
  {
    j < |rs| && rs[j].From? && m.ids[rs[j].user - 1]
    && if rs[j].user == me then SelfPiped(m, me, rs, j)
       else UserPipe(rs[j].user, me) in m.pipes && !Takes(rs, rs[j].user, j)
  }

  /** The last pipe that the chain consumes is the user's own. */
  ghost predicate EndsWithOwn(m: State, me: int, rs: seq<Redirect>)
    requires |m.ids| == CAPACITY && AllInRange(rs)
  {
    exists j: nat :: Consumes(m, me, rs, j) && rs[j] == From(me) && forall k: nat :: k > j ==> !Consumes(m, me, rs, k)
  }

  /** Somebody else's pipe to the user, in the course of a chain. */
  lemma {:induction false} InputAt(m: State, me: int, rs: seq<Redirect>, n: nat, a: int)
    requires |m.ids| == CAPACITY && AllInRange(rs) && n <= |rs| && Unique(m.pipes) && a != me && 1 <= a <= CAPACITY
    ensures var r := RunStages(m, me, rs, true, n);
      && (UserPipe(a, me) in r.pipes <==> UserPipe(a, me) in m.pipes && !(m.ids[a - 1] && Takes(rs, a, n)))
      && Unique(r.pipes)
    decreases n
  {
    if n > 0 {
      InputAt(m, me, rs, n - 1, a);
      TakesOneMore(rs, a, n - 1);
      var before := RunStages(m, me, rs, true, n - 1);
      hide RunStages, Takes;
      StageTakes(before, me, rs[n - 1], true, UserPipe(a, me));
    }
  }

  /** The user's pipe to itself, in the course of a chain. */
  lemma {:induction false} SelfAt(m: State, me: int, rs: seq<Redirect>, n: nat)
    requires |m.ids| == CAPACITY && AllInRange(rs) && n <= |rs| && Unique(m.pipes) && 1 <= me <= CAPACITY && m.ids[me - 1]
    ensures var r := RunStages(m, me, rs, true, n);
      (UserPipe(me, me) in r.pipes <==> SelfPiped(m, me, rs, n)) && Unique(r.pipes)
    decreases n
  {
    if n > 0 {
      SelfAt(m, me, rs, n - 1);
      SelfStep(m, me, rs, n - 1);
      var before := RunStages(m, me, rs, true, n - 1);
      hide RunStages, SelfPiped;
      StageTakes(before, me, rs[n - 1], true, UserPipe(me, me));
    }
  }

  lemma SelfStep(m: State, me: int, rs: seq<Redirect>, n: nat)
    requires n < |rs|
    ensures SelfPiped(m, me, rs, n + 1) <==> rs[n] == To(me) || (SelfPiped(m, me, rs, n) && rs[n] != From(me))
  {
    TakesOneMore(rs, me, n);
    forall i: nat | i <= n
      ensures TakesFrom(rs, me, i, n + 1) <==> TakesFrom(rs, me, i, n) || rs[n] == From(me)
    {
      assert rs[n] == From(me) ==> i <= n < n + 1;
    }
    hide Takes;
    if rs[n] == To(me) {
      assert !TakesFrom(rs, me, n, n + 1);
    }
  }

  lemma ConsumesIff(m: State, me: int, rs: seq<Redirect>, j: nat)
    requires |m.ids| == CAPACITY && AllInRange(rs) && j < |rs| && Unique(m.pipes)
    ensures Consumes(m, me, rs, j)
       <==> rs[j].From? && AcceptsFrom(RunStages(m, me, rs, true, j), me, rs[j].user)
  {
    if rs[j].From? && m.ids[rs[j].user - 1] {
      if rs[j].user == me {
        SelfAt(m, me, rs, j);
      } else {
        InputAt(m, me, rs, j, rs[j].user);
      }
    }
    hide RunStages, SelfPiped, Takes;
  }

  lemma {:induction false} LastFromIs(m: State, me: int, rs: seq<Redirect>, n: nat)
    requires |m.ids| == CAPACITY && AllInRange(rs) && n <= |rs| && Unique(m.pipes)
    ensures LastFrom(m, me, rs, true, n) == From(me)
       <==> exists j: nat :: j < n && Consumes(m, me, rs, j) && rs[j] == From(me)
                             && forall k: nat :: j < k < n ==> !Consumes(m, me, rs, k)
    decreases n
  {
    if n > 0 {
      LastFromIs(m, me, rs, n - 1);
      ConsumesIff(m, me, rs, n - 1);
      hide Consumes, RunStages;
    }
  }

  /** A chain that ends in >b leaves that pipe in the list iff it was there already or user b is there,
      unless the user pipes to itself and the last pipe the line consumed was its own: then the cleanup
      takes the new one. */
  lemma ChainDeliversIff(m: State, me: int, rs: seq<Redirect>, b: int)
    requires |m.ids| == CAPACITY && AllInRange(rs) && Unique(m.pipes) && rs != [] && rs[|rs| - 1] == To(b)
    ensures UserPipe(me, b) in RunChain(m, me, rs).pipes
       <==> (UserPipe(me, b) in m.pipes || m.ids[b - 1]) && !(b == me && EndsWithOwn(m, me, rs))
  {
    assert InRange(rs[|rs| - 1]);
    LastFromIs(m, me, rs, |rs|);
    ChainEnd(m, me, rs, b);
    var last, m1 := LastFrom(m, me, rs, true, |rs|), RunStages(m, me, rs, true, |rs|);
    assert LastFrom(m, me, rs, true, |rs|) == From(me) <==> EndsWithOwn(m, me, rs);
    if last.From? {
      OthersStay(m1.pipes, UserPipe(last.user, me), UserPipe(me, b));
      WithoutFacts(m1.pipes, UserPipe(last.user, me));
    }
    hide RunStages, LastFrom, EndsWithOwn, Without;
  }

  /** The pipe to b when the last command has run. */
  lemma ChainEnd(m: State, me: int, rs: seq<Redirect>, b: int)
    requires |m.ids| == CAPACITY && AllInRange(rs) && Unique(m.pipes) && rs != [] && rs[|rs| - 1] == To(b)
    ensures var m1 := RunStages(m, me, rs, true, |rs|);
      && Unique(m1.pipes)
      && (UserPipe(me, b) in m1.pipes <==> UserPipe(me, b) in m.pipes || m.ids[b - 1])
  {
    var k := |rs| - 1;
    assert InRange(rs[k]);
    var before := RunStages(m, me, rs, true, k);
    OutputAt(m, me, rs, k, b);
    StageTakes(before, me, rs[k], true, UserPipe(me, b));
    StageUnique(before, me, rs[k]);
  }

  /** A pipe of the user in the course of a chain: it was there before, or b is there. */
  lemma {:induction false} OutputAt(m: State, me: int, rs: seq<Redirect>, n: nat, b: int)
    requires |m.ids| == CAPACITY && AllInRange(rs) && n <= |rs| && Unique(m.pipes) && 1 <= b <= CAPACITY
    ensures var r := RunStages(m, me, rs, true, n);
      && Unique(r.pipes)
      && (UserPipe(me, b) in r.pipes ==> UserPipe(me, b) in m.pipes || m.ids[b - 1])
      && (UserPipe(me, b) in m.pipes && !m.ids[b - 1] ==> UserPipe(me, b) in r.pipes)
    decreases n
  {
    if n > 0 {
      OutputAt(m, me, rs, n - 1, b);
      var before := RunStages(m, me, rs, true, n - 1);
      hide RunStages;
      StageTakes(before, me, rs[n - 1], true, UserPipe(me, b));
      StageUnique(before, me, rs[n - 1]);
    }
  }

  lemma StageUnique(m: State, me: int, r: Redirect)
    requires |m.ids| == CAPACITY && InRange(r) && Unique(m.pipes)
    ensures Unique(RunStage(m, me, r, true).pipes)
  {
    if r.From? {
      WithoutFacts(m.pipes, UserPipe(r.user, me));
    }
    hide Without;
  }

  /** An accepted <a of a lone command is announced as received; the pipe is consumed by it iff the
      command is external. */
  lemma OneConsumesIff(m: State, me: int, a: int, b: Redirect, builtin: bool)
    requires |m.ids| == CAPACITY && Pipes(m) && InRange(From(a)) && InRange(b) && AcceptsFrom(m, me, a)
    ensures var m1 := RunOne(m, me, From(a), b, builtin);
      && Received(UserPipe(a, me)) in m1.log
      && (UserPipe(a, me) !in m1.pipes <==> !builtin)
  {
    var p := UserPipe(a, me);
    var m2 := Tell(m, Received(p));
    assert m2.log[|m.log|] == Received(p);
    if b.To? && AcceptsTo(m, me, b.user) {
      m2 := Open(Tell(m2, Piped(UserPipe(me, b.user))), UserPipe(me, b.user));
    }
    WithoutFacts(m2.pipes, p);
    var m1 := RunOne(m, me, From(a), b, builtin);
    assert m1 == if builtin then m2 else Shut(m2, p);
    assert m1.log[|m.log|] == Received(p);
  }

  // ----- The shortfalls at work -----------------------------------------------------------------

  /** Three users arrive; the events are applied one by one. */
  function Arrivals(): seq<Op> {
    [Join(4, "", 0), Join(5, "", 0), Join(6, "", 0)]
  }

  lemma Arrived()
    ensures var m := Run(Arrivals()); ThreeUsers(m) && m.pipes == [] && m.log == []
  {
    ThreeArrive();
  }

  /** User 1 types a command with >2 on a line ending in |n, and then >2 behind the number: both are
      announced, and no pipe is opened. */
  lemma NumberedDropHappens()
    ensures var m := Run(Arrivals() + [NumberedLine(4, Nothing, Nothing, [To(2)])]);
      m.pipes == [] && m.log == [Piped(UserPipe(1, 2))]
    ensures var m := Run(Arrivals() + [NumberedLine(4, Nothing, To(2), [Nothing])]);
      m.pipes == [] && m.log == [Piped(UserPipe(1, 2))]
  {
    Arrived();
    RunSnoc(Arrivals(), NumberedLine(4, Nothing, Nothing, [To(2)]));
    RunSnoc(Arrivals(), NumberedLine(4, Nothing, To(2), [Nothing]));
    var m := Run(Arrivals());
    assert IndexOf(m.total, 4) == 0 && m.ids[1];
    hide Run;
    OneCommand(m, 1, To(2));
    OneCommand(Announce(m, 1, Nothing, To(2)), 1, Nothing);
  }

  lemma OneCommand(m: State, me: int, r: Redirect)
    requires |m.ids| == CAPACITY && InRange(r)
    ensures RunStages(m, me, [r], false, 1) == RunStage(m, me, r, false)
  {
    assert RunStages(m, me, [r], false, 0) == m;
  }

  /** User 1 pipes to 2, and 2 types <1 behind the number of a line ending in !n: its reception is
      announced, and the pipe stays. */
  lemma TailKeepsPipe()
    ensures var m := Run(Arrivals() + [One(4, Nothing, To(2), false)] + [NumberedLine(5, From(1), Nothing, [Nothing])]);
      m.pipes == [UserPipe(1, 2)] && Received(UserPipe(1, 2)) in m.log
  {
    Arrived();
    var one := Arrivals() + [One(4, Nothing, To(2), false)];
    RunSnoc(Arrivals(), One(4, Nothing, To(2), false));
    PipeTo(Run(Arrivals()), 4, 2);
    RunSnoc(one, NumberedLine(5, From(1), Nothing, [Nothing]));
    var m := Run(one);
    assert IndexOf(m.total[1..], 5) == 0;
    assert IndexOf(m.total, 5) == 1 && m.ids[0];
    hide Run;
    var m1 := Announce(m, 2, From(1), Nothing);
    OneCommand(m1, 2, Nothing);
    assert m1.log[|m.log|] == Received(UserPipe(1, 2));
  }

  /** User 1 pipes to itself, and then reads that pipe in a chain that pipes to itself again: both pipes
      are gone. */
  lemma SelfPipeIsLost()
    ensures var m := Run(Arrivals() + [One(4, Nothing, To(1), false)] + [Chain(4, [From(1), To(1)])]);
      m.pipes == [] && Uses(m.log, UserPipe(1, 1)) == [true, false, true, false]
  {
    Arrived();
    var one := Arrivals() + [One(4, Nothing, To(1), false)];
    RunSnoc(Arrivals(), One(4, Nothing, To(1), false));
    PipeTo(Run(Arrivals()), 4, 1);
    RunSnoc(one, Chain(4, [From(1), To(1)]));
    var m := Run(one);
    assert IndexOf(m.total, 4) == 0;
    hide Run, Arrivals, Uses;
    ChainStep(m);
    OwnChain(m);
  }

  lemma ChainStep(m: State)
    requires ThreeUsers(m)
    ensures Step(m, Chain(4, [From(1), To(1)])) == RunChain(m, 1, [From(1), To(1)])
  {
    assert IndexOf(m.total, 4) == 0;
    hide RunChain;
  }

  lemma OwnFirst(m: State)
    requires ThreeUsers(m) && m.pipes == [UserPipe(1, 1)]
    ensures RunStage(m, 1, From(1), true)
         == m.(pipes := [], log := m.log + [Received(UserPipe(1, 1))] + [Closed(UserPipe(1, 1))])
  {
    assert m.ids[0];
    assert Without([UserPipe(1, 1)], UserPipe(1, 1)) == [];
  }

  lemma OwnSecond(m: State)
    requires ThreeUsers(m) && m.pipes == []
    ensures RunStage(m, 1, To(1), true)
         == m.(pipes := [UserPipe(1, 1)], log := m.log + [Piped(UserPipe(1, 1))] + [Opened(UserPipe(1, 1))])
  {
    assert m.ids[0];
  }

  lemma OwnStages(m: State)
    requires ThreeUsers(m) && m.pipes == [UserPipe(1, 1)]
    ensures var rs := [From(1), To(1)];
      && RunStages(m, 1, rs, true, 2) == RunStage(RunStage(m, 1, From(1), true), 1, To(1), true)
      && LastFrom(m, 1, rs, true, 2) == From(1)
  {
    var rs := [From(1), To(1)];
    assert m.ids[0];
    assert RunStages(m, 1, rs, true, 0) == m;
    assert RunStages(m, 1, rs, true, 1) == RunStage(m, 1, From(1), true);
    assert LastFrom(m, 1, rs, true, 1) == From(1);
    hide RunStage;
  }

  lemma OwnChain(m: State)
    requires ThreeUsers(m)
    requires m.pipes == [UserPipe(1, 1)] && m.log == [Piped(UserPipe(1, 1))] + [Opened(UserPipe(1, 1))]
    ensures var m1 := RunChain(m, 1, [From(1), To(1)]);
      m1.pipes == [] && Uses(m1.log, UserPipe(1, 1)) == [true, false, true, false]
  {
    var p := UserPipe(1, 1);
    OwnStages(m);
    OwnFirst(m);
    var a := RunStage(m, 1, From(1), true);
    OwnSecond(a);
    var b := RunStage(a, 1, To(1), true);
    assert Without([p], p) == [];
    assert RunChain(m, 1, [From(1), To(1)]) == b.(pipes := [], log := b.log + [Closed(p)]);
    hide RunStages, RunStage, LastFrom, RunChain, Uses;
    UsesOf(p);
    var log := [Piped(p)] + [Opened(p)];
    UsesSnoc(log, Received(p), p);
    UsesSnoc(log + [Received(p)], Closed(p), p);
    UsesSnoc(a.log, Piped(p), p);
    UsesSnoc(a.log + [Piped(p)], Opened(p), p);
    UsesSnoc(b.log, Closed(p), p);
  }

  lemma UsesOf(p: UserPipe)
    ensures Uses([Piped(p)] + [Opened(p)], p) == [true]
  {
    UsesSnoc([], Piped(p), p);
    UsesSnoc([Piped(p)], Opened(p), p);
    assert [] + [Piped(p)] == [Piped(p)];
  }

  /** User 1 pipes to 2, and 2 types a built-in command with <1: its reception is announced, and the pipe
      stays. */
  lemma BuiltinKeepsPipe()
    ensures var m := Run(Arrivals() + [One(4, Nothing, To(2), false)] + [One(5, From(1), Nothing, true)]);
      m.pipes == [UserPipe(1, 2)] && Received(UserPipe(1, 2)) in m.log
  {
    Arrived();
    var one := Arrivals() + [One(4, Nothing, To(2), false)];
    RunSnoc(Arrivals(), One(4, Nothing, To(2), false));
    PipeTo(Run(Arrivals()), 4, 2);
    RunSnoc(one, One(5, From(1), Nothing, true));
    var m := Run(one);
    assert IndexOf(m.total[1..], 5) == 0;
    assert IndexOf(m.total, 5) == 1;
    hide Run;
    var m1 := Step(m, One(5, From(1), Nothing, true));
    assert m1.log[|m.log|] == Received(UserPipe(1, 2));
  }

  /** The invariant gives every method of the manager what it asks for. */
  lemma InvSuffices(m: State)
    requires Inv(m)
    ensures Program.Valid(m)
    ensures forall i :: 0 <= i < |m.total| ==> m.ids[m.total[i].id - 1]
    ensures |m.total| < CAPACITY ==> Lowest(m.ids, 0) < |m.ids|
  {
    forall i | 0 <= i < |m.total|
      ensures m.ids[m.total[i].id - 1]
    {
      var k := m.total[i].id - 1;
      assert HasId(m.total, k + 1);
    }
    if |m.total| < CAPACITY {
      FreeSlot(m);
    }
  }
}
