/** What each operation of the multi-user server does, client by client and pipe by pipe, told from the state
    before it. */
module ManagerLaws {
  import opened UserPipes
  import opened Manager
  import opened ManagerRuns
  import opened UserPipeTheorems

  lemma OneClient(m: State, fd: int, c: Client)
    requires Clients(m) && c in m.total && c.fd == fd
    ensures ManagerRuns.Known(m, fd) && IdOf(m, fd) == c.id && m.total[IndexOf(m.total, fd)] == c
    ensures forall i :: 0 <= i < |m.total| ==> (m.total[i].fd == fd <==> i == IndexOf(m.total, fd))
    ensures 1 <= c.id <= CAPACITY && m.ids[c.id - 1]
  {
    var k :| 0 <= k < |m.total| && m.total[k] == c;
    var i := IndexOf(m.total, fd);
    assert m.total[i] in m.total;
    forall j | 0 <= j < |m.total| && m.total[j].fd == fd
      ensures j == i
    {
      assert m.total[j] in m.total;
    }
    assert m.ids[c.id - 1] <==> HasId(m.total, (c.id - 1) + 1);
  }

  // ----- Names ----------------------------------------------------------------------------------

  ghost predicate HasName(q: seq<Client>, name: string) {
    exists c :: c in q && c.name == name
  }

  /** The name command: if nobody has the name, the client with that descriptor has it afterwards, and that is
      all that changes; if somebody has it, nothing changes. */
  lemma RenameIs(m: State, c: Client, name: string)
    requires Inv(m) && c in m.total
    ensures var m1 := Step(m, Name(c.fd, name));
      if HasName(m.total, name) then m1 == m
      else
        && m1.ids == m.ids && m1.pipes == m.pipes && m1.log == m.log && |m1.total| == |m.total|
        && forall i :: 0 <= i < |m.total| ==>
             m1.total[i] == if m.total[i].fd == c.fd then m.total[i].(name := name) else m.total[i]
  {
    OneClient(m, c.fd, c);
    if NameTaken(m.total, name) {
      var i :| 0 <= i < |m.total| && m.total[i].name == name;
      assert m.total[i] in m.total;
    }
    hide Pipes, InTurn, Clients;
  }

  /** In every run: once a client has asked for a name, the name is taken, and asking for it again changes
      nothing, whoever does. */
  lemma NameStaysTaken(ops: seq<Op>, c: Client, fd: int, name: string)
    requires c in Run(ops).total
    ensures var m := Run(ops + [Name(c.fd, name)]);
      HasName(m.total, name) && Run(ops + [Name(c.fd, name)] + [Name(fd, name)]) == m
  {
    RunInv(ops);
    RunSnoc(ops, Name(c.fd, name));
    RunSnoc(ops + [Name(c.fd, name)], Name(fd, name));
    RunInv(ops + [Name(c.fd, name)]);
    RenameIs(Run(ops), c, name);
    var m, m1 := Run(ops), Run(ops + [Name(c.fd, name)]);
    OneClient(m, c.fd, c);
    hide Run, Step, Inv;
    if !HasName(m.total, name) {
      assert m1.total[IndexOf(m.total, c.fd)] in m1.total;
    }
    AskedAgain(m1, fd, name);
  }

  lemma AskedAgain(m: State, fd: int, name: string)
    requires Inv(m) && HasName(m.total, name)
    ensures Step(m, Name(fd, name)) == m
  {
    var c :| c in m.total && c.name == name;
    var i :| 0 <= i < |m.total| && m.total[i] == c;
    assert m.total[i].name == name;
    hide Clients, Pipes;
  }

  // ----- Arrivals and departures ----------------------------------------------------------------

  /** A newcomer without a name gets the lowest id that nobody has; nobody else changes, and no pipe. */
  lemma JoinIs(m: State, fd: int, ip: string, port: int)
    requires Inv(m) && |m.total| < CAPACITY && forall c :: c in m.total ==> c.fd != fd
    ensures var m1 := Step(m, Join(fd, ip, port));
      && m1.pipes == m.pipes && m1.log == m.log
      && exists id: int ::
           && 1 <= id <= 30 && !HasId(m.total, id) && (forall k :: 1 <= k < id ==> HasId(m.total, k))
           && forall x :: x in m1.total <==> x == Client(fd, "(no name)", ip, port, id) || x in m.total
  {
    FreeSlot(m);
    var c := Client(fd, NO_NAME, ip, port, 0);
    JoinMembers(m, c);
    var id := NextId(m);
    forall k | 1 <= k < id
      ensures HasId(m.total, k)
    {
      assert m.ids[k - 1] <==> HasId(m.total, (k - 1) + 1);
    }
    assert Step(m, Join(fd, ip, port)) == Enter(m, c);
    assert c.(id := id) == Client(fd, "(no name)", ip, port, id);
    hide Step, Clients, Pipes, InsertById, HasId, Lowest, NextId;
  }

  /** A departure removes that client and nobody else; the pipes that stay stay in order, those that go are
      the leaver's, and the log gets one closing for each of these and nothing else. */
  lemma QuitIs(m: State, c: Client, e: Event)
    requires Inv(m) && c in m.total
    ensures var m1 := Step(m, Quit(c.fd));
      && (forall x :: x in m1.total <==> x in m.total && x.fd != c.fd)
      && Untouched(m1.pipes, c.id) == Untouched(m.pipes, c.id)
      && (forall p :: p in m1.pipes ==> p in m.pipes)
      && (forall p :: p in m.pipes && p !in m1.pipes ==> p.sender == c.id || p.receiver == c.id)
      && m.log <= m1.log
      && Count(m1.log, e) == Count(m.log, e) + if e.Closed? && e.pipe in m.pipes && e.pipe !in m1.pipes then 1 else 0
  {
    OneClient(m, c.fd, c);
    LeaveMembers(m, c.fd);
    LeaveIs(m, c.fd);
    SweepKeepsOthers(m.pipes, c.id);
    SweepHalves(m.pipes, c.id);
    SweepSplits(m.pipes, c.id);
    var m1 := Step(m, Quit(c.fd));
    assert m1 == Leave(m, c.fd);
    SameById(m, c);
    hide Step, Leave, Sweep, Erased, Closes, Clients, InTurn, Untouched;
    ClosedCount(m.log, Erased(m.pipes, c.id), e);
  }

  lemma SameById(m: State, c: Client)
    requires Clients(m) && c in m.total
    ensures forall x :: x in m.total ==> (x.id == c.id <==> x.fd == c.fd)
  {
    forall x | x in m.total && x.id == c.id
      ensures x == c
    {
      var i :| 0 <= i < |m.total| && m.total[i] == x;
      var j :| 0 <= j < |m.total| && m.total[j] == c;
    }
  }

  lemma {:induction false} ClosedCount(log: seq<Event>, q: seq<UserPipe>, e: Event)
    requires Unique(q)
    ensures log <= log + Closes(q)
    ensures Count(log + Closes(q), e) == Count(log, e) + if e.Closed? && e.pipe in q then 1 else 0
  {
    if q == [] {
      assert log + Closes(q) == log;
    } else {
      var front, last := q[..|q| - 1], q[|q| - 1];
      assert q == front + [last] && last !in front;
      ClosedCount(log, front, e);
      assert log + Closes(q) == (log + Closes(front)) + [Closed(last)];
    }
  }

  // ----- Lines ----------------------------------------------------------------------------------

  /** Only the pipes and the log changed, and the log was added to. */
  ghost predicate PipesOnly(m: State, m1: State) {
    m1.ids == m.ids && m1.total == m.total && m.log <= m1.log
  }

  /** User `id` is there. */
  predicate IsIn(m: State, id: int) {
    1 <= id <= |m.ids| && m.ids[id - 1]
  }

  /** A line of one command, for every pipe and every event: its >b opens the pipe to b if b is there and
      the pipe is not in the list; its <a is received if a is there and the pipe is, and an external command
      takes it out. */
  lemma OneIs(m: State, c: Client, a: Redirect, b: Redirect, builtin: bool, p: UserPipe, e: Event)
    requires Inv(m) && c in m.total && InRange(a) && InRange(b) && !a.To? && !b.From?
    ensures var m1 := Step(m, One(c.fd, a, b, builtin));
      var f := a.From? && IsIn(m, a.user) && UserPipe(a.user, c.id) in m.pipes;
      var t := b.To? && IsIn(m, b.user) && UserPipe(c.id, b.user) !in m.pipes;
      && PipesOnly(m, m1)
      && (p in m1.pipes <==>
            (p in m.pipes || (t && p == UserPipe(c.id, b.user))) && !(f && !builtin && p == UserPipe(a.user, c.id)))
      && Count(m1.log, e) == Count(m.log, e)
           + (if f && (e == Received(UserPipe(a.user, c.id)) || (!builtin && e == Closed(UserPipe(a.user, c.id)))) then 1 else 0)
           + (if t && (e == Piped(UserPipe(c.id, b.user)) || e == Opened(UserPipe(c.id, b.user))) then 1 else 0)
  {
    OneClient(m, c.fd, c);
    assert Step(m, One(c.fd, a, b, builtin)) == RunOne(m, c.id, a, b, builtin);
    OnePipe(m, c.id, a, b, builtin, p);
    OneCount(m, c.id, a, b, builtin, e);
    AnnouncePipes(m, c.id, a, b, e);
    OneLog(m, c.id, a, b, builtin);
    hide RunOne, Step, Announce, Pipes, Clients, Count;
  }

  lemma OnePipe(m: State, me: int, a: Redirect, b: Redirect, builtin: bool, p: UserPipe)
    requires |m.ids| == CAPACITY && InRange(a) && InRange(b) && Unique(m.pipes)
    ensures var f, t := a.From? && AcceptsFrom(m, me, a.user), b.To? && AcceptsTo(m, me, b.user);
      p in RunOne(m, me, a, b, builtin).pipes <==>
        (p in m.pipes || (t && p == UserPipe(me, b.user))) && !(f && !builtin && p == UserPipe(a.user, me))
  {
    var more := if b.To? && AcceptsTo(m, me, b.user) then m.pipes + [UserPipe(me, b.user)] else m.pipes;
    assert Unique(more);
    if a.From? {
      WithoutFacts(more, UserPipe(a.user, me));
    }
    hide Unique, Without, Count;
  }

  lemma OneLog(m: State, me: int, a: Redirect, b: Redirect, builtin: bool)
    requires |m.ids| == CAPACITY && InRange(a) && InRange(b)
    ensures var m1 := RunOne(m, me, a, b, builtin); m1.ids == m.ids && m1.total == m.total && m.log <= m1.log
  {}

  lemma AnnouncePipes(m: State, me: int, a: Redirect, b: Redirect, e: Event)
    requires |m.ids| == CAPACITY && InRange(a) && InRange(b)
    ensures var m1 := Announce(m, me, a, b);
      && m.log <= m1.log && Count(m1.log, e) == Count(m.log, e)
           + (if a.From? && AcceptsFrom(m, me, a.user) && e == Received(UserPipe(a.user, me)) then 1 else 0)
           + (if b.To? && AcceptsTo(m, me, b.user) && e == Piped(UserPipe(me, b.user)) then 1 else 0)
  {}

  lemma OpenLog(m: State, q: UserPipe, e: Event)
    ensures m.log <= Open(m, q).log
    ensures Count(Open(m, q).log, e) == Count(m.log, e) + if e == Opened(q) && q !in m.pipes then 1 else 0
  {}

  lemma ShutLog(m: State, q: UserPipe, e: Event)
    ensures m.log <= Shut(m, q).log
    ensures Count(Shut(m, q).log, e) == Count(m.log, e) + if e == Closed(q) && q in m.pipes then 1 else 0
  {}

  /** The log of a line of one command. */
  lemma OneCount(m: State, me: int, a: Redirect, b: Redirect, builtin: bool, e: Event)
    requires |m.ids| == CAPACITY && InRange(a) && InRange(b)
    ensures var f, t := a.From? && AcceptsFrom(m, me, a.user), b.To? && AcceptsTo(m, me, b.user);
      Count(RunOne(m, me, a, b, builtin).log, e)
      == Count(Announce(m, me, a, b).log, e) + (if t && e == Opened(UserPipe(me, b.user)) then 1 else 0)
         + if f && !builtin && e == Closed(UserPipe(a.user, me)) then 1 else 0
  {
    var f, t := a.From? && AcceptsFrom(m, me, a.user), b.To? && AcceptsTo(m, me, b.user);
    var m2 := Announce(m, me, a, b);
    var m3 := if t then Open(m2, UserPipe(me, b.user)) else m2;
    if t {
      OpenLog(m2, UserPipe(me, b.user), e);
    }
    if f {
      assert UserPipe(a.user, me) in m3.pipes;
      ShutLog(m3, UserPipe(a.user, me), e);
    }
    hide Announce, Open, Shut, Count;
  }

  /** Among the first `n` commands there is a >b. */
  predicate Gives(rs: seq<Redirect>, b: int, n: nat) {
    exists i :: 0 <= i < n && i < |rs| && rs[i] == To(b)
  }

  lemma GivesOneMore(rs: seq<Redirect>, b: int, n: nat)
    requires n < |rs|
    ensures Gives(rs, b, n + 1) <==> Gives(rs, b, n) || rs[n] == To(b)
    ensures !Gives(rs, b, 0)
  {
    if Gives(rs, b, n) {
      var i :| 0 <= i < n && i < |rs| && rs[i] == To(b);
      assert 0 <= i < n + 1;
    }
    if rs[n] == To(b) {
      assert 0 <= n < n + 1;
    }
  }

  /** A pipe in the course of a longer line: a user that is there is taken from at its first <a, and given to
      at its first >b if the line is a chain; the user's pipe to itself in a chain is not covered. */
  ghost predicate ThereAfter(m: State, me: int, rs: seq<Redirect>, chain: bool, n: nat, p: UserPipe) {
    if p.receiver == me && !(chain && p.sender == me) then p in m.pipes && !(IsIn(m, p.sender) && Takes(rs, p.sender, n))
    else if p.sender == me && chain then p in m.pipes || (IsIn(m, p.receiver) && Gives(rs, p.receiver, n))
    else p in m.pipes
  }

  lemma {:induction false} PipeAt(m: State, me: int, rs: seq<Redirect>, chain: bool, n: nat, p: UserPipe)
    requires |m.ids| == CAPACITY && AllInRange(rs) && n <= |rs| && Unique(m.pipes) && !(chain && p == UserPipe(me, me))
    ensures var r := RunStages(m, me, rs, chain, n);
      (p in r.pipes <==> ThereAfter(m, me, rs, chain, n, p)) && Unique(r.pipes)
    decreases n
  {
    if n > 0 {
      PipeAt(m, me, rs, chain, n - 1, p);
      var before, r := RunStages(m, me, rs, chain, n - 1), rs[n - 1];
      assert InRange(r);
      TakesOneMore(rs, p.sender, n - 1);
      GivesOneMore(rs, p.receiver, n - 1);
      StageTakes(before, me, r, chain, p);
      AnyStageUnique(before, me, r, chain);
      hide RunStages, Takes, Gives;
    }
  }

  lemma AnyStageUnique(m: State, me: int, r: Redirect, chain: bool)
    requires |m.ids| == CAPACITY && InRange(r) && Unique(m.pipes)
    ensures Unique(RunStage(m, me, r, chain).pipes)
  {
    if r.From? {
      WithoutFacts(m.pipes, UserPipe(r.user, me));
    }
    hide Without;
  }

  lemma {:induction false} StagesLog(m: State, me: int, rs: seq<Redirect>, chain: bool, n: nat)
    requires |m.ids| == CAPACITY && AllInRange(rs) && n <= |rs|
    ensures m.log <= RunStages(m, me, rs, chain, n).log
  {
    if n > 0 {
      StagesLog(m, me, rs, chain, n - 1);
      StageLog(RunStages(m, me, rs, chain, n - 1), me, rs[n - 1], chain);
      hide RunStage;
    }
  }

  lemma StageLog(m: State, me: int, r: Redirect, chain: bool)
    requires |m.ids| == CAPACITY && InRange(r)
    ensures m.log <= RunStage(m, me, r, chain).log
  {}

  lemma TakesIff(rs: seq<Redirect>, a: int)
    ensures Takes(rs, a, |rs|) <==> From(a) in rs
    ensures Gives(rs, a, |rs|) <==> To(a) in rs
  {}

  /** A plain chain, for every pipe: the pipes of others stay; a pipe to the user is taken iff the line has its
      <a and a is there; a pipe from the user to somebody else is there afterwards iff it was before or the
      line has its >b and b is there; the user's pipe to itself is there iff the commands leave it there and the
      cleanup does not take it. */
  lemma ChainIs(m: State, c: Client, rs: seq<Redirect>, p: UserPipe)
    requires Inv(m) && c in m.total && AllInRange(rs)
    ensures var m1, me := Step(m, Chain(c.fd, rs)), c.id;
      && PipesOnly(m, m1)
      && (p in m1.pipes <==>
            if p == UserPipe(me, me) then SelfPiped(m, me, rs, |rs|) && !EndsWithOwn(m, me, rs)
            else if p.receiver == me then p in m.pipes && !(IsIn(m, p.sender) && From(p.sender) in rs)
            else if p.sender == me then p in m.pipes || (IsIn(m, p.receiver) && To(p.receiver) in rs)
            else p in m.pipes)
  {
    OneClient(m, c.fd, c);
    var me := c.id;
    assert Step(m, Chain(c.fd, rs)) == RunChain(m, me, rs);
    hide Step, Clients;
    ChainPipe(m, me, rs, p);
    StagesLog(m, me, rs, true, |rs|);
    if LastFrom(m, me, rs, true, |rs|).From? {
      ShutLog(RunStages(m, me, rs, true, |rs|), UserPipe(LastFrom(m, me, rs, true, |rs|).user, me), Opened(p));
    }
    hide RunStages, LastFrom, SelfPiped, EndsWithOwn, Shut, Count, InTurn;
  }

  lemma ChainPipe(m: State, me: int, rs: seq<Redirect>, p: UserPipe)
    requires |m.ids| == CAPACITY && AllInRange(rs) && Unique(m.pipes) && IsIn(m, me)
    ensures p in RunChain(m, me, rs).pipes <==>
      if p == UserPipe(me, me) then SelfPiped(m, me, rs, |rs|) && !EndsWithOwn(m, me, rs)
      else if p.receiver == me then p in m.pipes && !(IsIn(m, p.sender) && From(p.sender) in rs)
      else if p.sender == me then p in m.pipes || (IsIn(m, p.receiver) && To(p.receiver) in rs)
      else p in m.pipes
  {
    var m1, last := RunStages(m, me, rs, true, |rs|), LastFrom(m, me, rs, true, |rs|);
    LastFromIs(m, me, rs, |rs|);
    assert last == From(me) <==> EndsWithOwn(m, me, rs);
    LastTaken(m, me, rs, |rs|);
    SelfAt(m, me, rs, |rs|);
    TakesIff(rs, p.sender);
    TakesIff(rs, p.receiver);
    if p != UserPipe(me, me) {
      PipeAt(m, me, rs, true, |rs|, p);
    }
    if last.From? {
      WithoutFacts(m1.pipes, UserPipe(last.user, me));
    }
    hide RunStages, LastFrom, EndsWithOwn, SelfPiped, Without, Takes, Gives;
  }

  lemma {:induction false} LastTaken(m: State, me: int, rs: seq<Redirect>, n: nat)
    requires |m.ids| == CAPACITY && AllInRange(rs) && n <= |rs|
    ensures var r := LastFrom(m, me, rs, true, n);
      !r.To? && InRange(r) && (r.From? ==> m.ids[r.user - 1] && Takes(rs, r.user, n))
  {
    if n > 0 {
      LastTaken(m, me, rs, n - 1);
      var r := LastFrom(m, me, rs, true, n);
      TakesOneMore(rs, if r.From? then r.user else 0, n - 1);
      hide Takes, RunStages;
    }
  }

  /** A line in front of a numbered pipe, for every pipe: a pipe to the user is taken iff one of its commands has
      its <a and a is there; nothing is opened, and what is typed behind the number touches no pipe. */
  lemma NumberedIs(m: State, c: Client, a: Redirect, b: Redirect, rs: seq<Redirect>, p: UserPipe)
    requires Inv(m) && c in m.total && InRange(a) && InRange(b) && !a.To? && !b.From? && AllInRange(rs)
    ensures var m1 := Step(m, NumberedLine(c.fd, a, b, rs));
      && PipesOnly(m, m1)
      && (p in m1.pipes <==> p in m.pipes && !(p.receiver == c.id && IsIn(m, p.sender) && From(p.sender) in rs))
  {
    OneClient(m, c.fd, c);
    var m2 := Announce(m, c.id, a, b);
    AnnouncePipes(m, c.id, a, b, Opened(p));
    PipeAt(m2, c.id, rs, false, |rs|, p);
    StagesLog(m2, c.id, rs, false, |rs|);
    TakesIff(rs, p.sender);
    hide RunStages, Announce, Takes, Clients, Count, InTurn;
  }
}
