/** Whole runs of the multi-user server: clients come, go, rename themselves and pipe to each other. */
module ManagerRuns {
  import opened UserPipes
  import opened Manager

  datatype Op =
    | Join(fd: int, ip: string, port: int)
    | Quit(fd: int)
    | Name(fd: int, name: string)
    | One(fd: int, source: Redirect, target: Redirect, builtin: bool)
    | Chain(fd: int, commands: seq<Redirect>)
    | NumberedLine(fd: int, source: Redirect, target: Redirect, commands: seq<Redirect>)

  ghost predicate Known(m: State, fd: int) {
    IndexOf(m.total, fd) < |m.total|
  }

  /** The event can happen: a connection is accepted while an id is free, on a descriptor not in use,
      and the other events come from a connected client and name ids the bitmap has. */
  ghost predicate Enabled(m: State, op: Op) {
    match op
    case Join(fd, _, _) => Lowest(m.ids, 0) < |m.ids| && !Known(m, fd)
    case Quit(fd) => Known(m, fd)
    case Name(fd, _) => Known(m, fd)
    case One(fd, a, b, _) => Known(m, fd) && InRange(a) && InRange(b) && !a.To? && !b.From?
    case Chain(fd, rs) => Known(m, fd) && AllInRange(rs)
    case NumberedLine(fd, a, b, rs) =>
      Known(m, fd) && InRange(a) && InRange(b) && !a.To? && !b.From? && AllInRange(rs)
  }

  // ----- The invariant --------------------------------------------------------------------------

  ghost predicate HasId(q: seq<Client>, id: int) {
    exists x :: x in q && x.id == id
  }

  ghost predicate StrictlySorted(q: seq<Client>) {
    forall i, j :: 0 <= i < j < |q| ==> q[i].id < q[j].id
  }

  ghost predicate DistinctFds(q: seq<Client>) {
    forall x, y :: x in q && y in q && x.fd == y.fd ==> x.id == y.id
  }

  /** Names that were chosen are chosen by one client only. */
  ghost predicate DistinctNames(q: seq<Client>) {
    forall x, y :: x in q && y in q && x.name == y.name && x.id != y.id ==> x.name == NO_NAME
  }

  /** Slot k of the bitmap is set iff a client has id k + 1. */
  ghost predicate BitmapAgrees(m: State) {
    |m.ids| == CAPACITY && forall k: nat :: k < CAPACITY ==> (m.ids[k] <==> HasId(m.total, k + 1))
  }

  /** The openings and closings of one pipe, in order: true is an opening. */
  function Uses(log: seq<Event>, p: UserPipe): seq<bool> {
    if log == [] then []
    else
      var r := Uses(log[..|log| - 1], p);
      var e := log[|log| - 1];
      if e == Opened(p) then r + [true] else if e == Closed(p) then r + [false] else r
  }

  ghost predicate Alternate(u: seq<bool>) {
    forall i :: 0 <= i < |u| ==> u[i] == (i % 2 == 0)
  }

  /** Openings and closings of the pipe take turns, and it is in the list iff an opening was last. */
  ghost predicate InTurn(m: State, p: UserPipe) {
    Alternate(Uses(m.log, p)) && (p in m.pipes <==> |Uses(m.log, p)| % 2 == 1)
  }

  ghost predicate Clients(m: State) {
    && IdsInRange(m) && BitmapAgrees(m)
    && StrictlySorted(m.total) && DistinctFds(m.total) && DistinctNames(m.total)
  }

  ghost predicate Pipes(m: State) {
    Unique(m.pipes) && forall p :: InTurn(m, p)
  }

  ghost predicate Inv(m: State) {
    Clients(m) && Pipes(m)
  }

  // ----- Pipes ----------------------------------------------------------------------------------

  lemma UsesSnoc(log: seq<Event>, e: Event, p: UserPipe)
    ensures Uses(log + [e], p)
         == Uses(log, p) + (if e == Opened(p) then [true] else if e == Closed(p) then [false] else [])
  {
    assert (log + [e])[..|log|] == log;
  }

  lemma AlternateSnoc(u: seq<bool>, opening: bool)
    requires Alternate(u) && opening == (|u| % 2 == 0)
    ensures Alternate(u + [opening]) && (|u + [opening]| % 2 == 1 <==> opening)
  {}

  /** A pipe's turns after one more event, which changes its membership as it should. */
  lemma TurnAfter(m: State, m1: State, e: Event, p: UserPipe)
    requires InTurn(m, p) && m1.log == m.log + [e]
    requires e == Opened(p) ==> p !in m.pipes && p in m1.pipes
    requires e == Closed(p) ==> p in m.pipes && p !in m1.pipes
    requires e != Opened(p) && e != Closed(p) ==> (p in m1.pipes <==> p in m.pipes)
    ensures InTurn(m1, p)
  {
    UsesSnoc(m.log, e, p);
    if e == Opened(p) || e == Closed(p) {
      AlternateSnoc(Uses(m.log, p), e == Opened(p));
    } else {
      assert Uses(m1.log, p) == Uses(m.log, p);
    }
    hide Alternate;
  }

  lemma TellKeepsPipes(m: State, e: Event)
    requires Pipes(m) && (e.Piped? || e.Received?)
    ensures Pipes(Tell(m, e))
  {
    hide InTurn;
    forall p
      ensures InTurn(Tell(m, e), p)
    {
      TurnAfter(m, Tell(m, e), e, p);
    }
  }

  lemma OpenKeepsPipes(m: State, q: UserPipe)
    requires Pipes(m)
    ensures Pipes(Open(m, q)) && q in Open(m, q).pipes
  {
    hide InTurn;
    if q !in m.pipes {
      forall p
        ensures InTurn(Open(m, q), p)
      {
        TurnAfter(m, Open(m, q), Opened(q), p);
      }
    }
  }

  lemma ShutKeepsPipes(m: State, q: UserPipe)
    requires Pipes(m)
    ensures Pipes(Shut(m, q)) && forall x :: x in Shut(m, q).pipes <==> x in m.pipes && x != q
  {
    hide InTurn, Without;
    WithoutFacts(m.pipes, q);
    if q in m.pipes {
      forall p
        ensures InTurn(Shut(m, q), p)
      {
        TurnAfter(m, Shut(m, q), Closed(q), p);
      }
    }
  }

  lemma StageKeepsPipes(m: State, me: int, r: Redirect, chain: bool)
    requires |m.ids| == CAPACITY && InRange(r) && Pipes(m)
    ensures Pipes(RunStage(m, me, r, chain))
  {
    match r
    case Nothing =>
    case From(a) =>
      TellKeepsPipes(m, Received(UserPipe(a, me)));
      ShutKeepsPipes(Tell(m, Received(UserPipe(a, me))), UserPipe(a, me));
    case To(b) =>
      TellKeepsPipes(m, Piped(UserPipe(me, b)));
      OpenKeepsPipes(Tell(m, Piped(UserPipe(me, b))), UserPipe(me, b));
  }

  lemma {:induction false} StagesKeepPipes(m: State, me: int, rs: seq<Redirect>, chain: bool, n: nat)
    requires |m.ids| == CAPACITY && AllInRange(rs) && n <= |rs| && Pipes(m)
    ensures Pipes(RunStages(m, me, rs, chain, n))
  {
    if n > 0 {
      StagesKeepPipes(m, me, rs, chain, n - 1);
      StageKeepsPipes(RunStages(m, me, rs, chain, n - 1), me, rs[n - 1], chain);
    }
  }

  lemma ChainKeepsPipes(m: State, me: int, rs: seq<Redirect>)
    requires |m.ids| == CAPACITY && AllInRange(rs) && Pipes(m)
    ensures Pipes(RunChain(m, me, rs))
  {
    StagesKeepPipes(m, me, rs, true, |rs|);
    var last := LastFrom(m, me, rs, true, |rs|);
    if last.From? {
      ShutKeepsPipes(RunStages(m, me, rs, true, |rs|), UserPipe(last.user, me));
    }
  }

  lemma AnnounceKeepsPipes(m: State, me: int, a: Redirect, b: Redirect)
    requires |m.ids| == CAPACITY && InRange(a) && InRange(b) && Pipes(m)
    ensures Pipes(Announce(m, me, a, b))
  {
    var m1 := m;
    if a.From? && AcceptsFrom(m, me, a.user) {
      TellKeepsPipes(m, Received(UserPipe(a.user, me)));
      m1 := Tell(m, Received(UserPipe(a.user, me)));
    }
    if b.To? && AcceptsTo(m, me, b.user) {
      TellKeepsPipes(m1, Piped(UserPipe(me, b.user)));
    }
  }

  lemma OneKeepsPipes(m: State, me: int, a: Redirect, b: Redirect, builtin: bool)
    requires |m.ids| == CAPACITY && InRange(a) && InRange(b) && Pipes(m)
    ensures Pipes(RunOne(m, me, a, b, builtin))
  {
    var f := a.From? && AcceptsFrom(m, me, a.user);
    var t := b.To? && AcceptsTo(m, me, b.user);
    var m1 := Announce(m, me, a, b);
    AnnounceKeepsPipes(m, me, a, b);
    if t {
      OpenKeepsPipes(m1, UserPipe(me, b.user));
      m1 := Open(m1, UserPipe(me, b.user));
    }
    if f {
      ShutKeepsPipes(m1, UserPipe(a.user, me));
    }
  }

  lemma {:induction false} UsesCloses(log: seq<Event>, q: seq<UserPipe>, p: UserPipe)
    requires Unique(q)
    ensures Uses(log + Closes(q), p) == Uses(log, p) + if p in q then [false] else []
  {
    if q == [] {
      assert log + Closes(q) == log;
    } else {
      var front, last := q[..|q| - 1], q[|q| - 1];
      assert q == front + [last];
      assert last !in front;
      UsesCloses(log, front, p);
      assert log + Closes(q) == (log + Closes(front)) + [Closed(last)];
      UsesSnoc(log + Closes(front), Closed(last), p);
    }
  }

  lemma UniqueParts(a: seq<UserPipe>, b: seq<UserPipe>)
    ensures Unique(a + b) <==> Unique(a) && Unique(b) && forall x :: x in a ==> x !in b
  {
    var q := a + b;
    if Unique(q) {
      forall i, j | 0 <= i < j < |b|
        ensures b[i] != b[j]
      {
        assert q[i + |a|] != q[j + |a|];
      }
      forall x | x in a
        ensures x !in b
      {
        var i :| 0 <= i < |a| && a[i] == x;
        forall j | 0 <= j < |b|
          ensures b[j] != x
        {
          assert q[i] != q[j + |a|];
        }
      }
      forall i, j | 0 <= i < j < |a|
        ensures a[i] != a[j]
      {
        assert q[i] != q[j];
      }
    }
    if Unique(a) && Unique(b) && forall x :: x in a ==> x !in b {
      forall i, j | 0 <= i < j < |q|
        ensures q[i] != q[j]
      {
        if i < |a| {
          assert a[i] in a;
          assert j >= |a| ==> q[j] == b[j - |a|];
        } else {
          assert q[i] == b[i - |a|] && q[j] == b[j - |a|];
        }
      }
    }
  }

  /** What the clearing loop leaves and what it erases are two duplicate-free halves of the list. */
  lemma {:induction false} SweepHalves(q: seq<UserPipe>, id: int)
    requires Unique(q)
    ensures Unique(Sweep(q, id)) && Unique(Erased(q, id))
    ensures forall p :: p in q <==> p in Sweep(q, id) || p in Erased(q, id)
    ensures forall p :: p in Erased(q, id) ==> p !in Sweep(q, id)
    decreases |q|
  {
    var r := Remaining(q, id);
    RemainingSplit(q, id);
    var front := q[..|q| - |r|];
    if r != [] {
      var tail := r[1..];
      assert r == [r[0]] + tail;
      assert q == front + ([r[0]] + tail);
      assert Sweep(q, id) == [r[0]] + Sweep(tail, id) && Erased(q, id) == front + Erased(tail, id);
      hide Sweep, Erased, Remaining, Unique;
      UniqueParts(front, [r[0]] + tail);
      UniqueParts([r[0]], tail);
      SweepHalves(tail, id);
      HalvesFrom(front, r[0], tail, Sweep(tail, id), Erased(tail, id));
    } else {
      assert Erased(q, id) == front == q;
    }
  }

  lemma HalvesFrom(front: seq<UserPipe>, x: UserPipe, tail: seq<UserPipe>, kept: seq<UserPipe>, erased: seq<UserPipe>)
    requires Unique(front + ([x] + tail)) && Unique(kept) && Unique(erased)
    requires forall p :: p in tail <==> p in kept || p in erased
    requires forall p :: p in erased ==> p !in kept
    ensures Unique([x] + kept) && Unique(front + erased)
    ensures forall p :: p in front + ([x] + tail) <==> p in [x] + kept || p in front + erased
    ensures forall p :: p in front + erased ==> p !in [x] + kept
  {
    UniqueParts(front, [x] + tail);
    UniqueParts([x], tail);
    hide Unique;
    UniqueParts([x], kept);
    UniqueParts(front, erased);
  }

  lemma LeaveIs(m: State, fd: int)
    requires IdsInRange(m) && Known(m, fd)
    ensures var id := IdOf(m, fd);
      && Leave(m, fd).pipes == Sweep(m.pipes, id)
      && Leave(m, fd).log == m.log + Closes(Erased(m.pipes, id))
  {}

  lemma TurnAfterCloses(m: State, m1: State, gone: seq<UserPipe>, p: UserPipe)
    requires InTurn(m, p) && Unique(gone) && m1.log == m.log + Closes(gone)
    requires p in gone ==> p in m.pipes && p !in m1.pipes
    requires p !in gone ==> (p in m.pipes <==> p in m1.pipes)
    ensures InTurn(m1, p)
  {
    hide Closes, Alternate;
    UsesCloses(m.log, gone, p);
    if p in gone {
      AlternateSnoc(Uses(m.log, p), false);
    } else {
      assert Uses(m1.log, p) == Uses(m.log, p);
    }
  }

  lemma LeaveKeepsPipes(m: State, fd: int)
    requires IdsInRange(m) && Pipes(m)
    ensures Pipes(Leave(m, fd))
  {
    hide Sweep, Erased, Closes, InTurn;
    if Known(m, fd) {
      var id := IdOf(m, fd);
      LeaveIs(m, fd);
      SweepHalves(m.pipes, id);
      forall p
        ensures InTurn(Leave(m, fd), p)
      {
        TurnAfterCloses(m, Leave(m, fd), Erased(m.pipes, id), p);
      }
    }
  }

  // ----- Clients --------------------------------------------------------------------------------

  lemma {:induction false} SortedBelow(q: seq<Client>, n: nat)
    requires StrictlySorted(q) && |q| >= n > 0 && q[0].id >= 1
    ensures q[n - 1].id >= n
  {
    if n > 1 {
      SortedBelow(q, n - 1);
    }
  }

  lemma {:induction false} SortedFull(q: seq<Client>, n: nat)
    requires StrictlySorted(q) && forall k: nat :: 1 <= k <= n ==> HasId(q, k)
    requires forall i :: 0 <= i < |q| ==> q[i].id >= 1
    ensures |q| >= n
    ensures n > 0 ==> q[n - 1].id == n
  {
    if n > 0 {
      SortedFull(q, n - 1);
      assert HasId(q, n);
      var x :| x in q && x.id == n;
      var i :| 0 <= i < |q| && q[i] == x;
      assert i >= n - 1;
      SortedBelow(q, n);
    }
  }

  /** With fewer clients than slots some slot is free, so a newcomer always gets an id. */
  lemma FreeSlot(m: State)
    requires Clients(m) && |m.total| < CAPACITY
    ensures Lowest(m.ids, 0) < CAPACITY
  {
    if Lowest(m.ids, 0) == CAPACITY {
      forall k: nat | 1 <= k <= CAPACITY
        ensures HasId(m.total, k)
      {
        assert m.ids[k - 1] <==> HasId(m.total, (k - 1) + 1);
      }
      SortedFull(m.total, CAPACITY);
    }
  }

  lemma {:induction false} InsertKeepsOrder(q: seq<Client>, c: Client)
    requires StrictlySorted(q) && !HasId(q, c.id)
    ensures StrictlySorted(InsertById(q, c))
    ensures forall x :: x in InsertById(q, c) <==> x == c || x in q
    ensures |InsertById(q, c)| == |q| + 1
  {
    if q != [] && c.id >= q[0].id {
      assert q == [q[0]] + q[1..];
      InsertKeepsOrder(q[1..], c);
      var r := InsertById(q[1..], c);
      assert InsertById(q, c) == [q[0]] + r;
      assert q[0] in q && q[0].id < c.id;
      hide InsertById;
      SortedCons(q[0], r);
    } else {
      assert InsertById(q, c) == [c] + q;
      SortedCons(c, q);
    }
  }

  lemma SortedCons(x: Client, r: seq<Client>)
    requires StrictlySorted(r) && forall y :: y in r ==> x.id < y.id
    ensures StrictlySorted([x] + r)
  {
    assert forall j :: 0 <= j < |r| ==> r[j] in r;
  }

  /** The id a newcomer is given. */
  ghost function NextId(m: State): int {
    Lowest(m.ids, 0) + 1
  }

  ghost predicate CanJoin(m: State, c: Client) {
    Clients(m) && Lowest(m.ids, 0) < CAPACITY && !Known(m, c.fd) && c.name == NO_NAME
  }

  lemma JoinMembers(m: State, c: Client)
    requires CanJoin(m, c)
    ensures StrictlySorted(Enter(m, c).total) && !HasId(m.total, NextId(m))
    ensures forall x :: x in Enter(m, c).total <==> x == c.(id := NextId(m)) || x in m.total
  {
    var k := Lowest(m.ids, 0);
    assert m.ids[k] <==> HasId(m.total, k + 1);
    InsertKeepsOrder(m.total, c.(id := k + 1));
  }

  lemma JoinBitmap(m: State, c: Client)
    requires CanJoin(m, c)
    ensures BitmapAgrees(Enter(m, c)) && IdsInRange(Enter(m, c))
  {
    JoinMembers(m, c);
    var m1 := Enter(m, c);
    var node := c.(id := NextId(m));
    assert node in m1.total;
    forall j: nat | j < CAPACITY
      ensures m1.ids[j] <==> HasId(m1.total, j + 1)
    {
      assert m.ids[j] <==> HasId(m.total, j + 1);
    }
    forall i | 0 <= i < |m1.total|
      ensures 1 <= m1.total[i].id <= CAPACITY
    {
      assert m1.total[i] in m1.total;
    }
  }

  lemma JoinKeepsClients(m: State, c: Client)
    requires CanJoin(m, c)
    ensures Clients(Enter(m, c))
    ensures forall x :: x in Enter(m, c).total <==> x == c.(id := NextId(m)) || x in m.total
  {
    JoinMembers(m, c);
    JoinBitmap(m, c);
    assert forall x :: x in m.total ==> x.fd != c.fd;
    hide Enter, IdsInRange, BitmapAgrees, InsertById, StrictlySorted;
  }

  /** The list without position `i`. */
  lemma DropClient(q: seq<Client>, i: nat)
    requires StrictlySorted(q) && i < |q|
    ensures var r := q[..i] + q[i + 1..];
      && StrictlySorted(r)
      && forall x :: x in r <==> x in q && x.id != q[i].id
  {
    var r := q[..i] + q[i + 1..];
    forall x | x in q && x.id != q[i].id
      ensures x in r
    {
      var j :| 0 <= j < |q| && q[j] == x;
      assert j < i ==> r[j] == x;
      assert j > i ==> r[j - 1] == x;
    }
  }

  lemma LeaveKeepsClients(m: State, fd: int)
    requires Clients(m)
    ensures Clients(Leave(m, fd))
  {
    if Known(m, fd) {
      var i := IndexOf(m.total, fd);
      var id := m.total[i].id;
      var m1 := Leave(m, fd);
      DropClient(m.total, i);
      forall j: nat | j < CAPACITY
        ensures m1.ids[j] <==> HasId(m1.total, j + 1)
      {
        assert m.ids[j] <==> HasId(m.total, j + 1);
      }
      forall j | 0 <= j < |m1.total|
        ensures 1 <= m1.total[j].id <= CAPACITY
      {
        assert m1.total[j] in m1.total;
      }
    }
  }

  lemma RenameKeepsClients(m: State, fd: int, name: string)
    requires Clients(m)
    ensures Clients(Rename(m, fd, name))
  {
    var i := IndexOf(m.total, fd);
    if i < |m.total| && !NameTaken(m.total, name) {
      var m1 := Rename(m, fd, name);
      var c := m1.total[i];
      RenameMembers(m.total, m1.total, i, c);
      forall j: nat | j < CAPACITY
        ensures m1.ids[j] <==> HasId(m1.total, j + 1)
      {
        SameIds(m.total, m1.total, j + 1);
        assert m.ids[j] <==> HasId(m.total, j + 1);
      }
      hide BitmapAgrees, HasId, Rename;
      RenameIsNew(m.total, m1.total, i, c);
    }
  }

  lemma RenameIsNew(q: seq<Client>, r: seq<Client>, i: nat, c: Client)
    requires StrictlySorted(q) && DistinctFds(q) && DistinctNames(q) && i < |q|
    requires c == q[i].(name := c.name) && r == q[i := c] && !NameTaken(q, c.name)
    ensures StrictlySorted(r) && DistinctFds(r) && DistinctNames(r)
  {
    RenameMembers(q, r, i, c);
    assert q[i] in q;
    assert forall x :: x in q ==> x.name != c.name;
  }

  lemma RenameMembers(q: seq<Client>, r: seq<Client>, i: nat, c: Client)
    requires StrictlySorted(q) && i < |q| && c.id == q[i].id && r == q[i := c]
    ensures forall x :: x in r ==> x == c || (x in q && x.id != c.id)
  {
    forall x | x in r
      ensures x == c || (x in q && x.id != c.id)
    {
      var j :| 0 <= j < |r| && r[j] == x;
      assert j != i ==> q[j] == x;
    }
  }

  lemma SameIds(a: seq<Client>, b: seq<Client>, id: int)
    requires |a| == |b| && forall i :: 0 <= i < |a| ==> a[i].id == b[i].id
    ensures HasId(a, id) <==> HasId(b, id)
  {
    if HasId(a, id) {
      var x :| x in a && x.id == id;
      var i :| 0 <= i < |a| && a[i] == x;
      assert b[i] in b;
    }
    if HasId(b, id) {
      var x :| x in b && x.id == id;
      var i :| 0 <= i < |b| && b[i] == x;
      assert a[i] in a;
    }
  }

  // ----- Runs -----------------------------------------------------------------------------------

  ghost function Step(m: State, op: Op): State {
    if !IdsInRange(m) || !Enabled(m, op) then m
    else
      match op
      case Join(fd, ip, port) => Enter(m, Client(fd, NO_NAME, ip, port, 0))
      case Quit(fd) => Leave(m, fd)
      case Name(fd, name) => Rename(m, fd, name)
      case One(fd, a, b, builtin) => RunOne(m, IdOf(m, fd), a, b, builtin)
      case Chain(fd, rs) => RunChain(m, IdOf(m, fd), rs)
      case NumberedLine(fd, a, b, rs) => RunNumbered(m, IdOf(m, fd), a, b, rs)
  }

  ghost function IdOf(m: State, fd: int): int
    requires Known(m, fd)
  {
    m.total[IndexOf(m.total, fd)].id
  }

  lemma SamePipes(m: State, m1: State)
    requires Pipes(m) && m1.pipes == m.pipes && m1.log == m.log
    ensures Pipes(m1)
  {
    forall p
      ensures InTurn(m1, p)
    {
      assert InTurn(m, p);
    }
  }

  lemma SameClients(m: State, m1: State)
    requires Clients(m) && m1.ids == m.ids && m1.total == m.total
    ensures Clients(m1)
  {
    forall k: nat | k < CAPACITY
      ensures m1.ids[k] <==> HasId(m1.total, k + 1)
    {
      assert m.ids[k] <==> HasId(m.total, k + 1);
    }
  }

  /** Every operation keeps the invariant. */
  lemma StepKeepsInv(m: State, op: Op)
    requires Inv(m)
    ensures Inv(Step(m, op))
  {
    var m1 := Step(m, op);
    if Enabled(m, op) {
      match op
      case Join(fd, ip, port) =>
        JoinKeepsClients(m, Client(fd, NO_NAME, ip, port, 0));
        SamePipes(m, m1);
      case Quit(fd) =>
        LeaveKeepsClients(m, fd);
        LeaveKeepsPipes(m, fd);
      case Name(fd, name) =>
        RenameKeepsClients(m, fd, name);
        SamePipes(m, m1);
      case One(fd, a, b, builtin) =>
        OneKeepsPipes(m, IdOf(m, fd), a, b, builtin);
        SameClients(m, m1);
      case Chain(fd, rs) =>
        ChainKeepsPipes(m, IdOf(m, fd), rs);
        SameClients(m, m1);
      case NumberedLine(fd, a, b, rs) =>
        AnnounceKeepsPipes(m, IdOf(m, fd), a, b);
        StagesKeepPipes(Announce(m, IdOf(m, fd), a, b), IdOf(m, fd), rs, false, |rs|);
        SameClients(m, m1);
    }
  }

  lemma InitInv()
    ensures Inv(Init())
  {
    forall p
      ensures InTurn(Init(), p)
    {}
  }

  ghost function Run(ops: seq<Op>): State {
    if ops == [] then Init() else Step(Run(ops[..|ops| - 1]), ops[|ops| - 1])
  }

  /** The invariant holds after every run. */
  lemma {:induction false} RunInv(ops: seq<Op>)
    ensures Inv(Run(ops))
  {
    if ops == [] {
      InitInv();
    } else {
      RunInv(ops[..|ops| - 1]);
      StepKeepsInv(Run(ops[..|ops| - 1]), ops[|ops| - 1]);
    }
  }
}
