/** The state of the multi-user server (hw2/2/client.h) and what each operation makes of it. */
module Manager {
  import opened UserPipes

  const CAPACITY: nat := 30
  const NO_NAME := "(no name)"

  datatype Client = Client(fd: int, name: string, ip: string, port: int, id: int)

  /** What happened to the user pipes: a pipe was put into or taken out of the list; a command's >b
      was announced as piped, or its <a as received. */
  datatype Event =
    | Opened(pipe: UserPipe)
    | Closed(pipe: UserPipe)
    | Piped(pipe: UserPipe)
    | Received(pipe: UserPipe)

  datatype State = State(ids: seq<bool>, total: seq<Client>, pipes: seq<UserPipe>, log: seq<Event>)

  function Init(): State {
    State(seq(CAPACITY, i => false), [], [], [])
  }

  // ----- Clients --------------------------------------------------------------------------------

  /** The first free slot from `i` on. */
  function Lowest(ids: seq<bool>, i: nat): (k: nat)
    requires i <= |ids|
    ensures i <= k <= |ids|
    ensures forall j :: i <= j < k ==> ids[j]
    ensures k < |ids| ==> !ids[k]
    decreases |ids| - i
  {
    if i == |ids| || !ids[i] then i else Lowest(ids, i + 1)
  }

  function InsertById(q: seq<Client>, c: Client): seq<Client> {
    if q == [] || c.id < q[0].id then [c] + q else [q[0]] + InsertById(q[1..], c)
  }

  /** The position of the client with this descriptor, or the number of clients. */
  function IndexOf(q: seq<Client>, fd: int): (i: nat)
    ensures i <= |q|
    ensures i < |q| ==> q[i].fd == fd
    ensures forall j :: 0 <= j < i ==> q[j].fd != fd
  {
    if q == [] || q[0].fd == fd then 0 else 1 + IndexOf(q[1..], fd)
  }

  predicate NameTaken(q: seq<Client>, name: string) {
    exists i :: 0 <= i < |q| && q[i].name == name
  }

  /** A new client takes the lowest free id. */
  function Enter(m: State, c: Client): State
    requires Lowest(m.ids, 0) < |m.ids|
  {
    var k := Lowest(m.ids, 0);
    m.(ids := m.ids[k := true], total := InsertById(m.total, c.(id := k + 1)))
  }

  function Closes(q: seq<UserPipe>): seq<Event> {
    seq(|q|, i requires 0 <= i < |q| => Closed(q[i]))
  }

  ghost predicate IdsInRange(m: State) {
    |m.ids| == CAPACITY && forall i :: 0 <= i < |m.total| ==> 1 <= m.total[i].id <= CAPACITY
  }

  function Leave(m: State, fd: int): State
    requires IdsInRange(m)
  {
    var i := IndexOf(m.total, fd);
    if i == |m.total| then m
    else
      var id := m.total[i].id;
      State(m.ids[id - 1 := false], m.total[..i] + m.total[i + 1..], Sweep(m.pipes, id),
            m.log + Closes(Erased(m.pipes, id)))
  }

  function Rename(m: State, fd: int, name: string): State {
    var i := IndexOf(m.total, fd);
    if NameTaken(m.total, name) || i == |m.total| then m
    else m.(total := m.total[i := m.total[i].(name := name)])
  }

  // ----- User pipes -----------------------------------------------------------------------------

  function Open(m: State, p: UserPipe): State {
    if p in m.pipes then m else m.(pipes := m.pipes + [p], log := m.log + [Opened(p)])
  }

  function Shut(m: State, p: UserPipe): State {
    if p in m.pipes then m.(pipes := Without(m.pipes, p), log := m.log + [Closed(p)]) else m
  }

  function Tell(m: State, e: Event): State {
    m.(log := m.log + [e])
  }

  /** The user-pipe part of one command of a line. */
  datatype Redirect = Nothing | From(user: int) | To(user: int)

  predicate InRange(r: Redirect) {
    r.Nothing? || 1 <= r.user <= CAPACITY
  }

  /** <a is accepted: user a is there and has piped to `me`. */
  predicate AcceptsFrom(m: State, me: int, a: int)
    requires 1 <= a <= |m.ids|
  {
    m.ids[a - 1] && UserPipe(a, me) in m.pipes
  }

  /** >b is accepted: nothing is in the pipe to b, and user b is there. */
  predicate AcceptsTo(m: State, me: int, b: int)
    requires 1 <= b <= |m.ids|
  {
    UserPipe(me, b) !in m.pipes && m.ids[b - 1]
  }

  /** What a command with at most one <a and one >b announces. */
  function Announce(m: State, me: int, a: Redirect, b: Redirect): (r: State)
    requires |m.ids| == CAPACITY && InRange(a) && InRange(b)
    ensures r.ids == m.ids && r.total == m.total && r.pipes == m.pipes
  {
    var m1 := if a.From? && AcceptsFrom(m, me, a.user) then Tell(m, Received(UserPipe(a.user, me))) else m;
    if b.To? && AcceptsTo(m, me, b.user) then Tell(m1, Piped(UserPipe(me, b.user))) else m1
  }

  /** A line of one command. */
  function RunOne(m: State, me: int, a: Redirect, b: Redirect, builtin: bool): State
    requires |m.ids| == CAPACITY && InRange(a) && InRange(b)
  {
    var f := a.From? && AcceptsFrom(m, me, a.user);
    var t := b.To? && AcceptsTo(m, me, b.user);
    var m2 := Announce(m, me, a, b);
    var m3 := if t then Open(m2, UserPipe(me, b.user)) else m2;
    if f && !builtin then Shut(m3, UserPipe(a.user, me)) else m3
  }

  /** One command of a longer line; only a plain chain opens the pipe its >b announces. */
  function RunStage(m: State, me: int, r: Redirect, chain: bool): State
    requires |m.ids| == CAPACITY && InRange(r)
  {
    match r
    case Nothing => m
    case From(a) =>
      if AcceptsFrom(m, me, a) then Shut(Tell(m, Received(UserPipe(a, me))), UserPipe(a, me)) else m
    case To(b) =>
      if !AcceptsTo(m, me, b) then m
      else
        var m1 := Tell(m, Piped(UserPipe(me, b)));
        if chain then Open(m1, UserPipe(me, b)) else m1
  }

  ghost predicate AllInRange(rs: seq<Redirect>) {
    forall i :: 0 <= i < |rs| ==> InRange(rs[i])
  }

  /** The commands of a longer line up to number `n`. */
  function RunStages(m: State, me: int, rs: seq<Redirect>, chain: bool, n: nat): (r: State)
    requires |m.ids| == CAPACITY && AllInRange(rs) && n <= |rs|
    ensures r.ids == m.ids && r.total == m.total
  {
    if n == 0 then m else RunStage(RunStages(m, me, rs, chain, n - 1), me, rs[n - 1], chain)
  }

  /** The last user among the first `n` commands whose pipe the line consumed. */
  function LastFrom(m: State, me: int, rs: seq<Redirect>, chain: bool, n: nat): Redirect
    requires |m.ids| == CAPACITY && AllInRange(rs) && n <= |rs|
  {
    if n == 0 then Nothing
    else if rs[n - 1].From? && AcceptsFrom(RunStages(m, me, rs, chain, n - 1), me, rs[n - 1].user) then rs[n - 1]
    else LastFrom(m, me, rs, chain, n - 1)
  }

  /** A plain chain deletes the last pipe it consumed once more when it is done. */
  function RunChain(m: State, me: int, rs: seq<Redirect>): State
    requires |m.ids| == CAPACITY && AllInRange(rs)
  {
    var m1 := RunStages(m, me, rs, true, |rs|);
    var last := LastFrom(m, me, rs, true, |rs|);
    if last.From? then Shut(m1, UserPipe(last.user, me)) else m1
  }

  /** A line ending in |n or !n.  The piece that holds the number is read first, as a command: a <a or >b
      typed behind the number is announced, and that is all. */
  function RunNumbered(m: State, me: int, a: Redirect, b: Redirect, rs: seq<Redirect>): State
    requires |m.ids| == CAPACITY && InRange(a) && InRange(b) && AllInRange(rs)
  {
    RunStages(Announce(m, me, a, b), me, rs, false, |rs|)
  }
}
