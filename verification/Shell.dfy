/** The numbered-pipe shell of hw2/2/shell.cpp: the countdown list, share-or-create, and the
    fork/dup2/close choreography of one input line. */
module Shell {
  import opened Common
  import opened Descriptors

  type pos = n: nat | n >= 1 witness 1

  /** What one non-empty input line asks for.  `Numbered` is a line ending in |n or !n.  Each of its
      commands has its flags. */
  datatype Line =
    | Builtin
    | Plain(stages: pos, flags: seq<Flags>)
    | Numbered(stages: pos, count: int, err: bool, flags: seq<Flags>)

  /** A numbered pipe waiting in the list, with the lines still to go. */
  datatype Waiting = Waiting(pipe: nat, number: int)

  /** A forked command: stage `stage` of the `stages` of line `line`, and the table it execs with. */
  datatype Child = Child(line: nat, stage: nat, stages: nat, fds: Table)

  datatype State = State(line: nat, next: nat, fds: Table, pending: seq<Waiting>, children: seq<Child>)

  // ----- The list of waiting pipes -------------------------------------------------------------

  function Ticked(q: seq<Waiting>): seq<Waiting> {
    seq(|q|, i requires 0 <= i < |q| => q[i].(number := q[i].number - 1))
  }

  function Keep(q: seq<Waiting>): seq<Waiting> {
    if q == [] then [] else (if q[0].number == 0 then [] else [q[0]]) + Keep(q[1..])
  }

  function Pop(q: seq<Waiting>): seq<Waiting> {
    if q == [] then [] else Pop(q[1..]) + (if q[0].number == 0 then [q[0]] else [])
  }

  /** Index of the first waiting pipe with countdown `n`, or the length of the list. */
  function Find(q: seq<Waiting>, n: int): (i: nat)
    ensures i <= |q|
    ensures i < |q| ==> q[i].number == n
    ensures forall j :: 0 <= j < i ==> q[j].number != n
  {
    if q == [] || q[0].number == n then 0 else 1 + Find(q[1..], n)
  }

  ghost predicate Distinct(q: seq<Waiting>) {
    forall i, j :: 0 <= i < j < |q| ==> q[i].number != q[j].number && q[i].pipe != q[j].pipe
  }

  // ----- One line, as a function of the state --------------------------------------------------

  function Stages(l: Line): nat {
    if l.Builtin? then 0 else l.stages
  }

  /** The state of affairs once the list was swept and the target pipe found or opened. */
  datatype Setup = Setup(pending: seq<Waiting>, fds: Table, next: nat, delivered: Option<nat>, out: End, err: bool)

  function Delivered(q: seq<Waiting>): Option<nat> {
    var popped := Pop(Ticked(q));
    if popped == [] then None else Some(popped[0].pipe)
  }

  function Prepare(s: State, l: Line): Setup {
    var q := Keep(Ticked(s.pending));
    var d := Delivered(s.pending);
    if !l.Numbered? then Setup(q, s.fds, s.next, d, Socket, false)
    else
      var i := Find(q, l.count);
      if i < |q| then Setup(q, s.fds, s.next, d, Write(q[i].pipe), l.err)
      else Setup(q + [Waiting(s.next, l.count)], OpenPipe(s.fds, s.next), s.next + 1, d, Write(s.next), l.err)
  }

  /** The table the first stage of a line is forked from, without that line's own pipes. */
  function FirstBase(u: Setup): Table {
    CloseWrite(u.fds, u.delivered)
  }

  /** The same for later stages: a plain pipeline drops the delivered pipe after its first stage, a
      numbered one after its last. */
  function LaterBase(u: Setup, l: Line): Table {
    if l.Plain? then CloseBoth(u.fds, u.delivered) else CloseWrite(u.fds, u.delivered)
  }

  /** The processes of the first `n` of `k` chained stages. */
  function StageList(line: nat, base0: Table, base1: Table, delivered: Option<nat>, out: End, err: bool,
                     first: nat, n: nat, k: nat, flags: seq<Flags>): seq<Child>
    requires n <= k
  {
    seq(n, i requires 0 <= i < n =>
      Child(line, i, k,
        StageChild(AtFork(if i == 0 then base0 else base1, first, i), delivered, out, err, first, i, k, FlagsAt(flags, i))))
  }

  function NewChildren(s: State, l: Line): seq<Child> {
    var u := Prepare(s, l);
    if l.Builtin? then []
    else if l.stages > 1 then
      StageList(s.line, FirstBase(u), LaterBase(u, l), u.delivered, u.out, u.err, u.next, l.stages, l.stages, l.flags)
    else if l.Numbered? && u.out.Write? then
      [Child(s.line, 0, 1, NumberedChild(FirstBase(u), u.delivered, u.out.pipe, u.err, FlagsAt(l.flags, 0)))]
    else
      [Child(s.line, 0, 1, SingleChild(FirstBase(u), u.delivered, FlagsAt(l.flags, 0)))]
  }

  function Next(s: State, l: Line): State {
    var u := Prepare(s, l);
    var k := Stages(l);
    State(
      s.line + 1,
      if k > 1 then u.next + k else u.next,
      if k == 0 then u.fds
      else if k == 1 then CloseBoth(u.fds, u.delivered)
      else AfterStages(CloseBoth(u.fds, u.delivered), u.next, k),
      u.pending,
      s.children + NewChildren(s, l))
  }

  function Init(): State {
    State(0, 0, map[Std(0) := Terminal, Std(1) := Terminal, Std(2) := Terminal, Fd(Socket) := Socket], [], [])
  }

  function Run(lines: seq<Line>): State {
    if lines == [] then Init() else Next(Run(lines[..|lines| - 1]), lines[|lines| - 1])
  }
}
