/** The commands of one line chained by fresh pipes: topology, end of file, broken pipes. */
module PipelineTheorems {
  import opened Common
  import opened Descriptors
  import opened Shell
  import opened ShellInvariants
  import opened ForkFacts
  import opened ShellRuns
  import opened ShellTheorems
  import opened PipeLifetimes

  /** The first pipe a line of several stages opens for its chain. */
  function FirstPipe(lines: seq<Line>, l: Line): nat {
    Prepare(Run(lines), l).next
  }

  /** Chain pipe `m` in the table of stage `i` of `k`. */
  lemma StageTableEnds(base: Table, d: Option<nat>, out: End, err: bool, first: nat, i: nat, k: nat, x: Flags, m: nat)
    requires ShellTable(base, first) && i < k && k > 1 && m < k
    requires out == Socket || (out.Write? && Fd(out) in base)
    requires i == 0 && d.Some? ==> Fd(Read(d.value)) in base && d.value < first
    ensures var c := StageChild(AtFork(base, first, i), d, out, err, first, i, k, x);
      && (Holds(c, Write(first + m)) <==> m == i)
      && (Holds(c, Read(first + m)) <==> i > 0 && (m == i || m + 1 == i))
  {
    hide StageChild, AtFork;
    StageFacts(base, d, out, err, first, i, k, x);
    TableUnopened(base, first);
    HoldsIff(StageChild(AtFork(base, first, i), d, out, err, first, i, k, x), first + m);
    assert !IsPipeEnd(base[Std(0)]);
    hide ShellTable, Tidy, Below, OutputOf, ErrorOf;
  }

  lemma StageEnds(lines: seq<Line>, l: Line, i: nat, m: nat)
    requires Stages(l) > 1 && i < Stages(l) && m < Stages(l)
    ensures |NewChildren(Run(lines), l)| == Stages(l)
    ensures var c := NewChildren(Run(lines), l)[i];
      var p := FirstPipe(lines, l) + m;
      && (Holds(c.fds, Write(p)) <==> m == i)
      && (Holds(c.fds, Read(p)) <==> i > 0 && (m == i || m + 1 == i))
  {
    hide Prepare, Run, StageChild, AtFork, ShellTable, Sound, Delivered;
    var s := Run(lines);
    var u := Prepare(s, l);
    RunShape(lines);
    PrepareShape(s, l);
    BaseFacts(s, l, u);
    OutIs(s, l, u);
    NewChildIs(s, l, i);
    hide NewChildren, FirstBase, LaterBase, Prepared, Shape, Holds;
    StageTableEnds(if i == 0 then FirstBase(u) else LaterBase(u, l), u.delivered, u.out, u.err, u.next, i, l.stages,
      FlagsAt(l.flags, i), m);
  }

  /** Chain pipe `m` in a process of an earlier line, and in the shell once the line is set up. */
  lemma OtherEnds(lines: seq<Line>, l: Line, m: nat)
    requires Stages(l) > 1 && m < Stages(l)
    ensures var p := FirstPipe(lines, l) + m;
      var s1 := Next(Run(lines), l);
      && (forall c :: c in Run(lines).children ==> !Holds(c.fds, Write(p)) && !Holds(c.fds, Read(p)))
      && !Holds(s1.fds, Write(p))
      && (Holds(s1.fds, Read(p)) <==> m + 1 == Stages(l))
  {
    hide Prepare, Next, Run;
    var s := Run(lines);
    RunShape(lines);
    PrepareShape(s, l);
    ShellEnds(s, l, m);
    hide Shape;
    forall c | c in s.children
      ensures !Holds(c.fds, Write(Prepare(s, l).next + m)) && !Holds(c.fds, Read(Prepare(s, l).next + m))
    {
      KnownChild(lines, c);
    }
  }

  lemma ShellEnds(s: State, l: Line, m: nat)
    requires Shape(s) && Stages(l) > 1 && m < Stages(l)
    ensures var p := Prepare(s, l).next + m;
      !Holds(Next(s, l).fds, Write(p)) && (Holds(Next(s, l).fds, Read(p)) <==> m + 1 == Stages(l))
  {
    hide Prepare, Next;
    var u := Prepare(s, l);
    PrepareShape(s, l);
    NextShape(s, l);
    NextFds(s, l);
    TableUnopened(u.fds, u.next);
    HoldsIff(Next(s, l).fds, u.next + m);
  }

  /** The processes after the line: those from before, then the stages in order. */
  lemma ChildAt(lines: seq<Line>, l: Line, j: nat)
    requires Stages(l) > 1
    ensures var n := |Run(lines).children|;
      var after := Next(Run(lines), l).children;
      && |after| == n + Stages(l)
      && (j < n ==> after[j] in Run(lines).children)
      && (n <= j < |after| ==> after[j] == NewChildren(Run(lines), l)[j - n])
  {
    StageEnds(lines, l, 0, 0);
  }

  /** Process `j` can read chain pipe `m`, when stage 0 is process `n`. */
  ghost predicate IsReader(n: nat, m: nat, j: nat) {
    j == n + m + 1 || (m > 0 && j == n + m)
  }

  lemma HoldersOfChain(lines: seq<Line>, l: Line, m: nat, j: nat)
    requires Stages(l) > 1 && m < Stages(l) && j < |Next(Run(lines), l).children|
    ensures var c := Next(Run(lines), l).children[j].fds;
      var p := FirstPipe(lines, l) + m;
      var n := |Run(lines).children|;
      && (Holds(c, Write(p)) <==> j == n + m)
      && (Holds(c, Read(p)) <==> IsReader(n, m, j))
  {
    hide Run, Next, NewChildren, FirstPipe;
    ChildAt(lines, l, j);
    if j < |Run(lines).children| {
      OtherEnds(lines, l, m);
    } else {
      StageEnds(lines, l, j - |Run(lines).children|, m);
    }
  }

  /** Topology of a chain of k > 1 commands, for every k and every history: unless its own words send it
      elsewhere, stage i reads chain pipe i - 1 and writes chain pipe i, and the last one writes where the
      line says; of all processes ever forked only stage i holds the write end of chain pipe i; and of
      the chain's ends the shell keeps just the read end of the last one. */
  lemma ChainTopology(lines: seq<Line>, l: Line, i: nat)
    requires Stages(l) > 1 && i < Stages(l)
    ensures var s1 := Next(Run(lines), l);
      var n := |Run(lines).children|;
      var b := FirstPipe(lines, l);
      && |s1.children| == n + Stages(l)
      && StageWiring(s1.children[n + i].fds, b, Prepare(Run(lines), l).out, Prepare(Run(lines), l).err, i, Stages(l),
           FlagsAt(l.flags, i))
      && (forall j :: 0 <= j < |s1.children| ==> (Holds(s1.children[j].fds, Write(b + i)) <==> j == n + i))
      && !Holds(s1.fds, Write(b + i))
      && (Holds(s1.fds, Read(b + i)) <==> i + 1 == Stages(l))
  {
    hide *;
    var s1 := Next(Run(lines), l);
    ChildAt(lines, l, |Run(lines).children| + i);
    NewCount(Run(lines), l);
    Wiring(lines, l, i);
    OtherEnds(lines, l, i);
    forall j | 0 <= j < |s1.children|
      ensures Holds(s1.children[j].fds, Write(FirstPipe(lines, l) + i)) <==> j == |Run(lines).children| + i
    {
      HoldersOfChain(lines, l, i, j);
    }
  }

  lemma Wiring(lines: seq<Line>, l: Line, i: nat)
    requires Stages(l) > 1 && i < Stages(l) && |NewChildren(Run(lines), l)| == Stages(l)
    ensures StageWiring(NewChildren(Run(lines), l)[i].fds, FirstPipe(lines, l),
      Prepare(Run(lines), l).out, Prepare(Run(lines), l).err, i, Stages(l), FlagsAt(l.flags, i))
  {
    RunShape(lines);
    StandardSlots(lines, 2);
    OutKind(Run(lines), l);
    NewChildFacts(Run(lines), l, i);
    hide Run, Prepare, NewChildren, Shape, Tidy, Below, Slots, StageWiring;
    var u := Prepare(Run(lines), l);
    SlotsWire(NewChildren(Run(lines), l)[i].fds, Run(lines).fds, u, i, Stages(l), FlagsAt(l.flags, i));
  }

  lemma SlotsWire(c: Table, own: Table, u: Setup, i: nat, k: nat, x: Flags)
    requires Std(0) in own && Std(2) in own && own[Std(2)] == Terminal
    requires Slots(c, own, u.delivered, u.out, u.err, u.next, i, k, x) && (u.out.Socket? || u.out.Write?)
    ensures StageWiring(c, u.next, u.out, u.err, i, k, x)
  {}

  lemma OutKind(s: State, l: Line)
    ensures Prepare(s, l).out.Socket? || Prepare(s, l).out.Write?
  {}

  /** The standard slots of stage `i` of `k`: where the chain puts them, and what overrides that. */
  ghost predicate StageWiring(c: Table, first: nat, out: End, err: bool, i: nat, k: nat, x: Flags) {
    var last := i + 1 == k;
    var looked := i == 0 || (last && out == Socket);
    var target := if last then out else Write(first + i);
    var toUser := x.outOk && last && out == Socket;
    && (i > 0 ==> Std(0) in c && c[Std(0)] == if x.inBad && looked then Null else Read(first + i - 1))
    && Std(1) in c
    && c[Std(1)] == (if x.file then File else if x.outBad && looked then Null else if toUser then UserOut else target)
    && Std(2) in c && c[Std(2)] == (if toUser then Terminal else if err then target else Socket)
  }

  /** Process `j` exists and holds the end. */
  ghost predicate HoldsAt(s: State, j: nat, e: End) {
    j < |s.children| && Holds(s.children[j].fds, e)
  }

  /** A read from the pipe meets end of file: neither the shell nor a live process can write to it. */
  ghost predicate AtEof(s: State, live: set<nat>, pipe: nat) {
    !Holds(s.fds, Write(pipe)) && forall j :: j in live ==> !HoldsAt(s, j, Write(pipe))
  }

  /** A write to the pipe fails: neither the shell nor a live process can read from it. */
  ghost predicate Broken(s: State, live: set<nat>, pipe: nat) {
    !Holds(s.fds, Read(pipe)) && forall j :: j in live ==> !HoldsAt(s, j, Read(pipe))
  }

  lemma ChainHolders(lines: seq<Line>, l: Line, m: nat)
    requires Stages(l) > 1 && m + 1 < Stages(l)
    ensures var s1 := Next(Run(lines), l);
      var p := FirstPipe(lines, l) + m;
      var n := |Run(lines).children|;
      && (forall j: nat :: HoldsAt(s1, j, Write(p)) <==> j == n + m)
      && (forall j: nat :: HoldsAt(s1, j, Read(p)) <==> IsReader(n, m, j))
  {
    ChildAt(lines, l, 0);
    forall j: nat | j < |Next(Run(lines), l).children| {
      HoldersOfChain(lines, l, m, j);
    }
  }

  /** A chain's pipes are never waiting, and the shell has closed all their ends but the last read end. */
  lemma ChainIsSettled(lines: seq<Line>, l: Line, m: nat)
    requires Stages(l) > 1 && m + 1 < Stages(l)
    ensures var s1, p := Run(lines + [l]), FirstPipe(lines, l) + m;
      Settled(s1, p) && Fd(Write(p)) !in s1.fds && Fd(Read(p)) !in s1.fds
  {
    RunSnoc(lines, l);
    RunShape(lines);
    hide Run, Prepare, Next, Shape;
    ChainSettles(Run(lines), l, m);
  }

  lemma ChainSettles(s: State, l: Line, m: nat)
    requires Shape(s) && Stages(l) > 1 && m + 1 < Stages(l)
    ensures var s1, p := Next(s, l), Prepare(s, l).next + m;
      Settled(s1, p) && Fd(Write(p)) !in s1.fds && Fd(Read(p)) !in s1.fds
  {
    AllBelow(s, l);
    NextCount(s, l);
    PrepareShape(s, l);
    NextFds(s, l);
    var u := Prepare(s, l);
    hide Prepare, Next, Sound, EndsOpen, Delivered, DeliveredOpen;
    TableUnopened(u.fds, u.next);
    hide ShellTable;
  }

  lemma NextCount(s: State, l: Line)
    requires Stages(l) > 1
    ensures Next(s, l).next == Prepare(s, l).next + Stages(l) && Next(s, l).pending == Prepare(s, l).pending
  {}

  lemma AllBelow(s: State, l: Line)
    requires Shape(s)
    ensures forall w :: w in Prepare(s, l).pending ==> w.pipe < Prepare(s, l).next
    ensures Stages(l) > 1 ==> Next(s, l).pending == Prepare(s, l).pending
  {
    PrepareShape(s, l);
    var u := Prepare(s, l);
    hide Prepare;
    forall w | w in u.pending
      ensures w.pipe < u.next
    {
      var k :| 0 <= k < |u.pending| && u.pending[k] == w;
    }
  }

  /** Who holds an end of a chain pipe, whatever runs after the line: the same processes as at once. */
  lemma HoldersStay(lines: seq<Line>, l: Line, rest: seq<Line>, m: nat, e: End)
    requires Stages(l) > 1 && m + 1 < Stages(l)
    requires e == Write(FirstPipe(lines, l) + m) || e == Read(FirstPipe(lines, l) + m)
    ensures var s1, s2 := Next(Run(lines), l), Run(lines + [l] + rest);
      !Holds(s2.fds, e) && forall j: nat :: HoldsAt(s2, j, e) <==> HoldsAt(s1, j, e)
  {
    ChainIsSettled(lines, l, m);
    RunSnoc(lines, l);
    GoneForever(lines + [l], rest, e);
    ShellGone(lines + [l] + rest, e);
    hide Run, Next, FirstPipe, Settled;
  }

  lemma WriterStays(lines: seq<Line>, l: Line, rest: seq<Line>, i: nat)
    requires Stages(l) > 1 && i + 1 < Stages(l)
    ensures var s2, e := Run(lines + [l] + rest), Write(FirstPipe(lines, l) + i);
      !Holds(s2.fds, e) && forall j: nat :: HoldsAt(s2, j, e) <==> j == |Run(lines).children| + i
  {
    var e := Write(FirstPipe(lines, l) + i);
    ChainHolders(lines, l, i);
    HoldersStay(lines, l, rest, i, e);
    hide *;
    forall j: nat
      ensures HoldsAt(Run(lines + [l] + rest), j, e) <==> j == |Run(lines).children| + i
    {
      assert HoldsAt(Run(lines + [l] + rest), j, e) <==> HoldsAt(Next(Run(lines), l), j, e);
    }
  }

  lemma ReadersStay(lines: seq<Line>, l: Line, rest: seq<Line>, i: nat)
    requires Stages(l) > 1 && i + 1 < Stages(l)
    ensures var s2, e := Run(lines + [l] + rest), Read(FirstPipe(lines, l) + i);
      !Holds(s2.fds, e) && forall j: nat :: HoldsAt(s2, j, e) <==> IsReader(|Run(lines).children|, i, j)
  {
    var e := Read(FirstPipe(lines, l) + i);
    ChainHolders(lines, l, i);
    HoldersStay(lines, l, rest, i, e);
    hide *;
    forall j: nat
      ensures HoldsAt(Run(lines + [l] + rest), j, e) <==> IsReader(|Run(lines).children|, i, j)
    {
      assert HoldsAt(Run(lines + [l] + rest), j, e) <==> HoldsAt(Next(Run(lines), l), j, e);
    }
  }

  /** End of file, whichever processes are still alive and whatever was run since: the input of stage
      i + 1 is at end of file iff stage i is gone. */
  lemma EofIffWriterGone(lines: seq<Line>, l: Line, rest: seq<Line>, i: nat, live: set<nat>)
    requires Stages(l) > 1 && i + 1 < Stages(l)
    ensures AtEof(Run(lines + [l] + rest), live, FirstPipe(lines, l) + i) <==> |Run(lines).children| + i !in live
  {
    hide *;
    WriterStays(lines, l, rest, i);
    EofFrom(Run(lines + [l] + rest), live, FirstPipe(lines, l) + i, |Run(lines).children| + i);
  }

  lemma EofFrom(s: State, live: set<nat>, pipe: nat, writer: nat)
    requires !Holds(s.fds, Write(pipe))
    requires forall j: nat :: HoldsAt(s, j, Write(pipe)) <==> j == writer
    ensures AtEof(s, live, pipe) <==> writer !in live
  {
    hide HoldsAt, Holds;
    assert HoldsAt(s, writer, Write(pipe));
  }

  lemma BrokenFrom(s: State, live: set<nat>, pipe: nat, n: nat, m: nat)
    requires !Holds(s.fds, Read(pipe))
    requires forall j: nat :: HoldsAt(s, j, Read(pipe)) <==> IsReader(n, m, j)
    ensures Broken(s, live, pipe) <==> n + m + 1 !in live && (m == 0 || n + m !in live)
  {
    hide HoldsAt, Holds;
    assert IsReader(n, m, n + m + 1);
    assert m > 0 ==> IsReader(n, m, n + m);
  }

  /** Broken pipes, at any later time: a stage is told that its reader is gone iff it is the first one.
      Only stage 0 closes the read end of its own pipe; every later stage keeps it, so the pipe of stage
      i > 0 counts as readable until stage i itself is gone too. */
  lemma BrokenIffReadersGone(lines: seq<Line>, l: Line, rest: seq<Line>, i: nat, live: set<nat>)
    requires Stages(l) > 1 && i + 1 < Stages(l)
    ensures Broken(Run(lines + [l] + rest), live, FirstPipe(lines, l) + i)
       <==> |Run(lines).children| + i + 1 !in live && (i == 0 || |Run(lines).children| + i !in live)
  {
    hide *;
    ReadersStay(lines, l, rest, i);
    BrokenFrom(Run(lines + [l] + rest), live, FirstPipe(lines, l) + i, |Run(lines).children|, i);
  }

  /** Descriptors left over by one line: besides a numbered pipe opened for it, the shell gains an
      end iff the line chains commands, and then exactly one, which nothing will ever write to. */
  lemma LeftoverEnds(lines: seq<Line>, l: Line, e: End)
    requires IsPipeEnd(e)
    ensures var s := Run(lines);
      var u := Prepare(s, l);
      Holds(Next(s, l).fds, e) && !Holds(u.fds, e) <==> Stages(l) > 1 && e == Read(u.next + Stages(l) - 1)
  {
    hide Prepare, Next, Run;
    var s := Run(lines);
    var u := Prepare(s, l);
    RunShape(lines);
    PrepareShape(s, l);
    NextShape(s, l);
    NextFds(s, l);
    TableUnopened(u.fds, u.next);
    HoldsIff(u.fds, e.pipe);
    HoldsIff(Next(s, l).fds, e.pipe);
  }
}
