/** The ends of a pipe over the rest of a run: what is closed stays closed, and what the shell leaves open. */
module PipeLifetimes {
  import opened Common
  import opened Descriptors
  import opened Shell
  import opened ShellInvariants
  import opened ForkFacts
  import opened ShellRuns
  import opened ShellTheorems

  // ----- One line -------------------------------------------------------------------------------

  /** A child has only read ends that the shell had, or that its own line opened. */
  lemma NewChildReads(s: State, l: Line, i: nat, q: nat)
    requires Shape(s) && i < Stages(l)
    ensures |NewChildren(s, l)| == Stages(l)
    ensures var u := Prepare(s, l);
      Fd(Read(q)) in NewChildren(s, l)[i].fds ==> Fd(Read(q)) in u.fds || (Stages(l) > 1 && q >= u.next)
  {
    hide Prepare, Delivered;
    PrepareShape(s, l);
    var u := Prepare(s, l);
    BaseFacts(s, l, u);
    BaseReads(u, l, q);
    OutIs(s, l, u);
    NewChildIs(s, l, i);
    hide NewChildren, Shape, Prepared, FirstBase, LaterBase, StageChild, SingleChild, NumberedChild, ForkBase, AtFork;
    if l.stages > 1 {
      ChainedReads(s.fds, u, if i == 0 then FirstBase(u) else LaterBase(u, l), i, l.stages, FlagsAt(l.flags, i), q);
    } else {
      LoneReads(s.fds, u, FirstBase(u), FlagsAt(l.flags, 0), q);
    }
  }

  lemma BaseReads(u: Setup, l: Line, q: nat)
    ensures Fd(Read(q)) in FirstBase(u) ==> Fd(Read(q)) in u.fds
    ensures Fd(Read(q)) in LaterBase(u, l) ==> Fd(Read(q)) in u.fds
  {
    CloseFds(u.fds, u.delivered);
    hide CloseWrite, CloseBoth;
  }

  lemma ChainedReads(fds: Table, u: Setup, base: Table, i: nat, k: nat, x: Flags, q: nat)
    requires ForkBase(fds, u, base) && i < k && k > 1
    requires i == 0 && u.delivered.Some? ==> Fd(Read(u.delivered.value)) in base
    ensures var c := StageChild(AtFork(base, u.next, i), u.delivered, u.out, u.err, u.next, i, k, x);
      Fd(Read(q)) in c ==> Fd(Read(q)) in base || q >= u.next
  {
    StageFacts(base, u.delivered, u.out, u.err, u.next, i, k, x);
    hide StageChild, ShellTable, Tidy, Below, AtFork, Slots;
  }

  lemma LoneReads(fds: Table, u: Setup, base: Table, x: Flags, q: nat)
    requires ForkBase(fds, u, base)
    requires u.delivered.Some? ==> Fd(Read(u.delivered.value)) in base
    ensures u.out.Write? && Fd(Read(q)) in NumberedChild(base, u.delivered, u.out.pipe, u.err, x) ==> Fd(Read(q)) in base
    ensures u.out == Socket && Fd(Read(q)) in SingleChild(base, u.delivered, x) ==> Fd(Read(q)) in base
  {
    if u.out.Write? {
      NumberedFacts(base, u.delivered, u.out.pipe, u.err, u.next, x);
    } else {
      SingleFacts(base, u.delivered, u.next, x);
    }
    hide NumberedChild, SingleChild, ShellTable, Tidy, Below, Slots;
  }

  /** What the shell has closed of a settled pipe, no process of the next line gets. */
  lemma GoneStep(s: State, l: Line, e: End, i: nat)
    requires Shape(s) && IsPipeEnd(e) && Settled(s, e.pipe) && Fd(e) !in s.fds && i < Stages(l)
    requires Std(0) in s.fds
    ensures |NewChildren(s, l)| == Stages(l) && !Holds(NewChildren(s, l)[i].fds, e)
  {
    hide Prepare, NewChildren, Settled;
    PrepareShape(s, l);
    NewChildFacts(s, l, i);
    NewChildReads(s, l, i, e.pipe);
    SettledStep(s, l, e.pipe);
    assert e.pipe < s.next by { SettledBelow(s, e.pipe); }
    var c := NewChildren(s, l)[i].fds;
    assert !IsPipeEnd(s.fds[Std(0)]);
    ReadsOther(s.fds[Std(0)], Prepare(s, l), i, Stages(l), FlagsAt(l.flags, i), e.pipe);
    HoldsIff(c, e.pipe);
    hide Shape, InputOf, OutputOf, ErrorOf, Below, Tidy, DeliveredOpen;
  }

  /** A process reads no pipe that was open before its line, except the delivered one. */
  lemma ReadsOther(own: End, u: Setup, i: nat, k: nat, x: Flags, q: nat)
    requires !IsPipeEnd(own) && q < u.next && u.delivered != Some(q)
    ensures InputOf(own, u.delivered, u.out, u.next, i, k, x) != Read(q)
  {}

  lemma SettledBelow(s: State, q: nat)
    requires Settled(s, q)
    ensures q < s.next
  {}

  lemma GoneFromShell(s: State, l: Line, e: End)
    requires Shape(s) && IsPipeEnd(e) && Settled(s, e.pipe)
    ensures Fd(e) in Next(s, l).fds <==> Fd(e) in s.fds
  {
    hide Prepare, NewChildren, Settled;
    PrepareShape(s, l);
    NextFds(s, l);
    SettledStep(s, l, e.pipe);
    SettledBelow(s, e.pipe);
  }

  // ----- The rest of a run ----------------------------------------------------------------------

  /** The processes of a longer run: those of the shorter one come first, under the same numbers. */
  ghost predicate Extends(s: State, s1: State) {
    |s.children| <= |s1.children| && forall j :: 0 <= j < |s.children| ==> s1.children[j] == s.children[j]
  }

  /** No process forked after the state `s` holds the end. */
  ghost predicate NoneLater(s: State, s1: State, e: End) {
    forall j :: |s.children| <= j < |s1.children| ==> !Holds(s1.children[j].fds, e)
  }

  /** Once the shell has closed an end of a settled pipe, neither it nor any process it forks from then
      on ever holds that end again. */
  lemma {:induction false} GoneForever(lines: seq<Line>, rest: seq<Line>, e: End)
    requires IsPipeEnd(e) && Settled(Run(lines), e.pipe) && Fd(e) !in Run(lines).fds
    ensures var s1 := Run(lines + rest);
      && Extends(Run(lines), s1) && NoneLater(Run(lines), s1, e)
      && Settled(s1, e.pipe) && Fd(e) !in s1.fds
  {
    hide Prepare, NewChildren, Settled;
    if rest == [] {
      assert lines + rest == lines;
    } else {
      var front, l := rest[..|rest| - 1], rest[|rest| - 1];
      GoneForever(lines, front, e);
      assert lines + rest == (lines + front) + [l];
      RunSnoc(lines + front, l);
      var s := Run(lines + front);
      RunShape(lines + front);
      StandardSlots(lines + front, 0);
      SettledStep(s, l, e.pipe);
      GoneFromShell(s, l, e);
      hide Run, Shape, ShellTable;
      NoneLaterStep(Run(lines), s, l, e);
    }
  }

  lemma NoneLaterStep(s0: State, s: State, l: Line, e: End)
    requires Extends(s0, s) && NoneLater(s0, s, e) && Shape(s) && Std(0) in s.fds
    requires IsPipeEnd(e) && Settled(s, e.pipe) && Fd(e) !in s.fds
    ensures Extends(s0, Next(s, l)) && NoneLater(s0, Next(s, l), e)
  {
    var s1 := Next(s, l);
    assert s1.children == s.children + NewChildren(s, l);
    forall j | |s0.children| <= j < |s1.children|
      ensures !Holds(s1.children[j].fds, e)
    {
      if j >= |s.children| {
        NewCount(s, l);
        GoneStep(s, l, e, j - |s.children|);
      }
    }
  }

  lemma NewCount(s: State, l: Line)
    ensures |NewChildren(s, l)| == Stages(l)
  {}

  lemma ShellGone(lines: seq<Line>, e: End)
    requires IsPipeEnd(e)
    ensures Holds(Run(lines).fds, e) <==> Fd(e) in Run(lines).fds
  {
    hide Run;
    RunShape(lines);
    StandardSlots(lines, 0);
    HoldsIff(Run(lines).fds, e.pipe);
  }

  // ----- What the shell leaves open -------------------------------------------------------------

  /** Some waiting entry is for the pipe. */
  ghost predicate Waits(q: seq<Waiting>, pipe: nat) {
    exists w :: w in q && w.pipe == pipe
  }

  /** The line is built in and is delivered the pipe. */
  ghost predicate Drops(s: State, l: Line, pipe: nat) {
    l.Builtin? && Delivered(s.pending) == Some(pipe)
  }

  /** The line chains commands, and the end is the read end of its last pipe. */
  ghost predicate Strands(s: State, l: Line, e: End) {
    Stages(l) > 1 && e == Read(Prepare(s, l).next + Stages(l) - 1)
  }

  /** Some line of the run has left the end open in the shell for good. */
  ghost predicate LeftBehind(lines: seq<Line>, e: End)
    requires IsPipeEnd(e)
  {
    lines != []
    && var front, l := lines[..|lines| - 1], lines[|lines| - 1];
       LeftBehind(front, e) || Drops(Run(front), l, e.pipe) || Strands(Run(front), l, e)
  }

  lemma PendingAfter(s: State, l: Line, pipe: nat)
    requires Sound(s)
    ensures Waits(Keep(Ticked(s.pending)), pipe) <==> Waits(s.pending, pipe) && Delivered(s.pending) != Some(pipe)
  {
    SweepFacts(s.pending);
    var kept := Keep(Ticked(s.pending));
    hide Keep, Ticked, Delivered;
    if Waits(kept, pipe) {
      var w :| w in kept && w.pipe == pipe;
      var was := w.(number := w.number + 1);
      assert was in s.pending && was.pipe == pipe;
      assert Waiting(pipe, 1) in s.pending ==> was.number == 1 by {
        if Waiting(pipe, 1) in s.pending {
          SameEntry(s.pending, was, Waiting(pipe, 1));
        }
      }
    }
    if Waits(s.pending, pipe) && Delivered(s.pending) != Some(pipe) {
      var was :| was in s.pending && was.pipe == pipe;
      var w := was.(number := was.number - 1);
      assert w.(number := w.number + 1) == was && was != Waiting(pipe, 1);
      assert w in kept && w.pipe == pipe;
    }
  }

  lemma WaitsAfter(s: State, l: Line, pipe: nat)
    requires Shape(s)
    ensures var u := Prepare(s, l);
      Waits(Next(s, l).pending, pipe)
      <==> (Waits(s.pending, pipe) && Delivered(s.pending) != Some(pipe)) || (pipe == s.next && u.next > s.next)
  {
    PendingAfter(s, l, pipe);
    var q, u := Keep(Ticked(s.pending)), Prepare(s, l);
    hide Keep, Ticked, Delivered;
    if l.Numbered? && Find(q, l.count) == |q| {
      WaitsOneMore(q, Waiting(s.next, l.count), pipe);
    }
  }

  lemma WaitsOneMore(q: seq<Waiting>, w: Waiting, pipe: nat)
    ensures Waits(q + [w], pipe) <==> Waits(q, pipe) || w.pipe == pipe
  {
    assert (q + [w])[|q|] == w;
    assert forall x :: x in q ==> x in q + [w];
  }

  lemma StrandedStep(s: State, l: Line, e: End)
    requires Shape(s) && IsPipeEnd(e) && Strands(s, l, e)
    ensures Settled(Next(s, l), e.pipe) && Fd(e) in Next(s, l).fds
  {
    hide Prepare, NewChildren;
    PrepareShape(s, l);
    NextFds(s, l);
    var u := Prepare(s, l);
    forall w | w in u.pending
      ensures w.pipe < u.next
    {
      var k :| 0 <= k < |u.pending| && u.pending[k] == w;
    }
  }

  lemma DroppedStep(s: State, l: Line, e: End)
    requires Shape(s) && IsPipeEnd(e) && Drops(s, l, e.pipe)
    ensures Settled(Next(s, l), e.pipe) && Fd(e) in Next(s, l).fds
  {
    hide Prepare, NewChildren, Delivered;
    PrepareShape(s, l);
    NextFds(s, l);
  }

  /** What a line left behind stays settled and open. */
  lemma {:induction false} LeftStays(lines: seq<Line>, e: End)
    requires IsPipeEnd(e) && LeftBehind(lines, e)
    ensures Settled(Run(lines), e.pipe) && Fd(e) in Run(lines).fds
  {
    var front, l := lines[..|lines| - 1], lines[|lines| - 1];
    var s := Run(front);
    RunShape(front);
    hide Next, Shape, Settled, Drops, Strands, Prepare;
    if LeftBehind(front, e) {
      LeftStays(front, e);
      SettledStep(s, l, e.pipe);
      GoneFromShell(s, l, e);
    } else if Drops(s, l, e.pipe) {
      DroppedStep(s, l, e);
    } else {
      StrandedStep(s, l, e);
    }
  }

  lemma OpenAfter(s: State, l: Line, e: End, left: bool)
    requires Shape(s) && IsPipeEnd(e) && (left ==> Settled(s, e.pipe))
    requires Fd(e) in s.fds <==> left || Waits(s.pending, e.pipe)
    ensures Fd(e) in Next(s, l).fds
       <==> (left || Drops(s, l, e.pipe) || Strands(s, l, e)) || Waits(Next(s, l).pending, e.pipe)
  {
    hide Prepare, NewChildren, Delivered, Waits, Settled, Next;
    PrepareShape(s, l);
    NextFds(s, l);
    WaitsAfter(s, l, e.pipe);
    if left {
      SettledStep(s, l, e.pipe);
    }
    DeliveredIsOld(s);
  }

  /** The shell's pipe ends after every run: both ends of each waiting pipe, both ends of each pipe that
      was delivered to a built-in line, and one read end for every line that chained commands. */
  lemma ShellHolds(lines: seq<Line>, e: End)
    requires IsPipeEnd(e)
    ensures Holds(Run(lines).fds, e) <==> LeftBehind(lines, e) || Waits(Run(lines).pending, e.pipe)
  {
    ShellGone(lines, e);
    OpenIff(lines, e);
  }

  lemma {:induction false} OpenIff(lines: seq<Line>, e: End)
    requires IsPipeEnd(e)
    ensures Fd(e) in Run(lines).fds <==> LeftBehind(lines, e) || Waits(Run(lines).pending, e.pipe)
  {
    if lines != [] {
      var front, l := lines[..|lines| - 1], lines[|lines| - 1];
      OpenIff(front, e);
      RunShape(front);
      if LeftBehind(front, e) {
        LeftStays(front, e);
      }
      hide Next, Shape, Settled, Drops, Strands, Prepare, Waits;
      OpenAfter(Run(front), l, e, LeftBehind(front, e));
    }
  }
}
