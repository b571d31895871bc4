/** The main results about the numbered-pipe shell. */
module ShellTheorems {
  import opened Common
  import opened Descriptors
  import opened Shell
  import opened ShellInvariants
  import opened ForkFacts
  import opened ShellRuns

  // ----- What a line is delivered ---------------------------------------------------------------

  lemma DueEntry(lines: seq<Line>, q: nat)
    requires Waiting(q, 1) in Run(lines).pending
    ensures PipeWired(FeedsOf(lines, |lines|), Run(lines).children, q)
  {
    hide AllAwaited, AllForked, PipeWired, Next, Run;
    RunWired(lines);
    assert EntryWired(lines, Run(lines).children, Waiting(q, 1));
  }

  lemma DueIff(lines: seq<Line>)
    ensures Delivered(Run(lines).pending).Some? <==> Producers(lines, |lines|) != {}
  {
    var s := Run(lines);
    RunWired(lines);
    var d := Delivered(s.pending);
    if d.Some? {
      DeliveredIff(s.pending, d.value);
      DueEntry(lines, d.value);
    }
    if Producers(lines, |lines|) != {} {
      var t :| t in Producers(lines, |lines|);
      assert Awaited(s.pending, 1);
      var e :| e in s.pending && e.number == 1;
      assert e == Waiting(e.pipe, 1);
      DeliveredIff(s.pending, e.pipe);
    }
  }

  lemma LastStageForked(lines: seq<Line>, t: nat) returns (c: Child)
    requires t < |lines| && !lines[t].Builtin?
    ensures c in Run(lines).children && c.line == t && c.stage + 1 == c.stages
  {
    hide AllAwaited, AllWired, Next, Run;
    RunWired(lines);
    assert Forked(Run(lines).children, t, Stages(lines[t]) - 1);
    c :| c in Run(lines).children && c.line == t && c.stage == Stages(lines[t]) - 1;
    assert ChildOf(lines, Run(lines).next, c);
  }

  /** The lines that have a command whose standard slot `n` is the pipe: 1 is its output, 2 its error. */
  ghost function WritingLines(children: seq<Child>, n: nat, q: nat): set<nat> {
    set c | c in children && Attached(c, n, q) :: c.line
  }

  /** Whole-run delivery.  For every history, a line is delivered a pipe iff some earlier line t with
      count n has t + n equal to it.  The processes writing to that pipe are exactly the last stages of
      all such lines whose output is not diverted, and those whose errors go there are exactly the last
      stages of all such lines that ask for it. */
  lemma DeliveryIsExact(lines: seq<Line>)
    ensures var s := Run(lines);
      var d := Delivered(s.pending);
      && (d.Some? <==> Producers(lines, |lines|) != {})
      && (d.Some? ==>
            && WritingLines(s.children, 1, d.value) == Writers(lines, |lines|)
            && WritingLines(s.children, 2, d.value) == ErrorWriters(lines, |lines|)
            && forall c, n :: c in s.children && 1 <= n <= 2 && Attached(c, n, d.value) ==> c.stage + 1 == c.stages)
  {
    hide Next, Run, Delivered, FeedsOf, Attached;
    DueIff(lines);
    var s := Run(lines);
    var d := Delivered(s.pending);
    if d.Some? {
      RunShape(lines);
      DeliveredIff(s.pending, d.value);
      DueEntry(lines, d.value);
      WritingIs(lines, d.value, 1);
      WritingIs(lines, d.value, 2);
    }
  }

  function Feeding(lines: seq<Line>, n: nat): set<nat> {
    if n == 1 then Writers(lines, |lines|) else ErrorWriters(lines, |lines|)
  }

  lemma WritingIs(lines: seq<Line>, q: nat, n: nat)
    requires PipeWired(FeedsOf(lines, |lines|), Run(lines).children, q) && 1 <= n <= 2
    ensures WritingLines(Run(lines).children, n, q) == Feeding(lines, n)
    ensures forall c :: c in Run(lines).children && Attached(c, n, q) ==> c.stage + 1 == c.stages
  {
    hide Run, Attached;
    var f, children := FeedsOf(lines, |lines|), Run(lines).children;
    forall t | t in Feeding(lines, n)
      ensures t in WritingLines(children, n, q)
    {
      assert t in Producers(lines, |lines|);
      var c := LastStageForked(lines, t);
      assert ChildWired(f, c, q);
    }
    forall c | c in children && Attached(c, n, q)
      ensures c.line in Feeding(lines, n) && c.stage + 1 == c.stages
    {
      assert ChildWired(f, c, q);
    }
  }

  lemma {:induction false} StandardSlots(lines: seq<Line>, n: nat)
    requires n < 3
    ensures Std(n) in Run(lines).fds && Run(lines).fds[Std(n)] == Terminal
  {
    if lines != [] {
      var front := lines[..|lines| - 1];
      StandardSlots(front, n);
      RunShape(front);
      NextFds(Run(front), lines[|lines| - 1]);
    }
  }

  /** What the first command of an external line reads: nothing if its <a was refused, another user if it
      was accepted and the line may prefer that to its delivery, else the delivered pipe, and the server's
      own input when nothing was delivered. */
  lemma FirstStageReads(lines: seq<Line>, l: Line)
    requires !l.Builtin?
    ensures var s := Run(lines);
      var d := Delivered(s.pending);
      var x := FlagsAt(l.flags, 0);
      |NewChildren(s, l)| == Stages(l) && var c := NewChildren(s, l)[0];
      Std(0) in c.fds && c.fds[Std(0)] ==
        if x.inBad then Null
        else if x.inOk && (d.None? || (l.Plain? && (l.stages > 1 || x.outOk))) then UserIn
        else if d.Some? then Read(d.value) else Terminal
  {
    RunShape(lines);
    StandardSlots(lines, 0);
    NewChildFacts(Run(lines), l, 0);
    PrepareShape(Run(lines), l);
    var u := Prepare(Run(lines), l);
    hide Prepare, Run, Shape, OutputOf, ErrorOf, Tidy, Below, NewChildren, DeliveredOpen;
  }

  // ----- Who can still write to a delivered pipe ------------------------------------------------

  /** The pipe is open and is not waiting any more, so no later line can pick it again. */
  ghost predicate Settled(s: State, q: nat) {
    q < s.next && forall e :: e in s.pending ==> e.pipe != q
  }

  lemma SettledStep(s: State, l: Line, q: nat)
    requires Shape(s) && Settled(s, q)
    ensures Settled(Next(s, l), q) && Delivered(s.pending) != Some(q)
    ensures Fd(Write(q)) in Next(s, l).fds <==> Fd(Write(q)) in s.fds
    ensures forall c :: c in NewChildren(s, l) ==> (Fd(Write(q)) in c.fds <==> Fd(Write(q)) in s.fds)
  {
    hide Prepare, NewChildren;
    PrepareShape(s, l);
    NextFds(s, l);
    DeliveredIff(s.pending, q);
    forall w | w in Prepare(s, l).pending
      ensures w.pipe != q
    {
      PendingOrigin(s, l, w);
    }
    forall c | c in NewChildren(s, l)
      ensures Fd(Write(q)) in c.fds <==> Fd(Write(q)) in s.fds
    {
      var i := NewChildIndex(s, l, c);
    }
  }

  /** The child was there already, or was forked since and can write to `q` iff `open`. */
  ghost predicate OldOrAs(before: seq<Child>, line: nat, open: bool, q: nat, c: Child) {
    c in before || (c.line >= line && (Fd(Write(q)) in c.fds <==> open))
  }

  lemma RunSnoc(lines: seq<Line>, l: Line)
    ensures Run(lines + [l]) == Next(Run(lines), l)
  {
    assert (lines + [l])[..|lines|] == lines;
  }

  lemma NewChildrenOldOrAs(s: State, l: Line, q: nat, before: seq<Child>, line: nat, open: bool)
    requires Shape(s) && Settled(s, q) && s.line >= line && (open <==> Fd(Write(q)) in s.fds)
    requires forall c :: c in s.children ==> OldOrAs(before, line, open, q, c)
    ensures forall c :: c in Next(s, l).children ==> OldOrAs(before, line, open, q, c)
  {
    SettledStep(s, l, q);
    forall c | c in NewChildren(s, l)
      ensures OldOrAs(before, line, open, q, c)
    {
      var i := NewChildIndex(s, l, c);
    }
  }

  /** The shell and everything it forks from now on can write to a settled pipe iff the shell can now. */
  lemma {:induction false} SettledForever(lines: seq<Line>, rest: seq<Line>, q: nat)
    requires Settled(Run(lines), q)
    ensures var s1 := Run(lines + rest);
      var open := Fd(Write(q)) in Run(lines).fds;
      && Settled(s1, q) && (Fd(Write(q)) in s1.fds <==> open)
      && forall c :: c in s1.children ==> OldOrAs(Run(lines).children, |lines|, open, q, c)
  {
    hide Prepare, NewChildren, ShellTable, Sound;
    if rest == [] {
      assert lines + rest == lines;
    } else {
      var front, l := rest[..|rest| - 1], rest[|rest| - 1];
      SettledForever(lines, front, q);
      assert lines + rest == (lines + front) + [l];
      RunSnoc(lines + front, l);
      var s := Run(lines + front);
      RunShape(lines + front);
      SettledStep(s, l, q);
      NewChildrenOldOrAs(s, l, q, Run(lines).children, |lines|, Fd(Write(q)) in Run(lines).fds);
    }
  }

  lemma DeliveryStep(lines: seq<Line>, l: Line, q: nat)
    requires Delivered(Run(lines).pending) == Some(q)
    ensures Settled(Next(Run(lines), l), q)
    ensures Fd(Write(q)) in Next(Run(lines), l).fds <==> l.Builtin?
    ensures forall c :: c in NewChildren(Run(lines), l) ==> Fd(Write(q)) !in c.fds
  {
    hide Prepare, NewChildren, Delivered;
    var s := Run(lines);
    RunShape(lines);
    PrepareShape(s, l);
    NextFds(s, l);
    forall c | c in NewChildren(s, l)
      ensures Fd(Write(q)) !in c.fds
    {
      var i := NewChildIndex(s, l, c);
    }
  }

  lemma HolderIsWired(lines: seq<Line>, q: nat, c: Child)
    requires Delivered(Run(lines).pending) == Some(q) && c in Run(lines).children
    ensures Tidy(c.fds) && c.line < |lines|
    ensures Fd(Write(q)) in c.fds <==> SinceFirst(Producers(lines, |lines|), c.line)
  {
    hide Run, Next, Delivered, Attached;
    KnownChild(lines, c);
    RunShape(lines);
    DeliveredIff(Run(lines).pending, q);
    DueEntry(lines, q);
    assert ChildWired(FeedsOf(lines, |lines|), c, q);
  }

  lemma ChildTidy(lines: seq<Line>, c: Child)
    requires c in Run(lines).children
    ensures Tidy(c.fds)
  {
    KnownChild(lines, c);
  }

  /** Delivery cannot deadlock its reader.  Whatever runs after line T = |lines| was delivered pipe q:
      if the line was an external command, the shell never holds q's write end again, and a process
      holds it iff it was forked before line T and not before the first line that writes to q. */
  lemma WritersOfDelivered(lines: seq<Line>, l: Line, rest: seq<Line>, q: nat)
    requires Delivered(Run(lines).pending) == Some(q) && !l.Builtin?
    ensures var s1 := Run(lines + [l] + rest);
      && !Holds(s1.fds, Write(q))
      && forall c :: c in s1.children ==>
           (Holds(c.fds, Write(q)) <==> c.line < |lines| && SinceFirst(Producers(lines, |lines|), c.line))
  {
    var upTo := lines + [l];
    RunSnoc(lines, l);
    DeliveryStep(lines, l, q);
    SettledForever(upTo, rest, q);
    var s1 := Run(upTo + rest);
    RunShape(upTo + rest);
    HoldsIff(s1.fds, q);
    forall c | c in s1.children
      ensures Holds(c.fds, Write(q)) <==> c.line < |lines| && SinceFirst(Producers(lines, |lines|), c.line)
    {
      ChildTidy(upTo + rest, c);
      HoldsIff(c.fds, q);
      if c in Run(lines).children {
        HolderIsWired(lines, q, c);
      } else if c in Run(upTo).children {
        assert c in NewChildren(Run(lines), l);
        RunShape(lines);
        var i := NewChildIndex(Run(lines), l, c);
      }
    }
  }

  /** A built-in command drops the delivered pipe without closing it: both of its ends stay open in
      the shell for good.  So the shell lets go of a delivered pipe iff the line is external. */
  lemma BuiltinLeaksDelivered(lines: seq<Line>, l: Line, rest: seq<Line>, q: nat)
    requires Delivered(Run(lines).pending) == Some(q)
    ensures Holds(Run(lines + [l] + rest).fds, Write(q)) <==> l.Builtin?
  {
    var upTo := lines + [l];
    RunSnoc(lines, l);
    DeliveryStep(lines, l, q);
    SettledForever(upTo, rest, q);
    RunShape(upTo + rest);
    HoldsIff(Run(upTo + rest).fds, q);
  }

  /** The failing input: `ls |1` and then a built-in command.  The built-in is delivered pipe 0 and drops
      it, and the shell can write to it ever after. */
  lemma BuiltinLeakHappens(rest: seq<Line>)
    ensures Delivered(Run([Numbered(1, 1, false, [])]).pending) == Some(0)
    ensures Holds(Run([Numbered(1, 1, false, [])] + [Builtin] + rest).fds, Write(0))
  {
    var l := Numbered(1, 1, false, []);
    FirstDue(l);
    RunSnoc([], l);
    assert [] + [l] == [l];
    BuiltinLeaksDelivered([l], Builtin, rest, 0);
  }

  lemma FirstDue(l: Line)
    requires l == Numbered(1, 1, false, [])
    ensures Next(Init(), l).pending == [Waiting(0, 1)] && Delivered([Waiting(0, 1)]) == Some(0)
  {
    var q := [Waiting(0, 1)];
    assert Ticked([]) == [] && Keep([]) == [];
    assert Ticked(q) == [Waiting(0, 0)];
    assert Pop([Waiting(0, 0)]) == Pop([]) + [Waiting(0, 0)];
    hide Pop, Ticked, Keep;
  }

  /** While a pipe waits, the shell keeps both of its ends open. */
  lemma WaitingPipesStayOpen(lines: seq<Line>, e: Waiting)
    requires e in Run(lines).pending
    ensures Holds(Run(lines).fds, Read(e.pipe)) && Holds(Run(lines).fds, Write(e.pipe))
  {
    RunShape(lines);
    HoldsIff(Run(lines).fds, e.pipe);
  }
}
