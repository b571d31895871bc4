/** Which of the processes that are forked for a line can read the pipes that lead from line to line. */
module WaitingEnds {
  import opened Common
  import opened Descriptors
  import opened Shell
  import opened ShellInvariants
  import opened ForkFacts
  import opened ShellRuns
  import opened ShellTheorems

  /** Of the pipes that are older than a chain, a stage can read those whose read end it was forked with. */
  lemma StageReads(base: Table, d: Option<nat>, out: End, err: bool, first: nat, i: nat, k: nat, x: Flags, q: nat)
    requires ShellTable(base, first) && i < k && k > 1 && q < first
    requires out == Socket || (out.Write? && Fd(out) in base)
    requires i == 0 && d.Some? ==> Fd(Read(d.value)) in base && d.value < first
    ensures Holds(StageChild(AtFork(base, first, i), d, out, err, first, i, k, x), Read(q)) <==> Fd(Read(q)) in base
  {
    hide StageChild, AtFork;
    var c := StageChild(AtFork(base, first, i), d, out, err, first, i, k, x);
    StageFacts(base, d, out, err, first, i, k, x);
    HoldsIff(c, q);
    assert !IsPipeEnd(base[Std(0)]);
    hide ShellTable, Tidy, Below, OutputOf, ErrorOf, Holds;
  }

  /** A lone command in front of a numbered pipe closes that pipe's read end only. */
  lemma NumberedReads(t: Table, d: Option<nat>, out: nat, err: bool, next: nat, x: Flags, q: nat)
    requires ShellTable(t, next) && Fd(Write(out)) in t
    requires d.Some? ==> d.value != out && d.value < next && Fd(Read(d.value)) in t
    ensures Holds(NumberedChild(t, d, out, err, x), Read(q)) <==> Fd(Read(q)) in t && q != out
  {
    hide NumberedChild;
    var c := NumberedChild(t, d, out, err, x);
    NumberedFacts(t, d, out, err, next, x);
    HoldsIff(c, q);
    assert !IsPipeEnd(t[Std(0)]);
    hide ShellTable, Tidy, Below, OutputOf, ErrorOf, Holds;
  }

  /** A lone command that answers the client lets go of the delivered pipe only if its <a is refused, and not even
      then if another <a and a >b are accepted. */
  lemma SingleReads(t: Table, d: Option<nat>, next: nat, x: Flags, q: nat)
    requires ShellTable(t, next)
    requires d.Some? ==> d.value < next && Fd(Read(d.value)) in t && Fd(Write(d.value)) !in t
    ensures Holds(SingleChild(t, d, x), Read(q)) <==>
      Fd(Read(q)) in t && (d == Some(q) ==> !x.inBad || (x.inOk && x.outOk))
  {
    hide SingleChild;
    var c := SingleChild(t, d, x);
    SingleFacts(t, d, next, x);
    HoldsIff(c, q);
    assert !IsPipeEnd(t[Std(0)]);
    hide ShellTable, Tidy, Below, OutputOf, ErrorOf, Holds;
  }

  /** A read end is open once the line is prepared iff it was open before, or the line has just opened the pipe. */
  lemma OpenNow(s: State, l: Line, u: Setup, q: nat)
    requires Shape(s) && Prepared(s, l, u) && q < u.next
    ensures Fd(Read(q)) in u.fds <==> Fd(Read(q)) in s.fds || q == s.next
    ensures Fd(Read(q)) in s.fds <==> Holds(s.fds, Read(q))
  {
    assert Tidy(s.fds) && Below(s.fds, s.next) && Std(0) in s.fds && !IsPipeEnd(s.fds[Std(0)]);
    HoldsIff(s.fds, q);
    TableUnopened(s.fds, s.next);
    hide Shape, ShellTable, Sound, EndsOpen, Delivered, Tidy, Below, Holds;
  }

  /** The table a stage is forked from. */
  lemma BaseReads(u: Setup, l: Line, i: nat, q: nat)
    ensures var base := if i == 0 then FirstBase(u) else LaterBase(u, l);
      Fd(Read(q)) in base <==> Fd(Read(q)) in u.fds && (l.Plain? && i > 0 ==> u.delivered != Some(q))
  {
    hide CloseWrite, CloseBoth;
    CloseFds(u.fds, u.delivered);
  }

  /** Process i of the line can read the older pipe q, whose read end is `open` in the shell or not. */
  ghost predicate Reads(l: Line, i: nat, delivered: bool, target: bool, open: bool)
    requires !l.Builtin?
  {
    var x := FlagsAt(l.flags, i);
    var alone := Stages(l) == 1;
    open && if delivered then (l.Numbered? || i == 0) && (l.Plain? && alone && x.inBad ==> x.inOk && x.outOk)
            else !(l.Numbered? && alone && target)
  }

  lemma NewReads(s: State, l: Line, u: Setup, i: nat, q: nat)
    requires Shape(s) && Prepared(s, l, u) && u == Prepare(s, l) && i < Stages(l) && q < u.next
    ensures |NewChildren(s, l)| == Stages(l)
    ensures Holds(NewChildren(s, l)[i].fds, Read(q))
       <==> Reads(l, i, u.delivered == Some(q), u.out == Write(q), Fd(Read(q)) in u.fds)
  {
    OutIs(s, l, u);
    BaseFacts(s, l, u);
    NewChildIs(s, l, i);
    BaseReads(u, l, i, q);
    var base := if i == 0 then FirstBase(u) else LaterBase(u, l);
    hide Prepare, NewChildren, FirstBase, LaterBase, Prepared, Shape, StageChild, NumberedChild, SingleChild, AtFork, Holds;
    if Stages(l) > 1 {
      StageReads(base, u.delivered, u.out, u.err, u.next, i, l.stages, FlagsAt(l.flags, i), q);
    } else if l.Numbered? {
      NumberedReads(base, u.delivered, u.out.pipe, u.err, u.next, FlagsAt(l.flags, 0), q);
    } else {
      SingleReads(base, u.delivered, u.next, FlagsAt(l.flags, 0), q);
    }
  }

  /** The read ends of the pipes between lines, in every history.  Every process of an external line can read every
      pipe that waits, but for a lone command in front of a numbered pipe, which cannot read that one.  The pipe
      that is delivered can be read by every process in front of a numbered pipe, and by the first of a plain line
      alone; a lone command whose <a is refused lets go of it, unless it pipes from one user to another besides. */
  lemma ReadEndsHeld(lines: seq<Line>, l: Line, i: nat, q: nat)
    requires i < Stages(l) && q < Prepare(Run(lines), l).next
    ensures |NewChildren(Run(lines), l)| == Stages(l)
    ensures var s := Run(lines);
      Holds(NewChildren(s, l)[i].fds, Read(q)) <==>
        Reads(l, i, Delivered(s.pending) == Some(q), Prepare(s, l).out == Write(q), Holds(s.fds, Read(q)) || q == s.next)
  {
    hide *;
    var s := Run(lines);
    var u := Prepare(s, l);
    RunShape(lines);
    PrepareShape(s, l);
    DeliveredIs(s, l);
    OpenNow(s, l, u, q);
    NewReads(s, l, u, i, q);
  }

  lemma DeliveredIs(s: State, l: Line)
    ensures Prepare(s, l).delivered == Delivered(s.pending)
  {
    hide Delivered, Keep, Ticked, Find;
  }
}
