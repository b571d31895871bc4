/** Whole runs of the shell: which processes are wired to which pipes, line after line. */
module ShellRuns {
  import opened Common
  import opened Descriptors
  import opened Shell
  import opened ShellInvariants
  import opened ForkFacts

  /** The earlier lines whose output is meant for line `target`. */
  function Producers(lines: seq<Line>, target: int): set<nat> {
    set t: nat | t < |lines| && lines[t].Numbered? && t + lines[t].count == target
  }

  /** The output of the line's last command goes elsewhere: to its output file, or to /dev/null when it
      is the only command and its >b was refused. */
  predicate Diverts(l: Line) {
    l.Numbered? && (FlagsAt(l.flags, l.stages - 1).file || (l.stages == 1 && FlagsAt(l.flags, 0).outBad))
  }

  /** Of these the ones whose output does get there, and those that send their errors along. */
  function Writers(lines: seq<Line>, target: int): set<nat> {
    set t: nat | t < |lines| && t in Producers(lines, target) && !Diverts(lines[t])
  }

  function ErrorWriters(lines: seq<Line>, target: int): set<nat> {
    set t: nat | t < |lines| && t in Producers(lines, target) && lines[t].err
  }

  /** The lines that feed a pipe: all of them, and those whose standard output and error do. */
  datatype Feeds = Feeds(all: set<nat>, outs: set<nat>, errs: set<nat>)

  function FeedsOf(lines: seq<Line>, target: int): Feeds {
    Feeds(Producers(lines, target), Writers(lines, target), ErrorWriters(lines, target))
  }

  /** Line `t`, which is `l`, feeds the pipe too. */
  function Joined(f: Feeds, t: nat, l: Line): Feeds {
    Feeds(f.all + {t}, if Diverts(l) then f.outs else f.outs + {t}, if l.Numbered? && l.err then f.errs + {t} else f.errs)
  }

  /** The child's standard slot `n` is the pipe. */
  ghost predicate Attached(c: Child, n: nat, pipe: nat) {
    Std(n) in c.fds && c.fds[Std(n)] == Write(pipe)
  }

  ghost predicate SinceFirst(producers: set<nat>, line: nat) {
    exists t :: t in producers && t <= line
  }

  // ----- The invariant --------------------------------------------------------------------------

  /** A pipe is the output and the error of exactly the last stages of the lines that feed it, and its
      write end is open in exactly the processes forked since the first of them. */
  ghost predicate PipeWired(f: Feeds, children: seq<Child>, pipe: nat) {
    f.all != {} && forall c :: c in children ==> ChildWired(f, c, pipe)
  }

  ghost predicate ChildWired(f: Feeds, c: Child, pipe: nat) {
    && (Attached(c, 1, pipe) <==> c.stage + 1 == c.stages && c.line in f.outs)
    && (Attached(c, 2, pipe) <==> c.stage + 1 == c.stages && c.line in f.errs)
    && (Fd(Write(pipe)) in c.fds <==> SinceFirst(f.all, c.line))
  }

  ghost predicate ChildOf(lines: seq<Line>, next: nat, c: Child) {
    && Tidy(c.fds) && Below(c.fds, next)
    && c.line < |lines| && c.stages == Stages(lines[c.line]) && c.stage < c.stages
  }

  /** Every stage of every line was forked. */
  ghost predicate AllForked(lines: seq<Line>, children: seq<Child>) {
    forall t: nat, i: nat :: t < |lines| && i < Stages(lines[t]) ==> Forked(children, t, i)
  }

  ghost predicate Forked(children: seq<Child>, t: nat, i: nat) {
    exists c :: c in children && c.line == t && c.stage == i
  }

  /** Every output that is not due yet has a waiting pipe. */
  ghost predicate AllAwaited(lines: seq<Line>, pending: seq<Waiting>) {
    forall t: nat :: t < |lines| && lines[t].Numbered? && t + lines[t].count >= |lines| ==>
      Awaited(pending, t + lines[t].count - |lines| + 1)
  }

  ghost predicate Awaited(pending: seq<Waiting>, number: int) {
    exists e :: e in pending && e.number == number
  }

  ghost predicate Wired(lines: seq<Line>, s: State) {
    && s.line == |lines| && Shape(s)
    && AllChildren(lines, s)
    && AllForked(lines, s.children)
    && AllAwaited(lines, s.pending)
    && AllWired(lines, s.pending, s.children)
  }

  ghost predicate AllWired(lines: seq<Line>, pending: seq<Waiting>, children: seq<Child>) {
    forall e :: e in pending && e.number >= 1 ==> EntryWired(lines, children, e)
  }

  /** A waiting pipe with countdown n is due n lines after the latest one. */
  ghost predicate EntryWired(lines: seq<Line>, children: seq<Child>, e: Waiting) {
    PipeWired(FeedsOf(lines, |lines| - 1 + e.number), children, e.pipe)
  }

  ghost predicate AllChildren(lines: seq<Line>, s: State) {
    forall c :: c in s.children ==> ChildOf(lines, s.next, c)
  }

  // ----- One more line --------------------------------------------------------------------------

  lemma ProducersStep(lines: seq<Line>, l: Line, target: int)
    ensures Producers(lines + [l], target)
         == Producers(lines, target) + (if l.Numbered? && |lines| + l.count == target then {|lines|} else {})
  {
    var more := lines + [l];
    assert forall t: nat :: t < |lines| ==> more[t] == lines[t];
  }

  lemma FeedsStep(lines: seq<Line>, l: Line, target: int)
    ensures FeedsOf(lines + [l], target)
         == if l.Numbered? && |lines| + l.count == target then Joined(FeedsOf(lines, target), |lines|, l)
            else FeedsOf(lines, target)
  {
    ProducersStep(lines, l, target);
    var more := lines + [l];
    assert forall t: nat :: t < |lines| ==> more[t] == lines[t];
    hide Producers, Diverts;
  }

  /** An entry waiting after the line was waiting before it, or is the line's own new pipe. */
  lemma PendingOrigin(s: State, l: Line, w: Waiting)
    requires Sound(s) && w in Prepare(s, l).pending
    ensures w.(number := w.number + 1) in s.pending
         || (l.Numbered? && w == Waiting(s.next, l.count) && Prepare(s, l).out == Write(s.next)
             && (l.count >= 1 ==> !Awaited(s.pending, l.count + 1)))
  {
    SweepFacts(s.pending);
    var q := Keep(Ticked(s.pending));
    if w !in q && l.count >= 1 {
      forall e | e in s.pending
        ensures e.number != l.count + 1
      {
        var kept := e.(number := e.number - 1);
        assert kept.(number := kept.number + 1) == e;
        assert kept in q <==> kept.number != 0;
      }
    }
  }

  lemma NewChildIndex(s: State, l: Line, c: Child) returns (i: nat)
    requires Shape(s) && c in NewChildren(s, l)
    ensures i < Stages(l) && c == NewChildren(s, l)[i]
    ensures c.line == s.line && c.stage == i && c.stages == Stages(l)
    ensures Std(0) in s.fds && Std(2) in s.fds
    ensures ForkedAs(s.fds, Prepare(s, l), i, Stages(l), FlagsAt(l.flags, i), c.fds)
  {
    if !l.Builtin? {
      NewChildFacts(s, l, 0);
    }
    i :| 0 <= i < |NewChildren(s, l)| && c == NewChildren(s, l)[i];
    NewChildFacts(s, l, i);
  }

  /** Which output and which error of a line's stages is a pipe `q` opened before the line's own. */
  lemma SlotIs(own: End, out: End, err: bool, first: nat, i: nat, k: nat, x: Flags, q: nat)
    requires q < first && i < k && !IsPipeEnd(own) && (out.Socket? ==> !err)
    ensures OutputOf(out, first, i, k, x) == Write(q)
       <==> i + 1 == k && out == Write(q) && !x.file && !(x.outBad && k == 1)
    ensures ErrorOf(own, out, err, first, i, k, x) == Write(q) <==> i + 1 == k && out == Write(q) && err
  {}

  /** Every line that feeds the pipe is known, and the latest one is among them iff it aims at it. */
  ghost predicate Latest(f: Feeds, line: nat, l: Line, aims: bool) {
    && f.all != {} && (forall t :: t in f.all ==> t <= line)
    && (line in f.outs <==> aims && !Diverts(l))
    && (line in f.errs <==> aims && l.Numbered? && l.err)
  }

  /** A pipe that waits after the line is open in the shell and is not the delivered one. */
  ghost predicate Aimable(u: Setup, q: nat) {
    q < u.next && Fd(Write(q)) in u.fds && u.delivered != Some(q)
  }

  lemma WaitingIsAimable(s: State, l: Line, q: nat)
    requires Shape(s) && exists n :: Waiting(q, n) in Prepare(s, l).pending
    ensures Aimable(Prepare(s, l), q)
  {
    var u := Prepare(s, l);
    PrepareShape(s, l);
    hide Prepare, Delivered, ShellTable;
    var n :| Waiting(q, n) in u.pending;
    var k :| 0 <= k < |u.pending| && u.pending[k] == Waiting(q, n);
    assert u.pending[k].pipe == q;
  }

  /** A process just forked, against such a pipe. */
  lemma ForkedWired(fds: Table, u: Setup, i: nat, k: nat, x: Flags, c: Child, q: nat)
    requires Std(0) in fds && Std(2) in fds && ForkedAs(fds, u, i, k, x, c.fds) && Aimable(u, q)
    requires i < k && !IsPipeEnd(fds[Std(2)]) && (u.out.Socket? ==> !u.err)
    ensures Attached(c, 1, q) <==> i + 1 == k && u.out == Write(q) && !x.file && !(x.outBad && k == 1)
    ensures Attached(c, 2, q) <==> i + 1 == k && u.out == Write(q) && u.err
    ensures Fd(Write(q)) in c.fds
  {
    SlotIs(fds[Std(2)], u.out, u.err, u.next, i, k, x, q);
    hide Tidy, Below, OutputOf, ErrorOf, InputOf;
  }

  /** A child forked now, against a pipe `q` that is waiting after the line. */
  lemma NewChildWired(s: State, l: Line, q: nat, f: Feeds, c: Child)
    requires Shape(s) && c in NewChildren(s, l)
    requires exists n :: Waiting(q, n) in Prepare(s, l).pending
    requires Latest(f, s.line, l, l.Numbered? && Prepare(s, l).out == Write(q))
    ensures ChildWired(f, c, q)
  {
    var u := Prepare(s, l);
    var i := NewChildIndex(s, l, c);
    WaitingIsAimable(s, l, q);
    PrepareErr(s, l);
    assert !IsPipeEnd(s.fds[Std(2)]);
    hide Prepare, NewChildren, Delivered, Shape, ForkedAs, Attached, Aimable, ChildWired;
    ForkedWired(s.fds, u, i, Stages(l), FlagsAt(l.flags, i), c, q);
    LatestWired(f, l, l.Numbered? && u.out == Write(q), c, q);
  }

  lemma LatestWired(f: Feeds, l: Line, aims: bool, c: Child, q: nat)
    requires Latest(f, c.line, l, aims) && !l.Builtin? && c.stages == l.stages && (l.Plain? ==> !aims)
    requires var x := FlagsAt(l.flags, c.stage);
      Attached(c, 1, q) <==> c.stage + 1 == c.stages && aims && !x.file && !(x.outBad && c.stages == 1)
    requires Attached(c, 2, q) <==> c.stage + 1 == c.stages && aims && l.Numbered? && l.err
    requires Fd(Write(q)) in c.fds
    ensures ChildWired(f, c, q)
  {
    var t :| t in f.all;
    assert t <= c.line;
    hide Attached;
  }

  lemma PrepareErr(s: State, l: Line)
    ensures Prepare(s, l).err == (l.Numbered? && l.err) && (Prepare(s, l).out.Socket? ==> !Prepare(s, l).err)
  {}

  lemma NewChildrenWired(s: State, l: Line, q: nat, f: Feeds)
    requires Shape(s)
    requires exists n :: Waiting(q, n) in Prepare(s, l).pending
    requires Latest(f, s.line, l, l.Numbered? && Prepare(s, l).out == Write(q))
    ensures PipeWired(f, NewChildren(s, l), q)
  {
    forall c | c in NewChildren(s, l)
      ensures ChildWired(f, c, q)
    {
      NewChildWired(s, l, q, f, c);
    }
  }

  /** A line that joins later changes nothing for the children that were there before. */
  lemma OldChildWired(before: Feeds, after: Feeds, children: seq<Child>, q: nat, line: nat, l: Line, c: Child)
    requires PipeWired(before, children, q) && c in children && c.line < line
    requires after == before || after == Joined(before, line, l)
    ensures ChildWired(after, c, q)
  {
    assert ChildWired(before, c, q);
    assert SinceFirst(after.all, c.line) ==> exists t :: t in before.all && t <= c.line;
    hide Diverts, Attached;
  }

  /** What feeds a pipe that waits after the line. */
  lemma LatestIs(lines: seq<Line>, s: State, l: Line, w: Waiting)
    requires s.line == |lines| && Shape(s) && w in Prepare(s, l).pending
    requires FeedsOf(lines + [l], |lines| + w.number).all != {}
    ensures Latest(FeedsOf(lines + [l], |lines| + w.number), |lines|, l, l.Numbered? && Prepare(s, l).out == Write(w.pipe))
  {
    FeedsStep(lines, l, |lines| + w.number);
    PrepareShape(s, l);
    if l.Numbered? {
      SameEntry(Prepare(s, l).pending, w, Waiting(Prepare(s, l).out.pipe, l.count));
    }
    hide Prepare, Diverts, Sound, ShellTable, EndsOpen, DeliveredOpen;
  }

  lemma OldPipeStep(lines: seq<Line>, s: State, l: Line, w: Waiting)
    requires s.line == |lines| && Shape(s) && AllChildren(lines, s)
    requires w.number >= 1 && w in Prepare(s, l).pending
    requires EntryWired(lines, s.children, w.(number := w.number + 1))
    ensures EntryWired(lines + [l], Next(s, l).children, w)
  {
    hide Prepare, NewChildren, Delivered, ShellTable, Sound, FeedsOf;
    var before := FeedsOf(lines, |lines| + w.number);
    var after := FeedsOf(lines + [l], |lines| + w.number);
    FeedsStep(lines, l, |lines| + w.number);
    LatestIs(lines, s, l, w);
    assert Waiting(w.pipe, w.number) in Prepare(s, l).pending;
    forall c | c in s.children
      ensures ChildWired(after, c, w.pipe)
    {
      assert ChildOf(lines, s.next, c);
      OldChildWired(before, after, s.children, w.pipe, |lines|, l, c);
    }
    NewChildrenWired(s, l, w.pipe, after);
  }

  lemma SameEntry(q: seq<Waiting>, a: Waiting, b: Waiting)
    requires Distinct(q) && a in q && b in q
    ensures a.number == b.number <==> a.pipe == b.pipe
  {}

  lemma NewPipeStep(lines: seq<Line>, s: State, l: Line, w: Waiting)
    requires s.line == |lines| && Shape(s) && AllChildren(lines, s) && AllAwaited(lines, s.pending)
    requires w.number >= 1 && w in Prepare(s, l).pending
    requires l.Numbered? && w == Waiting(s.next, l.count) && Prepare(s, l).out == Write(s.next)
    requires !Awaited(s.pending, l.count + 1)
    ensures EntryWired(lines + [l], Next(s, l).children, w)
  {
    hide NewChildren, Delivered;
    var after := FeedsOf(lines + [l], |lines| + w.number);
    OnlyProducer(lines, s, l);
    LatestIs(lines, s, l, w);
    OnlyFeed(lines + [l], |lines| + w.number, |lines|);
    hide FeedsOf, AllAwaited, Awaited;
    forall c | c in s.children
      ensures ChildWired(after, c, w.pipe)
    {
      assert ChildOf(lines, s.next, c);
    }
    assert Waiting(w.pipe, w.number) in Prepare(s, l).pending;
    NewChildrenWired(s, l, w.pipe, after);
  }

  lemma OnlyFeed(lines: seq<Line>, target: int, line: nat)
    requires Producers(lines, target) == {line}
    ensures var f := FeedsOf(lines, target); f.all == {line} && f.outs <= {line} && f.errs <= {line}
  {}

  /** A line that finds no waiting pipe to join is the first to write for its target. */
  lemma OnlyProducer(lines: seq<Line>, s: State, l: Line)
    requires AllAwaited(lines, s.pending)
    requires l.Numbered? && l.count >= 1 && !Awaited(s.pending, l.count + 1)
    ensures Producers(lines + [l], |lines| + l.count) == {|lines|}
  {
    ProducersStep(lines, l, |lines| + l.count);
    OthersAwait(lines, s.pending, l.count);
  }

  lemma OthersAwait(lines: seq<Line>, pending: seq<Waiting>, count: int)
    requires AllAwaited(lines, pending) && count >= 1
    ensures Producers(lines, |lines| + count) != {} ==> Awaited(pending, count + 1)
  {
    if Producers(lines, |lines| + count) != {} {
      var t :| t in Producers(lines, |lines| + count);
      assert Awaited(pending, t + lines[t].count - |lines| + 1);
    }
  }

  lemma ChildrenStep(lines: seq<Line>, s: State, l: Line)
    requires Wired(lines, s)
    ensures var s1 := Next(s, l);
      && AllChildren(lines + [l], s1)
      && AllForked(lines + [l], s1.children)
  {
    var s1 := Next(s, l);
    PrepareShape(s, l);
    forall c | c in s1.children
      ensures ChildOf(lines + [l], s1.next, c)
    {
      if c in s.children {
        assert ChildOf(lines, s.next, c);
      } else {
        var i := NewChildIndex(s, l, c);
      }
    }
    forall t: nat, i: nat | t < |lines + [l]| && i < Stages((lines + [l])[t])
      ensures Forked(s1.children, t, i)
    {
      if t < |lines| {
        assert Forked(s.children, t, i);
        var c :| c in s.children && c.line == t && c.stage == i;
        assert c in s1.children;
      } else {
        NewChildFacts(s, l, i);
        assert NewChildren(s, l)[i] in s1.children;
      }
    }
  }

  lemma StillAwaited(s: State, l: Line, n: int)
    requires Sound(s) && Awaited(s.pending, n) && n >= 2
    ensures Awaited(Prepare(s, l).pending, n - 1)
  {
    SweepFacts(s.pending);
    var e :| e in s.pending && e.number == n;
    var kept := e.(number := n - 1);
    assert kept.(number := kept.number + 1) == e;
    assert kept in Keep(Ticked(s.pending));
    assert kept in Prepare(s, l).pending;
  }

  lemma NowAwaited(s: State, l: Line)
    requires Shape(s) && l.Numbered?
    ensures Awaited(Prepare(s, l).pending, l.count)
  {
    PrepareShape(s, l);
    assert Waiting(Prepare(s, l).out.pipe, l.count) in Prepare(s, l).pending;
  }

  lemma AwaitedStep(lines: seq<Line>, s: State, l: Line)
    requires Shape(s) && AllAwaited(lines, s.pending)
    ensures AllAwaited(lines + [l], Prepare(s, l).pending)
  {
    var more := lines + [l];
    forall t: nat | t < |more| && more[t].Numbered? && t + more[t].count >= |more|
      ensures Awaited(Prepare(s, l).pending, t + more[t].count - |more| + 1)
    {
      if t < |lines| {
        StillAwaited(s, l, t + lines[t].count - |lines| + 1);
      } else {
        NowAwaited(s, l);
      }
    }
  }

  lemma PipesStep(lines: seq<Line>, s: State, l: Line)
    requires Wired(lines, s)
    ensures AllWired(lines + [l], Next(s, l).pending, Next(s, l).children)
  {
    forall w | w in Prepare(s, l).pending && w.number >= 1
      ensures EntryWired(lines + [l], Next(s, l).children, w)
    {
      PendingOrigin(s, l, w);
      if w.(number := w.number + 1) in s.pending {
        OldPipeStep(lines, s, l, w);
      } else {
        NewPipeStep(lines, s, l, w);
      }
    }
  }

  lemma WiredStep(lines: seq<Line>, s: State, l: Line)
    requires Wired(lines, s)
    ensures Wired(lines + [l], Next(s, l))
  {
    NextShape(s, l);
    ChildrenStep(lines, s, l);
    AwaitedStep(lines, s, l);
    PipesStep(lines, s, l);
  }

  lemma {:induction false} RunWired(lines: seq<Line>)
    ensures Wired(lines, Run(lines))
  {
    hide Next;
    if lines != [] {
      var before := lines[..|lines| - 1];
      RunWired(before);
      WiredStep(before, Run(before), lines[|lines| - 1]);
      assert before + [lines[|lines| - 1]] == lines;
    }
  }

  lemma RunShape(lines: seq<Line>)
    ensures Shape(Run(lines)) && Run(lines).line == |lines|
  {
    RunWired(lines);
  }

  lemma KnownChild(lines: seq<Line>, c: Child)
    requires c in Run(lines).children
    ensures ChildOf(lines, Run(lines).next, c)
  {
    RunWired(lines);
  }
}
