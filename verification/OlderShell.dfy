/** The delivered list of the first server's shell (hw2/1/shell.cpp).  There it is declared outside the
    input loop, so what a built-in line does not take out is still in it when the next line comes; an
    external line reads the first pipe of the list and takes pipes out at its end. */
module OlderShell {
  import opened Common
  import opened Descriptors
  import opened Shell
  import opened ShellInvariants
  import opened ForkFacts
  import opened ShellRuns
  import opened ShellTheorems

  /** What the sweep of the next line adds to the list: the pipe that is due, if any. */
  ghost function Due(lines: seq<Line>): seq<nat> {
    var d := Delivered(Run(lines).pending);
    if d.Some? then [d.value] else []
  }

  /** How many pipes a line takes out as long as there are some: one a command in a plain line, one in all
      in front of a numbered pipe. */
  function Pops(l: Line): nat {
    match l
    case Builtin => 0
    case Plain(k, _) => k
    case Numbered(_, _, _, _) => 1
  }

  function Less(n: nat, k: nat): nat {
    if k <= n then n - k else 0
  }

  /** The list `cur` after these lines. */
  ghost function Cur(lines: seq<Line>): seq<nat> {
    if lines == [] then []
    else
      var front := lines[..|lines| - 1];
      var cur := Cur(front) + Due(front);
      cur[..Less(|cur|, Pops(lines[|lines| - 1]))]
  }

  /** The pipe that an external line behind these lines takes its input from. */
  ghost function TakesInput(lines: seq<Line>): Option<nat> {
    var cur := Cur(lines) + Due(lines);
    if cur == [] then None else Some(cur[0])
  }

  /** How many pipes are left over after these lines, counted by the lines alone. */
  function Backlog(lines: seq<Line>): nat {
    if lines == [] then 0
    else
      var front := lines[..|lines| - 1];
      Less(Backlog(front) + (if Producers(front, |front|) != {} then 1 else 0), Pops(lines[|lines| - 1]))
  }

  lemma {:induction false} CurLength(lines: seq<Line>)
    ensures |Cur(lines)| == Backlog(lines)
  {
    if lines != [] {
      var front := lines[..|lines| - 1];
      CurLength(front);
      DueIff(front);
      hide Run, Delivered, Producers;
    }
  }

  lemma CurOrigin(front: seq<Line>, l: Line, q: nat)
    requires q in Cur(front + [l])
    ensures q in Cur(front) || Delivered(Run(front).pending) == Some(q)
  {
    assert (front + [l])[..|front|] == front;
    hide Run, Delivered;
  }

  /** What was delivered once is not waiting any more. */
  lemma {:induction false} CurIsSettled(lines: seq<Line>, q: nat)
    requires q in Cur(lines)
    ensures Settled(Run(lines), q)
  {
    hide *;
    CurIsLater(lines, q);
    var front, l := lines[..|lines| - 1], lines[|lines| - 1];
    assert front + [l] == lines;
    if q in Cur(front) {
      CurIsSettled(front, q);
    }
    CurStep(front, l, q);
  }

  lemma CurIsLater(lines: seq<Line>, q: nat)
    requires q in Cur(lines)
    ensures lines != []
  {}

  lemma CurStep(front: seq<Line>, l: Line, q: nat)
    requires q in Cur(front + [l]) && (q in Cur(front) ==> Settled(Run(front), q))
    ensures Settled(Run(front + [l]), q)
  {
    CurOrigin(front, l, q);
    RunSnoc(front, l);
    RunShape(front);
    hide *;
    if q in Cur(front) {
      SettledStep(Run(front), l, q);
    } else {
      DeliveryStep(front, l, q);
    }
  }

  /** An external line of that shell reads the pipe that is due for it, and nothing when none is, iff no
      pipe was left over before it. */
  lemma ReadsDueIff(lines: seq<Line>)
    ensures TakesInput(lines) == Delivered(Run(lines).pending) <==> Backlog(lines) == 0
  {
    CurLength(lines);
    if Cur(lines) != [] {
      var q := Cur(lines)[0];
      CurIsSettled(lines, q);
      RunShape(lines);
      DeliveredIff(Run(lines).pending, q);
      hide Run, Delivered;
      assert TakesInput(lines) == Some(q);
    }
  }

  /** Nothing is left over at any time of the run. */
  ghost predicate AllClear(lines: seq<Line>) {
    forall n: nat :: n <= |lines| ==> Backlog(lines[..n]) == 0
  }

  /** Line `n` of the run is built in and is due a pipe. */
  ghost predicate BuiltinIsDue(lines: seq<Line>, n: nat) {
    n < |lines| && lines[n].Builtin? && Producers(lines[..n], n) != {}
  }

  ghost predicate NoneDue(lines: seq<Line>) {
    forall n: nat :: !BuiltinIsDue(lines, n)
  }

  lemma ClearStep(front: seq<Line>, l: Line)
    ensures AllClear(front + [l]) <==> AllClear(front) && Backlog(front + [l]) == 0
  {
    var lines := front + [l];
    assert lines[..|lines|] == lines;
    assert forall n: nat :: n <= |front| ==> lines[..n] == front[..n];
    hide Backlog;
    if AllClear(lines) {
      forall n: nat | n <= |front|
        ensures Backlog(front[..n]) == 0
      {
        assert Backlog(lines[..n]) == 0;
      }
    }
  }

  lemma DueStep(front: seq<Line>, l: Line)
    ensures NoneDue(front + [l]) <==> NoneDue(front) && !(l.Builtin? && Producers(front, |front|) != {})
  {
    var lines := front + [l];
    assert lines[..|front|] == front;
    hide Producers;
    forall n: nat | n < |front|
      ensures BuiltinIsDue(lines, n) <==> BuiltinIsDue(front, n)
    {
      assert lines[..n] == front[..n];
    }
    assert BuiltinIsDue(lines, |front|) <==> l.Builtin? && Producers(front, |front|) != {};
    hide BuiltinIsDue;
    if NoneDue(lines) {
      forall n: nat
        ensures !BuiltinIsDue(front, n)
      {
        OnlyInside(front, n);
      }
    } else {
      var n :| BuiltinIsDue(lines, n);
      OnlyInside(lines, n);
    }
  }

  lemma OnlyInside(lines: seq<Line>, n: nat)
    ensures BuiltinIsDue(lines, n) ==> n < |lines|
  {}

  lemma BacklogStep(front: seq<Line>, l: Line)
    requires Backlog(front) == 0
    ensures Backlog(front + [l]) == 0 <==> !(l.Builtin? && Producers(front, |front|) != {})
  {
    assert (front + [l])[..|front|] == front;
    hide Producers;
  }

  /** Over a whole run: nothing is ever left over, so every external line reads what is due for it, iff no
      built-in line is due a pipe. */
  lemma {:induction false} InOrderIff(lines: seq<Line>)
    ensures AllClear(lines) <==> NoneDue(lines)
  {
    if lines != [] {
      var front, l := lines[..|lines| - 1], lines[|lines| - 1];
      InOrderIff(front);
      assert lines == front + [l];
      hide Backlog, Producers, BuiltinIsDue;
      ClearStep(front, l);
      DueStep(front, l);
      if AllClear(front) {
        assert front[..|front|] == front;
        BacklogStep(front, l);
      }
    }
  }

  /** The failing run: `ls |1`, a built-in command, and then any external line, which is due nothing and
      reads what was meant for the line before it. */
  lemma LateDelivery()
    ensures var lines := [Numbered(1, 1, false, []), Builtin];
      Backlog(lines) == 1 && Delivered(Run(lines).pending) == None && TakesInput(lines) == Some(0)
  {
    var l := Numbered(1, 1, false, []);
    var lines := [l, Builtin];
    BuiltinLeakHappens([]);
    DueIff(lines);
    assert lines[..1] == [l] && [l][..0] == [];
    assert 0 in Producers([l], 1);
    assert Producers([], 0) == {} && Producers(lines, 2) == {};
    DueIff([]);
    CurLength([l]);
    assert Backlog([l]) == 0 && Backlog(lines) == 1;
    assert Cur(lines) == Due([l]);
    hide Run, Delivered, Producers;
  }

  /** What each kind of line leaves over: a built-in line takes nothing out, an external one as many pipes as it has
      commands, if there are as many, and a numbered one a single pipe. */
  lemma BacklogIs(lines: seq<Line>, l: Line)
    ensures var n := Backlog(lines) + (if Producers(lines, |lines|) != {} then 1 else 0);
      Backlog(lines + [l]) ==
        if l.Builtin? then n
        else if l.Plain? then (if l.stages <= n then n - l.stages else 0)
        else (if 1 <= n then n - 1 else 0)
  {
    assert (lines + [l])[..|lines|] == lines;
    hide Producers;
  }

  /** Pipes are taken out at the end of the list but read at its front: as long as one is left over, every external
      line reads the same pipe, the oldest. */
  lemma OldestIsReadAgain(lines: seq<Line>, l: Line)
    requires Backlog(lines + [l]) > 0
    ensures TakesInput(lines + [l]) == TakesInput(lines) != None
  {
    CurLength(lines + [l]);
    assert (lines + [l])[..|lines|] == lines;
    hide Due, Run;
  }
}
