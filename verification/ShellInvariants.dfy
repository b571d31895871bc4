/** What every line keeps: the waiting list stays duplicate-free and its pipes stay below `next`. */
module ShellInvariants {
  import opened Common
  import opened Descriptors
  import opened Shell

  ghost predicate Sound(s: State) {
    && Distinct(s.pending)
    && (forall k :: 0 <= k < |s.pending| ==> s.pending[k].pipe < s.next)
    && Unopened(s.fds, s.next)
  }

  lemma {:induction false} KeepMembers(q: seq<Waiting>)
    ensures forall e :: e in Keep(q) <==> e in q && e.number != 0
    ensures Distinct(q) ==> Distinct(Keep(q))
  {
    if q != [] {
      KeepMembers(q[1..]);
      assert Distinct(q) ==> Distinct(q[1..]);
      assert forall e :: e in q <==> e == q[0] || e in q[1..];
      assert q == [q[0]] + q[1..];
    }
  }

  lemma {:induction false} PopMembers(q: seq<Waiting>)
    ensures forall e :: e in Pop(q) <==> e in q && e.number == 0
    ensures (forall e :: e in q ==> e.number != 0) ==> Pop(q) == []
    ensures Distinct(q) ==> |Pop(q)| <= 1
  {
    if q != [] {
      PopMembers(q[1..]);
      assert Distinct(q) ==> Distinct(q[1..]);
      assert forall e :: e in q <==> e == q[0] || e in q[1..];
      assert Distinct(q) && q[0].number == 0 ==> forall e :: e in q[1..] ==> e.number != 0;
    }
  }

  /** The sweep counts every entry down once, keeps exactly the ones that are not due, and delivers
      at most one pipe: the one whose countdown was 1. */
  lemma SweepFacts(q: seq<Waiting>)
    requires Distinct(q)
    ensures Distinct(Keep(Ticked(q)))
    ensures forall e :: e in Keep(Ticked(q)) <==> e.number != 0 && e.(number := e.number + 1) in q
    ensures |Pop(Ticked(q))| <= 1
    ensures forall p: nat :: Delivered(q) == Some(p) <==> Waiting(p, 1) in q
  {
    var t := Ticked(q);
    KeepMembers(t);
    PopMembers(t);
    TickedMembers(q);
    hide Ticked, Keep, Pop, Distinct;
    forall p: nat
      ensures Delivered(q) == Some(p) <==> Waiting(p, 1) in q
    {
      assert Waiting(p, 0) in t <==> Waiting(p, 0).(number := 1) in q;
      OnlyPopped(t, p);
    }
  }

  lemma OnlyPopped(t: seq<Waiting>, p: nat)
    requires Distinct(t)
    ensures Waiting(p, 0) in t <==> Pop(t) != [] && Pop(t)[0].pipe == p
  {
    PopMembers(t);
    hide Pop, Distinct;
    if Pop(t) != [] {
      assert Pop(t)[0] in Pop(t);
      assert Pop(t)[0] == Waiting(Pop(t)[0].pipe, 0);
    }
    assert Waiting(p, 0) in t <==> Waiting(p, 0) in Pop(t);
  }

  lemma TickedMembers(q: seq<Waiting>)
    requires Distinct(q)
    ensures Distinct(Ticked(q))
    ensures forall e :: e in Ticked(q) <==> e.(number := e.number + 1) in q
  {
    var t := Ticked(q);
    forall e: Waiting
      ensures e in t <==> e.(number := e.number + 1) in q
    {
      if e in t {
        var i :| 0 <= i < |t| && t[i] == e;
        assert q[i] == e.(number := e.number + 1);
      }
      if e.(number := e.number + 1) in q {
        var i :| 0 <= i < |q| && q[i] == e.(number := e.number + 1);
        assert t[i] == e;
      }
    }
  }

  lemma DeliveredIff(q: seq<Waiting>, p: nat)
    requires Distinct(q)
    ensures Delivered(q) == Some(p) <==> Waiting(p, 1) in q
  {
    SweepFacts(q);
  }

  lemma DeliveredIsOld(s: State)
    requires Sound(s)
    ensures var d := Delivered(s.pending);
      d.Some? ==> d.value < s.next && forall e :: e in Keep(Ticked(s.pending)) ==> e.pipe != d.value
  {
    SweepFacts(s.pending);
    var d := Delivered(s.pending);
    if d.Some? {
      var w := Waiting(d.value, 1);
      assert w in s.pending;
      forall e | e in Keep(Ticked(s.pending))
        ensures e.pipe != d.value
      {
        assert e.(number := e.number + 1) in s.pending;
      }
    }
  }

  ghost predicate PipesBelow(q: seq<Waiting>, next: nat) {
    forall k :: 0 <= k < |q| ==> q[k].pipe < next
  }

  lemma KeptBelow(q: seq<Waiting>, next: nat)
    requires Distinct(q) && PipesBelow(q, next)
    ensures PipesBelow(Keep(Ticked(q)), next)
  {
    SweepFacts(q);
    hide Keep, Ticked, Delivered;
    var t := Keep(Ticked(q));
    forall k | 0 <= k < |t|
      ensures t[k].pipe < next
    {
      assert t[k] in t;
      assert t[k].(number := t[k].number + 1) in q;
    }
  }

  lemma OneMoreEntry(q: seq<Waiting>, n: int, next: nat)
    requires Distinct(q) && PipesBelow(q, next) && Find(q, n) == |q|
    ensures Distinct(q + [Waiting(next, n)]) && PipesBelow(q + [Waiting(next, n)], next + 1)
  {}

  lemma PrepareSound(s: State, l: Line)
    requires Sound(s)
    ensures var u := Prepare(s, l);
      Sound(State(s.line, u.next, u.fds, u.pending, [])) && u.next >= s.next
  {
    SweepFacts(s.pending);
    KeptBelow(s.pending, s.next);
    hide Keep, Ticked, Delivered, Distinct, Find;
    var q := Keep(Ticked(s.pending));
    if l.Numbered? && Find(q, l.count) == |q| {
      OneMoreEntry(q, l.count, s.next);
    }
  }

  lemma NextSound(s: State, l: Line)
    requires Sound(s)
    ensures Sound(Next(s, l))
  {
    PrepareSound(s, l);
  }

  lemma {:induction false} RunSound(lines: seq<Line>)
    ensures Sound(Run(lines)) && Run(lines).line == |lines|
  {
    if lines != [] {
      RunSound(lines[..|lines| - 1]);
      NextSound(Run(lines[..|lines| - 1]), lines[|lines| - 1]);
    }
  }
}
