/** The shell's loops, statement by statement, proved to compute Shell.Next. */
module ShellProgram {
  import opened Common
  import opened Descriptors
  import opened Shell
  import opened ShellInvariants

  /** hw2/2/number_pipe.cpp: a pipe with a countdown. */
  class NumberPipe {
    const pipe: nat
    var number: int

    constructor (pipe: nat, count: int)
      ensures this.pipe == pipe && number == count
    {
      this.pipe := pipe;
      number := count;
    }

    method IsPop() returns (pop: bool)
      modifies this
      ensures number == old(number) - 1
      ensures pop <==> number == 0
    {
      number := number - 1;
      pop := number == 0;
    }
  }

  function Values(q: seq<NumberPipe>): (r: seq<Waiting>)
    reads q
    ensures |r| == |q|
  {
    seq(|q|, i requires 0 <= i < |q| reads q => Waiting(q[i].pipe, q[i].number))
  }

  ghost predicate NoAlias(q: seq<NumberPipe>) {
    forall i, j :: 0 <= i < j < |q| ==> q[i] != q[j]
  }

  /** The objects of `q` hold the values `v`, those from index `i` on counted down once. */
  ghost predicate Aged(q: seq<NumberPipe>, v: seq<Waiting>, i: int)
    reads q
  {
    && |q| == |v|
    && (forall k :: 0 <= k < |q| ==> q[k].pipe == v[k].pipe)
    && (forall k :: 0 <= k < |q| && k < i ==> q[k].number == v[k].number)
    && (forall k :: 0 <= k < |q| && k >= i ==> q[k].number == v[k].number - 1)
  }

  /** The objects from index `i` of `q` on that a sweep keeps, and those it moves out (last first),
      when the countdowns before it are those of `v`. */
  ghost function Kept(q: seq<NumberPipe>, v: seq<Waiting>, i: nat): seq<NumberPipe>
    requires i <= |q| == |v|
    decreases |q| - i
  {
    if i == |q| then []
    else if v[i].number == 1 then Kept(q, v, i + 1)
    else [q[i]] + Kept(q, v, i + 1)
  }

  ghost function Moved(q: seq<NumberPipe>, v: seq<Waiting>, i: nat): seq<NumberPipe>
    requires i <= |q| == |v|
    decreases |q| - i
  {
    if i == |q| then []
    else if v[i].number == 1 then Moved(q, v, i + 1) + [q[i]]
    else Moved(q, v, i + 1)
  }

  /** Erasing index `i` from q[..i + 1] + rest, or leaving it there. */
  lemma EraseAt<T>(q: seq<T>, rest: seq<T>, i: nat)
    requires i < |q|
    ensures var list := q[..i + 1] + rest;
      && list[i] == q[i]
      && list[..i] + list[i + 1..] == q[..i] + rest
      && list == q[..i] + ([q[i]] + rest)
  {}

  lemma {:induction false} KeptFrom(q: seq<NumberPipe>, v: seq<Waiting>, i: nat)
    requires i <= |q| == |v|
    ensures forall o :: o in Kept(q, v, i) ==> o in q[i..]
    ensures NoAlias(q) ==> NoAlias(Kept(q, v, i))
    decreases |q| - i
  {
    if i < |q| {
      KeptFrom(q, v, i + 1);
      assert q[i..] == [q[i]] + q[i + 1..];
      assert NoAlias(q) ==> q[i] !in q[i + 1..];
    }
  }

  /** Once every object of `q` was counted down from `v`, the kept and moved ones show the swept list. */
  lemma {:induction false} SweptValues(q: seq<NumberPipe>, v: seq<Waiting>, i: nat)
    requires i <= |q| == |v|
    requires Aged(q, v, 0)
    ensures Values(Kept(q, v, i)) == Keep(Ticked(v[i..]))
    ensures Values(Moved(q, v, i)) == Pop(Ticked(v[i..]))
    decreases |q| - i
  {
    if i < |q| {
      SweptValues(q, v, i + 1);
      assert Ticked(v[i..])[1..] == Ticked(v[i + 1..]);
      assert Ticked(v[i..])[0] == Waiting(q[i].pipe, q[i].number);
    }
  }

  /** The shell's table through stage `i` of a plain pipeline: at the fork, and after its closes. */
  lemma PlainStep(f: Table, d: Option<nat>, b: nat, i: nat)
    requires Unopened(f, b) && (d.Some? ==> d.value < b)
    ensures var cur := if i == 0 then d else None;
      var forked := CloseWrite(OpenPipe(AfterStages(if i == 0 then f else CloseBoth(f, d), b, i), b + i), cur);
      var closed := Close(CloseBoth(forked, cur), Fd(Write(b + i)));
      && forked == AtFork(if i == 0 then CloseWrite(f, d) else CloseBoth(f, d), b, i)
      && (if i > 0 then Close(closed, Fd(Read(b + i - 1))) else closed) == AfterStages(CloseBoth(f, d), b, i + 1)
  {}

  /** The same for a numbered pipeline. */
  lemma NumberedStep(f: Table, d: Option<nat>, b: nat, i: nat)
    requires Unopened(f, b) && (d.Some? ==> d.value < b)
    ensures var g := CloseWrite(f, d);
      var closed := Close(OpenPipe(AfterStages(g, b, i), b + i), Fd(Write(b + i)));
      var shut := if i > 0 then Close(closed, Fd(Read(b + i - 1))) else closed;
      && OpenPipe(AfterStages(g, b, i), b + i) == AtFork(g, b, i)
      && shut == AfterStages(g, b, i + 1)
      && CloseBoth(shut, d) == AfterStages(CloseBoth(f, d), b, i + 1)
  {}

  lemma StageListStep(before: seq<Child>, line: nat, base0: Table, base1: Table, d: Option<nat>, out: End, err: bool,
                      b: nat, n: nat, k: nat, flags: seq<Flags>)
    requires n < k
    ensures before + StageList(line, base0, base1, d, out, err, b, n + 1, k, flags)
         == before + StageList(line, base0, base1, d, out, err, b, n, k, flags)
            + [Child(line, n, k,
                 StageChild(AtFork(if n == 0 then base0 else base1, b, n), d, out, err, b, n, k, FlagsAt(flags, n)))]
  {}

  /** One countdown of the sweep, at index `i` of the list `q`. */
  method CountDown(p: NumberPipe, ghost q: seq<NumberPipe>, ghost v: seq<Waiting>, ghost i: nat)
      returns (pop: bool)
    requires NoAlias(q) && i < |q| && q[i] == p && Aged(q, v, i + 1)
    modifies p
    ensures Aged(q, v, i)
    ensures pop <==> v[i].number == 1
  {
    pop := p.IsPop();
  }

  class Session {
    var pending: seq<NumberPipe>
    var next: nat
    var fds: Table
    var line: nat            // how many lines have run
    var children: seq<Child> // every process forked so far

    ghost function Snapshot(): State
      reads this, pending
    {
      State(line, next, fds, Values(pending), children)
    }

    ghost predicate Valid()
      reads this, pending
    {
      NoAlias(pending) && Sound(Snapshot())
    }

    constructor ()
      ensures Valid() && Snapshot() == Init()
    {
      pending, next, line, children := [], 0, 0, [];
      fds := map[Std(0) := Terminal, Std(1) := Terminal, Std(2) := Terminal, Fd(Socket) := Socket];
    }

    /** The session is in state `s`, except that the list was swept. */
    ghost predicate SweptFrom(s: State)
      reads this, pending
    {
      && NoAlias(pending)
      && Snapshot() == s.(pending := Keep(Ticked(s.pending)))
      && Sound(s)
    }

    /** One non-empty input line. */
    method RunLine(l: Line)
      requires Valid()
      modifies this, pending
      ensures Valid() && Snapshot() == Next(old(Snapshot()), l)
    {
      ghost var s := Snapshot();
      NextSound(s, l);
      var cur := Deliver();
      match l {
        case Builtin =>
        case Plain(k, flags) => RunPlain(s, cur, k, flags);
        case Numbered(k, n, err, flags) => RunToPipe(s, cur, k, n, err, flags);
      }
      line := line + 1;
    }

    /** The sweep, seen from the line: `cur` is the one pipe that is due, if any. */
    method Deliver() returns (cur: Option<nat>)
      requires Valid()
      modifies this`pending, pending
      ensures SweptFrom(old(Snapshot())) && cur == Delivered(old(Snapshot()).pending)
    {
      var delivered := Sweep();
      cur := if |delivered| == 0 then None else Some(delivered[0].pipe);
    }

    /** Picks the pipe this line writes to. */
    method Aim(ghost s: State, ghost k: pos, n: int, ghost err: bool, ghost flags: seq<Flags>) returns (q: nat)
      requires SweptFrom(s)
      modifies this`pending, this`fds, this`next
      ensures NoAlias(pending)
      ensures var u := Prepare(s, Numbered(k, n, err, flags));
        && Values(pending) == u.pending && fds == u.fds && next == u.next && u.out == Write(q)
        && Unopened(fds, next) && s.next <= next
    {
      PrepareSound(s, Numbered(k, n, err, flags));
      q := ShareOrCreate(n);
    }

    /** An external command or pipeline that ends at the client. */
    method RunPlain(ghost s: State, cur: Option<nat>, k: pos, flags: seq<Flags>)
      requires SweptFrom(s) && cur == Delivered(s.pending)
      modifies this`fds, this`children, this`next
      ensures Snapshot() == Next(s, Plain(k, flags)).(line := line)
    {
      DeliveredIsOld(s);
      if k == 1 {
        RunSingle(cur, FlagsAt(flags, 0));
      } else {
        RunPipeline(cur, k, flags);
      }
    }

    /** A command or pipeline in front of |n or !n. */
    method RunToPipe(ghost s: State, cur: Option<nat>, k: pos, n: int, err: bool, flags: seq<Flags>)
      requires SweptFrom(s) && cur == Delivered(s.pending)
      modifies this`pending, this`fds, this`children, this`next
      ensures NoAlias(pending)
      ensures Snapshot() == Next(s, Numbered(k, n, err, flags)).(line := line)
    {
      DeliveredIsOld(s);
      ghost var u := Prepare(s, Numbered(k, n, err, flags));
      var q := Aim(s, k, n, err, flags);
      hide Prepare, Delivered, Keep, Ticked, CloseBoth, CloseWrite, AfterStages, StageList, NumberedChild, SingleChild;
      if k == 1 {
        RunNumbered(cur, q, err, FlagsAt(flags, 0));
      } else {
        RunNumberedPipeline(cur, q, err, k, flags);
      }
    }

    /** Counts every waiting pipe down, last one first, and moves the ones that reach zero out. */
    method Sweep() returns (cur: seq<NumberPipe>)
      requires NoAlias(pending)
      modifies this`pending, pending
      ensures Values(pending) == Keep(Ticked(old(Values(pending))))
      ensures Values(cur) == Pop(Ticked(old(Values(pending))))
      ensures NoAlias(pending) && forall o :: o in pending ==> o in old(pending)
    {
      ghost var q0, v0 := pending, Values(pending);
      cur := SweepObjects(v0);
      assert v0[0..] == v0;
      SweptValues(q0, v0, 0);
      KeptFrom(q0, v0, 0);
    }

    method SweepObjects(ghost v: seq<Waiting>) returns (cur: seq<NumberPipe>)
      requires NoAlias(pending)
      requires Aged(pending, v, |pending|)
      modifies this`pending, pending
      ensures Aged(old(pending), v, 0)
      ensures pending == Kept(old(pending), v, 0) && cur == Moved(old(pending), v, 0)
    {
      cur := [];
      ghost var q := pending;
      var i := |pending| - 1;
      while i >= 0
        invariant -1 <= i < |q|
        invariant Aged(q, v, i + 1)
        invariant pending == q[..i + 1] + Kept(q, v, i + 1)
        invariant cur == Moved(q, v, i + 1)
      {
        EraseAt(q, Kept(q, v, i + 1), i);
        var pop := CountDown(pending[i], q, v, i);
        if pop {
          cur := cur + [pending[i]];
          pending := pending[..i] + pending[i + 1..];
        }
        i := i - 1;
      }
    }


    /** The pipe for countdown `n`: the waiting one that has it, or a new one. */
    method ShareOrCreate(n: int) returns (q: nat)
      requires NoAlias(pending)
      modifies this`pending, this`fds, this`next
      ensures var v := old(Values(pending)); var i := Find(v, n);
        if i < |v| then
          q == v[i].pipe && pending == old(pending) && fds == old(fds) && next == old(next)
        else
          && q == old(next) && next == q + 1 && fds == OpenPipe(old(fds), q)
          && |pending| == |v| + 1 && pending[..|v|] == old(pending) && fresh(pending[|v|])
          && pending[|v|].pipe == q && pending[|v|].number == n
    {
      ghost var v := Values(pending);
      var i := 0;
      while i < |pending|
        invariant 0 <= i <= |pending|
        invariant forall j :: 0 <= j < i ==> v[j].number != n
      {
        assert v[i].number == pending[i].number;
        if n == pending[i].number {
          return pending[i].pipe;
        }
        i := i + 1;
      }
      q := next;
      fds := OpenPipe(fds, q);
      next := next + 1;
      var p := new NumberPipe(q, n);
      pending := pending + [p];
    }

    /** A lone external command. */
    method RunSingle(cur: Option<nat>, x: Flags)
      modifies this`fds, this`children
      ensures fds == CloseBoth(old(fds), cur)
      ensures children == old(children) + [Child(line, 0, 1, SingleChild(CloseWrite(old(fds), cur), cur, x))]
    {
      fds := CloseWrite(fds, cur);
      children := children + [Child(line, 0, 1, SingleChild(fds, cur, x))];
      fds := CloseBoth(fds, cur);
    }

    /** One command in front of the numbered pipe `q`. */
    method RunNumbered(cur: Option<nat>, q: nat, err: bool, x: Flags)
      modifies this`fds, this`children
      ensures fds == CloseBoth(old(fds), cur)
      ensures children == old(children) + [Child(line, 0, 1, NumberedChild(CloseWrite(old(fds), cur), cur, q, err, x))]
    {
      fds := CloseWrite(fds, cur);
      children := children + [Child(line, 0, 1, NumberedChild(fds, cur, q, err, x))];
      fds := CloseBoth(fds, cur);
    }

    /** Opens the pipe of the next stage, drops the write end of `cur`, and forks that stage. */
    method ForkStage(pi: seq<nat>, cur: Option<nat>, delivered: Option<nat>, out: End, err: bool, k: nat, x: Flags)
        returns (pi1: seq<nat>)
      requires |pi| < k
      modifies this`fds, this`children, this`next
      ensures pi1 == pi + [old(next)] && next == old(next) + 1
      ensures fds == CloseWrite(OpenPipe(old(fds), old(next)), cur)
      ensures children == old(children) + [Child(line, |pi|, k, StageChild(fds, delivered, out, err, pi1[0], |pi|, k, x))]
    {
      fds := OpenPipe(fds, next);
      pi1 := pi + [next];
      next := next + 1;
      fds := CloseWrite(fds, cur);
      children := children + [Child(line, |pi|, k, StageChild(fds, delivered, out, err, pi1[0], |pi|, k, x))];
    }

    /** The shell's closes after the fork of the latest stage. */
    method CloseStage(pi: seq<nat>)
      requires pi != []
      modifies this`fds
      ensures var closed := Close(old(fds), Fd(Write(pi[|pi| - 1])));
        fds == if |pi| > 1 then Close(closed, Fd(Read(pi[|pi| - 2]))) else closed
    {
      var i := |pi| - 1;
      fds := Close(fds, Fd(Write(pi[i])));
      if i > 0 {
        fds := Close(fds, Fd(Read(pi[i - 1])));
      }
    }

    /** `k` chained commands; the last one writes to the client. */
    method RunPipeline(delivered: Option<nat>, k: nat, flags: seq<Flags>)
      requires k > 1 && Unopened(fds, next) && (delivered.Some? ==> delivered.value < next)
      modifies this`fds, this`children, this`next
      ensures next == old(next) + k
      ensures fds == AfterStages(CloseBoth(old(fds), delivered), old(next), k)
      ensures children == old(children) + StageList(line, CloseWrite(old(fds), delivered), CloseBoth(old(fds), delivered),
        delivered, Socket, false, old(next), k, k, flags)
    {
      hide CloseWrite, CloseBoth, Close, OpenPipe, AtFork, StageChild;
      ghost var f0, b, c0 := fds, next, children;
      var cur := delivered;
      var pi: seq<nat> := [];
      var i := 0;
      while i < k
        invariant 0 <= i <= k && next == b + i
        invariant |pi| == i && forall j :: 0 <= j < i ==> pi[j] == b + j
        invariant cur == if i == 0 then delivered else None
        invariant fds == AfterStages(if i == 0 then f0 else CloseBoth(f0, delivered), b, i)
        invariant children == c0 + StageList(line, CloseWrite(f0, delivered), CloseBoth(f0, delivered),
          delivered, Socket, false, b, i, k, flags)
      {
        PlainStep(f0, delivered, b, i);
        StageListStep(c0, line, CloseWrite(f0, delivered), CloseBoth(f0, delivered), delivered, Socket, false, b, i, k, flags);
        pi := ForkStage(pi, cur, delivered, Socket, false, k, FlagsAt(flags, i));
        fds := CloseBoth(fds, cur);
        cur := None;
        CloseStage(pi);
        i := i + 1;
      }
    }

    /** `k` chained commands; the last one writes to the numbered pipe `q`. */
    method RunNumberedPipeline(delivered: Option<nat>, q: nat, err: bool, k: nat, flags: seq<Flags>)
      requires k > 1 && Unopened(fds, next) && (delivered.Some? ==> delivered.value < next)
      modifies this`fds, this`children, this`next
      ensures next == old(next) + k
      ensures fds == AfterStages(CloseBoth(old(fds), delivered), old(next), k)
      ensures children == old(children) + StageList(line, CloseWrite(old(fds), delivered), CloseWrite(old(fds), delivered),
        delivered, Write(q), err, old(next), k, k, flags)
    {
      hide CloseBoth, Close, OpenPipe, AtFork, StageChild;
      ghost var f0, b, c0 := fds, next, children;
      var pi: seq<nat> := [];
      fds := CloseWrite(fds, delivered);
      var i := 0;
      while i < k
        invariant 0 <= i <= k && next == b + i
        invariant |pi| == i && forall j :: 0 <= j < i ==> pi[j] == b + j
        invariant fds == AfterStages(if i < k then CloseWrite(f0, delivered) else CloseBoth(f0, delivered), b, i)
        invariant children == c0 + StageList(line, CloseWrite(f0, delivered), CloseWrite(f0, delivered),
          delivered, Write(q), err, b, i, k, flags)
      {
        NumberedStep(f0, delivered, b, i);
        StageListStep(c0, line, CloseWrite(f0, delivered), CloseWrite(f0, delivered), delivered, Write(q), err, b, i, k, flags);
        pi := ForkStage(pi, None, delivered, Write(q), err, k, FlagsAt(flags, i));
        CloseStage(pi);
        if i == k - 1 {
          fds := CloseBoth(fds, delivered);
        }
        i := i + 1;
      }
    }
  }
}
