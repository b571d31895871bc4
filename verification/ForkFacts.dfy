/** What one line leaves behind: the shell's own table, and every table it forks. */
module ForkFacts {
  import opened Common
  import opened Descriptors
  import opened Shell
  import opened ShellInvariants

  // ----- Tables ---------------------------------------------------------------------------------

  /** The shell's table: tidy, nothing unopened, the client's socket open, and no pipe on a standard slot. */
  ghost predicate ShellTable(t: Table, next: nat) {
    && Tidy(t) && Below(t, next) && Fd(Socket) in t && Std(0) in t && Std(1) in t && Std(2) in t
    && forall n: nat :: Std(n) in t ==> !IsPipeEnd(t[Std(n)])
  }

  lemma TableUnopened(t: Table, next: nat)
    requires Tidy(t) && Below(t, next)
    ensures Unopened(t, next)
  {
    forall e | Fd(e) in t && IsPipeEnd(e)
      ensures e.pipe < next
    {
      assert t[Fd(e)] == e;
    }
  }

  lemma OpenPipeTable(t: Table, next: nat)
    requires ShellTable(t, next)
    ensures ShellTable(OpenPipe(t, next), next + 1)
  {}

  lemma CloseTable(t: Table, next: nat, d: Option<nat>)
    requires ShellTable(t, next)
    ensures ShellTable(CloseWrite(t, d), next) && ShellTable(CloseBoth(t, d), next)
  {
    hide ShellTable, Close;
    if d.Some? {
      CloseFdFacts(t, next, Write(d.value));
      CloseFdFacts(t, next, Read(d.value));
      CloseFdFacts(Close(t, Fd(Read(d.value))), next, Write(d.value));
    }
  }

  lemma AfterStagesTable(t: Table, first: nat, i: nat)
    requires ShellTable(t, first)
    ensures ShellTable(AfterStages(t, first, i), first + i)
  {}

  /** Redirecting a standard slot to an open end changes nothing else. */
  lemma Dup2Facts(t: Table, e: End, n: nat, limit: nat)
    requires Tidy(t) && Below(t, limit) && Fd(e) in t && (e.Read? ==> n == 0)
    ensures var c := Dup2(t, Fd(e), Std(n));
      && Tidy(c) && Below(c, limit)
      && c.Keys == t.Keys + {Std(n)} && c[Std(n)] == e
      && forall s :: s in t && s != Std(n) ==> c[s] == t[s]
  {}

  lemma CloseFdFacts(t: Table, next: nat, e: End)
    requires ShellTable(t, next) && IsPipeEnd(e)
    ensures ShellTable(Close(t, Fd(e)), next)
  {}

  /** Moving something that is no pipe end to a standard slot changes that slot only. */
  lemma RedirectFacts(t: Table, on: bool, n: nat, e: End, limit: nat)
    requires Tidy(t) && Below(t, limit) && !IsPipeEnd(e) && Std(n) in t
    ensures var c := Redirect(t, on, n, e);
      && Tidy(c) && Below(c, limit) && c.Keys == t.Keys
      && c[Std(n)] == (if on then e else t[Std(n)])
      && forall s :: s in t && s != Std(n) ==> c[s] == t[s]
  {}

  /** The last things a child does, in the order of the source. */
  function Last(t: Table, refusable: bool, x: Flags): Table {
    Exec(if refusable then Refuse(t, x) else t, x)
  }

  lemma LastFacts(t: Table, refusable: bool, x: Flags, limit: nat)
    requires Tidy(t) && Below(t, limit) && Std(0) in t && Std(1) in t && Std(2) in t
    ensures var c := Last(t, refusable, x);
      && Tidy(c) && Below(c, limit) && c.Keys == t.Keys
      && c[Std(0)] == (if x.inBad && refusable then Null else t[Std(0)])
      && c[Std(1)] == (if x.file then File else if x.outBad && refusable then Null else t[Std(1)])
      && c[Std(2)] == t[Std(2)]
  {
    var r := if refusable then Refuse(t, x) else t;
    if refusable {
      RedirectFacts(t, x.inBad, 0, Null, limit);
      RedirectFacts(Redirect(t, x.inBad, 0, Null), x.outBad, 1, Null, limit);
    }
    RedirectFacts(r, x.file, 1, File, limit);
    hide Redirect, Tidy, Below;
  }

  /** The redirections a stage makes once its input is set up. */
  lemma OutputFacts(t: Table, target: End, err: bool, limit: nat)
    requires Tidy(t) && Below(t, limit) && Fd(target) in t && Fd(Socket) in t && !target.Read?
    ensures var c := StageOutput(t, target, err);
      && Tidy(c) && Below(c, limit)
      && c.Keys == t.Keys + {Std(1), Std(2)}
      && c[Std(1)] == target && c[Std(2)] == (if err then target else Socket)
      && forall s :: s in t && s != Std(1) && s != Std(2) ==> c[s] == t[s]
  {
    Dup2Facts(t, target, 1, limit);
    Dup2Facts(Dup2(t, Fd(target), Std(1)), if err then target else Socket, 2, limit);
  }

  lemma AtForkFacts(base: Table, first: nat, i: nat)
    requires ShellTable(base, first)
    ensures var t := AtFork(base, first, i);
      && ShellTable(t, first + i + 1)
      && (forall e :: Fd(e) in t <==>
            Fd(e) in base || e == Write(first + i) || e == Read(first + i) || (i > 0 && e == Read(first + i - 1)))
      && (forall n: nat :: Std(n) in base ==> Std(n) in t && t[Std(n)] == base[Std(n)])
  {
    AfterStagesTable(base, first, i);
    OpenPipeTable(AfterStages(base, first, i), first + i);
    hide ShellTable, IsPipeEnd, Tidy, Below;
  }

  lemma StageInputFacts(base: Table, d: Option<nat>, plain: bool, first: nat, i: nat, x: Flags)
    requires ShellTable(base, first)
    requires i == 0 && d.Some? ==> Fd(Read(d.value)) in base && d.value < first
    ensures var j := StageInput(AtFork(base, first, i), d, plain, first, i, x);
      && Tidy(j) && Below(j, first + i + 1)
      && (forall e :: Fd(e) in j <==>
            Fd(e) in base || e == Write(first + i) || (i > 0 && (e == Read(first + i - 1) || e == Read(first + i))))
      && Std(0) in j && Std(1) in j && Std(2) in j && j[Std(2)] == base[Std(2)]
      && j[Std(0)] == if i > 0 then Read(first + i - 1)
                      else if x.inOk && (d.None? || plain) then UserIn
                      else if d.Some? then Read(d.value) else base[Std(0)]
  {
    var t := AtFork(base, first, i);
    AtForkFacts(base, first, i);
    TableUnopened(base, first);
    if i > 0 {
      Dup2Facts(t, Read(first + i - 1), 0, first + i + 1);
    } else {
      var shut := Close(t, Fd(Read(first)));
      CloseFdFacts(t, first + i + 1, Read(first));
      RedirectFacts(shut, x.inOk, 0, UserIn, first + i + 1);
      if d.Some? {
        Dup2Facts(Redirect(shut, x.inOk, 0, UserIn), Read(d.value), 0, first + i + 1);
      }
    }
    hide AtFork;
  }

  /** A chained stage's table before refused redirections and the output file. */
  function WiredStage(input: Table, out: End, err: bool, first: nat, i: nat, k: nat, x: Flags): Table {
    if out.Socket? && i + 1 == k && x.outOk then Redirect(input, true, 1, UserOut)
    else StageOutput(input, TargetOf(out, first, i, k), err)
  }

  lemma StageWired(input: Table, out: End, err: bool, first: nat, i: nat, k: nat, x: Flags, limit: nat)
    requires Tidy(input) && Below(input, limit) && Std(0) in input && Std(1) in input && Std(2) in input
    requires Fd(Socket) in input && Fd(TargetOf(out, first, i, k)) in input && !TargetOf(out, first, i, k).Read?
    ensures var c := WiredStage(input, out, err, first, i, k, x);
      && Tidy(c) && Below(c, limit) && c.Keys == input.Keys
      && c[Std(0)] == input[Std(0)]
      && c[Std(1)] == (if x.outOk && out.Socket? && i + 1 == k then UserOut else TargetOf(out, first, i, k))
      && c[Std(2)] == ErrorOf(input[Std(2)], out, err, first, i, k, x)
  {
    OutputFacts(input, TargetOf(out, first, i, k), err, limit);
    RedirectFacts(input, true, 1, UserOut, limit);
    hide StageOutput, Redirect, Tidy, Below;
  }

  /** Every slot and redirection of one chained stage. */
  lemma StageFacts(base: Table, d: Option<nat>, out: End, err: bool, first: nat, i: nat, k: nat, x: Flags)
    requires ShellTable(base, first) && i < k && k > 1
    requires out == Socket || (out.Write? && Fd(out) in base)
    requires i == 0 && d.Some? ==> Fd(Read(d.value)) in base && d.value < first
    ensures var c := StageChild(AtFork(base, first, i), d, out, err, first, i, k, x);
      && Tidy(c) && Below(c, first + k)
      && Slots(c, base, d, out, err, first, i, k, x)
      && (forall e :: Fd(e) in c <==>
            Fd(e) in base || e == Write(first + i) || (i > 0 && (e == Read(first + i - 1) || e == Read(first + i))))
  {
    var input := StageInput(AtFork(base, first, i), d, out.Socket?, first, i, x);
    var wired := WiredStage(input, out, err, first, i, k, x);
    StageIs(AtFork(base, first, i), d, out, err, first, i, k, x);
    StageInputFacts(base, d, out.Socket?, first, i, x);
    assert Fd(Socket) in base;
    hide StageInput, AtFork, Tidy, ShellTable, StageChild, Last, WiredStage;
    StageWired(input, out, err, first, i, k, x, first + i + 1);
    LastFacts(wired, Refusable(out, i, k), x, first + i + 1);
    hide ErrorOf, TargetOf;
  }

  lemma StageIs(t: Table, d: Option<nat>, out: End, err: bool, first: nat, i: nat, k: nat, x: Flags)
    ensures StageChild(t, d, out, err, first, i, k, x)
         == Last(WiredStage(StageInput(t, d, out.Socket?, first, i, x), out, err, first, i, k, x), Refusable(out, i, k), x)
  {
    hide StageInput, StageOutput, Refuse, Redirect;
  }

  /** The same for a lone command in front of the numbered pipe `q`. */
  lemma NumberedFacts(t: Table, d: Option<nat>, q: nat, err: bool, next: nat, x: Flags)
    requires ShellTable(t, next) && Fd(Write(q)) in t
    requires d.Some? ==> d.value != q && d.value < next && Fd(Read(d.value)) in t
    ensures var c := NumberedChild(t, d, q, err, x);
      && Tidy(c) && Below(c, next)
      && Slots(c, t, d, Write(q), err, next, 0, 1, x)
      && (forall e :: Fd(e) in c <==> Fd(e) in t && e != Read(q))
  {
    NumberedWired(t, d, q, err, next, x);
    NumberedIs(t, d, q, err, x);
    hide ShellTable, NumberedChild, WiredNumbered, Tidy, Below;
    LastFacts(WiredNumbered(t, d, q, err, x), true, x, next);
    hide Last;
  }

  /** Its table before refused redirections and the output file. */
  function WiredNumbered(t: Table, d: Option<nat>, q: nat, err: bool, x: Flags): Table {
    StageOutput(InputOfNumbered(t, d, q, x), Write(q), err)
  }

  lemma NumberedWired(t: Table, d: Option<nat>, q: nat, err: bool, next: nat, x: Flags)
    requires ShellTable(t, next) && Fd(Write(q)) in t
    requires d.Some? ==> d.value != q && d.value < next && Fd(Read(d.value)) in t
    ensures var c := WiredNumbered(t, d, q, err, x);
      && Tidy(c) && Below(c, next) && c.Keys == t.Keys - {Fd(Read(q))}
      && Std(0) in c && Std(1) in c && Std(2) in c
      && c[Std(0)] == (if d.Some? then Read(d.value) else if x.inOk then UserIn else t[Std(0)])
      && c[Std(1)] == Write(q) && c[Std(2)] == (if err then Write(q) else Socket)
  {
    NumberedInput(t, d, q, next, x);
    assert Fd(Socket) in t && Std(0) in t && Std(1) in t && Std(2) in t;
    hide ShellTable, Tidy, Below, InputOfNumbered, StageOutput;
    var input := InputOfNumbered(t, d, q, x);
    assert Fd(Socket) in input && Fd(Write(q)) in input;
    OutputFacts(input, Write(q), err, next);
    assert input.Keys + {Std(1), Std(2)} == input.Keys;
  }

  /** The input side of a lone command in front of the numbered pipe `q`. */
  function InputOfNumbered(t: Table, d: Option<nat>, q: nat, x: Flags): Table {
    var c := Close(Redirect(t, x.inOk, 0, UserIn), Fd(Read(q)));
    if d.None? then c else Dup2(c, Fd(Read(d.value)), Std(0))
  }

  lemma NumberedIs(t: Table, d: Option<nat>, q: nat, err: bool, x: Flags)
    ensures NumberedChild(t, d, q, err, x) == Last(WiredNumbered(t, d, q, err, x), true, x)
  {
    hide StageOutput, Refuse, Redirect;
  }

  lemma NumberedInput(t: Table, d: Option<nat>, q: nat, next: nat, x: Flags)
    requires ShellTable(t, next) && (d.Some? ==> d.value != q && Fd(Read(d.value)) in t)
    ensures var j := InputOfNumbered(t, d, q, x);
      && Tidy(j) && Below(j, next) && j.Keys == t.Keys - {Fd(Read(q))}
      && j[Std(0)] == (if d.Some? then Read(d.value) else if x.inOk then UserIn else t[Std(0)])
      && j[Std(1)] == t[Std(1)] && j[Std(2)] == t[Std(2)]
  {
    var a := Redirect(t, x.inOk, 0, UserIn);
    RedirectFacts(t, x.inOk, 0, UserIn, next);
    assert ShellTable(a, next);
    var c := Close(a, Fd(Read(q)));
    CloseFdFacts(a, next, Read(q));
    if d.Some? {
      Dup2Facts(c, Read(d.value), 0, next);
    }
    hide Redirect;
  }

  /** And for a lone command that answers the client. */
  lemma SingleFacts(t: Table, d: Option<nat>, next: nat, x: Flags)
    requires ShellTable(t, next)
    requires d.Some? ==> d.value < next && Fd(Read(d.value)) in t && Fd(Write(d.value)) !in t
    ensures var c := SingleChild(t, d, x);
      && Tidy(c) && Below(c, next)
      && Slots(c, t, d, Socket, false, next, 0, 1, x)
      && (forall e :: Fd(e) in c <==> Fd(e) in t && (d.Some? && !(x.inOk && x.outOk) ==> e != Read(d.value)))
  {
    SingleWired(t, d, next, x);
    var wired := WiredSingle(t, d, x);
    SingleIs(t, d, x);
    hide WiredSingle, SingleChild, ShellTable, Tidy, Below;
    LastFacts(wired, true, x, next);
    hide Last;
  }

  /** A lone command's table before refused redirections and the output file. */
  function WiredSingle(t: Table, d: Option<nat>, x: Flags): Table {
    if x.inOk && x.outOk then Redirect(Redirect(t, true, 1, UserOut), true, 0, UserIn)
    else
      var o := if x.outOk then Redirect(t, true, 1, UserOut) else StageOutput(t, Socket, false);
      if d.None? then Redirect(o, x.inOk, 0, UserIn) else CloseBoth(Dup2(o, Fd(Read(d.value)), Std(0)), d)
  }

  lemma SingleWired(t: Table, d: Option<nat>, next: nat, x: Flags)
    requires ShellTable(t, next)
    requires d.Some? ==> d.value < next && Fd(Read(d.value)) in t && Fd(Write(d.value)) !in t
    ensures var c := WiredSingle(t, d, x);
      && Tidy(c) && Below(c, next) && Std(0) in c && Std(1) in c && Std(2) in c
      && c[Std(0)] == (if x.inOk && (d.None? || x.outOk) then UserIn else if d.Some? then Read(d.value) else t[Std(0)])
      && c[Std(1)] == (if x.outOk then UserOut else Socket)
      && c[Std(2)] == (if x.outOk then t[Std(2)] else Socket)
      && (forall e :: Fd(e) in c <==> Fd(e) in t && (d.Some? && !(x.inOk && x.outOk) ==> e != Read(d.value)))
  {
    var o := if x.outOk then Redirect(t, true, 1, UserOut) else StageOutput(t, Socket, false);
    SingleOutput(t, next, x);
    hide ShellTable, StageOutput;
    RedirectFacts(o, x.inOk, 0, UserIn, next);
    assert x.inOk && x.outOk ==> WiredSingle(t, d, x) == Redirect(o, true, 0, UserIn);
    if d.Some? && !(x.inOk && x.outOk) {
      Dup2Facts(o, Read(d.value), 0, next);
      CloseAfterDup(Dup2(o, Fd(Read(d.value)), Std(0)), d, next);
    }
    hide Redirect, Tidy, Below, CloseBoth, Dup2;
  }

  lemma SingleIs(t: Table, d: Option<nat>, x: Flags)
    ensures SingleChild(t, d, x) == Last(WiredSingle(t, d, x), true, x)
  {
    hide StageOutput, Refuse, Redirect, CloseBoth, Dup2;
  }

  lemma SingleOutput(t: Table, next: nat, x: Flags)
    requires ShellTable(t, next)
    ensures var o := if x.outOk then Redirect(t, true, 1, UserOut) else StageOutput(t, Socket, false);
      && Tidy(o) && Below(o, next) && o.Keys == t.Keys && Std(0) in o && Std(1) in o && Std(2) in o
      && o[Std(0)] == t[Std(0)] && o[Std(1)] == (if x.outOk then UserOut else Socket)
      && o[Std(2)] == (if x.outOk then t[Std(2)] else Socket)
  {
    RedirectFacts(t, true, 1, UserOut, next);
    OutputFacts(t, Socket, false, next);
    hide Redirect, StageOutput, Tidy, Below;
  }

  lemma CloseAfterDup(t: Table, d: Option<nat>, limit: nat)
    requires Tidy(t) && Below(t, limit) && d.Some? && Fd(Write(d.value)) !in t
    ensures var c := CloseBoth(t, d);
      && Tidy(c) && Below(c, limit) && c.Keys == t.Keys - {Fd(Read(d.value))}
      && forall s :: s in c ==> c[s] == t[s]
  {}

  // ----- One line -------------------------------------------------------------------------------

  ghost predicate EndsOpen(q: seq<Waiting>, t: Table) {
    forall k :: 0 <= k < |q| ==> Fd(Read(q[k].pipe)) in t && Fd(Write(q[k].pipe)) in t
  }

  /** The shell itself is in order: every pipe still waiting keeps both of its ends open in it. */
  ghost predicate Shape(s: State) {
    Sound(s) && ShellTable(s.fds, s.next) && EndsOpen(s.pending, s.fds)
  }

  /** What holds once the line's target pipe was found or opened: only that pipe is new, and the
      delivered pipe is still open on both sides. */
  ghost predicate Prepared(s: State, l: Line, u: Setup) {
    && u.delivered == Delivered(s.pending)
    && Shape(State(s.line, u.next, u.fds, u.pending, []))
    && (u.next == s.next || u.next == s.next + 1)
    && (forall e :: Fd(e) in u.fds <==> Fd(e) in s.fds || (IsPipeEnd(e) && e.pipe == s.next && u.next > s.next))
    && (forall n: nat :: Std(n) in s.fds ==> Std(n) in u.fds && u.fds[Std(n)] == s.fds[Std(n)])
    && (u.delivered.Some? ==> DeliveredOpen(s, u, u.delivered.value))
    && (if l.Numbered? then u.out.Write? && Waiting(u.out.pipe, l.count) in u.pending
        else u.out == Socket && u.next == s.next && !u.err)
  }

  ghost predicate DeliveredOpen(s: State, u: Setup, d: nat) {
    && d < s.next && Fd(Read(d)) in u.fds && Fd(Write(d)) in u.fds
    && forall e :: e in u.pending ==> e.pipe != d
  }

  lemma KeptEndsOpen(q: seq<Waiting>, t: Table)
    requires Distinct(q) && EndsOpen(q, t)
    ensures EndsOpen(Keep(Ticked(q)), t)
    ensures Delivered(q).Some? ==> Fd(Read(Delivered(q).value)) in t && Fd(Write(Delivered(q).value)) in t
  {
    SweepFacts(q);
    var d, kept := Delivered(q), Keep(Ticked(q));
    hide Keep, Ticked, Delivered, Distinct;
    if d.Some? {
      assert Waiting(d.value, 1) in q;
    }
    forall k | 0 <= k < |kept|
      ensures Fd(Read(kept[k].pipe)) in t && Fd(Write(kept[k].pipe)) in t
    {
      assert kept[k] in kept;
      assert kept[k].(number := kept[k].number + 1) in q;
    }
  }

  /** The setup of a line, when it opens no pipe and when it does. */
  lemma PreparedSame(s: State, l: Line, u: Setup)
    requires Shape(s) && u.delivered == Delivered(s.pending) && u.fds == s.fds && u.next == s.next
    requires Sound(State(s.line, u.next, u.fds, u.pending, [])) && EndsOpen(u.pending, s.fds)
    requires u.delivered.Some? ==> DeliveredOpen(s, u, u.delivered.value)
    requires if l.Numbered? then u.out.Write? && Waiting(u.out.pipe, l.count) in u.pending else u.out == Socket && !u.err
    ensures Prepared(s, l, u)
  {
    hide Delivered, Sound, EndsOpen, ShellTable, DeliveredOpen;
  }

  lemma PreparedNew(s: State, l: Line, q: seq<Waiting>, u: Setup)
    requires Shape(s) && l.Numbered? && u.delivered == Delivered(s.pending)
    requires u == Setup(q + [Waiting(s.next, l.count)], OpenPipe(s.fds, s.next), s.next + 1, u.delivered, Write(s.next), u.err)
    requires Sound(State(s.line, u.next, u.fds, u.pending, [])) && EndsOpen(q, s.fds)
    requires u.delivered.Some? ==> DeliveredOpen(s, u, u.delivered.value)
    ensures Prepared(s, l, u)
  {
    OpenPipeTable(s.fds, s.next);
    TableUnopened(s.fds, s.next);
    TargetWaits(q, l.count, s.next);
    EndsOpenMore(q, s.fds, s.next, l.count);
    hide Delivered, Sound, EndsOpen, ShellTable, DeliveredOpen;
  }

  lemma EndsOpenMore(q: seq<Waiting>, t: Table, next: nat, n: int)
    requires EndsOpen(q, t)
    ensures EndsOpen(q + [Waiting(next, n)], OpenPipe(t, next))
  {}

  lemma PrepareShape(s: State, l: Line)
    requires Shape(s)
    ensures Prepared(s, l, Prepare(s, l))
  {
    var u, q := Prepare(s, l), Keep(Ticked(s.pending));
    PrepareSound(s, l);
    DeliveredIsOld(s);
    KeptEndsOpen(s.pending, s.fds);
    TargetWaits(q, if l.Numbered? then l.count else 0, s.next);
    hide Keep, Ticked, Delivered, Sound, EndsOpen, ShellTable;
    if l.Numbered? && Find(q, l.count) == |q| {
      PreparedNew(s, l, q, u);
    } else {
      PreparedSame(s, l, u);
    }
  }

  /** The line's target pipe is in the list, found or appended. */
  lemma TargetWaits(q: seq<Waiting>, n: int, next: nat)
    ensures Find(q, n) < |q| ==> Waiting(q[Find(q, n)].pipe, n) in q
    ensures Waiting(next, n) in q + [Waiting(next, n)]
    ensures forall e :: e in q + [Waiting(next, n)] ==> e in q || e == Waiting(next, n)
  {
    assert (q + [Waiting(next, n)])[|q|] == Waiting(next, n);
    if Find(q, n) < |q| {
      assert q[Find(q, n)] == Waiting(q[Find(q, n)].pipe, n);
    }
  }

  lemma CloseKeepsEnds(q: seq<Waiting>, t: Table, d: Option<nat>, first: nat, i: nat)
    requires EndsOpen(q, t)
    requires d.Some? ==> forall e :: e in q ==> e.pipe != d.value
    ensures EndsOpen(q, AfterStages(CloseBoth(t, d), first, i))
  {
    forall k | 0 <= k < |q|
      ensures q[k] in q
    {}
  }

  lemma NextShape(s: State, l: Line)
    requires Shape(s)
    ensures Shape(Next(s, l))
  {
    hide Prepare, NewChildren, Delivered, CloseBoth;
    var u := Prepare(s, l);
    PrepareShape(s, l);
    NextSound(s, l);
    ClosedShape(u, Stages(l));
    ClosedShape(u, 0);
    hide ShellTable, Sound, EndsOpen, DeliveredOpen, AfterStages;
    assert AfterStages(CloseBoth(u.fds, u.delivered), u.next, 0) == CloseBoth(u.fds, u.delivered) by {
      NoStages(CloseBoth(u.fds, u.delivered), u.next);
    }
  }

  lemma NoStages(t: Table, first: nat)
    ensures AfterStages(t, first, 0) == t
  {}

  /** The shell's table once a line of `k` stages is done with it. */
  lemma ClosedShape(u: Setup, k: nat)
    requires ShellTable(u.fds, u.next) && EndsOpen(u.pending, u.fds)
    requires u.delivered.Some? ==> forall e :: e in u.pending ==> e.pipe != u.delivered.value
    ensures var t := AfterStages(CloseBoth(u.fds, u.delivered), u.next, k);
      ShellTable(t, u.next + k) && EndsOpen(u.pending, t)
  {
    hide ShellTable, EndsOpen, CloseBoth, AfterStages;
    CloseTable(u.fds, u.next, u.delivered);
    CloseKeepsEnds(u.pending, u.fds, u.delivered, u.next, k);
    AfterStagesTable(CloseBoth(u.fds, u.delivered), u.next, k);
  }

  /** What the process forked for stage `i` holds, writes to and reads from. */
  ghost predicate ForkedAs(fds: Table, u: Setup, i: nat, k: nat, x: Flags, c: Table)
    requires Std(0) in fds && Std(2) in fds
  {
    && Tidy(c) && Below(c, if k > 1 then u.next + k else u.next)
    && Slots(c, fds, u.delivered, u.out, u.err, u.next, i, k, x)
    && (forall q: nat :: Fd(Write(q)) in c <==>
          (Fd(Write(q)) in u.fds && u.delivered != Some(q)) || (k > 1 && q == u.next + i))
  }

  /** A table to fork from: the shell's own, without the delivered pipe's write end. */
  ghost predicate ForkBase(fds: Table, u: Setup, base: Table) {
    && ShellTable(base, u.next)
    && (u.out == Socket || (u.out.Write? && Fd(u.out) in base && u.delivered != Some(u.out.pipe)))
    && (u.delivered.Some? ==> u.delivered.value < u.next)
    && (forall n: nat :: Std(n) in fds ==> Std(n) in base && base[Std(n)] == fds[Std(n)])
    && (forall q: nat :: Fd(Write(q)) in base <==> Fd(Write(q)) in u.fds && u.delivered != Some(q))
  }

  lemma CloseFds(t: Table, d: Option<nat>)
    ensures forall e :: Fd(e) in CloseWrite(t, d) <==> Fd(e) in t && (!e.Write? || d != Some(e.pipe))
    ensures forall e :: Fd(e) in CloseBoth(t, d) <==> Fd(e) in t && (!IsPipeEnd(e) || d != Some(e.pipe))
    ensures forall n: nat :: Std(n) in t ==> Std(n) in CloseWrite(t, d) && CloseWrite(t, d)[Std(n)] == t[Std(n)]
    ensures forall n: nat :: Std(n) in t ==> Std(n) in CloseBoth(t, d) && CloseBoth(t, d)[Std(n)] == t[Std(n)]
  {}

  lemma OutOpen(s: State, l: Line, u: Setup)
    requires Prepared(s, l, u)
    ensures u.out == Socket || (u.out.Write? && Fd(u.out) in u.fds && u.delivered != Some(u.out.pipe))
    ensures u.delivered.Some? ==> u.delivered.value < u.next
  {
    if l.Numbered? {
      var k :| 0 <= k < |u.pending| && u.pending[k] == Waiting(u.out.pipe, l.count);
      assert Fd(Write(u.pending[k].pipe)) in u.fds;
    }
  }

  lemma BaseFacts(s: State, l: Line, u: Setup)
    requires Prepared(s, l, u)
    ensures ForkBase(s.fds, u, FirstBase(u)) && ForkBase(s.fds, u, LaterBase(u, l))
    ensures u.delivered.Some? ==> Fd(Read(u.delivered.value)) in FirstBase(u)
  {
    hide CloseWrite, CloseBoth, ShellTable, Sound, EndsOpen, Delivered;
    CloseTable(u.fds, u.next, u.delivered);
    CloseFds(u.fds, u.delivered);
    OutOpen(s, l, u);
  }

  lemma ChainedChildFacts(fds: Table, u: Setup, base: Table, i: nat, k: nat, x: Flags)
    requires Std(0) in fds && Std(2) in fds && ForkBase(fds, u, base) && i < k && k > 1
    requires i == 0 && u.delivered.Some? ==> Fd(Read(u.delivered.value)) in base
    ensures ForkedAs(fds, u, i, k, x, StageChild(AtFork(base, u.next, i), u.delivered, u.out, u.err, u.next, i, k, x))
  {
    hide StageChild, ShellTable, Tidy, Below, Slots, AtFork;
    StageFacts(base, u.delivered, u.out, u.err, u.next, i, k, x);
    SameSlots(StageChild(AtFork(base, u.next, i), u.delivered, u.out, u.err, u.next, i, k, x), fds, base, u, i, k, x);
  }

  /** The shell's own standard slots are those of the table it forks from. */
  lemma SameSlots(c: Table, fds: Table, base: Table, u: Setup, i: nat, k: nat, x: Flags)
    requires Std(0) in fds && Std(2) in fds && ForkBase(fds, u, base) && Std(0) in base && Std(2) in base
    requires Slots(c, base, u.delivered, u.out, u.err, u.next, i, k, x)
    ensures Slots(c, fds, u.delivered, u.out, u.err, u.next, i, k, x)
  {
    assert base[Std(0)] == fds[Std(0)] && base[Std(2)] == fds[Std(2)];
    hide InputOf, OutputOf, ErrorOf, ShellTable;
  }

  lemma LoneChildFacts(fds: Table, u: Setup, base: Table, x: Flags)
    requires Std(0) in fds && Std(2) in fds && ForkBase(fds, u, base)
    requires u.delivered.Some? ==> Fd(Read(u.delivered.value)) in base
    ensures u.out.Write? ==> ForkedAs(fds, u, 0, 1, x, NumberedChild(base, u.delivered, u.out.pipe, u.err, x))
    ensures u.out == Socket && !u.err ==> ForkedAs(fds, u, 0, 1, x, SingleChild(base, u.delivered, x))
  {
    if u.out.Write? {
      NumberedFacts(base, u.delivered, u.out.pipe, u.err, u.next, x);
    } else if !u.err {
      SingleFacts(base, u.delivered, u.next, x);
    }
    hide NumberedChild, SingleChild, ShellTable, Tidy, Below, InputOf, OutputOf, ErrorOf;
  }

  lemma NewChildFacts(s: State, l: Line, i: nat)
    requires Shape(s) && i < Stages(l)
    ensures |NewChildren(s, l)| == Stages(l) && Std(0) in s.fds && Std(2) in s.fds
    ensures var c := NewChildren(s, l)[i];
      && c.line == s.line && c.stage == i && c.stages == Stages(l)
      && ForkedAs(s.fds, Prepare(s, l), i, Stages(l), FlagsAt(l.flags, i), c.fds)
  {
    hide Prepare;
    PrepareShape(s, l);
    BaseFacts(s, l, Prepare(s, l));
    NewChildIs(s, l, i);
    hide NewChildren, Delivered, Shape, ForkBase, ForkedAs, Prepared, FirstBase, LaterBase;
    StandardOpen(s);
    var u := Prepare(s, l);
    if l.stages > 1 {
      ChainedChildFacts(s.fds, u, if i == 0 then FirstBase(u) else LaterBase(u, l), i, l.stages, FlagsAt(l.flags, i));
    } else {
      OutIs(s, l, u);
      LoneChildFacts(s.fds, u, FirstBase(u), FlagsAt(l.flags, 0));
    }
  }

  lemma StandardOpen(s: State)
    requires Shape(s)
    ensures Std(0) in s.fds && Std(2) in s.fds
  {}

  lemma OutIs(s: State, l: Line, u: Setup)
    requires Prepared(s, l, u)
    ensures if l.Numbered? then u.out.Write? else u.out == Socket && !u.err
  {}

  /** The process of stage `i`. */
  lemma NewChildIs(s: State, l: Line, i: nat)
    requires i < Stages(l) && (l.Numbered? ==> Prepare(s, l).out.Write?)
    ensures |NewChildren(s, l)| == Stages(l)
    ensures var u, x := Prepare(s, l), FlagsAt(l.flags, i);
      NewChildren(s, l)[i] == Child(s.line, i, Stages(l),
        if l.stages > 1 then
          StageChild(AtFork(if i == 0 then FirstBase(u) else LaterBase(u, l), u.next, i),
            u.delivered, u.out, u.err, u.next, i, l.stages, x)
        else if l.Numbered? then NumberedChild(FirstBase(u), u.delivered, u.out.pipe, u.err, x)
        else SingleChild(FirstBase(u), u.delivered, x))
  {
    hide Prepare, FirstBase, LaterBase, StageChild, NumberedChild, SingleChild, AtFork;
  }

  /** The shell's own table after the line: what it had, without the delivered pipe unless the line
      was built in, plus the read end of the unused last pipe of a chain. */
  lemma NextFds(s: State, l: Line)
    requires Shape(s)
    ensures var u := Prepare(s, l);
      && (forall e :: Fd(e) in Next(s, l).fds <==>
            || (Fd(e) in u.fds && (l.Builtin? || !IsPipeEnd(e) || u.delivered != Some(e.pipe)))
            || (Stages(l) > 1 && e == Read(u.next + Stages(l) - 1)))
      && (forall n: nat :: Std(n) in s.fds ==> Std(n) in Next(s, l).fds && Next(s, l).fds[Std(n)] == s.fds[Std(n)])
  {
    NextEnds(s, l);
    NextStandard(s, l);
    hide Prepare, Next;
  }

  lemma NextEnds(s: State, l: Line)
    ensures var u := Prepare(s, l);
      forall e :: Fd(e) in Next(s, l).fds <==>
        || (Fd(e) in u.fds && (l.Builtin? || !IsPipeEnd(e) || u.delivered != Some(e.pipe)))
        || (Stages(l) > 1 && e == Read(u.next + Stages(l) - 1))
  {
    hide Prepare, NewChildren, CloseBoth;
    CloseFds(Prepare(s, l).fds, Prepare(s, l).delivered);
  }

  lemma NextStandard(s: State, l: Line)
    requires Shape(s)
    ensures forall n: nat :: Std(n) in s.fds ==> Std(n) in Next(s, l).fds && Next(s, l).fds[Std(n)] == s.fds[Std(n)]
  {
    hide Prepare, NewChildren, CloseBoth, Shape, DeliveredOpen, Delivered;
    PrepareShape(s, l);
    CloseFds(Prepare(s, l).fds, Prepare(s, l).delivered);
  }
}
