/** The write ends of user pipes in the server and in the processes it forks for all of its clients
    (hw2/2/shell.cpp). */
module UserPipeWorld {
  import opened Common
  import opened UserPipes
  import opened Manager
  import opened ManagerRuns

  /** A forked process: the user pipes it can write to, the one it reads, and the one that an output file
      took from its standard output.  Pipes are numbered in the order of their opening. */
  datatype Process = Process(held: set<nat>, input: Option<nat>, away: set<nat>)

  /** The server with the number of each pipe in its list, how many processes there were when each pipe
      was opened, and every process forked so far. */
  datatype World = World(m: State, open: map<UserPipe, nat>, born: seq<nat>, procs: seq<Process>)

  /** The server keeps both ends of the listed pipes open. */
  function Ends(w: World): set<nat> {
    set p | p in w.open :: w.open[p]
  }

  function Number(w: World, p: UserPipe): set<nat> {
    if p in w.open then {w.open[p]} else {}
  }

  // ----- Steps ----------------------------------------------------------------------------------

  function OpenIn(w: World, p: UserPipe): World {
    if p in w.m.pipes then w
    else World(Open(w.m, p), w.open[p := |w.born|], w.born + [|w.procs|], w.procs)
  }

  function ShutIn(w: World, p: UserPipe): World {
    w.(m := Shut(w.m, p), open := w.open - {p})
  }

  /** A process inherits what the server has open, and closes what it reads from or writes to a file
      instead of. */
  function Fork(w: World, drops: set<nat>, input: Option<nat>, away: set<nat>): World {
    w.(procs := w.procs + [Process(Ends(w) - drops - away, input, away)])
  }

  function Input(w: World, p: UserPipe, wired: bool): Option<nat> {
    if wired && p in w.open then Some(w.open[p]) else None
  }

  /** A command that takes the pipe out of the list; only one that gets to set its input up lets go of the
      write end. */
  function ForkTaking(w: World, p: UserPipe, drops: bool, wired: bool, away: set<nat>): World {
    ShutIn(Fork(w, if drops then Number(w, p) else {}, Input(w, p, wired), away), p)
  }

  /** A line of one command; `fed` says that a numbered pipe is delivered to it, `file` that it has an
      output file. */
  function OneIn(w: World, me: int, a: Redirect, b: Redirect, builtin: bool, fed: bool, file: bool): World
    requires |w.m.ids| == CAPACITY && InRange(a) && InRange(b)
  {
    var f := a.From? && AcceptsFrom(w.m, me, a.user);
    var t := b.To? && AcceptsTo(w.m, me, b.user);
    var w1 := w.(m := Announce(w.m, me, a, b));
    var w2 := if t then OpenIn(w1, UserPipe(me, b.user)) else w1;
    var away := if t && file then Number(w2, UserPipe(me, b.user)) else {};
    var wired := t || !fed;
    if builtin then w2
    else if f then ForkTaking(w2, UserPipe(a.user, me), wired, wired, away)
    else Fork(w2, {}, None, away)
  }

  /** Command `i` of `k`.  Its input is set up for it by the server, so the write end is always closed. */
  function StageIn(w: World, me: int, r: Redirect, chain: bool, i: nat, k: nat, fed: bool, file: bool): World
    requires |w.m.ids| == CAPACITY && InRange(r)
  {
    match r
    case Nothing => Fork(w, {}, None, {})
    case From(a) =>
      var p := UserPipe(a, me);
      if AcceptsFrom(w.m, me, a) then ForkTaking(w.(m := Tell(w.m, Received(p))), p, true, i == 0 && (chain || !fed), {})
      else Fork(w, {}, None, {})
    case To(b) =>
      var p := UserPipe(me, b);
      if !AcceptsTo(w.m, me, b) then Fork(w, {}, None, {})
      else
        var w1 := w.(m := Tell(w.m, Piped(p)));
        if !chain then Fork(w1, {}, None, {})
        else
          var w2 := OpenIn(w1, p);
          Fork(w2, {}, None, if i + 1 == k && file then Number(w2, p) else {})
  }

  function FileAt(files: seq<bool>, i: nat): bool {
    i < |files| && files[i]
  }

  /** The commands of a longer line up to number `n`. */
  function StagesIn(w: World, me: int, rs: seq<Redirect>, chain: bool, n: nat, fed: bool, files: seq<bool>): (r: World)
    requires |w.m.ids| == CAPACITY && AllInRange(rs) && n <= |rs|
    ensures r.m == RunStages(w.m, me, rs, chain, n)
  {
    if n == 0 then w
    else StageIn(StagesIn(w, me, rs, chain, n - 1, fed, files), me, rs[n - 1], chain, n - 1, |rs|, fed, FileAt(files, n - 1))
  }

  function ChainIn(w: World, me: int, rs: seq<Redirect>, files: seq<bool>): World
    requires |w.m.ids| == CAPACITY && AllInRange(rs)
  {
    var w1 := StagesIn(w, me, rs, true, |rs|, false, files);
    var last := LastFrom(w.m, me, rs, true, |rs|);
    if last.From? then ShutIn(w1, UserPipe(last.user, me)) else w1
  }

  /** An operation of a client, with what the commands of its line find besides. */
  datatype Act = Act(op: Op, fed: bool, files: seq<bool>)

  ghost function StepIn(w: World, act: Act): World {
    var op := act.op;
    if !IdsInRange(w.m) || !Enabled(w.m, op) then w
    else
      match op
      case Join(_, _, _) => w.(m := Step(w.m, op))
      case Quit(_) => var m1 := Step(w.m, op); World(m1, map p | p in w.open && p in m1.pipes :: w.open[p], w.born, w.procs)
      case Name(_, _) => w.(m := Step(w.m, op))
      case One(fd, a, b, builtin) => OneIn(w, IdOf(w.m, fd), a, b, builtin, act.fed, FileAt(act.files, 0))
      case Chain(fd, rs) => ChainIn(w, IdOf(w.m, fd), rs, act.files)
      case NumberedLine(fd, a, b, rs) =>
        var me := IdOf(w.m, fd);
        StagesIn(w.(m := Announce(w.m, me, a, b)), me, rs, false, |rs|, act.fed, act.files)
  }

  ghost function RunIn(acts: seq<Act>): World {
    if acts == [] then World(Init(), map[], [], []) else StepIn(RunIn(acts[..|acts| - 1]), acts[|acts| - 1])
  }

  // ----- What every step keeps ------------------------------------------------------------------

  /** The processes that can write to an open pipe are those forked since its opening, save one whose
      output goes to a file instead. */
  ghost predicate HeldRight(w: World, q: nat) {
    q < |w.born|
    && forall j :: 0 <= j < |w.procs| ==> (q in w.procs[j].held <==> w.born[q] <= j && q !in w.procs[j].away)
  }

  ghost predicate Numbered(w: World) {
    && (forall p :: p in w.open <==> p in w.m.pipes)
    && (forall p, r :: p in w.open && r in w.open && w.open[p] == w.open[r] ==> p == r)
  }

  ghost predicate RightlyHeld(born: seq<nat>, p: Process, j: nat) {
    && (forall q :: q in p.held ==> q < |born|)
    && (forall q :: q in p.away ==> q < |born| && born[q] == j)
  }

  ghost predicate Recorded(born: seq<nat>, procs: seq<Process>) {
    && (forall i :: 0 <= i < |born| ==> born[i] <= |procs|)
    && (forall j :: 0 <= j < |procs| ==> RightlyHeld(born, procs[j], j))
  }

  ghost predicate Sane(w: World) {
    && Pipes(w.m) && Numbered(w) && Recorded(w.born, w.procs)
    && forall p :: p in w.open ==> HeldRight(w, w.open[p])
  }

  /** The pipe is not in the list, and no process from number `n` on can write to it. */
  ghost predicate GoneSince(w: World, n: nat, q: nat) {
    q !in Ends(w) && forall j :: n <= j < |w.procs| ==> q !in w.procs[j].held
  }

  /** The same past. */
  ghost predicate Extends(w: World, w1: World) {
    && |w.procs| <= |w1.procs| && w1.procs[..|w.procs|] == w.procs
    && |w.born| <= |w1.born| && w1.born[..|w.born|] == w.born
  }

  /** What had left the list stays away. */
  ghost predicate StaysGone(w: World, w1: World) {
    forall q: nat :: q < |w.born| && q !in Ends(w) ==> GoneSince(w1, |w.procs|, q)
  }

  ghost predicate Follows(w: World, w1: World) {
    Sane(w1) && Extends(w, w1) && StaysGone(w, w1)
  }

  lemma ExtendsTrans(a: World, b: World, c: World)
    requires Extends(a, b) && Extends(b, c)
    ensures Extends(a, c)
  {
    assert c.procs[..|a.procs|] == b.procs[..|a.procs|];
    assert c.born[..|a.born|] == b.born[..|a.born|];
  }

  lemma StillGone(b: World, c: World, n: nat, q: nat)
    requires Extends(b, c) && n <= |b.procs| && GoneSince(b, n, q) && GoneSince(c, |b.procs|, q)
    ensures GoneSince(c, n, q)
  {
    hide Ends;
    assert forall j :: n <= j < |b.procs| ==> c.procs[j] == c.procs[..|b.procs|][j];
  }

  lemma FollowsTrans(a: World, b: World, c: World)
    requires Follows(a, b) && Follows(b, c)
    ensures Follows(a, c)
  {
    ExtendsTrans(a, b, c);
    hide Sane, Ends;
    forall q: nat | q < |a.born| && q !in Ends(a)
      ensures GoneSince(c, |a.procs|, q)
    {
      assert GoneSince(b, |a.procs|, q);
      assert q !in Ends(b);
      StillGone(b, c, |a.procs|, q);
    }
  }

  lemma FewerEnds(w: World, open: map<UserPipe, nat>)
    requires forall p :: p in open ==> p in w.open && open[p] == w.open[p]
    ensures Ends(w.(open := open)) <= Ends(w)
  {}

  /** Nothing happens to the pipes. */
  lemma RestFollows(w: World, m1: State)
    requires Sane(w) && Pipes(m1) && m1.pipes == w.m.pipes
    ensures Follows(w, w.(m := m1))
  {
    assert World(m1, w.open, w.born, w.procs) == w.(m := m1);
    assert Numbered(w);
    hide Pipes, Ends, HeldRight;
    FewerFollow(w, m1, w.open);
  }

  lemma OpenFollows(w: World, p: UserPipe)
    requires Sane(w)
    ensures Follows(w, OpenIn(w, p))
  {
    var w1 := OpenIn(w, p);
    if p in w.m.pipes {
      RestFollows(w, w.m);
    } else {
      OpenIsSane(w, p);
      assert w1.procs[..|w.procs|] == w.procs && w1.born[..|w.born|] == w.born;
      MoreEnds(w, p);
      hide Sane, Ends;
    }
  }

  lemma MoreEnds(w: World, p: UserPipe)
    requires p !in w.m.pipes
    ensures forall q :: q in Ends(OpenIn(w, p)) ==> q in Ends(w) || q == |w.born|
  {
    var w1 := OpenIn(w, p);
    forall q | q in Ends(w1)
      ensures q in Ends(w) || q == |w.born|
    {
      var r :| r in w1.open && w1.open[r] == q;
      assert r == p || r in w.open;
    }
  }

  lemma OpenIsSane(w: World, p: UserPipe)
    requires Sane(w) && p !in w.m.pipes
    ensures Sane(OpenIn(w, p))
  {
    OpenKeepsPipes(w.m, p);
    hide Pipes;
    var w1 := OpenIn(w, p);
    forall r | r in w1.open
      ensures HeldRight(w1, w1.open[r])
    {
      assert r != p ==> HeldRight(w, w.open[r]);
    }
    assert Numbered(w1) by {
      forall r | r in w.open
        ensures w.open[r] < |w.born|
      {
        assert HeldRight(w, w.open[r]);
      }
    }
    RecordedOpen(w.born, w.procs);
    hide Numbered, Recorded, HeldRight;
  }

  lemma RecordedOpen(born: seq<nat>, procs: seq<Process>)
    requires Recorded(born, procs)
    ensures Recorded(born + [|procs|], procs)
  {
    forall j | 0 <= j < |procs|
      ensures RightlyHeld(born + [|procs|], procs[j], j)
    {
      assert RightlyHeld(born, procs[j], j);
    }
  }

  lemma RecordedFork(born: seq<nat>, procs: seq<Process>, p: Process)
    requires Recorded(born, procs) && RightlyHeld(born, p, |procs|)
    ensures Recorded(born, procs + [p])
  {
    hide RightlyHeld;
  }

  lemma ShutFollows(w: World, p: UserPipe)
    requires Sane(w)
    ensures Follows(w, ShutIn(w, p))
  {
    ShutKeepsPipes(w.m, p);
    FewerFollow(w, Shut(w.m, p), w.open - {p});
  }

  /** Some pipes leave the list. */
  lemma FewerFollow(w: World, m1: State, open: map<UserPipe, nat>)
    requires Sane(w) && Pipes(m1) && forall p :: p in open <==> p in m1.pipes
    requires forall p :: p in open ==> p in w.open && open[p] == w.open[p]
    ensures Follows(w, World(m1, open, w.born, w.procs))
  {
    hide Pipes;
    var w1 := World(m1, open, w.born, w.procs);
    assert w1.procs[..|w.procs|] == w.procs && w1.born[..|w.born|] == w.born;
    FewerEnds(w, open);
    assert Ends(w1) == Ends(w.(open := open));
    forall r | r in w1.open
      ensures HeldRight(w1, w1.open[r])
    {
      assert HeldRight(w, w.open[r]);
    }
    assert Numbered(w1);
    assert StaysGone(w, w1) by {
      hide Sane, Ends, HeldRight;
    }
    hide Ends, HeldRight, Numbered, Recorded, StaysGone;
  }

  ghost predicate JustOpened(w: World, away: set<nat>) {
    forall q :: q in away ==> q < |w.born| && w.born[q] == |w.procs|
  }

  lemma ForkFollows(w: World, away: set<nat>)
    requires Sane(w) && JustOpened(w, away)
    ensures Follows(w, Fork(w, {}, None, away))
  {
    hide Pipes;
    var w1 := Fork(w, {}, None, away);
    assert w1.procs[..|w.procs|] == w.procs && w1.born[..|w.born|] == w.born;
    assert Ends(w1) == Ends(w);
    forall r | r in w1.open
      ensures HeldRight(w1, w1.open[r])
    {
      assert HeldRight(w, w.open[r]);
      assert w.open[r] in Ends(w);
    }
    EndsKnown(w);
    RecordedFork(w.born, w.procs, w1.procs[|w.procs|]);
    assert Numbered(w1);
    assert StaysGone(w, w1) by {
      hide Sane, Ends, HeldRight;
    }
    hide Ends, HeldRight, Numbered, Recorded, StaysGone;
  }

  lemma EndsKnown(w: World)
    requires Sane(w)
    ensures forall q :: q in Ends(w) ==> q < |w.born|
  {
    forall q | q in Ends(w)
      ensures q < |w.born|
    {
      var p :| p in w.open && w.open[p] == q;
      assert HeldRight(w, w.open[p]);
    }
  }

  lemma ForkTakingFollows(w: World, p: UserPipe, drops: bool, wired: bool, away: set<nat>)
    requires Sane(w) && JustOpened(w, away)
    ensures Follows(w, ForkTaking(w, p, drops, wired, away))
  {
    ShutKeepsPipes(w.m, p);
    hide Pipes, Shut;
    var w1 := ForkTaking(w, p, drops, wired, away);
    assert w1.procs[..|w.procs|] == w.procs && w1.born[..|w.born|] == w.born;
    FewerEnds(w, w.open - {p});
    assert Ends(w1) == Ends(w.(open := w.open - {p}));
    forall r | r in w1.open
      ensures HeldRight(w1, w1.open[r])
    {
      assert HeldRight(w, w.open[r]);
      assert w.open[r] in Ends(w);
    }
    EndsKnown(w);
    RecordedFork(w.born, w.procs, w1.procs[|w.procs|]);
    assert Numbered(w1);
    assert StaysGone(w, w1) by {
      hide Sane, Ends, HeldRight;
    }
    hide Ends, HeldRight, Numbered, Recorded, StaysGone;
  }

  // ----- Lines ----------------------------------------------------------------------------------

  lemma OneFollows(w: World, me: int, a: Redirect, b: Redirect, builtin: bool, fed: bool, file: bool)
    requires |w.m.ids| == CAPACITY && InRange(a) && InRange(b) && Sane(w)
    ensures Follows(w, OneIn(w, me, a, b, builtin, fed, file))
    ensures OneIn(w, me, a, b, builtin, fed, file).m == RunOne(w.m, me, a, b, builtin)
  {
    var f := a.From? && AcceptsFrom(w.m, me, a.user);
    var t := b.To? && AcceptsTo(w.m, me, b.user);
    var w1 := w.(m := Announce(w.m, me, a, b));
    AnnounceKeepsPipes(w.m, me, a, b);
    RestFollows(w, w1.m);
    var p := UserPipe(me, if t then b.user else 0);
    var w2 := if t then OpenIn(w1, p) else w1;
    if t {
      OpenFollows(w1, p);
      FollowsTrans(w, w1, w2);
    }
    var away := if t && file then Number(w2, p) else {};
    assert JustOpened(w2, away);
    hide Sane, Follows, Announce, OpenIn, Open, Shut, Number, JustOpened;
    if !builtin {
      if f {
        ForkTakingFollows(w2, UserPipe(a.user, me), t || !fed, t || !fed, away);
      } else {
        ForkFollows(w2, away);
      }
      FollowsTrans(w, w2, OneIn(w, me, a, b, builtin, fed, file));
    }
  }

  lemma StageFollows(w: World, me: int, r: Redirect, chain: bool, i: nat, k: nat, fed: bool, file: bool)
    requires |w.m.ids| == CAPACITY && InRange(r) && Sane(w)
    ensures Follows(w, StageIn(w, me, r, chain, i, k, fed, file))
  {
    match r
    case Nothing => ForkFollows(w, {});
    case From(a) =>
      var p := UserPipe(a, me);
      if AcceptsFrom(w.m, me, a) {
        var w1 := w.(m := Tell(w.m, Received(p)));
        TellKeepsPipes(w.m, Received(p));
        RestFollows(w, w1.m);
        ForkTakingFollows(w1, p, true, i == 0 && (chain || !fed), {});
        FollowsTrans(w, w1, ForkTaking(w1, p, true, i == 0 && (chain || !fed), {}));
      } else {
        ForkFollows(w, {});
      }
    case To(b) =>
      var p := UserPipe(me, b);
      if !AcceptsTo(w.m, me, b) {
        ForkFollows(w, {});
      } else {
        ToFollows(w, p, chain, i + 1 == k && file);
      }
  }

  /** A command whose >b was accepted. */
  lemma ToFollows(w: World, p: UserPipe, chain: bool, sent: bool)
    requires Sane(w) && p !in w.m.pipes
    ensures var w1 := w.(m := Tell(w.m, Piped(p)));
      Follows(w, if !chain then Fork(w1, {}, None, {})
                 else var w2 := OpenIn(w1, p); Fork(w2, {}, None, if sent then Number(w2, p) else {}))
  {
    var w1 := w.(m := Tell(w.m, Piped(p)));
    TellKeepsPipes(w.m, Piped(p));
    RestFollows(w, w1.m);
    if chain {
      var w2 := OpenIn(w1, p);
      OpenFollows(w1, p);
      FollowsTrans(w, w1, w2);
      var away := if sent then Number(w2, p) else {};
      assert JustOpened(w2, away);
      hide Sane, Follows, OpenIn, Open, Number, JustOpened, Fork, Tell;
      ForkFollows(w2, away);
      FollowsTrans(w, w2, Fork(w2, {}, None, away));
    } else {
      ForkFollows(w1, {});
      FollowsTrans(w, w1, Fork(w1, {}, None, {}));
    }
  }

  lemma FollowsSelf(w: World)
    requires Sane(w)
    ensures Follows(w, w)
  {
    RestFollows(w, w.m);
  }

  /** The rest of a line behind its first `i` commands. */
  lemma {:induction false} StagesFollow(w: World, me: int, rs: seq<Redirect>, chain: bool, i: nat, n: nat,
                                        fed: bool, files: seq<bool>)
    requires |w.m.ids| == CAPACITY && AllInRange(rs) && i <= n <= |rs| && Sane(w)
    ensures Follows(StagesIn(w, me, rs, chain, i, fed, files), StagesIn(w, me, rs, chain, n, fed, files))
    decreases n
  {
    hide Follows, Sane, StageIn, RunStages;
    if i < n {
      StagesFollow(w, me, rs, chain, i, n - 1, fed, files);
      StagesSane(w, me, rs, chain, n - 1, fed, files);
      var before := StagesIn(w, me, rs, chain, n - 1, fed, files);
      StageFollows(before, me, rs[n - 1], chain, n - 1, |rs|, fed, FileAt(files, n - 1));
      FollowsTrans(StagesIn(w, me, rs, chain, i, fed, files), before, StagesIn(w, me, rs, chain, n, fed, files));
    } else {
      StagesSane(w, me, rs, chain, n, fed, files);
      FollowsSelf(StagesIn(w, me, rs, chain, n, fed, files));
    }
  }

  lemma FollowsSane(w: World, w1: World)
    requires Follows(w, w1)
    ensures Sane(w1)
  {}

  lemma {:induction false} StagesSane(w: World, me: int, rs: seq<Redirect>, chain: bool, n: nat,
                                      fed: bool, files: seq<bool>)
    requires |w.m.ids| == CAPACITY && AllInRange(rs) && n <= |rs| && Sane(w)
    ensures Sane(StagesIn(w, me, rs, chain, n, fed, files))
  {
    hide Follows, Sane, StageIn, RunStages;
    if n > 0 {
      StagesSane(w, me, rs, chain, n - 1, fed, files);
      var before := StagesIn(w, me, rs, chain, n - 1, fed, files);
      StageFollows(before, me, rs[n - 1], chain, n - 1, |rs|, fed, FileAt(files, n - 1));
      FollowsSane(before, StagesIn(w, me, rs, chain, n, fed, files));
    }
  }

  lemma ChainFollows(w: World, me: int, rs: seq<Redirect>, files: seq<bool>)
    requires |w.m.ids| == CAPACITY && AllInRange(rs) && Sane(w)
    ensures Follows(w, ChainIn(w, me, rs, files)) && ChainIn(w, me, rs, files).m == RunChain(w.m, me, rs)
  {
    hide Follows, Sane, StageIn, RunStages, LastFrom;
    var w1 := StagesIn(w, me, rs, true, |rs|, false, files);
    assert StagesIn(w, me, rs, true, 0, false, files) == w;
    StagesFollow(w, me, rs, true, 0, |rs|, false, files);
    var last := LastFrom(w.m, me, rs, true, |rs|);
    if last.From? {
      FollowsSane(w, w1);
      ShutFollows(w1, UserPipe(last.user, me));
      FollowsTrans(w, w1, ShutIn(w1, UserPipe(last.user, me)));
    }
  }

  lemma NumberedFollows(w: World, me: int, a: Redirect, b: Redirect, rs: seq<Redirect>, fed: bool, files: seq<bool>)
    requires |w.m.ids| == CAPACITY && InRange(a) && InRange(b) && AllInRange(rs) && Sane(w)
    ensures var w1 := w.(m := Announce(w.m, me, a, b));
      Follows(w, StagesIn(w1, me, rs, false, |rs|, fed, files))
  {
    var w1 := w.(m := Announce(w.m, me, a, b));
    AnnounceKeepsPipes(w.m, me, a, b);
    RestFollows(w, w1.m);
    FollowsSane(w, w1);
    assert StagesIn(w1, me, rs, false, 0, fed, files) == w1;
    hide Follows, Sane, StagesIn, Announce;
    StagesFollow(w1, me, rs, false, 0, |rs|, fed, files);
    FollowsTrans(w, w1, StagesIn(w1, me, rs, false, |rs|, fed, files));
  }

  // ----- Runs -----------------------------------------------------------------------------------

  /** Each step keeps all that, and does to the server what it does in ManagerRuns. */
  lemma StepFollows(w: World, act: Act)
    requires Sane(w) && Inv(w.m)
    ensures Follows(w, StepIn(w, act)) && StepIn(w, act).m == Step(w.m, act.op)
  {
    var op := act.op;
    StepKeepsInv(w.m, op);
    var m1 := Step(w.m, op);
    if !Enabled(w.m, op) {
      FollowsSelf(w);
    } else {
      hide Sane, Follows, OneIn, ChainIn, StagesIn, Announce, RunOne, RunChain, Enter, Leave, Rename, Clients, InTurn;
      match op
      case Join(fd, ip, port) => JoinFollows(w, op);
      case Quit(fd) => QuitFollows(w, fd);
      case Name(fd, name) => JoinFollows(w, op);
      case One(fd, a, b, builtin) => OneFollows(w, IdOf(w.m, fd), a, b, builtin, act.fed, FileAt(act.files, 0));
      case Chain(fd, rs) => ChainFollows(w, IdOf(w.m, fd), rs, act.files);
      case NumberedLine(fd, a, b, rs) => NumberedFollows(w, IdOf(w.m, fd), a, b, rs, act.fed, act.files);
    }
  }

  /** A newcomer or a rename. */
  lemma JoinFollows(w: World, op: Op)
    requires Sane(w) && Inv(w.m) && (op.Join? || op.Name?)
    ensures Follows(w, w.(m := Step(w.m, op)))
  {
    StepKeepsInv(w.m, op);
    RestFollows(w, Step(w.m, op));
  }

  lemma QuitFollows(w: World, fd: int)
    requires Sane(w) && Inv(w.m) && Enabled(w.m, Quit(fd))
    ensures var m1 := Step(w.m, Quit(fd));
      Follows(w, World(m1, map p | p in w.open && p in m1.pipes :: w.open[p], w.born, w.procs))
  {
    StepKeepsInv(w.m, Quit(fd));
    LeaveIs(w.m, fd);
    SweepHalves(w.m.pipes, IdOf(w.m, fd));
    var m1 := Step(w.m, Quit(fd));
    assert Numbered(w);
    hide Sweep, Erased, Leave, Follows, InTurn, Clients;
    FewerFollow(w, m1, map p | p in w.open && p in m1.pipes :: w.open[p]);
  }

  function Ops(acts: seq<Act>): seq<Op> {
    seq(|acts|, i requires 0 <= i < |acts| => acts[i].op)
  }

  lemma EmptyIsSane()
    ensures Sane(World(Init(), map[], [], []))
  {
    InitInv();
    hide InTurn;
  }

  /** These runs are the runs of ManagerRuns with the processes added. */
  lemma {:induction false} RunFollows(acts: seq<Act>)
    ensures Sane(RunIn(acts)) && RunIn(acts).m == Run(Ops(acts))
  {
    hide Sane, StepIn, Step, Follows;
    if acts == [] {
      EmptyIsSane();
      assert Ops(acts) == [];
    } else {
      var front, act := acts[..|acts| - 1], acts[|acts| - 1];
      RunFollows(front);
      RunInv(Ops(front));
      StepFollows(RunIn(front), act);
      FollowsSane(RunIn(front), RunIn(acts));
      assert Ops(acts)[..|acts| - 1] == Ops(front);
    }
  }

  lemma {:induction false} LaterFollows(acts: seq<Act>, rest: seq<Act>)
    ensures Follows(RunIn(acts), RunIn(acts + rest))
  {
    hide Sane, StepIn, Step, Follows;
    if rest == [] {
      assert acts + rest == acts;
      RunFollows(acts);
      FollowsSelf(RunIn(acts));
    } else {
      var front, act := rest[..|rest| - 1], rest[|rest| - 1];
      LaterFollows(acts, front);
      assert (acts + rest)[..|acts + rest| - 1] == acts + front;
      RunFollows(acts + front);
      RunInv(Ops(acts + front));
      StepFollows(RunIn(acts + front), act);
      FollowsTrans(RunIn(acts), RunIn(acts + front), RunIn(acts + rest));
    }
  }
}
