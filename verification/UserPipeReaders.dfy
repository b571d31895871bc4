/** Who can still write to the user pipe that a command reads. */
module UserPipeReaders {
  import opened Common
  import opened UserPipes
  import opened Manager
  import opened ManagerRuns
  import opened UserPipeWorld

  // ----- The reader of a user pipe --------------------------------------------------------------

  /** The first process of the step reads user pipe `q`. */
  ghost predicate Reads(w: World, w1: World, q: nat) {
    |w.procs| < |w1.procs| && w1.procs[|w.procs|].input == Some(q)
  }

  /** The pipe that is read was open before, and neither the server nor any process of the line has its write
      end when the line is done. */
  ghost predicate Taken(w: World, w1: World, q: nat) {
    Reads(w, w1, q) ==> q in Ends(w) && q < |w.born| && GoneSince(w1, |w.procs|, q)
  }

  lemma TakenLater(w: World, w1: World, w2: World, q: nat)
    requires Sane(w) && Taken(w, w1, q) && Follows(w1, w2) && |w.procs| < |w1.procs| && |w.born| <= |w1.born|
    ensures Taken(w, w2, q)
  {
    assert w2.procs[|w.procs|] == w2.procs[..|w1.procs|][|w.procs|];
    hide Sane, Ends;
    if Reads(w, w1, q) {
      assert q < |w1.born| && q !in Ends(w1);
      StillGone(w1, w2, |w.procs|, q);
    }
  }

  lemma ForkTaken(w: World, p: UserPipe, drops: bool, away: set<nat>, q: nat)
    requires Sane(w)
    ensures Taken(w, ForkTaking(w, p, drops, drops, away), q)
    ensures Taken(w, Fork(w, {}, None, away), q)
  {
    var w1 := ForkTaking(w, p, drops, drops, away);
    if Reads(w, w1, q) {
      assert p in w.open && q == w.open[p] && q in Ends(w);
      EndsKnown(w);
      FewerEnds(w, w.open - {p});
      assert Ends(w1) == Ends(w.(open := w.open - {p}));
      NotInRest(w, p);
    }
    hide Sane, Shut;
  }

  lemma NotInRest(w: World, p: UserPipe)
    requires Sane(w) && p in w.open
    ensures w.open[p] !in Ends(w.(open := w.open - {p}))
  {}

  lemma OneTaken(w: World, me: int, a: Redirect, b: Redirect, builtin: bool, fed: bool, file: bool, q: nat)
    requires |w.m.ids| == CAPACITY && InRange(a) && InRange(b) && Sane(w)
    ensures Taken(w, OneIn(w, me, a, b, builtin, fed, file), q)
  {
    var f := a.From? && AcceptsFrom(w.m, me, a.user);
    var t := b.To? && AcceptsTo(w.m, me, b.user);
    var w1 := w.(m := Announce(w.m, me, a, b));
    AnnounceKeepsPipes(w.m, me, a, b);
    RestFollows(w, w1.m);
    FollowsSane(w, w1);
    var w2 := if t then OpenIn(w1, UserPipe(me, b.user)) else w1;
    if t {
      OpenFollows(w1, UserPipe(me, b.user));
      FollowsSane(w1, w2);
    }
    var away := if t && file then Number(w2, UserPipe(me, b.user)) else {};
    if f {
      var p := UserPipe(a.user, me);
      ForkTaken(w2, p, t || !fed, away, q);
      assert p in w.open && p in w2.open && w2.open[p] == w.open[p];
      assert w.open[p] in Ends(w);
      EndsKnown(w);
    } else {
      ForkTaken(w2, UserPipe(0, 0), false, away, q);
    }
    hide Sane, Follows, Announce, OpenIn, Open, Shut, Number, Ends, ShutIn, GoneSince;
  }

  lemma FirstTaken(w: World, me: int, r: Redirect, chain: bool, k: nat, fed: bool, file: bool, q: nat)
    requires |w.m.ids| == CAPACITY && InRange(r) && Sane(w)
    ensures Taken(w, StageIn(w, me, r, chain, 0, k, fed, file), q)
    ensures |w.procs| < |StageIn(w, me, r, chain, 0, k, fed, file).procs|
  {
    if r.From? && AcceptsFrom(w.m, me, r.user) {
      var p := UserPipe(r.user, me);
      var w1 := w.(m := Tell(w.m, Received(p)));
      TellKeepsPipes(w.m, Received(p));
      RestFollows(w, w1.m);
      FollowsSane(w, w1);
      assert Ends(w1) == Ends(w);
      StageTaken(w1, p, chain || !fed, q);
    }
    hide Sane, Follows, Ends, Shut, GoneSince;
  }

  /** Its write end is closed for it even when something else takes the input's place. */
  lemma StageTaken(w: World, p: UserPipe, wired: bool, q: nat)
    requires Sane(w)
    ensures Taken(w, ForkTaking(w, p, true, wired, {}), q)
  {
    if wired {
      ForkTaken(w, p, true, {}, q);
    }
    hide Sane, Ends, GoneSince, Shut;
  }

  lemma StagesTaken(w: World, me: int, rs: seq<Redirect>, chain: bool, fed: bool, files: seq<bool>, q: nat)
    requires |w.m.ids| == CAPACITY && AllInRange(rs) && Sane(w)
    ensures Taken(w, StagesIn(w, me, rs, chain, |rs|, fed, files), q)
  {
    hide Sane, Follows, Taken, StageIn, RunStages;
    assert StagesIn(w, me, rs, chain, 0, fed, files) == w;
    if rs == [] {
      NothingTaken(w, q);
    } else {
      var w1 := StagesIn(w, me, rs, chain, 1, fed, files);
      assert w1 == StageIn(w, me, rs[0], chain, 0, |rs|, fed, FileAt(files, 0));
      FirstTaken(w, me, rs[0], chain, |rs|, fed, FileAt(files, 0), q);
      StageFollows(w, me, rs[0], chain, 0, |rs|, fed, FileAt(files, 0));
      FollowsBorn(w, w1);
      StagesFollow(w, me, rs, chain, 1, |rs|, fed, files);
      TakenLater(w, w1, StagesIn(w, me, rs, chain, |rs|, fed, files), q);
    }
  }

  lemma FollowsBorn(w: World, w1: World)
    requires Follows(w, w1)
    ensures |w.born| <= |w1.born| && |w.procs| <= |w1.procs|
  {}

  lemma NothingTaken(w: World, q: nat)
    ensures Taken(w, w, q)
  {}

  lemma ChainTaken(w: World, me: int, rs: seq<Redirect>, files: seq<bool>, q: nat)
    requires |w.m.ids| == CAPACITY && AllInRange(rs) && Sane(w)
    ensures Taken(w, ChainIn(w, me, rs, files), q)
  {
    hide Sane, Follows, StagesIn, RunStages, LastFrom, Ends, Shut;
    var w1 := StagesIn(w, me, rs, true, |rs|, false, files);
    StagesTaken(w, me, rs, true, false, files, q);
    var last := LastFrom(w.m, me, rs, true, |rs|);
    if last.From? {
      FewerEnds(w1, w1.open - {UserPipe(last.user, me)});
      SameEnds(ShutIn(w1, UserPipe(last.user, me)), w1.(open := w1.open - {UserPipe(last.user, me)}));
    }
  }

  lemma SameEnds(w: World, w1: World)
    requires w.open == w1.open
    ensures Ends(w) == Ends(w1)
  {}

  lemma StepTaken(w: World, act: Act, q: nat)
    requires Sane(w) && Inv(w.m)
    ensures Taken(w, StepIn(w, act), q)
  {
    assert IdsInRange(w.m);
    hide Sane, Follows, OneIn, ChainIn, StagesIn, Taken, Clients, Step;
    if Enabled(w.m, act.op) {
      match act.op
      case Join(_, _, _) => NoneForked(w, StepIn(w, act), q);
      case Quit(_) => NoneForked(w, StepIn(w, act), q);
      case Name(_, _) => NoneForked(w, StepIn(w, act), q);
      case One(fd, a, b, builtin) => OneTaken(w, IdOf(w.m, fd), a, b, builtin, act.fed, FileAt(act.files, 0), q);
      case Chain(fd, rs) => ChainTaken(w, IdOf(w.m, fd), rs, act.files, q);
      case NumberedLine(fd, a, b, rs) => NumberedTaken(w, IdOf(w.m, fd), a, b, rs, act.fed, act.files, q);
    } else {
      NothingTaken(w, q);
    }
  }

  lemma NoneForked(w: World, w1: World, q: nat)
    requires w1.procs == w.procs
    ensures Taken(w, w1, q)
  {}

  lemma NumberedTaken(w: World, me: int, a: Redirect, b: Redirect, rs: seq<Redirect>, fed: bool, files: seq<bool>, q: nat)
    requires |w.m.ids| == CAPACITY && InRange(a) && InRange(b) && AllInRange(rs) && Sane(w)
    ensures Taken(w, StagesIn(w.(m := Announce(w.m, me, a, b)), me, rs, false, |rs|, fed, files), q)
  {
    var w1 := w.(m := Announce(w.m, me, a, b));
    AnnounceKeepsPipes(w.m, me, a, b);
    RestFollows(w, w1.m);
    FollowsSane(w, w1);
    SameEnds(w, w1);
    hide Sane, Follows, StagesIn, Announce, Ends;
    StagesTaken(w1, me, rs, false, fed, files, q);
  }

  /** A read from the pipe meets end of file: neither the server nor a live process can write to it. */
  ghost predicate AtEof(w: World, live: set<nat>, q: nat) {
    q !in Ends(w) && forall j :: j in live && j < |w.procs| ==> q !in w.procs[j].held
  }

  /** The process was forked, for whatever client, while the pipe was in the list before this step, and its
      standard output was not sent from the pipe to a file. */
  ghost predicate ForkedWhileOpen(w: World, q: nat, j: nat) {
    q < |w.born| && j < |w.procs| && w.born[q] <= j && q !in w.procs[j].away
  }

  lemma HoldersAre(w: World, w1: World, w2: World, q: nat)
    requires Sane(w) && Taken(w, w1, q) && Reads(w, w1, q) && Follows(w, w1) && Follows(w1, w2)
    ensures q !in Ends(w2)
    ensures forall j: nat :: j < |w2.procs| ==> (q in w2.procs[j].held <==> ForkedWhileOpen(w, q, j))
  {
    FollowsBorn(w, w1);
    TakenLater(w, w1, w2, q);
    FollowsTrans(w, w1, w2);
    assert Reads(w, w2, q) by {
      assert w2.procs[|w.procs|] == w2.procs[..|w1.procs|][|w.procs|];
    }
    var p :| p in w.open && w.open[p] == q;
    assert HeldRight(w, q);
    hide Sane, Ends, Follows;
    assert w2.procs[..|w.procs|] == w.procs by {
      PastIsKept(w, w1, w2);
    }
    forall j: nat | j < |w2.procs|
      ensures q in w2.procs[j].held <==> ForkedWhileOpen(w, q, j)
    {
      assert j < |w.procs| ==> w2.procs[j] == w2.procs[..|w.procs|][j];
    }
  }

  lemma PastIsKept(w: World, w1: World, w2: World)
    requires Follows(w, w1) && Follows(w1, w2)
    ensures |w.procs| <= |w2.procs| && w2.procs[..|w.procs|] == w.procs
  {
    FollowsTrans(w, w1, w2);
  }

  /** The reader of a user pipe, in every run of all the clients' lines and at any time after its own:
      its input is at end of file iff every process is gone that was forked, for any client, while the pipe
      was in the list, except a writer whose output goes to a file. */
  lemma ReaderMeetsEof(acts: seq<Act>, act: Act, rest: seq<Act>, q: nat, live: set<nat>)
    requires Reads(RunIn(acts), RunIn(acts + [act]), q)
    ensures AtEof(RunIn(acts + [act] + rest), live, q) <==> forall j :: j in live ==> !ForkedWhileOpen(RunIn(acts), q, j)
    ensures forall j: nat :: j < |RunIn(acts).procs| && q in RunIn(acts).procs[j].away ==>
      q < |RunIn(acts).born| && j == RunIn(acts).born[q]
  {
    var w := RunIn(acts);
    assert (acts + [act])[..|acts|] == acts;
    RunFollows(acts);
    RunInv(Ops(acts));
    StepTaken(w, act, q);
    StepFollows(w, act);
    LaterFollows(acts + [act], rest);
    HoldersAre(w, RunIn(acts + [act]), RunIn(acts + [act] + rest), q);
    hide StepIn, RunIn, Follows, Taken, Reads, Ends, ForkedWhileOpen;
    AwayIsWriter(w, q);
    EofFrom(RunIn(acts + [act] + rest), live, q, w);
  }

  lemma AwayIsWriter(w: World, q: nat)
    requires Sane(w)
    ensures forall j: nat :: j < |w.procs| && q in w.procs[j].away ==> q < |w.born| && j == w.born[q]
  {
    forall j: nat | j < |w.procs| && q in w.procs[j].away
      ensures q < |w.born| && j == w.born[q]
    {
      assert RightlyHeld(w.born, w.procs[j], j);
    }
  }

  lemma EofFrom(w2: World, live: set<nat>, q: nat, w: World)
    requires q !in Ends(w2) && |w.procs| <= |w2.procs|
    requires forall j: nat :: j < |w2.procs| ==> (q in w2.procs[j].held <==> ForkedWhileOpen(w, q, j))
    ensures AtEof(w2, live, q) <==> forall j :: j in live ==> !ForkedWhileOpen(w, q, j)
  {
    hide Ends;
  }

  /** When the first process of a step reads a listed pipe, judged by the state before it: the pipe is the <a
      of the line's first command, it is accepted, the command is forked, and no delivered numbered pipe takes
      the input's place.  That happens to a lone command unless it also pipes to somebody, and in front of a
      numbered pipe always. */
  ghost predicate ReadsFrom(m: State, act: Act, p: UserPipe) {
    IdsInRange(m) && Enabled(m, act.op)
    && match act.op
       case One(fd, a, b, builtin) =>
         var me := IdOf(m, fd);
         && !builtin && a.From? && UserPipe(a.user, me) == p && AcceptsFrom(m, me, a.user)
         && (!act.fed || (b.To? && AcceptsTo(m, me, b.user)))
       case Chain(fd, rs) => FirstReads(m, IdOf(m, fd), rs, p)
       case NumberedLine(fd, _, _, rs) => FirstReads(m, IdOf(m, fd), rs, p) && !act.fed
       case _ => false
  }

  ghost predicate FirstReads(m: State, me: int, rs: seq<Redirect>, p: UserPipe)
    requires |m.ids| == CAPACITY && AllInRange(rs)
  {
    rs != [] && rs[0].From? && UserPipe(rs[0].user, me) == p && AcceptsFrom(m, me, rs[0].user)
  }

  lemma OneReads(w: World, me: int, a: Redirect, b: Redirect, builtin: bool, fed: bool, file: bool, p: UserPipe)
    requires |w.m.ids| == CAPACITY && InRange(a) && InRange(b) && Sane(w) && p in w.open
    ensures Reads(w, OneIn(w, me, a, b, builtin, fed, file), w.open[p])
       <==> !builtin && a.From? && UserPipe(a.user, me) == p && AcceptsFrom(w.m, me, a.user)
            && (!fed || (b.To? && AcceptsTo(w.m, me, b.user)))
  {
    assert Numbered(w);
    hide Sane, Ends, Announce, Shut, Open;
  }

  lemma FirstStageReads(w: World, me: int, r: Redirect, chain: bool, k: nat, fed: bool, file: bool, p: UserPipe)
    requires |w.m.ids| == CAPACITY && InRange(r) && Sane(w) && p in w.open
    ensures Reads(w, StageIn(w, me, r, chain, 0, k, fed, file), w.open[p])
       <==> r.From? && UserPipe(r.user, me) == p && AcceptsFrom(w.m, me, r.user) && (chain || !fed)
  {
    assert Numbered(w);
    hide Sane, Ends, Shut, Open;
  }

  lemma StagesRead(w: World, me: int, rs: seq<Redirect>, chain: bool, fed: bool, files: seq<bool>, p: UserPipe)
    requires |w.m.ids| == CAPACITY && AllInRange(rs) && Sane(w) && p in w.open
    ensures Reads(w, StagesIn(w, me, rs, chain, |rs|, fed, files), w.open[p])
       <==> FirstReads(w.m, me, rs, p) && (chain || !fed)
  {
    hide Sane, Follows, StageIn, RunStages;
    assert StagesIn(w, me, rs, chain, 0, fed, files) == w;
    if rs != [] {
      var w1 := StagesIn(w, me, rs, chain, 1, fed, files);
      assert w1 == StageIn(w, me, rs[0], chain, 0, |rs|, fed, FileAt(files, 0));
      FirstStageReads(w, me, rs[0], chain, |rs|, fed, FileAt(files, 0), p);
      FirstTaken(w, me, rs[0], chain, |rs|, fed, FileAt(files, 0), w.open[p]);
      StagesFollow(w, me, rs, chain, 1, |rs|, fed, files);
      SameFirst(w, w1, StagesIn(w, me, rs, chain, |rs|, fed, files), w.open[p]);
    }
  }

  lemma SameFirst(w: World, w1: World, w2: World, q: nat)
    requires Follows(w1, w2) && |w.procs| < |w1.procs|
    ensures Reads(w, w2, q) <==> Reads(w, w1, q)
  {
    assert w2.procs[|w.procs|] == w2.procs[..|w1.procs|][|w.procs|];
  }

  /** Exactly those lines have a reader of the pipe. */
  lemma ReadsIff(acts: seq<Act>, act: Act, p: UserPipe)
    requires p in RunIn(acts).open
    ensures Reads(RunIn(acts), RunIn(acts + [act]), RunIn(acts).open[p]) <==> ReadsFrom(Run(Ops(acts)), act, p)
  {
    assert (acts + [act])[..|acts|] == acts;
    RunFollows(acts);
    RunInv(Ops(acts));
    StepReads(RunIn(acts), act, p);
    hide *;
  }

  lemma StepReads(w: World, act: Act, p: UserPipe)
    requires Sane(w) && Inv(w.m) && p in w.open
    ensures Reads(w, StepIn(w, act), w.open[p]) <==> ReadsFrom(w.m, act, p)
  {
    assert IdsInRange(w.m);
    hide Sane, OneIn, ChainIn, StagesIn, Clients, Pipes, Step, FirstReads, AcceptsFrom, AcceptsTo;
    if Enabled(w.m, act.op) {
      match act.op
      case Join(_, _, _) =>
      case Quit(_) =>
      case Name(_, _) =>
      case One(fd, a, b, builtin) => OneReads(w, IdOf(w.m, fd), a, b, builtin, act.fed, FileAt(act.files, 0), p);
      case Chain(fd, rs) => ChainReads(w, IdOf(w.m, fd), rs, act.files, p);
      case NumberedLine(fd, a, b, rs) => NumberedReads(w, IdOf(w.m, fd), a, b, rs, act.fed, act.files, p);
    }
  }

  lemma ChainReads(w: World, me: int, rs: seq<Redirect>, files: seq<bool>, p: UserPipe)
    requires |w.m.ids| == CAPACITY && AllInRange(rs) && Sane(w) && p in w.open
    ensures Reads(w, ChainIn(w, me, rs, files), w.open[p]) <==> FirstReads(w.m, me, rs, p)
  {
    StagesRead(w, me, rs, true, false, files, p);
    hide StagesIn, RunStages, LastFrom, FirstReads;
  }

  lemma NumberedReads(w: World, me: int, a: Redirect, b: Redirect, rs: seq<Redirect>, fed: bool, files: seq<bool>,
                      p: UserPipe)
    requires |w.m.ids| == CAPACITY && InRange(a) && InRange(b) && AllInRange(rs) && Sane(w) && p in w.open
    ensures Reads(w, StagesIn(w.(m := Announce(w.m, me, a, b)), me, rs, false, |rs|, fed, files), w.open[p])
       <==> FirstReads(w.m, me, rs, p) && !fed
  {
    var w1 := w.(m := Announce(w.m, me, a, b));
    AnnounceKeepsPipes(w.m, me, a, b);
    RestFollows(w, w1.m);
    FollowsSane(w, w1);
    hide Sane, Follows, StagesIn, Announce;
    StagesRead(w1, me, rs, false, fed, files, p);
  }
}
