/** Which processes each operation forks, and which user pipes each of them can write to and reads. */
module UserPipeForks {
  import opened Common
  import opened UserPipes
  import opened Manager
  import opened ManagerRuns
  import opened UserPipeTheorems
  import opened ManagerLaws
  import opened UserPipeWorld
  import opened UserPipeReaders

  // ----- One command of a longer line -----------------------------------------------------------

  /** The process that was forked last. */
  function Newest(w: World): Process
    requires w.procs != []
  {
    w.procs[|w.procs| - 1]
  }

  ghost predicate OneMore(w: World, w1: World) {
    |w1.procs| == |w.procs| + 1 && w1.procs[..|w.procs|] == w.procs
  }

  /** A listed pipe and one command: it is inherited, unless the command takes it. */
  lemma StageHolds(w: World, me: int, r: Redirect, chain: bool, i: nat, k: nat, fed: bool, file: bool, p: UserPipe)
    requires |w.m.ids| == CAPACITY && InRange(r) && Sane(w) && p in w.open
    ensures var w1, q := StageIn(w, me, r, chain, i, k, fed, file), w.open[p];
      var takes := r.From? && UserPipe(r.user, me) == p && IsIn(w.m, r.user);
      && OneMore(w, w1)
      && (q in Newest(w1).held <==> !takes)
      && (if takes then q !in Ends(w1) else p in w1.open && w1.open[p] == q)
  {
    EndsKnown(w);
    assert w.open[p] in Ends(w);
    assert p in w.m.pipes;
    NotInRest(w, p);
    match r
    case Nothing =>
    case From(a) =>
      SameEnds(ShutIn(w, UserPipe(a, me)), w.(open := w.open - {UserPipe(a, me)}));
      if AcceptsFrom(w.m, me, a) {
        TakingHolds(w, UserPipe(a, me), i == 0 && (chain || !fed), p);
      }
    case To(b) =>
      if AcceptsTo(w.m, me, b) && chain {
        OpeningHolds(w, UserPipe(me, b), i + 1 == k && file, p);
      }
  }

  lemma TakingHolds(w: World, x: UserPipe, wired: bool, p: UserPipe)
    requires Sane(w) && p in w.open && x in w.open
    ensures var w1, q := ForkTaking(w, x, true, wired, {}), w.open[p];
      && OneMore(w, w1)
      && (q in Newest(w1).held <==> x != p)
      && (if x == p then q !in Ends(w1) else p in w1.open && w1.open[p] == q)
  {
    assert w.open[p] in Ends(w);
    NotInRest(w, x);
    SameEnds(ForkTaking(w, x, true, wired, {}), w.(open := w.open - {x}));
    hide Shut;
  }

  lemma OpeningHolds(w: World, x: UserPipe, sent: bool, p: UserPipe)
    requires Sane(w) && p in w.open && x !in w.m.pipes
    ensures var w2 := OpenIn(w, x);
      var w1, q := Fork(w2, {}, None, if sent then Number(w2, x) else {}), w.open[p];
      && OneMore(w, w1) && q in Newest(w1).held && p in w1.open && w1.open[p] == q
  {
    EndsKnown(w);
    assert w.open[p] in Ends(w);
    var w2 := OpenIn(w, x);
    assert p in w2.open && w2.open[p] == w.open[p];
    assert w2.open[p] in Ends(w2);
    hide Open;
  }

  /** A command whose >b opens a pipe is the writer of that pipe. */
  lemma StageOpens(w: World, me: int, b: int, i: nat, k: nat, fed: bool, file: bool)
    requires |w.m.ids| == CAPACITY && 1 <= b <= CAPACITY && Sane(w) && AcceptsTo(w.m, me, b)
    ensures var w1, p := StageIn(w, me, To(b), true, i, k, fed, file), UserPipe(me, b);
      && OneMore(w, w1) && w1.born == w.born + [|w.procs|]
      && p in w1.open && w1.open[p] == |w.born|
      && (|w.born| in Newest(w1).held <==> !(i + 1 == k && file))
  {
    var w2 := OpenIn(w.(m := Tell(w.m, Piped(UserPipe(me, b)))), UserPipe(me, b));
    assert w2.open[UserPipe(me, b)] == |w.born|;
    assert |w.born| in Ends(w2);
    hide Sane, Open;
  }

  /** No other command opens one. */
  lemma StageOpensNone(w: World, me: int, r: Redirect, chain: bool, i: nat, k: nat, fed: bool, file: bool)
    requires |w.m.ids| == CAPACITY && InRange(r) && !(chain && r.To? && AcceptsTo(w.m, me, r.user))
    ensures OneMore(w, StageIn(w, me, r, chain, i, k, fed, file)) && StageIn(w, me, r, chain, i, k, fed, file).born == w.born
  {
    hide Shut, Open;
  }

  lemma StageInput(w: World, me: int, r: Redirect, chain: bool, i: nat, k: nat, fed: bool, file: bool)
    requires |w.m.ids| == CAPACITY && InRange(r) && i > 0
    ensures var w1 := StageIn(w, me, r, chain, i, k, fed, file); OneMore(w, w1) && Newest(w1).input == None
  {
    hide Shut, Open;
  }

  // ----- The commands of a longer line ----------------------------------------------------------

  /** A <a among the commands from `from` on, up to number `n`, takes the pipe. */
  ghost predicate TakenIn(m: State, me: int, rs: seq<Redirect>, p: UserPipe, from: nat, n: nat) {
    p.receiver == me && IsIn(m, p.sender) && TakesFrom(rs, p.sender, from, n)
  }

  lemma TakenOneMore(m: State, me: int, rs: seq<Redirect>, p: UserPipe, from: nat, n: nat)
    requires from <= n < |rs|
    ensures TakenIn(m, me, rs, p, from, n + 1)
       <==> TakenIn(m, me, rs, p, from, n) || (rs[n].From? && UserPipe(rs[n].user, me) == p && IsIn(m, rs[n].user))
    ensures !TakenIn(m, me, rs, p, from, from)
  {
    var a := p.sender;
    if TakesFrom(rs, a, from, n) {
      var k :| from <= k < n && k < |rs| && rs[k] == From(a);
      assert from <= k < n + 1;
    }
    if rs[n] == From(a) {
      assert from <= n < n + 1;
    }
  }

  /** The world when command `n` comes, from the one before it. */
  lemma StagesUnfold(w: World, me: int, rs: seq<Redirect>, chain: bool, n: nat, fed: bool, files: seq<bool>)
    requires |w.m.ids| == CAPACITY && AllInRange(rs) && 0 < n <= |rs|
    ensures var before := StagesIn(w, me, rs, chain, n - 1, fed, files);
      && before.m.ids == w.m.ids && InRange(rs[n - 1])
      && StagesIn(w, me, rs, chain, n, fed, files)
         == StageIn(before, me, rs[n - 1], chain, n - 1, |rs|, fed, FileAt(files, n - 1))
  {
    hide StageIn, RunStages;
  }

  lemma {:induction false} StagesCount(w: World, me: int, rs: seq<Redirect>, chain: bool, n: nat, fed: bool, files: seq<bool>)
    requires |w.m.ids| == CAPACITY && AllInRange(rs) && n <= |rs|
    ensures var r := StagesIn(w, me, rs, chain, n, fed, files);
      |r.procs| == |w.procs| + n && r.procs[..|w.procs|] == w.procs
    ensures n > 0 ==> OneMore(StagesIn(w, me, rs, chain, n - 1, fed, files), StagesIn(w, me, rs, chain, n, fed, files))
  {
    if n > 0 {
      StagesCount(w, me, rs, chain, n - 1, fed, files);
      var before := StagesIn(w, me, rs, chain, n - 1, fed, files);
      StageForks(before, me, rs[n - 1], chain, n - 1, |rs|, fed, FileAt(files, n - 1));
      hide StageIn, RunStages;
      var r := StagesIn(w, me, rs, chain, n, fed, files);
      assert r.procs[..|w.procs|] == r.procs[..|before.procs|][..|w.procs|];
    }
  }

  lemma StageForks(w: World, me: int, r: Redirect, chain: bool, i: nat, k: nat, fed: bool, file: bool)
    requires |w.m.ids| == CAPACITY && InRange(r)
    ensures OneMore(w, StageIn(w, me, r, chain, i, k, fed, file))
  {
    hide Shut, Open;
  }

  /** Command `i` can write to pipe `q` iff the commands up to it have not taken it. */
  ghost predicate HeldAt(n: nat, r: World, m: State, me: int, rs: seq<Redirect>, p: UserPipe, q: nat, from: nat, i: nat) {
    n + i < |r.procs| ==> (q in r.procs[n + i].held <==> !TakenIn(m, me, rs, p, from, i + 1))
  }

  ghost predicate HeldSince(n: nat, r: World, m: State, me: int, rs: seq<Redirect>, p: UserPipe, q: nat, from: nat, k: nat) {
    forall i: nat :: from <= i < k ==> HeldAt(n, r, m, me, rs, p, q, from, i)
  }

  /** A pipe in the list when command `from` comes: the commands up to the first that takes it inherit it, and no
      later one does. */
  ghost predicate HeldUntilTaken(n: nat, r: World, m: State, me: int, rs: seq<Redirect>, p: UserPipe, q: nat, from: nat, k: nat) {
    && HeldSince(n, r, m, me, rs, p, q, from, k)
    && (if TakenIn(m, me, rs, p, from, k) then q !in Ends(r) else p in r.open && r.open[p] == q)
  }

  lemma {:induction false} StagesHold(w: World, me: int, rs: seq<Redirect>, chain: bool, from: nat, n: nat,
                                      fed: bool, files: seq<bool>, p: UserPipe, q: nat)
    requires |w.m.ids| == CAPACITY && AllInRange(rs) && from <= n <= |rs| && Sane(w)
    requires var start := StagesIn(w, me, rs, chain, from, fed, files); p in start.open && start.open[p] == q
    ensures HeldUntilTaken(|w.procs|, StagesIn(w, me, rs, chain, n, fed, files), w.m, me, rs, p, q, from, n)
    decreases n
  {
    hide *;
    if n == from {
      HoldsAtStart(|w.procs|, StagesIn(w, me, rs, chain, from, fed, files), w.m, me, rs, p, q, from);
    } else {
      StagesHold(w, me, rs, chain, from, n - 1, fed, files, p, q);
      StillKnown(w, me, rs, chain, from, n - 1, fed, files, p);
      StagesCount(w, me, rs, chain, n - 1, fed, files);
      StagesUnfold(w, me, rs, chain, n, fed, files);
      var before, r := StagesIn(w, me, rs, chain, n - 1, fed, files), StagesIn(w, me, rs, chain, n, fed, files);
      HoldStep(w, before, r, me, rs, chain, from, n, fed, FileAt(files, n - 1), p, q);
    }
  }

  lemma HoldsAtStart(k: nat, r: World, m: State, me: int, rs: seq<Redirect>, p: UserPipe, q: nat, from: nat)
    requires p in r.open && r.open[p] == q
    ensures HeldUntilTaken(k, r, m, me, rs, p, q, from, from)
  {
    hide Ends;
    NoneTaken(m, me, rs, p, from);
  }

  lemma NoneTaken(m: State, me: int, rs: seq<Redirect>, p: UserPipe, from: nat)
    ensures !TakenIn(m, me, rs, p, from, from)
  {}

  lemma StillKnown(w: World, me: int, rs: seq<Redirect>, chain: bool, from: nat, n: nat, fed: bool, files: seq<bool>, p: UserPipe)
    requires |w.m.ids| == CAPACITY && AllInRange(rs) && from <= n <= |rs| && Sane(w)
    requires p in StagesIn(w, me, rs, chain, from, fed, files).open
    ensures Sane(StagesIn(w, me, rs, chain, n, fed, files))
    ensures StagesIn(w, me, rs, chain, from, fed, files).open[p] < |StagesIn(w, me, rs, chain, n, fed, files).born|
  {
    var start := StagesIn(w, me, rs, chain, from, fed, files);
    StagesSane(w, me, rs, chain, from, fed, files);
    StagesSane(w, me, rs, chain, n, fed, files);
    StagesFollow(w, me, rs, chain, from, n, fed, files);
    FollowsBorn(start, StagesIn(w, me, rs, chain, n, fed, files));
    EndsKnown(start);
    assert start.open[p] in Ends(start);
    hide StagesIn, Sane, Ends, Follows;
  }

  lemma HoldStep(w: World, before: World, r: World, me: int, rs: seq<Redirect>, chain: bool, from: nat, n: nat,
                 fed: bool, file: bool, p: UserPipe, q: nat)
    requires |w.m.ids| == CAPACITY && before.m.ids == w.m.ids && from < n <= |rs| && InRange(rs[n - 1])
    requires Sane(before) && q < |before.born| && |before.procs| == |w.procs| + n - 1
    requires HeldUntilTaken(|w.procs|, before, w.m, me, rs, p, q, from, n - 1)
    requires r == StageIn(before, me, rs[n - 1], chain, n - 1, |rs|, fed, file)
    ensures HeldUntilTaken(|w.procs|, r, w.m, me, rs, p, q, from, n)
  {
    hide *;
    TakenOneMore(w.m, me, rs, p, from, n - 1);
    StageFollows(before, me, rs[n - 1], chain, n - 1, |rs|, fed, file);
    StageForks(before, me, rs[n - 1], chain, n - 1, |rs|, fed, file);
    SameUsers(before.m, w.m);
    StillOpen(|w.procs|, before, w.m, me, rs, p, q, from, n - 1);
    if !TakenIn(w.m, me, rs, p, from, n - 1) {
      StageHolds(before, me, rs[n - 1], chain, n - 1, |rs|, fed, file, p);
    }
    HoldsMore(|w.procs|, before, r, w.m, me, rs, p, q, from, n);
  }

  lemma SameUsers(m: State, m1: State)
    requires m.ids == m1.ids
    ensures forall id :: IsIn(m, id) <==> IsIn(m1, id)
  {}

  lemma StillOpen(k: nat, r: World, m: State, me: int, rs: seq<Redirect>, p: UserPipe, q: nat, from: nat, n: nat)
    requires HeldUntilTaken(k, r, m, me, rs, p, q, from, n)
    ensures !TakenIn(m, me, rs, p, from, n) ==> p in r.open && r.open[p] == q
  {}

  lemma HoldsMore(k: nat, before: World, r: World, m: State, me: int, rs: seq<Redirect>, p: UserPipe, q: nat, from: nat, n: nat)
    requires from < n && |before.procs| == k + n - 1 && OneMore(before, r)
    requires HeldUntilTaken(k, before, m, me, rs, p, q, from, n - 1) && Follows(before, r) && q < |before.born|
    requires TakenIn(m, me, rs, p, from, n - 1) ==> TakenIn(m, me, rs, p, from, n)
    requires !TakenIn(m, me, rs, p, from, n - 1) ==>
      && (q in Newest(r).held <==> !TakenIn(m, me, rs, p, from, n))
      && (if TakenIn(m, me, rs, p, from, n) then q !in Ends(r) else p in r.open && r.open[p] == q)
    ensures HeldUntilTaken(k, r, m, me, rs, p, q, from, n)
  {
    hide Ends, Sane, TakenIn;
    if TakenIn(m, me, rs, p, from, n - 1) {
      assert GoneSince(r, |before.procs|, q);
    }
    forall i: nat | from <= i < n
      ensures HeldAt(k, r, m, me, rs, p, q, from, i)
    {
      if i < n - 1 {
        assert HeldAt(k, before, m, me, rs, p, q, from, i);
        assert k + i < |before.procs| ==> r.procs[k + i] == r.procs[..|before.procs|][k + i];
      }
    }
  }

  /** Command `k` of a chain opens the pipe of its >b, judged by the state before the line. */
  ghost predicate Opens(m: State, me: int, rs: seq<Redirect>, k: nat) {
    k < |rs| && rs[k].To? && IsIn(m, rs[k].user)
    && if rs[k].user == me then !SelfPiped(m, me, rs, k)
       else UserPipe(me, rs[k].user) !in m.pipes && !Gives(rs, rs[k].user, k)
  }

  ghost function Openings(m: State, me: int, rs: seq<Redirect>, n: nat): nat {
    if n == 0 then 0 else Openings(m, me, rs, n - 1) + if Opens(m, me, rs, n - 1) then 1 else 0
  }

  lemma OpensIff(m: State, me: int, rs: seq<Redirect>, k: nat)
    requires |m.ids| == CAPACITY && AllInRange(rs) && k < |rs| && Unique(m.pipes) && IsIn(m, me)
    ensures Opens(m, me, rs, k) <==> rs[k].To? && AcceptsTo(RunStages(m, me, rs, true, k), me, rs[k].user)
  {
    if rs[k].To? {
      assert InRange(rs[k]);
      if rs[k].user == me {
        SelfAt(m, me, rs, k);
      } else {
        PipeAt(m, me, rs, true, k, UserPipe(me, rs[k].user));
      }
    }
    hide RunStages, SelfPiped, Gives;
  }

  lemma {:induction false} StagesOpen(w: World, me: int, rs: seq<Redirect>, n: nat, fed: bool, files: seq<bool>)
    requires |w.m.ids| == CAPACITY && AllInRange(rs) && n <= |rs| && Sane(w) && IsIn(w.m, me)
    ensures |StagesIn(w, me, rs, true, n, fed, files).born| == |w.born| + Openings(w.m, me, rs, n)
  {
    hide *;
    if n > 0 {
      StagesOpen(w, me, rs, n - 1, fed, files);
      StagesUnfold(w, me, rs, true, n, fed, files);
      OpensThere(w, me, rs, n - 1, fed, files);
      OneMoreOpening(w.m, me, rs, n);
      StageOpensIff(StagesIn(w, me, rs, true, n - 1, fed, files), me, rs[n - 1], n - 1, |rs|, fed, FileAt(files, n - 1));
    } else {
      NoOpening(w, me, rs, fed, files);
    }
  }

  lemma OpensThere(w: World, me: int, rs: seq<Redirect>, k: nat, fed: bool, files: seq<bool>)
    requires |w.m.ids| == CAPACITY && AllInRange(rs) && k < |rs| && Sane(w) && IsIn(w.m, me)
    ensures var before := StagesIn(w, me, rs, true, k, fed, files);
      Sane(before) && (Opens(w.m, me, rs, k) <==> rs[k].To? && AcceptsTo(before.m, me, rs[k].user))
  {
    OpensIff(w.m, me, rs, k);
    StagesSane(w, me, rs, true, k, fed, files);
    StagesModel(w, me, rs, true, k, fed, files);
    hide StagesIn, RunStages, Opens, Sane, AcceptsTo;
  }

  lemma OneMoreOpening(m: State, me: int, rs: seq<Redirect>, n: nat)
    requires n > 0
    ensures Openings(m, me, rs, n) == Openings(m, me, rs, n - 1) + if Opens(m, me, rs, n - 1) then 1 else 0
  {}

  lemma NoOpening(w: World, me: int, rs: seq<Redirect>, fed: bool, files: seq<bool>)
    requires |w.m.ids| == CAPACITY && AllInRange(rs)
    ensures StagesIn(w, me, rs, true, 0, fed, files) == w && Openings(w.m, me, rs, 0) == 0
  {}

  lemma StagesModel(w: World, me: int, rs: seq<Redirect>, chain: bool, n: nat, fed: bool, files: seq<bool>)
    requires |w.m.ids| == CAPACITY && AllInRange(rs) && n <= |rs|
    ensures StagesIn(w, me, rs, chain, n, fed, files).m == RunStages(w.m, me, rs, chain, n)
  {}

  lemma StageOpensIff(w: World, me: int, r: Redirect, i: nat, k: nat, fed: bool, file: bool)
    requires |w.m.ids| == CAPACITY && InRange(r) && Sane(w)
    ensures |StageIn(w, me, r, true, i, k, fed, file).born| == |w.born| + if r.To? && AcceptsTo(w.m, me, r.user) then 1 else 0
  {
    hide StageIn, Sane;
    if r.To? && AcceptsTo(w.m, me, r.user) {
      StageOpens(w, me, r.user, i, k, fed, file);
    } else {
      StageOpensNone(w, me, r, true, i, k, fed, file);
    }
  }

  lemma {:induction false} NumberedOpensNone(w: World, me: int, rs: seq<Redirect>, n: nat, fed: bool, files: seq<bool>)
    requires |w.m.ids| == CAPACITY && AllInRange(rs) && n <= |rs|
    ensures StagesIn(w, me, rs, false, n, fed, files).born == w.born
  {
    if n > 0 {
      NumberedOpensNone(w, me, rs, n - 1, fed, files);
      StageOpensNone(StagesIn(w, me, rs, false, n - 1, fed, files), me, rs[n - 1], false, n - 1, |rs|, fed, FileAt(files, n - 1));
      hide StageIn, RunStages;
    }
  }

  /** The writer: pipe `q` of command `k`, when all commands have run. */
  ghost predicate Written(w: World, r: World, me: int, rs: seq<Redirect>, files: seq<bool>, k: nat, q: nat)
    requires k < |rs| && rs[k].To?
  {
    var n := |w.procs|;
    && |r.procs| == n + |rs| && q < |r.born| && r.born[q] == n + k
    && (forall j :: 0 <= j < n + k ==> q !in r.procs[j].held)
    && (q in r.procs[n + k].held <==> !(k + 1 == |rs| && FileAt(files, k)))
    && HeldSince(n, r, w.m, me, rs, UserPipe(me, rs[k].user), q, k + 1, |rs|)
  }

  lemma SameWritten(w: World, r: World, r1: World, me: int, rs: seq<Redirect>, files: seq<bool>, k: nat, q: nat)
    requires k < |rs| && rs[k].To? && Written(w, r, me, rs, files, k, q) && r1.procs == r.procs && r1.born == r.born
    ensures Written(w, r1, me, rs, files, k, q)
  {
    hide HeldSince;
    SameHeld(|w.procs|, r, r1, w.m, me, rs, UserPipe(me, rs[k].user), q, k + 1, |rs|);
  }

  lemma SameHeld(n: nat, r: World, r1: World, m: State, me: int, rs: seq<Redirect>, p: UserPipe, q: nat, from: nat, k: nat)
    requires HeldSince(n, r, m, me, rs, p, q, from, k) && r1.procs == r.procs
    ensures HeldSince(n, r1, m, me, rs, p, q, from, k)
  {
    hide TakenIn;
    forall i: nat | from <= i < k
      ensures HeldAt(n, r1, m, me, rs, p, q, from, i)
    {
      assert HeldAt(n, r, m, me, rs, p, q, from, i);
    }
  }

  lemma StageWritten(w: World, me: int, rs: seq<Redirect>, k: nat, fed: bool, files: seq<bool>)
    requires |w.m.ids| == CAPACITY && AllInRange(rs) && k < |rs| && Sane(w) && IsIn(w.m, me) && Opens(w.m, me, rs, k)
    ensures var start, q := StagesIn(w, me, rs, true, k + 1, fed, files), |w.born| + Openings(w.m, me, rs, k);
      && Sane(start) && |start.procs| == |w.procs| + k + 1
      && UserPipe(me, rs[k].user) in start.open && start.open[UserPipe(me, rs[k].user)] == q
      && q < |start.born| && start.born[q] == |w.procs| + k
      && (q in start.procs[|w.procs| + k].held <==> !(k + 1 == |rs| && FileAt(files, k)))
      && forall j :: 0 <= j < |w.procs| + k ==> q !in start.procs[j].held
  {
    StagesOpen(w, me, rs, k, fed, files);
    OpensIff(w.m, me, rs, k);
    StagesSane(w, me, rs, true, k, fed, files);
    StagesSane(w, me, rs, true, k + 1, fed, files);
    StagesCount(w, me, rs, true, k, fed, files);
    StagesCount(w, me, rs, true, k + 1, fed, files);
    StagesUnfold(w, me, rs, true, k + 1, fed, files);
    StagesModel(w, me, rs, true, k, fed, files);
    var before, start := StagesIn(w, me, rs, true, k, fed, files), StagesIn(w, me, rs, true, k + 1, fed, files);
    hide StageIn, StagesIn, RunStages, Openings, SelfPiped, Gives, FileAt;
    StageOpens(before, me, rs[k].user, k, |rs|, fed, FileAt(files, k));
    NotHeldYet(start, UserPipe(me, rs[k].user), |w.procs| + k);
    hide Sane, Opens;
  }

  lemma NotHeldYet(w: World, p: UserPipe, n: nat)
    requires Sane(w) && p in w.open && w.open[p] < |w.born| && w.born[w.open[p]] == n && n <= |w.procs|
    ensures forall j :: 0 <= j < n ==> w.open[p] !in w.procs[j].held
  {
    assert HeldRight(w, w.open[p]);
  }

  lemma StagesWritten(w: World, me: int, rs: seq<Redirect>, k: nat, fed: bool, files: seq<bool>)
    requires |w.m.ids| == CAPACITY && AllInRange(rs) && k < |rs| && Sane(w) && IsIn(w.m, me) && Opens(w.m, me, rs, k)
    ensures rs[k].To?
    ensures Written(w, StagesIn(w, me, rs, true, |rs|, fed, files), me, rs, files, k, |w.born| + Openings(w.m, me, rs, k))
  {
    hide *;
    OpensTo(w.m, me, rs, k);
    var q := |w.born| + Openings(w.m, me, rs, k);
    StageWritten(w, me, rs, k, fed, files);
    var start, r := StagesIn(w, me, rs, true, k + 1, fed, files), StagesIn(w, me, rs, true, |rs|, fed, files);
    StagesHold(w, me, rs, true, k + 1, |rs|, fed, files, UserPipe(me, rs[k].user), q);
    StagesFollow(w, me, rs, true, k + 1, |rs|, fed, files);
    StagesCount(w, me, rs, true, |rs|, fed, files);
    PastStays(start, r);
    WrittenFrom(w, start, r, me, rs, files, k, q);
  }

  lemma OpensTo(m: State, me: int, rs: seq<Redirect>, k: nat)
    requires Opens(m, me, rs, k)
    ensures k < |rs| && rs[k].To?
  {}

  lemma PastStays(w: World, w1: World)
    requires Follows(w, w1)
    ensures |w.procs| <= |w1.procs| && forall j :: 0 <= j < |w.procs| ==> w1.procs[j] == w.procs[j]
    ensures |w.born| <= |w1.born| && forall i :: 0 <= i < |w.born| ==> w1.born[i] == w.born[i]
  {
    hide Sane, StaysGone;
    assert forall j :: 0 <= j < |w.procs| ==> w1.procs[..|w.procs|][j] == w1.procs[j];
    assert forall i :: 0 <= i < |w.born| ==> w1.born[..|w.born|][i] == w1.born[i];
  }

  lemma WrittenFrom(w: World, start: World, r: World, me: int, rs: seq<Redirect>, files: seq<bool>, k: nat, q: nat)
    requires k < |rs| && rs[k].To? && |r.procs| == |w.procs| + |rs| && |start.procs| == |w.procs| + k + 1
    requires q < |start.born| <= |r.born| && start.born[q] == |w.procs| + k && r.born[q] == start.born[q]
    requires forall j :: 0 <= j < |start.procs| ==> r.procs[j] == start.procs[j]
    requires q in start.procs[|w.procs| + k].held <==> !(k + 1 == |rs| && FileAt(files, k))
    requires forall j :: 0 <= j < |w.procs| + k ==> q !in start.procs[j].held
    requires HeldUntilTaken(|w.procs|, r, w.m, me, rs, UserPipe(me, rs[k].user), q, k + 1, |rs|)
    ensures Written(w, r, me, rs, files, k, q)
  {
    hide HeldSince;
  }

  lemma {:induction false} StagesInputs(w: World, me: int, rs: seq<Redirect>, chain: bool, n: nat, fed: bool, files: seq<bool>)
    requires |w.m.ids| == CAPACITY && AllInRange(rs) && n <= |rs|
    ensures var r := StagesIn(w, me, rs, chain, n, fed, files);
      |r.procs| == |w.procs| + n && forall i :: |w.procs| < i < |r.procs| ==> r.procs[i].input == None
  {
    StagesCount(w, me, rs, chain, n, fed, files);
    if n > 0 {
      StagesInputs(w, me, rs, chain, n - 1, fed, files);
      StagesUnfold(w, me, rs, chain, n, fed, files);
      hide *;
      InputStep(|w.procs|, StagesIn(w, me, rs, chain, n - 1, fed, files), StagesIn(w, me, rs, chain, n, fed, files),
        me, rs[n - 1], chain, n - 1, |rs|, fed, FileAt(files, n - 1));
    }
  }

  lemma InputStep(k: nat, before: World, r: World, me: int, x: Redirect, chain: bool, i: nat, n: nat, fed: bool, file: bool)
    requires |before.m.ids| == CAPACITY && InRange(x) && r == StageIn(before, me, x, chain, i, n, fed, file)
    requires |before.procs| == k + i && forall j :: k < j < |before.procs| ==> before.procs[j].input == None
    ensures |r.procs| == k + i + 1 && forall j :: k < j < |r.procs| ==> r.procs[j].input == None
  {
    StageForks(before, me, x, chain, i, n, fed, file);
    if i > 0 {
      StageInput(before, me, x, chain, i, n, fed, file);
    }
    hide StageIn;
    forall j | k < j < |r.procs|
      ensures r.procs[j].input == None
    {
      assert j < |before.procs| ==> r.procs[j] == r.procs[..|before.procs|][j];
    }
  }

  // ----- A line of one command ------------------------------------------------------------------

  /** Whether its <a is accepted, and whether its >b is, judged by the state before the line. */
  ghost predicate AcceptsIn(m: State, me: int, a: Redirect) {
    a.From? && IsIn(m, a.user) && UserPipe(a.user, me) in m.pipes
  }

  ghost predicate AcceptsOut(m: State, me: int, b: Redirect) {
    b.To? && IsIn(m, b.user) && UserPipe(me, b.user) !in m.pipes
  }

  /** The whole outcome: an external command is one process.  It reads the accepted <a, unless a numbered pipe is
      delivered to it and it pipes to nobody.  It can write to every listed pipe but the one it reads, and to the
      pipe that its >b opens, unless its output goes to a file.  That pipe gets the next number. */
  ghost predicate Lone(w: World, w1: World, me: int, a: Redirect, b: Redirect, builtin: bool, fed: bool, file: bool) {
    var n, t := |w.procs|, AcceptsOut(w.m, me, b);
    && w1.born == w.born + (if t then [n] else [])
    && (t ==> UserPipe(me, b.user) in w1.open && w1.open[UserPipe(me, b.user)] == |w.born|)
    && (if builtin then w1.procs == w.procs
        else
          && OneMore(w, w1)
          && (if AcceptsIn(w.m, me, a) && (t || !fed) then
                UserPipe(a.user, me) in w.open && Newest(w1).input == Some(w.open[UserPipe(a.user, me)])
              else Newest(w1).input == None)
          && forall q :: q in Newest(w1).held <==>
               (q in Ends(w) && Newest(w1).input != Some(q)) || (t && q == |w.born| && !file))
  }

  lemma OneInIs(w: World, me: int, a: Redirect, b: Redirect, builtin: bool, fed: bool, file: bool)
    requires |w.m.ids| == CAPACITY && InRange(a) && InRange(b) && Sane(w)
    ensures Lone(w, OneIn(w, me, a, b, builtin, fed, file), me, a, b, builtin, fed, file)
  {
    var f, t := AcceptsIn(w.m, me, a), AcceptsOut(w.m, me, b);
    assert f <==> a.From? && AcceptsFrom(w.m, me, a.user);
    assert t <==> b.To? && AcceptsTo(w.m, me, b.user);
    var w1 := w.(m := Announce(w.m, me, a, b));
    SameEnds(w, w1);
    EndsKnown(w);
    var w2 := if t then OpenIn(w1, UserPipe(me, b.user)) else w1;
    if t {
      OpenEnds(w1, UserPipe(me, b.user));
    }
    if f {
      ListedEnd(w, UserPipe(a.user, me));
    }
    hide Sane, Ends, Announce, Open, Shut, AcceptsFrom, AcceptsTo, AcceptsIn, AcceptsOut;
  }

  lemma ListedEnd(w: World, p: UserPipe)
    requires Sane(w) && p in w.m.pipes
    ensures p in w.open && w.open[p] in Ends(w)
  {}

  lemma OpenEnds(w: World, p: UserPipe)
    requires p !in w.m.pipes && p !in w.open
    ensures forall q :: q in Ends(OpenIn(w, p)) <==> q in Ends(w) || q == |w.born|
  {
    var w1 := OpenIn(w, p);
    MoreEnds(w, p);
    assert w1.open[p] == |w.born|;
    forall q | q in Ends(w)
      ensures q in Ends(w1)
    {
      var r :| r in w.open && w.open[r] == q;
      assert r in w1.open && w1.open[r] == q;
    }
  }

  // ----- In every run ---------------------------------------------------------------------------

  /** How many commands the operation has to fork. */
  function Forks(op: Op): nat {
    match op
    case Join(_, _, _) => 0
    case Quit(_) => 0
    case Name(_, _) => 0
    case One(_, _, _, builtin) => if builtin then 0 else 1
    case Chain(_, rs) => |rs|
    case NumberedLine(_, _, _, rs) => |rs|
  }

  lemma StepFrom(acts: seq<Act>, act: Act)
    ensures var w := RunIn(acts);
      Sane(w) && Inv(w.m) && w.m == Run(Ops(acts)) && RunIn(acts + [act]) == StepIn(w, act)
  {
    assert (acts + [act])[..|acts|] == acts;
    RunFollows(acts);
    RunInv(Ops(acts));
    hide StepIn, Sane, Inv, Run;
  }

  /** One process is forked for each command that is not built in, and for nothing else. */
  lemma ForksIs(acts: seq<Act>, act: Act)
    requires Enabled(Run(Ops(acts)), act.op)
    ensures var w, w1 := RunIn(acts), RunIn(acts + [act]);
      |w1.procs| == |w.procs| + Forks(act.op) && w1.procs[..|w.procs|] == w.procs
  {
    StepFrom(acts, act);
    var w := RunIn(acts);
    assert IdsInRange(w.m);
    hide RunIn, Run, Sane, Inv, Step, StagesIn, OneIn;
    match act.op
    case Join(_, _, _) =>
    case Quit(_) =>
    case Name(_, _) =>
    case One(fd, a, b, builtin) =>
      OneInIs(w, IdOf(w.m, fd), a, b, builtin, act.fed, FileAt(act.files, 0));
    case Chain(fd, rs) =>
      StagesCount(w, IdOf(w.m, fd), rs, true, |rs|, false, act.files);
    case NumberedLine(fd, a, b, rs) =>
      StagesCount(w.(m := Announce(w.m, IdOf(w.m, fd), a, b)), IdOf(w.m, fd), rs, false, |rs|, act.fed, act.files);
  }

  /** A line of one command, in every run: its process, what it reads, what it can write to, and the pipe that it
      opens. */
  lemma LoneCommandIs(acts: seq<Act>, c: Client, a: Redirect, b: Redirect, builtin: bool, fed: bool, files: seq<bool>)
    requires c in Run(Ops(acts)).total && InRange(a) && InRange(b) && !a.To? && !b.From?
    ensures var act := Act(One(c.fd, a, b, builtin), fed, files);
      Lone(RunIn(acts), RunIn(acts + [act]), c.id, a, b, builtin, fed, FileAt(files, 0))
  {
    var act := Act(One(c.fd, a, b, builtin), fed, files);
    StepFrom(acts, act);
    var w := RunIn(acts);
    OneClient(w.m, c.fd, c);
    OneInIs(w, c.id, a, b, builtin, fed, FileAt(files, 0));
    assert IdsInRange(w.m);
    hide RunIn, Run, Sane, Inv, Step, OneIn, Lone;
  }

  /** The operation is a line of several commands, or one in front of a numbered pipe. */
  predicate IsLine(op: Op, fd: int, rs: seq<Redirect>) {
    match op
    case Chain(d, q) => d == fd && q == rs
    case NumberedLine(d, a, b, q) => d == fd && q == rs && InRange(a) && InRange(b) && !a.To? && !b.From?
    case _ => false
  }

  /** The commands of such a line forked in a row, without the cleanup. */
  lemma LineStages(w: World, act: Act, c: Client, rs: seq<Redirect>) returns (w0: World, r: World)
    requires Inv(w.m) && c in w.m.total && AllInRange(rs) && IsLine(act.op, c.fd, rs) && Sane(w)
    ensures Sane(w0) && w0.open == w.open && w0.born == w.born && w0.procs == w.procs && w0.m.ids == w.m.ids && |w0.m.ids| == CAPACITY
    ensures act.op.Chain? ==> w0 == w
    ensures r == StagesIn(w0, c.id, rs, act.op.Chain?, |rs|, if act.op.Chain? then false else act.fed, act.files)
    ensures StepIn(w, act).procs == r.procs && StepIn(w, act).born == r.born
  {
    OneClient(w.m, c.fd, c);
    assert IdsInRange(w.m);
    match act.op {
      case Chain(_, _) =>
        w0 := w;
        r := StagesIn(w, c.id, rs, true, |rs|, false, act.files);
      case NumberedLine(_, a, b, _) =>
        w0 := w.(m := Announce(w.m, c.id, a, b));
        AnnounceKeepsPipes(w.m, c.id, a, b);
        RestFollows(w, w0.m);
        FollowsSane(w, w0);
        r := StagesIn(w0, c.id, rs, false, |rs|, act.fed, act.files);
    }
    hide StagesIn, RunStages, LastFrom, Clients, Pipes, Sane, Announce, Shut;
  }

  /** A pipe that was in the list before such a line: the line's commands up to the first that takes it can write
      to it, and no later one can. */
  lemma LineHolds(acts: seq<Act>, act: Act, c: Client, rs: seq<Redirect>, p: UserPipe, i: nat)
    requires c in Run(Ops(acts)).total && AllInRange(rs) && IsLine(act.op, c.fd, rs) && i < |rs|
    requires p in RunIn(acts).open
    ensures var w, w1 := RunIn(acts), RunIn(acts + [act]);
      && |w1.procs| == |w.procs| + |rs|
      && (w.open[p] in w1.procs[|w.procs| + i].held <==> !TakenIn(Run(Ops(acts)), c.id, rs, p, 0, i + 1))
  {
    StepFrom(acts, act);
    var w := RunIn(acts);
    hide RunIn, Run, Sane, Inv, Step, StepIn;
    var w0, r := LineStages(w, act, c, rs);
    hide IsLine;
    var fed := if act.op.Chain? then false else act.fed;
    StagesCount(w0, c.id, rs, act.op.Chain?, |rs|, fed, act.files);
    StagesHoldAll(w0, c.id, rs, act.op.Chain?, fed, act.files, p, i);
    hide StagesIn, TakenIn;
    SameTaken(w.m, w0.m, c.id, rs, p, 0, i + 1);
  }

  lemma SameTaken(m: State, m1: State, me: int, rs: seq<Redirect>, p: UserPipe, from: nat, n: nat)
    requires m.ids == m1.ids
    ensures TakenIn(m, me, rs, p, from, n) <==> TakenIn(m1, me, rs, p, from, n)
  {}

  lemma StagesHoldAll(w: World, me: int, rs: seq<Redirect>, chain: bool, fed: bool, files: seq<bool>, p: UserPipe, i: nat)
    requires |w.m.ids| == CAPACITY && AllInRange(rs) && Sane(w) && p in w.open && i < |rs|
    ensures HeldAt(|w.procs|, StagesIn(w, me, rs, chain, |rs|, fed, files), w.m, me, rs, p, w.open[p], 0, i)
  {
    assert StagesIn(w, me, rs, chain, 0, fed, files) == w;
    StagesHold(w, me, rs, chain, 0, |rs|, fed, files, p, w.open[p]);
    hide StagesIn, Sane, HeldAt, Ends;
  }

  /** The writer of a chain: the command whose >b opens a pipe is the process that the pipe's number was born with,
      and can write to it unless it is the last one and has an output file; no earlier process can, and of the
      later commands those until the user takes its own pipe again. */
  lemma ChainWriterIs(acts: seq<Act>, c: Client, rs: seq<Redirect>, fed: bool, files: seq<bool>, k: nat)
    requires c in Run(Ops(acts)).total && AllInRange(rs) && k < |rs| && Opens(Run(Ops(acts)), c.id, rs, k)
    ensures rs[k].To?
    ensures var act := Act(Chain(c.fd, rs), fed, files);
      Written(RunIn(acts), RunIn(acts + [act]), c.id, rs, files, k, |RunIn(acts).born| + Openings(Run(Ops(acts)), c.id, rs, k))
  {
    hide *;
    var act := Act(Chain(c.fd, rs), fed, files);
    StepFrom(acts, act);
    OpensTo(Run(Ops(acts)), c.id, rs, k);
    ChainWritten(RunIn(acts), act, c, rs, k);
  }

  lemma ChainWritten(w: World, act: Act, c: Client, rs: seq<Redirect>, k: nat)
    requires Inv(w.m) && Sane(w) && c in w.m.total && AllInRange(rs) && act.op == Chain(c.fd, rs)
    requires k < |rs| && rs[k].To? && Opens(w.m, c.id, rs, k)
    ensures Written(w, StepIn(w, act), c.id, rs, act.files, k, |w.born| + Openings(w.m, c.id, rs, k))
  {
    hide *;
    IdsLength(w.m);
    OneIsIn(w.m, c);
    var r := ChainStages(w, act, c, rs);
    StagesWritten(w, c.id, rs, k, false, act.files);
    SameWritten(w, r, StepIn(w, act), c.id, rs, act.files, k, |w.born| + Openings(w.m, c.id, rs, k));
  }

  lemma ChainStages(w: World, act: Act, c: Client, rs: seq<Redirect>) returns (r: World)
    requires Inv(w.m) && Sane(w) && c in w.m.total && AllInRange(rs) && act.op == Chain(c.fd, rs)
    ensures r == StagesIn(w, c.id, rs, true, |rs|, false, act.files)
    ensures StepIn(w, act).procs == r.procs && StepIn(w, act).born == r.born
  {
    ChainIsLine(act.op, c.fd, rs);
    hide *;
    var w0, s := LineStages(w, act, c, rs);
    r := s;
  }

  lemma ChainIsLine(op: Op, fd: int, rs: seq<Redirect>)
    requires op == Chain(fd, rs)
    ensures IsLine(op, fd, rs) && op.Chain?
  {}

  lemma OneIsIn(m: State, c: Client)
    requires Inv(m) && c in m.total
    ensures IsIn(m, c.id)
  {
    OneClient(m, c.fd, c);
    hide Clients, Pipes;
  }

  lemma IdsLength(m: State)
    requires Inv(m)
    ensures |m.ids| == CAPACITY
  {}

  /** Only the first command of such a line can read a user pipe, and only one that was in the list. */
  lemma LineInputs(acts: seq<Act>, act: Act, c: Client, rs: seq<Redirect>, i: nat)
    requires c in Run(Ops(acts)).total && AllInRange(rs) && IsLine(act.op, c.fd, rs) && i < |rs|
    ensures var w, w1 := RunIn(acts), RunIn(acts + [act]);
      && |w1.procs| == |w.procs| + |rs|
      && (w1.procs[|w.procs| + i].input.Some? ==>
            i == 0 && exists p :: p in w.open && w1.procs[|w.procs|].input == Some(w.open[p]))
  {
    StepFrom(acts, act);
    var w, w1 := RunIn(acts), RunIn(acts + [act]);
    if |w1.procs| > |w.procs| && w1.procs[|w.procs|].input.Some? {
      StepTaken(w, act, w1.procs[|w.procs|].input.value);
    }
    hide RunIn, Run, Sane, Inv, Step, StepIn;
    var w0, r := LineStages(w, act, c, rs);
    hide IsLine;
    StagesInputs(w0, c.id, rs, act.op.Chain?, |rs|, if act.op.Chain? then false else act.fed, act.files);
  }

  /** How many pipes such a line opens. */
  lemma LineOpens(acts: seq<Act>, act: Act, c: Client, rs: seq<Redirect>)
    requires c in Run(Ops(acts)).total && AllInRange(rs) && IsLine(act.op, c.fd, rs)
    ensures var w, w1 := RunIn(acts), RunIn(acts + [act]);
      |w1.born| == |w.born| + if act.op.Chain? then Openings(Run(Ops(acts)), c.id, rs, |rs|) else 0
  {
    StepFrom(acts, act);
    var w := RunIn(acts);
    OneClient(w.m, c.fd, c);
    hide RunIn, Run, Sane, Inv, Step, StepIn;
    var w0, r := LineStages(w, act, c, rs);
    if act.op.Chain? {
        StagesOpen(w, c.id, rs, |rs|, false, act.files);
    } else {
      NumberedOpensNone(w0, c.id, rs, |rs|, act.fed, act.files);
    }
    hide IsLine, StagesIn, Openings;
  }
}
