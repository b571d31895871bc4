/** The course of a relay session, told from its completions alone: when it is served, when it ends, and what a
    failure stops. */
module RelayLaws {
  import opened Common
  import opened Relay
  import opened RelayTheorems
  import opened RelaySession

  /** A run of a session from its start. */
  ghost predicate Reaches(mode: Mode, data: seq<byte>, events: seq<Event>, s: State) {
    Run(mode, Start(mode, data), events) == Some(s)
  }

  lemma Back(mode: Mode, data: seq<byte>, events: seq<Event>, e: Event, s: State) returns (before: State)
    requires Reaches(mode, data, events + [e], s)
    ensures Reaches(mode, data, events, before) && Enabled(before, e) && s == Step(mode, before, e)
  {
    assert (events + [e])[..|events|] == events;
    before := Run(mode, Start(mode, data), events).value;
  }

  /** What every prefix of a run reaches. */
  lemma {:induction false} Prefix(mode: Mode, data: seq<byte>, events: seq<Event>, s: State, i: nat) returns (before: State)
    requires Reaches(mode, data, events, s) && i <= |events|
    ensures Reaches(mode, data, events[..i], before)
  {
    hide Step, Enabled;
    if i == |events| {
      assert events[..i] == events;
      before := s;
    } else {
      var front := events[..|events| - 1];
      assert events == front + [events[|events| - 1]];
      var last := Back(mode, data, front, events[|events| - 1], s);
      before := Prefix(mode, data, front, last, i);
      assert front[..i] == events[..i];
    }
  }

  // ----- Setting up -----------------------------------------------------------------------------

  predicate IsSetup(e: Event) {
    e.HeaderDone? || e.Connected? || e.ReplyDone? || e.Accepted?
  }

  /** The completions that set the session up, in order. */
  function Setup(events: seq<Event>): seq<Event> {
    if events == [] then []
    else Setup(events[..|events| - 1]) + if IsSetup(events[|events| - 1]) then [events[|events| - 1]] else []
  }

  /** The completions that end the whole session: a refused request, an error while setting up, and for CONNECT a
      failed read. */
  predicate Ends(mode: Mode, e: Event) {
    (e.HeaderDone? && !e.granted) || e.SetupFailed? || (mode.Connect? && e.ReadFailed?)
  }

  /** How far a session is: CONNECT reads a request that is granted, connects, replies and relays; BIND replies,
      accepts and relays; and it stops at the first completion that ends it. */
  ghost predicate Course(mode: Mode, events: seq<Event>, s: State) {
    var q := Setup(events);
    if events != [] && Ends(mode, events[|events| - 1]) then s.Stopped?
    else
      match s
      case Header(_) => mode.Connect? && q == []
      case Connecting(_) => mode.Connect? && |q| == 1 && q[0].HeaderDone? && q[0].granted
      case Replying(_) => if mode.Bind? then q == [] else |q| == 2 && q[0].HeaderDone? && q[0].granted && q[1].Connected?
      case Accepting(_) => mode.Bind? && |q| == 1 && q[0].ReplyDone?
      case Relaying(_, _, _, _) =>
        if mode.Bind? then |q| == 2 && q[0].ReplyDone? && q[1].Accepted?
        else |q| == 3 && q[0].HeaderDone? && q[0].granted && q[1].Connected? && q[2].ReplyDone?
      case Stopped(_, _, _) => false
  }

  lemma {:induction false} CourseIs(mode: Mode, data: seq<byte>, events: seq<Event>, s: State)
    requires Reaches(mode, data, events, s)
    ensures Course(mode, events, s)
  {
    if events != [] {
      var front, e := events[..|events| - 1], events[|events| - 1];
      assert events == front + [e];
      var before := Back(mode, data, front, e, s);
      CourseIs(mode, data, front, before);
      hide Run;
      CourseStep(mode, front, before, e);
    }
  }

  lemma CourseStep(mode: Mode, events: seq<Event>, s: State, e: Event)
    requires Course(mode, events, s) && Enabled(s, e)
    ensures Course(mode, events + [e], Step(mode, s, e))
  {
    assert (events + [e])[..|events|] == events;
  }

  /** Only granted requests are served: in every run of a CONNECT session that is connecting, replying or relaying,
      exactly one request was read, and it was granted. */
  lemma ServedIsGranted(data: seq<byte>, events: seq<Event>, s: State)
    requires Reaches(Connect, data, events, s) && (s.Connecting? || s.Replying? || s.Relaying?)
    ensures exists chunk :: HeaderDone(chunk, true) in events
    ensures forall chunk :: HeaderDone(chunk, false) !in events
  {
    CourseIs(Connect, data, events, s);
    var e := Setup(events)[0];
    SetupIn(events, e);
    assert e == HeaderDone(e.chunk, true);
    forall chunk | HeaderDone(chunk, false) in events
      ensures false
    {
      RefusedIsLast(data, events, s, chunk);
    }
  }

  lemma {:induction false} SetupIn(events: seq<Event>, e: Event)
    ensures e in Setup(events) <==> IsSetup(e) && e in events
  {
    if events != [] {
      SetupIn(events[..|events| - 1], e);
      assert events == events[..|events| - 1] + [events[|events| - 1]];
    }
  }

  lemma RefusedIsLast(data: seq<byte>, events: seq<Event>, s: State, chunk: seq<byte>)
    requires Reaches(Connect, data, events, s) && HeaderDone(chunk, false) in events
    ensures events[|events| - 1] == HeaderDone(chunk, false) && s.Stopped?
  {
    var i :| 0 <= i < |events| && events[i] == HeaderDone(chunk, false);
    EndIsLast(Connect, data, events, s, i);
    CourseIs(Connect, data, events, s);
  }

  /** A completion that ends the session is the last one. */
  lemma EndIsLast(mode: Mode, data: seq<byte>, events: seq<Event>, s: State, i: nat)
    requires Reaches(mode, data, events, s) && i < |events| && Ends(mode, events[i])
    ensures i == |events| - 1 && s.Stopped? && forall e :: !Enabled(s, e)
  {
    var at := Prefix(mode, data, events, s, i + 1);
    CourseIs(mode, data, events[..i + 1], at);
    if i + 1 < |events| {
      var next := Prefix(mode, data, events, s, i + 2);
      assert events[..i + 2] == events[..i + 1] + [events[i + 1]];
      var before := Back(mode, data, events[..i + 1], events[i + 1], next);
    } else {
      assert events[..i + 1] == events;
    }
    hide Step, Setup;
  }

  /** A refused request ends a CONNECT session: nothing was or will be sent to either side, and no operation can
      complete any more. */
  lemma RefusedIsDropped(data: seq<byte>, events: seq<Event>, s: State, chunk: seq<byte>)
    requires |data| == BUFFER_SIZE && Reaches(Connect, data, events, s) && HeaderDone(chunk, false) in events
    ensures s.Stopped? && ToClient(s) == [] && ToTarget(s) == [] && forall e :: !Enabled(s, e)
  {
    RefusedIsLast(data, events, s, chunk);
    var front := events[..|events| - 1];
    assert events == front + [HeaderDone(chunk, false)];
    var before := Back(Connect, data, front, HeaderDone(chunk, false), s);
    CourseIs(Connect, data, front, before);
    assert before.Header?;
    HeaderIsSilent(data, front, before);
    RelaySafety(Connect, data, events, s);
    GreetingIsReply(Connect, data, events, s);
    QuietEvents(events);
    hide Step, Run, Enabled, Reply;
  }

  /** Until its request was read a CONNECT session completes nothing. */
  lemma HeaderIsSilent(data: seq<byte>, events: seq<Event>, s: State)
    requires Reaches(Connect, data, events, s) && s.Header?
    ensures events == []
  {}

  lemma QuietEvents(events: seq<Event>)
    requires |events| == 1 && events[0].HeaderDone?
    ensures ReplySize(events) == 0
    ensures forall dir :: ChunksRead(events, dir) == [] && WriteSizes(events, dir) == []
  {
    assert events[..0] == [];
  }

  /** A granted request leaves the connect operation under way, and nothing else. */
  lemma GrantedIsServed(data: seq<byte>, events: seq<Event>, chunk: seq<byte>, s: State)
    requires Reaches(Connect, data, events + [HeaderDone(chunk, true)], s)
    ensures s.Connecting? && Pending(Connect, s) == multiset{Resolve} && Enabled(s, Connected)
  {
    CourseIs(Connect, data, events + [HeaderDone(chunk, true)], s);
    var before := Back(Connect, data, events, HeaderDone(chunk, true), s);
    CourseIs(Connect, data, events, before);
    HeaderIsSilent(data, events, before);
    SetupOfOne(HeaderDone(chunk, true));
    assert events + [HeaderDone(chunk, true)] == [HeaderDone(chunk, true)];
    hide Step, Run;
  }

  lemma SetupOfOne(e: Event)
    requires IsSetup(e)
    ensures Setup([e]) == [e]
  {
    assert [e][..0] == [];
  }

  // ----- Failures while relaying ----------------------------------------------------------------

  predicate IsOf(e: Event, dir: Direction) {
    (e.ReadDone? || e.ReadFailed? || e.WriteDone? || e.WriteFailed?) && e.dir == dir
  }

  predicate Fails(e: Event, dir: Direction) {
    (e.ReadFailed? || e.WriteFailed?) && e.dir == dir
  }

  /** The direction is over, or the whole session is. */
  ghost predicate Over(s: State, dir: Direction) {
    s.Stopped? || (s.Relaying? && At(s, dir).phase.Halted?)
  }

  lemma OverStep(mode: Mode, s: State, e: Event, dir: Direction)
    requires Enabled(s, e)
    ensures Over(s, dir) ==> Over(Step(mode, s, e), dir) && !IsOf(e, dir)
    ensures Fails(e, dir) ==> Over(Step(mode, s, e), dir)
  {}

  lemma {:induction false} OverStays(mode: Mode, data: seq<byte>, events: seq<Event>, s: State, dir: Direction, i: nat)
    requires Reaches(mode, data, events, s) && i < |events| && Fails(events[i], dir)
    ensures Over(s, dir) && forall j :: i < j < |events| ==> !IsOf(events[j], dir)
  {
    var front, e := events[..|events| - 1], events[|events| - 1];
    assert events == front + [e];
    var before := Back(mode, data, front, e, s);
    hide Run, Step, Enabled, Over;
    OverStep(mode, before, e, dir);
    if i < |front| {
      OverStays(mode, data, front, before, dir, i);
    }
  }

  /** A failed read or write ends its direction for good. */
  lemma DirectionEnds(mode: Mode, data: seq<byte>, events: seq<Event>, s: State, dir: Direction, i: nat, j: nat)
    requires Reaches(mode, data, events, s) && i < j < |events| && Fails(events[i], dir)
    ensures !IsOf(events[j], dir)
  {
    OverStays(mode, data, events, s, dir, i);
  }

  predicate Succeeds(e: Event) {
    e.ReadDone? || e.WriteDone?
  }

  function Successes(events: seq<Event>): nat {
    if events == [] then 0 else Successes(events[..|events| - 1]) + if Succeeds(events[|events| - 1]) then 1 else 0
  }

  /** The sockets are closed, and so many operations were started before that. */
  ghost predicate ClosedWith(s: State, n: int) {
    s.Relaying? && !s.open && n == (if Hopes(s.up) then 1 else 0) + (if Hopes(s.down) then 1 else 0)
  }

  predicate Hopes(c: Channel) {
    !c.phase.Halted? && c.live
  }

  lemma ClosedStep(mode: Mode, s: State, e: Event, n: int)
    requires mode.Bind? && Enabled(s, e) && ClosedWith(s, n)
    ensures exists k :: k <= n - (if Succeeds(e) then 1 else 0) && ClosedWith(Step(mode, s, e), k)
  {
    var s1 := Step(mode, s, e);
    assert ClosedWith(s1, (if Hopes(s1.up) then 1 else 0) + (if Hopes(s1.down) then 1 else 0));
  }

  lemma FailureCloses(mode: Mode, s: State, e: Event, dir: Direction)
    requires mode.Bind? && Enabled(s, e) && Fails(e, dir)
    ensures exists k :: k <= 1 && ClosedWith(Step(mode, s, e), k)
  {
    var s1 := Step(mode, s, e);
    assert ClosedWith(s1, (if Hopes(s1.up) then 1 else 0) + (if Hopes(s1.down) then 1 else 0));
  }

  /** In a BIND session a failure closes both sockets: of all that comes behind it at most one operation, started
      before, still succeeds. */
  lemma {:induction false} ClosingEnds(mode: Mode, data: seq<byte>, events: seq<Event>, s: State, dir: Direction, i: nat)
    requires mode.Bind? && Reaches(mode, data, events, s) && i < |events| && Fails(events[i], dir)
    ensures exists k :: k <= 1 - Successes(events[i + 1..]) && ClosedWith(s, k)
    ensures Successes(events[i + 1..]) <= 1
  {
    var front, e := events[..|events| - 1], events[|events| - 1];
    assert events == front + [e];
    var before := Back(mode, data, front, e, s);
    hide Run, Step, Enabled;
    if i == |front| {
      FailureCloses(mode, before, e, dir);
      assert events[i + 1..] == [];
    } else {
      ClosingEnds(mode, data, front, before, dir, i);
      var k :| k <= 1 - Successes(front[i + 1..]) && ClosedWith(before, k);
      ClosedStep(mode, before, e, k);
      assert events[i + 1..] == front[i + 1..] + [e];
      assert events[i + 1..][..|events[i + 1..]| - 1] == front[i + 1..];
    }
  }

  /** In a CONNECT session a failed write leaves the other direction as it was. */
  lemma OtherGoesOn(s: State, dir: Direction, e: Event)
    requires Enabled(s, WriteFailed(dir)) && IsOf(e, Other(dir))
    ensures Enabled(Step(Connect, s, WriteFailed(dir)), e) <==> Enabled(s, e)
  {}

  // ----- Relaying goes on -----------------------------------------------------------------------

  /** The chunk of this direction that was read last and not written yet. */
  function Unwritten(events: seq<Event>, dir: Direction): Option<seq<byte>> {
    if events == [] then None
    else
      match events[|events| - 1]
      case ReadDone(d, chunk) => if d == dir then Some(chunk) else Unwritten(events[..|events| - 1], dir)
      case WriteDone(d, _) => if d == dir then None else Unwritten(events[..|events| - 1], dir)
      case _ => Unwritten(events[..|events| - 1], dir)
  }

  /** What ends this direction: its own failures, and in a BIND session those of the other one. */
  predicate Disturbs(mode: Mode, e: Event, dir: Direction) {
    Fails(e, dir) || (mode.Bind? && Fails(e, Other(dir)))
  }

  ghost predicate Going(events: seq<Event>, s: State, dir: Direction) {
    match s
    case Relaying(_, open, _, _) =>
      open && At(s, dir).live && At(s, dir).phase == (match Unwritten(events, dir) case None => Reading case Some(c) => Writing(c))
    case Stopped(_, _, _) => true
    case _ => Unwritten(events, dir) == None
  }

  lemma GoingStep(mode: Mode, events: seq<Event>, s: State, e: Event, dir: Direction)
    requires Enabled(s, e) && Going(events, s, dir) && !Disturbs(mode, e, dir)
    ensures Going(events + [e], Step(mode, s, e), dir)
  {
    assert (events + [e])[..|events|] == events;
  }

  lemma {:induction false} GoingStays(mode: Mode, data: seq<byte>, events: seq<Event>, s: State, dir: Direction)
    requires Reaches(mode, data, events, s) && forall e :: e in events ==> !Disturbs(mode, e, dir)
    ensures Going(events, s, dir)
  {
    if events != [] {
      var front, e := events[..|events| - 1], events[|events| - 1];
      assert events == front + [e];
      var before := Back(mode, data, front, e, s);
      hide Run, Step, Enabled, Going, Disturbs;
      GoingStays(mode, data, front, before, dir);
      GoingStep(mode, front, before, e, dir);
    }
  }

  /** From the moment a session relays, a direction that nothing disturbed is never idle: either a chunk was read and
      its write can take any part of it, or any chunk can be read. */
  lemma DirectionGoesOn(mode: Mode, data: seq<byte>, events: seq<Event>, s: State, dir: Direction)
    requires Reaches(mode, data, events, s) && s.Relaying? && forall e :: e in events ==> !Disturbs(mode, e, dir)
    ensures forall chunk :: Enabled(s, ReadDone(dir, chunk)) <==> Unwritten(events, dir) == None && 1 <= |chunk| <= 15000
    ensures forall n: nat :: Enabled(s, WriteDone(dir, n)) <==> Unwritten(events, dir).Some? && n <= |Unwritten(events, dir).value|
  {
    GoingStays(mode, data, events, s, dir);
    hide Unwritten, Disturbs, Run;
  }

  // ----- The reply, byte by byte ----------------------------------------------------------------

  /** A BIND session's client is told 0, 90, the port with its high byte first, and no address; a CONNECT
      session's is told 0, 90 and the next six bytes of its request, or what the buffer held where the request
      is shorter. */
  lemma ReplyBytes(mode: Mode, data: seq<byte>, events: seq<Event>)
    requires |data| == BUFFER_SIZE
    ensures var r := Reply(mode, data, events);
      && |r| == 8 && r[0] == 0 && r[1] == 90
      && (mode.Bind? ==> (r[2] as nat) * 256 + r[3] as nat == mode.port as nat && r[4..] == [0, 0, 0, 0])
      && (mode.Connect? ==> forall i :: 2 <= i < 8 ==> r[i] == if i < |Request(events)| then Request(events)[i] else data[i])
  {
    RequestFits(events);
    if mode.Bind? {
      PortBytes(mode.port);
      assert BindReply(mode.port)[4..] == [0, 0, 0, 0];
    } else {
      hide Request;
      OverlayBytes(data, Request(events));
    }
  }

  lemma OverlayBytes(data: seq<byte>, chunk: seq<byte>)
    requires |data| == BUFFER_SIZE && |chunk| <= BUFFER_SIZE
    ensures var r := ConnectReply(Overlay(data, chunk));
      && |r| == 8 && r[0] == 0 && r[1] == 90
      && forall i :: 2 <= i < 8 ==> r[i] == if i < |chunk| then chunk[i] else data[i]
  {
    var d := Overlay(data, chunk);
    assert forall i :: 0 <= i < 6 ==> d[2..8][i] == d[i + 2];
  }

  lemma PortBytes(port: bv16)
    ensures ((port >> 8) as bv8 as nat) * 256 + (port % 256) as bv8 as nat == port as nat
  {}
}
