/** What a relay session delivers, whatever the order in which its operations complete. */
module RelayTheorems {
  import opened Common
  import opened Relay

  /** The chunks read in one direction, and the sizes of its finished writes, in order. */
  function ChunksRead(events: seq<Event>, dir: Direction): seq<seq<byte>> {
    if events == [] then []
    else ChunksRead(events[..|events| - 1], dir) + ChunkOf(events[|events| - 1], dir)
  }

  function ChunkOf(e: Event, dir: Direction): seq<seq<byte>> {
    if e.ReadDone? && e.dir == dir then [e.chunk] else []
  }

  function WriteSizes(events: seq<Event>, dir: Direction): seq<nat> {
    if events == [] then []
    else WriteSizes(events[..|events| - 1], dir) + SizeOf(events[|events| - 1], dir)
  }

  function SizeOf(e: Event, dir: Direction): seq<nat> {
    if e.WriteDone? && e.dir == dir then [e.sent] else []
  }

  /** The first sizes[i] bytes of chunks[i], one after the other. */
  function Splice(chunks: seq<seq<byte>>, sizes: seq<nat>): seq<byte> {
    if sizes == [] || |chunks| < |sizes| then []
    else
      var k := |sizes| - 1;
      var chunk := chunks[k];
      Splice(chunks, sizes[..k]) + chunk[..if sizes[k] <= |chunk| then sizes[k] else |chunk|]
  }

  function Concat(q: seq<seq<byte>>): seq<byte> {
    if q == [] then [] else Concat(q[..|q| - 1]) + q[|q| - 1]
  }

  /** Every finished write took its whole chunk. */
  ghost predicate AllFull(chunks: seq<seq<byte>>, sizes: seq<nat>) {
    forall i :: 0 <= i < |sizes| && i < |chunks| ==> sizes[i] == |chunks[i]|
  }

  // ----- One direction against its events -------------------------------------------------------

  /** The channel's history is its reads paired with its writes; one more read is in flight at most. */
  ghost predicate Explains(c: Channel, chunks: seq<seq<byte>>, sizes: seq<nat>) {
    && |sizes| == |c.transfers|
    && (forall i :: 0 <= i < |sizes| ==> c.transfers[i].sent == sizes[i] <= |c.transfers[i].chunk|)
    && |chunks| == |sizes| + (if InFlight(c) == [] then 0 else 1)
    && (forall i :: 0 <= i < |sizes| ==> chunks[i] == c.transfers[i].chunk)
    && (InFlight(c) != [] ==> chunks[|sizes|] == InFlight(c))
    && (c.phase.Writing? ==> c.phase.chunk != [])
  }

  ghost predicate Explained(s: State, events: seq<Event>) {
    if s.Relaying? || s.Stopped? then
      && Explains(At(s, Up), ChunksRead(events, Up), WriteSizes(events, Up))
      && Explains(At(s, Down), ChunksRead(events, Down), WriteSizes(events, Down))
    else ChunksRead(events, Up) == ChunksRead(events, Down) == [] && WriteSizes(events, Up) == WriteSizes(events, Down) == []
  }

  lemma FinishedTransfer(c: Channel, chunks: seq<seq<byte>>, sizes: seq<nat>, n: nat, live: bool)
    requires Explains(c, chunks, sizes) && c.phase.Writing? && n <= |c.phase.chunk|
    ensures Explains(Channel(Reading, live, c.transfers + [Transfer(c.phase.chunk, n)]), chunks, sizes + [n])
  {}

  lemma StepChannel(mode: Mode, s: State, e: Event, dir: Direction, chunks: seq<seq<byte>>, sizes: seq<nat>)
    requires s.Relaying? && Enabled(s, e) && Explains(At(s, dir), chunks, sizes)
    ensures var s1 := Step(mode, s, e);
      && (s1.Relaying? || s1.Stopped?)
      && Explains(At(s1, dir), chunks + ChunkOf(e, dir), sizes + SizeOf(e, dir))
  {
    var c := At(s, dir);
    match e
    case ReadDone(d, chunk) =>
      assert d != dir ==> chunks + ChunkOf(e, dir) == chunks;
    case WriteDone(d, n) =>
      if d == dir {
        FinishedTransfer(c, chunks, sizes, n, s.open);
        assert chunks + ChunkOf(e, dir) == chunks;
      }
    case ReadFailed(d) =>
    case WriteFailed(d) =>
  }

  lemma EventsSnoc(events: seq<Event>, e: Event, dir: Direction)
    ensures ChunksRead(events + [e], dir) == ChunksRead(events, dir) + ChunkOf(e, dir)
    ensures WriteSizes(events + [e], dir) == WriteSizes(events, dir) + SizeOf(e, dir)
  {
    assert (events + [e])[..|events|] == events;
  }

  lemma SetupStep(mode: Mode, s: State, e: Event, dir: Direction)
    requires Enabled(s, e) && !s.Relaying?
    ensures ChunkOf(e, dir) == [] && SizeOf(e, dir) == []
    ensures var s1 := Step(mode, s, e);
      s1.Relaying? || s1.Stopped? ==> Explains(At(s1, dir), [], [])
    ensures !s.Stopped?
  {}

  lemma StepExplained(mode: Mode, s: State, events: seq<Event>, e: Event)
    requires Explained(s, events) && Enabled(s, e)
    ensures Explained(Step(mode, s, e), events + [e])
  {
    hide ChunksRead, WriteSizes;
    EventsSnoc(events, e, Up);
    EventsSnoc(events, e, Down);
    if s.Relaying? {
      StepChannel(mode, s, e, Up, ChunksRead(events, Up), WriteSizes(events, Up));
      StepChannel(mode, s, e, Down, ChunksRead(events, Down), WriteSizes(events, Down));
    } else {
      SetupStep(mode, s, e, Up);
      SetupStep(mode, s, e, Down);
    }
    hide Step, Explains, At;
  }

  lemma {:induction false} RunExplained(mode: Mode, data: seq<byte>, events: seq<Event>)
    requires |data| == BUFFER_SIZE
    ensures var r := Run(mode, Start(mode, data), events);
      r.Some? ==> Explained(r.value, events)
  {
    hide Step, Explains;
    if events != [] {
      var front, e := events[..|events| - 1], events[|events| - 1];
      RunExplained(mode, data, front);
      var before := Run(mode, Start(mode, data), front);
      if before.Some? && Enabled(before.value, e) {
        StepExplained(mode, before.value, front, e);
        assert front + [e] == events;
      }
    }
  }

  // ----- What arrives ---------------------------------------------------------------------------

  lemma {:induction false} DeliveredIsSplice(q: seq<Transfer>, chunks: seq<seq<byte>>, sizes: seq<nat>)
    requires |sizes| == |q| <= |chunks|
    requires forall i :: 0 <= i < |q| ==> q[i].sent == sizes[i] && q[i].chunk == chunks[i]
    ensures Delivered(q) == Splice(chunks, sizes)
  {
    if q != [] {
      DeliveredIsSplice(q[..|q| - 1], chunks, sizes[..|q| - 1]);
    }
  }

  /** Safety under every interleaving: each side has received, in order and without repetition, a
      first part of every chunk read for it, as long as the finished writes say; the client has
      received those bytes after its greeting. */
  lemma RelaySafety(mode: Mode, data: seq<byte>, events: seq<Event>, s: State)
    requires |data| == BUFFER_SIZE && Run(mode, Start(mode, data), events) == Some(s)
    ensures ToTarget(s) == Splice(ChunksRead(events, Up), WriteSizes(events, Up))
    ensures s.Relaying? || s.Stopped? ==>
      ToClient(s) == s.greeting + Splice(ChunksRead(events, Down), WriteSizes(events, Down))
  {
    RunExplained(mode, data, events);
    if s.Relaying? || s.Stopped? {
      DeliveredIsSplice(s.up.transfers, ChunksRead(events, Up), WriteSizes(events, Up));
      DeliveredIsSplice(s.down.transfers, ChunksRead(events, Down), WriteSizes(events, Down));
    }
  }

  // ----- When nothing is lost -------------------------------------------------------------------

  lemma {:induction false} SpliceLength(chunks: seq<seq<byte>>, sizes: seq<nat>)
    requires |sizes| <= |chunks| && forall i :: 0 <= i < |sizes| ==> sizes[i] <= |chunks[i]|
    ensures |Splice(chunks, sizes)| <= |Concat(chunks[..|sizes|])|
    ensures |Splice(chunks, sizes)| == |Concat(chunks[..|sizes|])| <==> AllFull(chunks, sizes)
    ensures AllFull(chunks, sizes) ==> Splice(chunks, sizes) == Concat(chunks[..|sizes|])
  {
    if sizes != [] {
      var k := |sizes| - 1;
      SpliceLength(chunks, sizes[..k]);
      assert chunks[..k + 1][..k] == chunks[..k];
      assert AllFull(chunks, sizes) <==> AllFull(chunks, sizes[..k]) && sizes[k] == |chunks[k]|;
      if AllFull(chunks, sizes) {
        assert chunks[k][..sizes[k]] == chunks[k];
      }
    }
  }

  lemma ConcatSplit(c: Channel, chunks: seq<seq<byte>>, sizes: seq<nat>)
    requires Explains(c, chunks, sizes)
    ensures Concat(chunks) == Concat(chunks[..|sizes|]) + InFlight(c)
  {
    if InFlight(c) == [] {
      assert chunks[..|sizes|] == chunks;
    } else {
      assert chunks[..|chunks| - 1] == chunks[..|sizes|];
    }
  }

  lemma ChannelLossless(c: Channel, chunks: seq<seq<byte>>, sizes: seq<nat>)
    requires Explains(c, chunks, sizes)
    ensures Delivered(c.transfers) + InFlight(c) == Concat(chunks) <==> AllFull(chunks, sizes)
  {
    ConcatSplit(c, chunks, sizes);
    DeliveredIsSplice(c.transfers, chunks, sizes);
    SpliceLength(chunks, sizes);
    hide Concat, Delivered, Splice, AllFull;
    var done, rest := Delivered(c.transfers), InFlight(c);
    if done + rest == Concat(chunks[..|sizes|]) + rest {
      assert |done + rest| == |done| + |rest|;
    }
  }

  /** A direction has lost nothing, apart from the chunk still in its buffer, iff every one of its
      writes took the whole chunk: a short write is not continued. */
  lemma LosslessIffFullWrites(mode: Mode, data: seq<byte>, events: seq<Event>, s: State, dir: Direction)
    requires |data| == BUFFER_SIZE && Run(mode, Start(mode, data), events) == Some(s)
    requires s.Relaying? || s.Stopped?
    ensures Delivered(At(s, dir).transfers) + InFlight(At(s, dir)) == Concat(ChunksRead(events, dir))
       <==> AllFull(ChunksRead(events, dir), WriteSizes(events, dir))
  {
    RunExplained(mode, data, events);
    ChannelLossless(At(s, dir), ChunksRead(events, dir), WriteSizes(events, dir));
  }

  lemma RunSnoc(mode: Mode, s: State, events: seq<Event>, e: Event, before: State)
    requires Run(mode, s, events) == Some(before) && Enabled(before, e)
    ensures Run(mode, s, events + [e]) == Some(Step(mode, before, e))
  {
    assert (events + [e])[..|events|] == events;
  }

  /** The failing input: the target sends two bytes, the write to the client takes one, and the other
      is overwritten by the next read. */
  lemma ShortWriteLosesData(port: bv16)
    ensures var events := [ReplyDone(8)] + [Accepted] + [ReadDone(Down, [65, 66])] + [WriteDone(Down, 1)]
                        + [ReadDone(Down, [67])] + [WriteDone(Down, 1)];
      var r := Run(Bind(port), Start(Bind(port), []), events);
      r.Some? && ToClient(r.value) == BindReply(port) + [65, 67]
  {
    var mode, start := Bind(port), Start(Bind(port), []);
    var greeting := BindReply(port);
    assert greeting[..8] == greeting;
    var e1 := [ReplyDone(8)];
    assert [] + e1 == e1;
    RunSnoc(mode, start, [], ReplyDone(8), start);
    RunSnoc(mode, start, e1, Accepted, Accepting(greeting));
    var e2 := e1 + [Accepted];
    RunSnoc(mode, start, e2, ReadDone(Down, [65, 66]), Relaying(greeting, true, IDLE, IDLE));
    var e3 := e2 + [ReadDone(Down, [65, 66])];
    RunSnoc(mode, start, e3, WriteDone(Down, 1), Relaying(greeting, true, IDLE, Channel(Writing([65, 66]), true, [])));
    var e4 := e3 + [WriteDone(Down, 1)];
    var first := [Transfer([65, 66], 1)];
    assert [] + first == first;
    RunSnoc(mode, start, e4, ReadDone(Down, [67]), Relaying(greeting, true, IDLE, Channel(Reading, true, first)));
    var e5 := e4 + [ReadDone(Down, [67])];
    RunSnoc(mode, start, e5, WriteDone(Down, 1), Relaying(greeting, true, IDLE, Channel(Writing([67]), true, first)));
    hide Run;
    DeliveredSnoc([], [65, 66], 1);
    DeliveredSnoc(first, [67], 1);
    assert [65, 66][..1] == [65] && [67][..1] == [67];
  }

  lemma DeliveredSnoc(q: seq<Transfer>, chunk: seq<byte>, n: nat)
    requires n <= |chunk|
    ensures Delivered(q + [Transfer(chunk, n)]) == Delivered(q) + chunk[..n]
  {
    assert (q + [Transfer(chunk, n)])[..|q|] == q;
  }

  // ----- What the client receives first ---------------------------------------------------------

  /** The request chunk of a CONNECT session, once it was read, and the size of the reply's write. */
  function Request(events: seq<Event>): seq<byte> {
    if events == [] then []
    else
      var e := events[|events| - 1];
      if e.HeaderDone? && |e.chunk| <= BUFFER_SIZE then e.chunk else Request(events[..|events| - 1])
  }

  function ReplySize(events: seq<Event>): nat {
    if events == [] then 0
    else
      var e := events[|events| - 1];
      if e.ReplyDone? then e.sent else ReplySize(events[..|events| - 1])
  }

  lemma {:induction false} RequestFits(events: seq<Event>)
    ensures |Request(events)| <= BUFFER_SIZE
  {
    if events != [] {
      RequestFits(events[..|events| - 1]);
    }
  }

  /** The reply of the session: granted, then the request's own port and address (CONNECT), or the
      listening port and no address (BIND). */
  function Reply(mode: Mode, data: seq<byte>, events: seq<Event>): seq<byte>
    requires |data| == BUFFER_SIZE
  {
    RequestFits(events);
    if mode.Bind? then BindReply(mode.port) else ConnectReply(Overlay(data, Request(events)))
  }

  /** How far the session has got with its reply. */
  ghost predicate Greeted(mode: Mode, data: seq<byte>, events: seq<Event>, s: State)
    requires |data| == BUFFER_SIZE
  {
    match s
    case Header(d) => mode.Connect? && d == data && ReplySize(events) == 0
    case Connecting(d) => RequestFits(events); mode.Connect? && d == Overlay(data, Request(events)) && ReplySize(events) == 0
    case Replying(r) => r == Reply(mode, data, events) && ReplySize(events) == 0
    case Accepting(g) => Sent(mode, data, events, g)
    case Relaying(g, _, _, _) => Sent(mode, data, events, g)
    case Stopped(g, _, _) => Sent(mode, data, events, g)
  }

  ghost predicate Sent(mode: Mode, data: seq<byte>, events: seq<Event>, greeting: seq<byte>)
    requires |data| == BUFFER_SIZE
  {
    ReplySize(events) <= 8 && greeting == Reply(mode, data, events)[..ReplySize(events)]
  }

  lemma {:induction false} GreetingIsReply(mode: Mode, data: seq<byte>, events: seq<Event>, s: State)
    requires |data| == BUFFER_SIZE
    requires Run(mode, Start(mode, data), events) == Some(s)
    ensures Greeted(mode, data, events, s)
  {
    if events == [] {
      assert Overlay(data, []) == data;
    } else {
      var front, e := events[..|events| - 1], events[|events| - 1];
      var before := Run(mode, Start(mode, data), front).value;
      GreetingIsReply(mode, data, front, before);
      hide Run, Step, Enabled, Greeted;
      GreetedStep(mode, data, front, before, e);
      assert front + [e] == events;
    }
  }

  lemma GreetedStep(mode: Mode, data: seq<byte>, events: seq<Event>, s: State, e: Event)
    requires |data| == BUFFER_SIZE
    requires Greeted(mode, data, events, s) && Enabled(s, e)
    ensures Greeted(mode, data, events + [e], Step(mode, s, e))
  {
    assert (events + [e])[..|events|] == events;
    RequestFits(events);
  }

  /** The client's stream always starts with the reply, or with as much of it as its one write took,
      and goes on with bytes of the target only. */
  lemma ClientStream(mode: Mode, data: seq<byte>, events: seq<Event>, s: State)
    requires |data| == BUFFER_SIZE
    requires Run(mode, Start(mode, data), events) == Some(s)
    ensures |Reply(mode, data, events)| == 8 && ReplySize(events) <= 8
    ensures s.Relaying? || s.Stopped? ==>
      ToClient(s) == Reply(mode, data, events)[..ReplySize(events)]
                   + Splice(ChunksRead(events, Down), WriteSizes(events, Down))
    ensures |Request(events)| >= 8 && mode.Connect? ==>
      Reply(mode, data, events) == [0, 90] + Request(events)[2..8]
  {
    GreetingIsReply(mode, data, events, s);
    RelaySafety(mode, data, events, s);
    ReplyShape(mode, data, events);
    hide Run, Splice, ChunksRead, WriteSizes, Reply, Request, ReplySize;
  }

  lemma ReplyShape(mode: Mode, data: seq<byte>, events: seq<Event>)
    requires |data| == BUFFER_SIZE
    ensures |Reply(mode, data, events)| == 8
    ensures |Request(events)| >= 8 && mode.Connect? ==>
      Reply(mode, data, events) == [0, 90] + Request(events)[2..8]
  {
    RequestFits(events);
    if |Request(events)| >= 8 && mode.Connect? {
      assert Overlay(data, Request(events))[2..8] == Request(events)[2..8];
    }
  }
}
