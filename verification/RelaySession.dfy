/** The callbacks of a relay session over its two real buffers, proved to follow Relay.Step. */
module RelaySession {
  import opened Common
  import opened Relay

  datatype Side = ClientSide | TargetSide
  datatype Buffer = UpBuffer | DownBuffer

  /** An asynchronous operation that has been started and has not completed. */
  datatype Op =
    | Resolve
    | Accept
    | Read(socket: Side, buffer: Buffer)
    | Write(socket: Side, buffer: Buffer, len: nat)

  /** What asio and the kernel keep for a session: the operations under way, whether the two sockets
      are open, and what has arrived at the other ends. */
  datatype Network = Network(pending: multiset<Op>, open: bool, toClient: seq<byte>, toTarget: seq<byte>) {
    function Started(o: Op): Network {
      this.(pending := pending + multiset{o})
    }

    /** Both directions start to read. */
    function BothReading(): Network {
      Started(Read(ClientSide, UpBuffer)).Started(Read(TargetSide, DownBuffer))
    }

    function Completed(o: Op): Network {
      this.(pending := pending - multiset{o})
    }

    function Sent(socket: Side, bytes: seq<byte>): Network {
      if socket.ClientSide? then this.(toClient := toClient + bytes) else this.(toTarget := toTarget + bytes)
    }

    function Closed(): Network {
      this.(open := false)
    }

    /** The process is gone: nothing will complete any more. */
    function Ended(): Network {
      this.(pending := multiset{})
    }
  }

  function Source(dir: Direction): Side {
    if dir.Up? then ClientSide else TargetSide
  }

  function Sink(dir: Direction): Side {
    if dir.Up? then TargetSide else ClientSide
  }

  function BufferOf(dir: Direction): Buffer {
    if dir.Up? then UpBuffer else DownBuffer
  }

  /** CONNECT builds its reply in the buffer the request came in, BIND in the other one. */
  function ReplyBuffer(mode: Mode): Buffer {
    if mode.Bind? then DownBuffer else UpBuffer
  }

  /** The operation a channel is waiting for, unless it is halted. */
  function OpOf(dir: Direction, c: Channel): Op {
    if c.phase.Writing? then Write(Sink(dir), BufferOf(dir), |InFlight(c)|) else Read(Source(dir), BufferOf(dir))
  }

  function Waiting(dir: Direction, c: Channel): multiset<Op> {
    if c.phase.Halted? then multiset{} else multiset{OpOf(dir, c)}
  }

  function Pending(mode: Mode, s: State): multiset<Op> {
    match s
    case Header(_) => multiset{Read(ClientSide, UpBuffer)}
    case Connecting(_) => multiset{Resolve}
    case Replying(_) => multiset{Write(ClientSide, ReplyBuffer(mode), 8)}
    case Accepting(_) => multiset{Accept}
    case Relaying(_, _, up, down) => Waiting(Up, up) + Waiting(Down, down)
    case Stopped(_, _, _) => multiset{}
  }

  ghost predicate UsesBuffer(o: Op, b: Buffer) {
    (o.Read? || o.Write?) && o.buffer == b
  }

  /** At most one operation is pending on a buffer, so none is ever filled while it is being sent;
      and at most one read and one write on a socket. */
  ghost predicate Disciplined(pending: multiset<Op>) {
    && (forall o :: pending[o] <= 1)
    && (forall o, p, b :: o in pending && p in pending && UsesBuffer(o, b) && UsesBuffer(p, b) ==> o == p)
    && (forall o, p :: o in pending && p in pending && o.Read? && p.Read? && o.socket == p.socket ==> o == p)
    && (forall o, p :: o in pending && p in pending && o.Write? && p.Write? && o.socket == p.socket ==> o == p)
  }

  /** The operation a channel waits for is alone, on its own buffer, and on its own side of each socket. */
  lemma WaitingIsSingle(dir: Direction, c: Channel)
    ensures var w := Waiting(dir, c);
      && (forall o :: w[o] <= 1)
      && (forall o, p :: o in w && p in w ==> o == p)
      && (forall o :: o in w ==> (o.Read? || o.Write?) && o.buffer == BufferOf(dir))
      && (forall o :: o in w ==> if o.Read? then o.socket == Source(dir) else o.socket == Sink(dir))
  {}

  lemma TogetherDisciplined(a: multiset<Op>, b: multiset<Op>)
    requires forall o :: a[o] <= 1 && b[o] <= 1
    requires forall o, p :: (o in a && p in a) || (o in b && p in b) ==> o == p
    requires forall o :: o in a ==> (o.Read? || o.Write?) && o.buffer == UpBuffer
    requires forall o :: o in b ==> (o.Read? || o.Write?) && o.buffer == DownBuffer
    requires forall o :: o in a ==> if o.Read? then o.socket == ClientSide else o.socket == TargetSide
    requires forall o :: o in b ==> if o.Read? then o.socket == TargetSide else o.socket == ClientSide
    ensures Disciplined(a + b)
  {}

  lemma PendingIsDisciplined(mode: Mode, s: State)
    ensures Disciplined(Pending(mode, s))
  {
    if s.Relaying? {
      WaitingIsSingle(Up, s.up);
      WaitingIsSingle(Down, s.down);
      hide Waiting;
      TogetherDisciplined(Waiting(Up, s.up), Waiting(Down, s.down));
    }
  }

  /** The network has what the state says: the operations under way and the bytes at the far ends. */
  ghost predicate Shows(net: Network, mode: Mode, s: State) {
    net.pending == Pending(mode, s) && net.toClient == ToClient(s) && net.toTarget == ToTarget(s)
  }

  /** Replacing what one channel waits for, and what it has delivered. */
  lemma SwapPending(mode: Mode, s: State, dir: Direction, open: bool, c: Channel)
    requires s.Relaying? && !At(s, dir).phase.Halted?
    ensures Pending(mode, Put(s, dir, open, c))
         == Pending(mode, s) - multiset{OpOf(dir, At(s, dir))} + Waiting(dir, c)
  {}

  lemma SwapStreams(s: State, dir: Direction, open: bool, c: Channel, more: seq<byte>)
    requires s.Relaying? && Delivered(c.transfers) == Delivered(At(s, dir).transfers) + more
    ensures ToClient(Put(s, dir, open, c)) == if dir.Up? then ToClient(s) else ToClient(s) + more
    ensures ToTarget(Put(s, dir, open, c)) == if dir.Up? then ToTarget(s) + more else ToTarget(s)
  {
    hide Delivered;
  }

  /** A replaced channel with the same transfers delivers nothing. */
  lemma NetSwapQuiet(mode: Mode, s: State, net: Network, dir: Direction, open: bool, c: Channel)
    requires s.Relaying? && !At(s, dir).phase.Halted? && Shows(net, mode, s) && c.transfers == At(s, dir).transfers
    ensures var done := net.Completed(OpOf(dir, At(s, dir)));
      Shows(if c.phase.Halted? then done else done.Started(OpOf(dir, c)), mode, Put(s, dir, open, c))
  {
    SwapPending(mode, s, dir, open, c);
    assert ToClient(Put(s, dir, open, c)) == ToClient(s) && ToTarget(Put(s, dir, open, c)) == ToTarget(s);
    hide Pending, ToClient, ToTarget, Delivered, OpOf;
  }

  lemma NetSwap(mode: Mode, s: State, net: Network, dir: Direction, open: bool, c: Channel, more: seq<byte>)
    requires s.Relaying? && !At(s, dir).phase.Halted? && Shows(net, mode, s)
    requires Delivered(c.transfers) == Delivered(At(s, dir).transfers) + more
    ensures var done := net.Completed(OpOf(dir, At(s, dir))).Sent(Sink(dir), more);
      Shows(if c.phase.Halted? then done else done.Started(OpOf(dir, c)), mode, Put(s, dir, open, c))
  {
    SwapPending(mode, s, dir, open, c);
    SwapStreams(s, dir, open, c, more);
    hide Pending, ToClient, ToTarget, Delivered, OpOf;
  }

  lemma DeliveredMore(c: Channel, sent: nat)
    requires c.phase.Writing? && sent <= |InFlight(c)|
    ensures Delivered(c.transfers + [Transfer(InFlight(c), sent)]) == Delivered(c.transfers) + InFlight(c)[..sent]
  {
    var q := c.transfers + [Transfer(InFlight(c), sent)];
    assert q[..|q| - 1] == c.transfers;
  }

  lemma NothingLeft(o: Op)
    ensures multiset{o} - multiset{o} == multiset{}
  {}

  /** With nothing else under way, both directions start to read. */
  lemma RelayStarts(mode: Mode, net: Network, greeting: seq<byte>)
    requires net.pending == multiset{} && net.toClient == greeting && net.toTarget == []
    ensures Shows(net.BothReading(), mode, Relaying(greeting, true, IDLE, IDLE))
  {
    assert Delivered([]) == [] && greeting + [] == greeting;
    hide Delivered;
  }

  lemma ReplyEffect(mode: Mode, s: State, net: Network, sent: nat)
    requires Enabled(s, ReplyDone(sent)) && |s.reply| == 8 && Shows(net, mode, s)
    ensures var s1 := Step(mode, s, ReplyDone(sent));
      var done := net.Completed(Write(ClientSide, ReplyBuffer(mode), 8)).Sent(ClientSide, s.reply[..sent]);
      && Shows(if mode.Bind? then done.Started(Accept) else done.BothReading(), mode, s1)
      && (if mode.Bind? then s1.Accepting? else FreshRelay(s1))
  {
    var o := Write(ClientSide, ReplyBuffer(mode), 8);
    NothingLeft(o);
    assert [] + s.reply[..sent] == s.reply[..sent];
    if mode.Connect? {
      RelayStarts(mode, net.Completed(o).Sent(ClientSide, s.reply[..sent]), s.reply[..sent]);
      hide Shows;
    } else {
      assert multiset{} + multiset{Accept} == multiset{Accept};
    }
  }

  lemma AcceptedEffect(mode: Mode, s: State, net: Network)
    requires Enabled(s, Accepted) && Shows(net, mode, s)
    ensures var s1 := Step(mode, s, Accepted);
      FreshRelay(s1) && Shows(net.Completed(Accept).BothReading(), mode, s1)
  {
    NothingLeft(Accept);
    RelayStarts(mode, net.Completed(Accept), Greeting(s));
    hide Shows;
  }

  ghost predicate FreshRelay(s: State) {
    s.Relaying? && IsOpen(s) && At(s, Up) == At(s, Down) == IDLE
  }

  /** The buffer holds the chunk its channel is writing. */
  ghost predicate Holds(data: seq<byte>, c: Channel) {
    c.phase.Writing? ==> c.phase.chunk <= data
  }

  lemma OverlayHolds(data: seq<byte>, chunk: seq<byte>, c: Channel)
    requires c.phase == Writing(chunk)
    ensures Holds(Overlay(data, chunk), c)
  {}

  /** Leaving the process ends every operation and delivers nothing more. */
  lemma LeaveShows(mode: Mode, s: State, net: Network)
    requires s.Relaying? && Shows(net, mode, s)
    ensures Shows(net.Ended(), mode, Stopped(Greeting(s), At(s, Up), At(s, Down)))
  {}

  function Other(dir: Direction): Direction {
    if dir.Up? then Down else Up
  }

  lemma PutChannels(s: State, dir: Direction, open: bool, c: Channel)
    requires s.Relaying?
    ensures var s1 := Put(s, dir, open, c);
      s1.Relaying? && IsOpen(s1) == open && At(s1, dir) == c && At(s1, Other(dir)) == At(s, Other(dir))
  {}

  lemma ReadEffect(mode: Mode, s: State, net: Network, dir: Direction, chunk: seq<byte>)
    requires Enabled(s, ReadDone(dir, chunk)) && Shows(net, mode, s)
    ensures var s1 := Step(mode, s, ReadDone(dir, chunk));
      && s1.Relaying? && IsOpen(s1) == IsOpen(s)
      && At(s1, dir).phase == Writing(chunk) && At(s1, Other(dir)) == At(s, Other(dir))
      && Shows(net.Completed(Read(Source(dir), BufferOf(dir))).Started(Write(Sink(dir), BufferOf(dir), |chunk|)), mode, s1)
  {
    var c := Channel(Writing(chunk), IsOpen(s), At(s, dir).transfers);
    assert Step(mode, s, ReadDone(dir, chunk)) == Put(s, dir, IsOpen(s), c);
    assert OpOf(dir, At(s, dir)) == Read(Source(dir), BufferOf(dir));
    assert OpOf(dir, c) == Write(Sink(dir), BufferOf(dir), |chunk|);
    hide Step, Put, Shows, OpOf, Source, Sink, BufferOf;
    NetSwapQuiet(mode, s, net, dir, IsOpen(s), c);
    PutChannels(s, dir, IsOpen(s), c);
    hide IsOpen;
  }

  lemma WriteEffect(mode: Mode, s: State, net: Network, dir: Direction, n: nat)
    requires Enabled(s, WriteDone(dir, n)) && Shows(net, mode, s)
    ensures var s1 := Step(mode, s, WriteDone(dir, n));
      var done := net.Completed(Write(Sink(dir), BufferOf(dir), |InFlight(At(s, dir))|));
      && s1.Relaying? && IsOpen(s1) == IsOpen(s)
      && (forall data :: Holds(data, At(s1, dir))) && At(s1, Other(dir)) == At(s, Other(dir))
      && Shows(done.Sent(Sink(dir), InFlight(At(s, dir))[..n]).Started(Read(Source(dir), BufferOf(dir))), mode, s1)
  {
    var c := Wrote(At(s, dir), n, IsOpen(s));
    DeliveredMore(At(s, dir), n);
    NetSwap(mode, s, net, dir, IsOpen(s), c, InFlight(At(s, dir))[..n]);
    assert Step(mode, s, WriteDone(dir, n)) == Put(s, dir, IsOpen(s), c);
    PutChannels(s, dir, IsOpen(s), c);
    hide Step, Put, Shows, IsOpen;
  }

  lemma ClosingShows(net: Network, mode: Mode, s: State)
    requires Shows(net, mode, s)
    ensures Shows(net.Closed(), mode, s)
  {}

  lemma ReadFailedEffect(mode: Mode, s: State, net: Network, dir: Direction)
    requires Enabled(s, ReadFailed(dir)) && Shows(net, mode, s)
    ensures var s1 := Step(mode, s, ReadFailed(dir));
      if mode.Connect? then s1.Stopped? && Shows(net.Ended(), mode, s1)
      else
        && s1.Relaying? && !IsOpen(s1) && (forall data :: Holds(data, At(s1, dir))) && At(s1, Other(dir)) == At(s, Other(dir))
        && Shows(net.Completed(Read(Source(dir), BufferOf(dir))).Closed(), mode, s1)
  {
    if mode.Connect? {
      assert Step(mode, s, ReadFailed(dir)) == Stopped(Greeting(s), At(s, Up), At(s, Down));
      hide Step, Shows, At, Greeting;
      LeaveShows(mode, s, net);
    } else {
      assert Step(mode, s, ReadFailed(dir)) == Put(s, dir, false, At(s, dir).(phase := Halted([])));
      hide Step;
      BindReadFailed(mode, s, net, dir);
    }
  }

  lemma BindReadFailed(mode: Mode, s: State, net: Network, dir: Direction)
    requires Enabled(s, ReadFailed(dir)) && Shows(net, mode, s)
    ensures var s1 := Put(s, dir, false, At(s, dir).(phase := Halted([])));
      && s1.Relaying? && !IsOpen(s1) && (forall data :: Holds(data, At(s1, dir))) && At(s1, Other(dir)) == At(s, Other(dir))
      && Shows(net.Completed(Read(Source(dir), BufferOf(dir))).Closed(), mode, s1)
  {
    var c := At(s, dir).(phase := Halted([]));
    NetSwapQuiet(mode, s, net, dir, false, c);
    PutChannels(s, dir, false, c);
    ClosingShows(net.Completed(OpOf(dir, At(s, dir))), mode, Put(s, dir, false, c));
    hide Put, Shows;
  }

  lemma WriteFailedEffect(mode: Mode, s: State, net: Network, dir: Direction)
    requires Enabled(s, WriteFailed(dir)) && Shows(net, mode, s)
    ensures var s1 := Step(mode, s, WriteFailed(dir));
      var done := net.Completed(Write(Sink(dir), BufferOf(dir), |InFlight(At(s, dir))|));
      && s1.Relaying? && IsOpen(s1) == (IsOpen(s) && mode.Connect?)
      && (forall data :: Holds(data, At(s1, dir))) && At(s1, Other(dir)) == At(s, Other(dir))
      && Shows(done, mode, s1) && Shows(done.Closed(), mode, s1)
  {
    var open := IsOpen(s) && mode.Connect?;
    var c := At(s, dir).(phase := Halted(InFlight(At(s, dir))));
    NetSwapQuiet(mode, s, net, dir, open, c);
    assert Step(mode, s, WriteFailed(dir)) == Put(s, dir, open, c);
    PutChannels(s, dir, open, c);
    ClosingShows(net.Completed(OpOf(dir, At(s, dir))), mode, Put(s, dir, open, c));
    hide Step, Put, Shows;
  }

  class Session {
    const mode: Mode
    const upData: array<byte>     // source_data, to_server_data
    const downData: array<byte>   // des_data, to_client_data
    var net: Network
    ghost var state: State

    function Data(b: Buffer): array<byte> {
      if b.UpBuffer? then upData else downData
    }

    /** The session is relaying in state `s`: a buffer holds the chunk its channel is writing. */
    ghost predicate Relays(s: State)
      reads this, upData, downData
    {
      && Shows(net, mode, s) && net.open == IsOpen(s)
      && Holds(upData[..], At(s, Up))
      && Holds(downData[..], At(s, Down))
    }

    /** The session is being set up, or has ended, in state `s`. */
    ghost predicate SetsUp(s: State)
      reads this, upData, downData
    {
      && Shows(net, mode, s) && (net.open || s.Stopped?)
      && match s
         case Header(data) => mode.Connect? && upData[..] == data
         case Connecting(data) => mode.Connect? && upData[..] == data
         case Replying(reply) => reply <= Data(ReplyBuffer(mode))[..] && |reply| == 8
         case Accepting(_) => mode.Bind?
         case _ => true
    }

    /** The operations, buffers and streams are those of the state. */
    ghost predicate Valid()
      reads this, upData, downData
    {
      && upData != downData && upData.Length == downData.Length == BUFFER_SIZE
      && if state.Relaying? then Relays(state) else SetsUp(state)
    }

    /** A CONNECT session waits for the request in whatever its buffer holds. */
    constructor Connect()
      ensures Valid() && mode == Mode.Connect && state == Start(mode, upData[..])
    {
      mode := Mode.Connect;
      upData := new byte[BUFFER_SIZE];
      downData := new byte[BUFFER_SIZE];
      net := Network(multiset{Read(ClientSide, UpBuffer)}, true, [], []);
      new;
      state := Header(upData[..]);
    }

    /** A BIND session starts by writing its reply. */
    constructor Bind(port: bv16)
      ensures Valid() && mode == Mode.Bind(port) && state == Start(mode, [])
    {
      mode := Mode.Bind(port);
      upData := new byte[BUFFER_SIZE];
      downData := new byte[BUFFER_SIZE];
      net := Network(multiset{}, true, [], []);
      state := Replying(BindReply(port));
      new;
      downData[0] := 0;
      downData[1] := 90;
      downData[2] := (port >> 8) as bv8;
      downData[3] := (port % 256) as bv8;
      downData[4], downData[5], downData[6], downData[7] := 0, 0, 0, 0;
      net := net.Started(Write(ClientSide, DownBuffer, 8));
      assert downData[..8] == BindReply(port);
    }

    /** The kernel has stored `chunk` at the start of the buffer. */
    method Fill(a: array<byte>, chunk: seq<byte>)
      requires |chunk| <= a.Length
      modifies a
      ensures a[..] == Overlay(old(a[..]), chunk)
    {
      for i := 0 to |chunk|
        invariant a[..i] == chunk[..i] && a[i..] == old(a[..])[i..]
      {
        a[i] := chunk[i];
        assert a[..i + 1] == a[..i] + [a[i]] && chunk[..i + 1] == chunk[..i] + [chunk[i]];
      }
      assert a[..] == a[..|chunk|] + a[|chunk|..] && chunk[..|chunk|] == chunk;
    }

    /** The operations under way change, and the session goes on relaying. */
    method Continue(n: Network, ghost s: State)
      requires upData != downData && upData.Length == downData.Length == BUFFER_SIZE
      requires s.Relaying? && Shows(n, mode, s) && n.open == IsOpen(s)
      requires Holds(upData[..], At(s, Up)) && Holds(downData[..], At(s, Down))
      modifies this`net, this`state
      ensures Valid() && state == s
    {
      hide Shows, SetsUp, IsOpen, At, Holds;
      net := n;
      state := s;
    }

    // ----- Callbacks ----------------------------------------------------------------------------

    /** The request arrived; it is refused by leaving. */
    method OnHeader(chunk: seq<byte>, granted: bool)
      requires Valid() && Enabled(state, HeaderDone(chunk, granted))
      modifies this`net, this`state, upData
      ensures Valid() && state == Step(mode, old(state), HeaderDone(chunk, granted))
    {
      Fill(upData, chunk);
      net := net.Completed(Read(ClientSide, UpBuffer));
      if granted {
        net := net.Started(Resolve);
      }
      state := Step(mode, state, HeaderDone(chunk, granted));
    }

    method OnConnected()
      requires Valid() && Enabled(state, Connected)
      modifies this`net, this`state, upData
      ensures Valid() && state == Step(mode, old(state), Connected)
    {
      upData[0] := 0;
      upData[1] := 90;
      assert upData[..8] == [0, 90] + old(upData[..])[2..8];
      net := net.Completed(Resolve).Started(Write(ClientSide, UpBuffer, 8));
      state := Step(mode, state, Connected);
    }

    method OnReply(sent: nat)
      requires Valid() && Enabled(state, ReplyDone(sent))
      modifies this`net, this`state
      ensures Valid() && state == Step(mode, old(state), ReplyDone(sent))
    {
      var a := Data(ReplyBuffer(mode));
      assert a[..sent] == state.reply[..sent];
      ReplyEffect(mode, state, net, sent);
      hide Shows, Step;
      var done := net.Completed(Write(ClientSide, ReplyBuffer(mode), 8)).Sent(ClientSide, a[..sent]);
      net := if mode.Bind? then done.Started(Accept) else done.BothReading();
      state := Step(mode, state, ReplyDone(sent));
    }

    method OnAccepted()
      requires Valid() && Enabled(state, Accepted)
      modifies this`net, this`state
      ensures Valid() && state == Step(mode, old(state), Accepted)
    {
      AcceptedEffect(mode, state, net);
      hide Shows, Step;
      net := net.Completed(Accept).BothReading();
      state := Step(mode, state, Accepted);
    }

    /** Setting up failed: nothing more is started. */
    method OnSetupFailed()
      requires Valid() && Enabled(state, SetupFailed)
      modifies this`net, this`state
      ensures Valid() && state == Step(mode, old(state), SetupFailed)
    {
      net := net.Ended();
      state := Step(mode, state, SetupFailed);
    }

    // From the client to the target: source_data, to_server_data

    method OnReadFromClient(chunk: seq<byte>)
      requires Valid() && Enabled(state, ReadDone(Up, chunk))
      modifies this`net, this`state, upData
      ensures Valid() && state == Step(mode, old(state), ReadDone(Up, chunk))
    {
      ReadEffect(mode, state, net, Up, chunk);
      ghost var next := Step(mode, state, ReadDone(Up, chunk));
      OverlayHolds(upData[..], chunk, At(next, Up));
      var moved := net.Completed(Read(ClientSide, UpBuffer)).Started(Write(TargetSide, UpBuffer, |chunk|));
      hide Shows, SetsUp, Step, IsOpen, At, Holds, Overlay;
      assert Shows(moved, mode, next) && moved.open == IsOpen(next) && Holds(downData[..], At(next, Down));
      hide *;
      Fill(upData, chunk);
      Continue(moved, next);
    }

    /** The write of `len` bytes took `sent` of them; the rest stays behind in the buffer. */
    method OnWriteToServer(len: nat, sent: nat)
      requires Valid() && Enabled(state, WriteDone(Up, sent)) && len == |InFlight(At(state, Up))|
      modifies this`net, this`state
      ensures Valid() && state == Step(mode, old(state), WriteDone(Up, sent))
    {
      var bytes := upData[..sent];
      assert bytes == InFlight(At(state, Up))[..sent];
      WriteEffect(mode, state, net, Up, sent);
      ghost var next := Step(mode, state, WriteDone(Up, sent));
      hide Shows, SetsUp, Step, IsOpen, At, Holds, InFlight;
      var moved := net.Completed(Write(TargetSide, UpBuffer, len)).Sent(TargetSide, bytes).Started(Read(ClientSide, UpBuffer));
      assert Shows(moved, mode, next) && moved.open == IsOpen(next);
      assert Holds(upData[..], At(next, Up)) && Holds(downData[..], At(next, Down));
      hide *;
      Continue(moved, next);
    }

    method OnReadFromClientFailed()
      requires Valid() && Enabled(state, ReadFailed(Up))
      modifies this`net, this`state
      ensures Valid() && state == Step(mode, old(state), ReadFailed(Up))
    {
      ReadFailedEffect(mode, state, net, Up);
      hide Shows, Step, IsOpen, At, Holds;
      net := if mode.Connect? then net.Ended() else net.Completed(Read(ClientSide, UpBuffer)).Closed();
      state := Step(mode, state, ReadFailed(Up));
    }

    method OnWriteToServerFailed(len: nat)
      requires Valid() && Enabled(state, WriteFailed(Up)) && len == |InFlight(At(state, Up))|
      modifies this`net, this`state
      ensures Valid() && state == Step(mode, old(state), WriteFailed(Up))
    {
      WriteFailedEffect(mode, state, net, Up);
      ghost var next := Step(mode, state, WriteFailed(Up));
      hide Shows, SetsUp, Step, IsOpen, At, Holds, InFlight;
      var done := net.Completed(Write(TargetSide, UpBuffer, len));
      var moved := if mode.Bind? then done.Closed() else done;
      assert Shows(moved, mode, next) && moved.open == IsOpen(next);
      assert Holds(upData[..], At(next, Up)) && Holds(downData[..], At(next, Down));
      hide *;
      Continue(moved, next);
    }

    // From the target to the client: des_data, to_client_data

    method OnReadFromServer(chunk: seq<byte>)
      requires Valid() && Enabled(state, ReadDone(Down, chunk))
      modifies this`net, this`state, downData
      ensures Valid() && state == Step(mode, old(state), ReadDone(Down, chunk))
    {
      ReadEffect(mode, state, net, Down, chunk);
      ghost var next := Step(mode, state, ReadDone(Down, chunk));
      OverlayHolds(downData[..], chunk, At(next, Down));
      var moved := net.Completed(Read(TargetSide, DownBuffer)).Started(Write(ClientSide, DownBuffer, |chunk|));
      hide Shows, SetsUp, Step, IsOpen, At, Holds, Overlay;
      assert Shows(moved, mode, next) && moved.open == IsOpen(next) && Holds(upData[..], At(next, Up));
      hide *;
      Fill(downData, chunk);
      Continue(moved, next);
    }

    /** The write of `len` bytes took `sent` of them; the rest stays behind in the buffer. */
    method OnWriteToClient(len: nat, sent: nat)
      requires Valid() && Enabled(state, WriteDone(Down, sent)) && len == |InFlight(At(state, Down))|
      modifies this`net, this`state
      ensures Valid() && state == Step(mode, old(state), WriteDone(Down, sent))
    {
      var bytes := downData[..sent];
      assert bytes == InFlight(At(state, Down))[..sent];
      WriteEffect(mode, state, net, Down, sent);
      ghost var next := Step(mode, state, WriteDone(Down, sent));
      hide Shows, SetsUp, Step, IsOpen, At, Holds, InFlight;
      var moved := net.Completed(Write(ClientSide, DownBuffer, len)).Sent(ClientSide, bytes).Started(Read(TargetSide, DownBuffer));
      assert Shows(moved, mode, next) && moved.open == IsOpen(next);
      assert Holds(upData[..], At(next, Up)) && Holds(downData[..], At(next, Down));
      hide *;
      Continue(moved, next);
    }

    method OnReadFromServerFailed()
      requires Valid() && Enabled(state, ReadFailed(Down))
      modifies this`net, this`state
      ensures Valid() && state == Step(mode, old(state), ReadFailed(Down))
    {
      ReadFailedEffect(mode, state, net, Down);
      hide Shows, Step, IsOpen, At, Holds;
      net := if mode.Connect? then net.Ended() else net.Completed(Read(TargetSide, DownBuffer)).Closed();
      state := Step(mode, state, ReadFailed(Down));
    }

    method OnWriteToClientFailed(len: nat)
      requires Valid() && Enabled(state, WriteFailed(Down)) && len == |InFlight(At(state, Down))|
      modifies this`net, this`state
      ensures Valid() && state == Step(mode, old(state), WriteFailed(Down))
    {
      WriteFailedEffect(mode, state, net, Down);
      ghost var next := Step(mode, state, WriteFailed(Down));
      hide Shows, SetsUp, Step, IsOpen, At, Holds, InFlight;
      var done := net.Completed(Write(ClientSide, DownBuffer, len));
      var moved := if mode.Bind? then done.Closed() else done;
      assert Shows(moved, mode, next) && moved.open == IsOpen(next);
      assert Holds(upData[..], At(next, Up)) && Holds(downData[..], At(next, Down));
      hide *;
      Continue(moved, next);
    }
  }

  // ----- What holds of every session ------------------------------------------------------------

  /** A session in order has its operations in order: they are those of its state. */
  lemma ValidIsDisciplined(session: Session)
    requires session.Valid()
    ensures session.net.pending == Pending(session.mode, session.state)
    ensures Disciplined(session.net.pending)
  {
    PendingIsDisciplined(session.mode, session.state);
    hide Pending, Disciplined;
  }

  /** The completion is one of the operation. */
  predicate Ends(mode: Mode, e: Event, o: Op) {
    match e
    case HeaderDone(_, _) => o == Read(ClientSide, UpBuffer)
    case Connected => o == Resolve
    case ReplyDone(_) => o == Write(ClientSide, ReplyBuffer(mode), 8)
    case Accepted => o == Accept
    case SetupFailed => true
    case ReadDone(dir, _) => o == Read(Source(dir), BufferOf(dir))
    case ReadFailed(dir) => o == Read(Source(dir), BufferOf(dir))
    case WriteDone(dir, sent) => o.Write? && o == Write(Sink(dir), BufferOf(dir), o.len) && sent <= o.len
    case WriteFailed(dir) => o.Write? && o == Write(Sink(dir), BufferOf(dir), o.len)
  }

  /** Some completion of the operation is possible. */
  ghost predicate CanEnd(mode: Mode, s: State, o: Op) {
    exists e :: Enabled(s, e) && Ends(mode, e, o)
  }

  /** No session is stuck, and none is called back out of the blue: each operation under way can
      complete, and each completion that can happen is one of an operation under way. */
  lemma PendingCanEnd(mode: Mode, s: State, o: Op)
    requires o in Pending(mode, s)
    ensures CanEnd(mode, s, o)
  {
    if s.Relaying? {
      var dir := if o in Waiting(Up, s.up) then Up else Down;
      assert o in Waiting(dir, At(s, dir)) && o == OpOf(dir, At(s, dir));
      if At(s, dir).phase.Writing? {
        assert Enabled(s, WriteFailed(dir)) && Ends(mode, WriteFailed(dir), o);
      } else {
        assert Enabled(s, ReadFailed(dir)) && Ends(mode, ReadFailed(dir), o);
      }
    } else {
      assert Enabled(s, SetupFailed) && Ends(mode, SetupFailed, o);
    }
  }

  ghost predicate IsUnderWay(mode: Mode, s: State, e: Event) {
    exists o :: o in Pending(mode, s) && Ends(mode, e, o)
  }

  lemma EnabledIsPending(mode: Mode, s: State, e: Event)
    requires Enabled(s, e)
    ensures IsUnderWay(mode, s, e)
  {
    if s.Relaying? {
      var c := At(s, e.dir);
      var o := OpOf(e.dir, c);
      assert o in Waiting(e.dir, c) && o in Pending(mode, s) && Ends(mode, e, o);
    } else {
      var o := SetupOp(mode, s);
      assert o in Pending(mode, s) && Ends(mode, e, o);
    }
  }

  /** The one operation under way while a session is set up. */
  function SetupOp(mode: Mode, s: State): Op {
    match s
    case Header(_) => Read(ClientSide, UpBuffer)
    case Connecting(_) => Resolve
    case Replying(_) => Write(ClientSide, ReplyBuffer(mode), 8)
    case _ => Accept
  }
}
