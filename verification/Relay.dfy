/** The SOCKS relay of hw4/src/sock_server.cpp as a state machine over the completions of its
    asynchronous operations: class server (CONNECT) and class bind_session (BIND). */
module Relay {
  import opened Common

  const BUFFER_SIZE: nat := 15000

  /** CONNECT, or BIND with the port the server listens on. */
  datatype Mode = Connect | Bind(port: bv16)

  /** Up carries client bytes to the target, Down carries target bytes to the client. */
  datatype Direction = Up | Down

  /** A chunk that was read, and how many of its bytes the one write of it took. */
  datatype Transfer = Transfer(chunk: seq<byte>, sent: nat)

  /** `Halted` keeps the chunk whose write failed, if that is how the direction ended. */
  datatype Phase = Reading | Writing(chunk: seq<byte>) | Halted(lost: seq<byte>)

  /** One direction: what it waits for, whether that operation was started on open sockets, and its
      finished transfers. */
  datatype Channel = Channel(phase: Phase, live: bool, transfers: seq<Transfer>)

  datatype State =
    | Header(data: seq<byte>)                 // the request is being read over `data`
    | Connecting(data: seq<byte>)             // the target is being resolved and connected to
    | Replying(reply: seq<byte>)
    | Accepting(greeting: seq<byte>)          // BIND waits for the target to connect
    | Relaying(greeting: seq<byte>, open: bool, up: Channel, down: Channel)
    | Stopped(greeting: seq<byte>, up: Channel, down: Channel)

  /** Completions.  A header is granted when the firewall lets the request pass. */
  datatype Event =
    | HeaderDone(chunk: seq<byte>, granted: bool)
    | Connected
    | ReplyDone(sent: nat)
    | Accepted
    | SetupFailed
    | ReadDone(dir: Direction, chunk: seq<byte>)
    | ReadFailed(dir: Direction)
    | WriteDone(dir: Direction, sent: nat)
    | WriteFailed(dir: Direction)

  function Overlay(data: seq<byte>, chunk: seq<byte>): seq<byte> {
    if |chunk| <= |data| then chunk + data[|chunk|..] else chunk
  }

  /** The CONNECT reply is written over the request, so its port and address bytes are the request's. */
  function ConnectReply(data: seq<byte>): seq<byte> {
    [0, 90] + if |data| >= 8 then data[2..8] else []
  }

  function BindReply(port: bv16): seq<byte>
  {
    [0, 90, (port >> 8) as bv8, (port % 256) as bv8, 0, 0, 0, 0]
  }

  const IDLE := Channel(Reading, true, [])
  const UNUSED := Channel(Halted([]), true, [])

  function At(s: State, dir: Direction): Channel {
    match s
    case Relaying(_, _, up, down) => if dir.Up? then up else down
    case Stopped(_, up, down) => if dir.Up? then up else down
    case _ => UNUSED
  }

  /** What was read and is not written: the chunk in the buffer, or the one a failed write lost. */
  function InFlight(c: Channel): seq<byte> {
    match c.phase
    case Reading => []
    case Writing(chunk) => chunk
    case Halted(lost) => lost
  }

  /** Relaying goes on with one channel replaced. */
  function Put(s: State, dir: Direction, open: bool, c: Channel): State {
    match s
    case Relaying(g, _, up, down) => if dir.Up? then Relaying(g, open, c, down) else Relaying(g, open, up, c)
    case _ => s
  }

  function IsOpen(s: State): bool {
    s.Relaying? && s.open
  }

  function Greeting(s: State): seq<byte> {
    match s
    case Accepting(g) => g
    case Relaying(g, _, _, _) => g
    case Stopped(g, _, _) => g
    case _ => []
  }

  predicate ChunkSize(chunk: seq<byte>) {
    0 < |chunk| <= BUFFER_SIZE
  }

  predicate Enabled(s: State, e: Event) {
    match e
    case HeaderDone(chunk, _) => s.Header? && ChunkSize(chunk)
    case Connected => s.Connecting?
    case ReplyDone(n) => s.Replying? && n <= |s.reply|
    case Accepted => s.Accepting?
    case SetupFailed => s.Header? || s.Connecting? || s.Replying? || s.Accepting?
    case ReadDone(dir, chunk) => s.Relaying? && At(s, dir).phase.Reading? && At(s, dir).live && ChunkSize(chunk)
    case ReadFailed(dir) => s.Relaying? && At(s, dir).phase.Reading?
    case WriteDone(dir, n) =>
      s.Relaying? && At(s, dir).phase.Writing? && At(s, dir).live && n <= |InFlight(At(s, dir))|
    case WriteFailed(dir) => s.Relaying? && At(s, dir).phase.Writing?
  }

  /** One finished write: the channel reads again. */
  function Wrote(c: Channel, n: nat, open: bool): Channel {
    Channel(Reading, open, c.transfers + [Transfer(InFlight(c), n)])
  }

  /** The state after an enabled completion. */
  function Step(mode: Mode, s: State, e: Event): State {
    match e
    case HeaderDone(chunk, granted) =>
      if !s.Header? then s
      else if granted then Connecting(Overlay(s.data, chunk))
      else Stopped([], UNUSED, UNUSED)
    case Connected => if s.Connecting? then Replying(ConnectReply(s.data)) else s
    case ReplyDone(n) =>
      if !s.Replying? || n > |s.reply| then s
      else if mode.Bind? then Accepting(s.reply[..n])
      else Relaying(s.reply[..n], true, IDLE, IDLE)
    case Accepted => Relaying(Greeting(s), true, IDLE, IDLE)
    case SetupFailed => Stopped(Greeting(s), UNUSED, UNUSED)
    case ReadDone(dir, chunk) =>
      Put(s, dir, IsOpen(s), Channel(Writing(chunk), IsOpen(s), At(s, dir).transfers))
    case WriteDone(dir, n) =>
      Put(s, dir, IsOpen(s), Wrote(At(s, dir), n, IsOpen(s)))
    case ReadFailed(dir) =>
      // CONNECT leaves the process; BIND closes both sockets
      if mode.Connect? then Stopped(Greeting(s), At(s, Up), At(s, Down))
      else Put(s, dir, false, At(s, dir).(phase := Halted([])))
    case WriteFailed(dir) =>
      // CONNECT only reports it, so the other direction goes on
      Put(s, dir, IsOpen(s) && mode.Connect?, At(s, dir).(phase := Halted(InFlight(At(s, dir)))))
  }

  /** A session begins with the request (CONNECT, over whatever the buffer held) or the reply (BIND). */
  function Start(mode: Mode, data: seq<byte>): State
  {
    if mode.Bind? then Replying(BindReply(mode.port)) else Header(data)
  }

  /** The state after the events, if each of them could happen when it did. */
  function Run(mode: Mode, s: State, events: seq<Event>): Option<State> {
    if events == [] then Some(s)
    else
      var before := Run(mode, s, events[..|events| - 1]);
      var e := events[|events| - 1];
      if before.Some? && Enabled(before.value, e) then Some(Step(mode, before.value, e)) else None
  }

  // ----- What the two sides see -----------------------------------------------------------------

  function Delivered(q: seq<Transfer>): seq<byte> {
    if q == [] then []
    else
      var t := q[|q| - 1];
      Delivered(q[..|q| - 1]) + t.chunk[..if t.sent <= |t.chunk| then t.sent else |t.chunk|]
  }

  /** The bytes the client has received, and those the target has. */
  function ToClient(s: State): seq<byte> {
    match s
    case Header(_) => []
    case Connecting(_) => []
    case Replying(_) => []
    case Accepting(g) => g
    case Relaying(g, _, _, down) => g + Delivered(down.transfers)
    case Stopped(g, _, down) => g + Delivered(down.transfers)
  }

  function ToTarget(s: State): seq<byte> {
    if s.Relaying? || s.Stopped? then Delivered(s.up.transfers) else []
  }
}
