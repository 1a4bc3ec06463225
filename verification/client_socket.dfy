/** The UDP client socket: its state, its construction (`connect`) and its
    per-poll step (`receive`). One call of `Receive` is one call of the
    source's `receive`: it takes the socket state and everything the outside
    world answers during that call, and returns the next state, the datagrams
    handed to `send_to`, the calls made on the connection manager and the
    handshake timer, and the value returned to the caller. */
module ClientSocket {
  import opened Wrappers
  import opened Transport
  import opened Framing
  import opened Liveness

  /** What `receive` returns on success. `None` means "nothing this time". */
  datatype SocketEvent = None | Packet(payload: seq<byte>) | Connection | Disconnection

  /** `GaiaClientSocketError`: a wrapped I/O error or a message. */
  datatype ClientError = Wrapped(cause: IoError) | Message(text: string)

  /** The socket configuration; durations are in nanoseconds. */
  datatype Config = Config(
    heartbeatInterval: nat,
    disconnectionTimeout: nat,
    sendHandshakeInterval: nat,
    connectionless: bool)

  /** The state `receive` reads and writes. */
  datatype Client = Client(
    address: SocketAddr,
    connected: bool,
    handshakeTimer: Option<Timer>,
    manager: ConnectionManager,
    config: Config)
  {
    /** A handshake timer and a tracking connection manager exist exactly when
        the socket is not connectionless, and a connectionless socket is
        always connected. */
    predicate Valid() {
      && (config.connectionless <==> handshakeTimer.None?)
      && (config.connectionless <==> manager.Connectionless?)
      && (config.connectionless ==> connected)
    }
  }

  /** Everything the outside world answers during one `receive` call: the
      clock's answers for the last-heard, heartbeat and handshake timers, the
      outcome of the one `send_to` the call may make, and the outcome of its
      `recv_from`. */
  datatype Observations = Observations(
    timeoutElapsed: bool,
    heartbeatElapsed: bool,
    handshakeElapsed: bool,
    send: SendOutcome,
    recv: RecvOutcome)

  /** Which of `mark_sent`, `mark_heard` and the handshake timer's `reset`
      one call made. */
  datatype Effects = Effects(markSent: bool, markHeard: bool, handshakeReset: bool)

  const NoEffects := Effects(false, false, false)

  /** The result of one `receive` call. */
  datatype Step = Step(
    next: Client,
    sent: seq<Outbound>,
    effects: Effects,
    result: Result<SocketEvent, ClientError>)

  /** What the reading half of `receive` decides: the new `connected` flag,
      whether it called `mark_heard`, and the value returned. */
  datatype Reception = Reception(connected: bool, heard: bool, result: Result<SocketEvent, ClientError>)

  /** `UdpClientSocket::connect` once the server address is parsed and the
      local socket is bound: `config` is the caller's configuration and
      `defaults` stands for `Config::default()`. */
  function Connect(serverAddress: SocketAddr, config: Option<Config>, defaults: Config): (s: Client)
    ensures s.Valid()
    ensures s.address == serverAddress
    ensures var given := if config.Some? then config.value else defaults;
      && 2 * s.config.heartbeatInterval <= given.heartbeatInterval <= 2 * s.config.heartbeatInterval + 1
      && s.config == given.(heartbeatInterval := s.config.heartbeatInterval)
      && (s.connected <==> given.connectionless)
      && (given.connectionless ==> s.handshakeTimer == Option.None && s.manager == Connectionless)
      && (!given.connectionless ==>
            && s.handshakeTimer.Some?
            && s.handshakeTimer.value.duration == given.sendHandshakeInterval
            && (forall elapsed: bool :: s.handshakeTimer.value.Ringing(elapsed))
            && s.manager == Tracking(s.config.heartbeatInterval, given.disconnectionTimeout))
  {
    var given := match config
      case Some(c) => c
      case None => defaults;
    var someConfig := given.(heartbeatInterval := given.heartbeatInterval / 2);
    var manager := if someConfig.connectionless then Connectionless
      else Tracking(someConfig.heartbeatInterval, someConfig.disconnectionTimeout);
    var handshakeTimer := if !someConfig.connectionless
      then Some(NewTimer(someConfig.sendHandshakeInterval).RingManual()) else Option.None;
    Client(serverAddress, someConfig.connectionless, handshakeTimer, manager, someConfig)
  }

  /** `server_address()`: the address fixed at construction. */
  function ServerAddress(s: Client): SocketAddr
  {
    s.address
  }

  /** The datagram `recv_from` returned came from the server. */
  predicate FromServer(s: Client, recv: RecvOutcome) {
    recv.Received? && recv.from == s.address
  }

  /** `receive` indexes the first byte of every datagram from the server
      unless the socket is connectionless, so such a datagram must not be empty.
      The restriction only matters on a poll that reaches the read: a poll that
      reports a timeout or fails to send returns before `recv_from` and ignores
      the datagram (see `ClientRuns.EarlyReturnDoesNotRead`). */
  predicate Readable(s: Client, recv: RecvOutcome) {
    FromServer(s, recv) && !s.config.connectionless ==> |recv.payload| > 0
  }

  /** The connection manager reports a timeout while connected. */
  predicate Drops(s: Client, o: Observations) {
    !s.config.connectionless && s.connected && s.manager.ShouldDrop(o.timeoutElapsed)
  }

  /** A heartbeat is due: connected, no timeout, and the heartbeat timer has elapsed. */
  predicate HeartbeatDue(s: Client, o: Observations) {
    && !s.config.connectionless && s.connected
    && !s.manager.ShouldDrop(o.timeoutElapsed)
    && s.manager.ShouldSendHeartbeat(o.heartbeatElapsed)
  }

  /** A handshake is due: not connected and the handshake timer rings. */
  predicate HandshakeDue(s: Client, o: Observations)
    requires s.Valid()
  {
    !s.config.connectionless && !s.connected && s.handshakeTimer.value.Ringing(o.handshakeElapsed)
  }

  /** The one control frame of this call could not be sent. */
  predicate SendFails(s: Client, o: Observations)
    requires s.Valid()
  {
    (HeartbeatDue(s, o) || HandshakeDue(s, o)) && o.send.SendFailed?
  }

  /** The reading half of `receive`: one `recv_from` and the event it yields. */
  function ReadDatagram(tags: Tags, s: Client, recv: RecvOutcome): (rc: Reception)
    requires Readable(s, recv)
    // the connection is established only by a server handshake, never lost here
    ensures rc.connected == (s.connected || rc.result == Ok(Connection))
    ensures rc.result == Ok(Connection) ==> !s.connected
    ensures rc.result != Ok(Disconnection)
    ensures tags.Distinct() ==>
      (rc.result == Ok(Connection) <==>
        !s.connected && !s.config.connectionless && FromServer(s, recv)
        && recv.payload[0] == Encode(tags, ServerHandshake))
    // every frame from the server is heard unless the socket is connectionless; nothing else is
    ensures rc.heard <==> FromServer(s, recv) && !s.config.connectionless
    // foreign senders are refused
    ensures recv.Received? && recv.from != s.address ==> rc.result == Err(Message("Unknown sender."))
    // read errors: only would-block is not an error
    ensures recv.RecvFailed? && recv.err.kind.WouldBlock? ==> rc.result == Ok(SocketEvent.None)
    ensures recv.RecvFailed? && !recv.err.kind.WouldBlock? ==> rc.result == Err(Wrapped(recv.err))
    // every datagram from the server is delivered whole when connectionless
    ensures FromServer(s, recv) && s.config.connectionless ==> rc.result == Ok(Packet(recv.payload))
    // otherwise frames from the server never fail, and a packet is a data frame without its tag
    ensures FromServer(s, recv) && !s.config.connectionless ==> rc.result.Ok?
    ensures FromServer(s, recv) && !s.config.connectionless && rc.result.Ok? && rc.result.value.Packet? ==>
      recv.payload == DataFrame(tags, rc.result.value.payload)
    ensures FromServer(s, recv) && !s.config.connectionless && Decode(tags, recv.payload[0]) == Data ==>
      rc.result == Ok(Packet(recv.payload[1..]))
    // heartbeats, duplicate server handshakes and every other tag yield nothing
    ensures FromServer(s, recv) && !s.config.connectionless && Decode(tags, recv.payload[0]) != Data
            && !(Decode(tags, recv.payload[0]) == ServerHandshake && !s.connected) ==>
      rc.result == Ok(SocketEvent.None)
  {
    match recv
    case Received(payload, from) =>
      if from == s.address then
        if s.config.connectionless then
          Reception(s.connected, false, Ok(Packet(payload)))
        else
          match Decode(tags, payload[0])
          case ServerHandshake =>
            if !s.connected then Reception(true, true, Ok(Connection))
            else Reception(s.connected, true, Ok(SocketEvent.None))
          case Data => Reception(s.connected, true, Ok(Packet(payload[1..])))
          case _ => Reception(s.connected, true, Ok(SocketEvent.None))
      else
        Reception(s.connected, false, Err(Message("Unknown sender.")))
    case RecvFailed(e) =>
      if e.kind.WouldBlock? then Reception(s.connected, false, Ok(SocketEvent.None))
      else Reception(s.connected, false, Err(Wrapped(e)))
  }

  /** Completes a step once the reading half has run. */
  function Deliver(s: Client, sent: seq<Outbound>, effects: Effects, rc: Reception): Step
  {
    Step(s.(connected := rc.connected), sent, effects.(markHeard := rc.heard), rc.result)
  }

  /** `UdpClientSocket::receive`: one poll of the socket. */
  function Receive(tags: Tags, s: Client, o: Observations): (r: Step)
    requires tags.Distinct()
    requires s.Valid()
    requires Readable(s, o.recv)
    // the invariant and the fixed parts of the state are kept
    ensures r.next.Valid()
    ensures r.next.address == s.address && r.next.config == s.config && r.next.manager == s.manager
    // `connected` changes exactly when the event announcing the change is returned
    ensures r.next.connected == (if s.connected then r.result != Ok(Disconnection) else r.result == Ok(Connection))
    // the drop check comes first and short-circuits the call
    ensures r.result == Ok(Disconnection) <==> Drops(s, o)
    ensures Drops(s, o) ==> r.sent == [] && r.effects == NoEffects && r.next == s.(connected := false)
    // at most one control frame, always to the server
    ensures r.sent == [Outbound(ControlFrame(tags, Heartbeat), s.address)] <==> HeartbeatDue(s, o)
    ensures r.sent == [Outbound(ControlFrame(tags, ClientHandshake), s.address)] <==> HandshakeDue(s, o)
    ensures r.sent == [] <==> !HeartbeatDue(s, o) && !HandshakeDue(s, o)
    // `mark_sent` follows a heartbeat that was sent; the handshake timer is reset after a handshake that was sent
    ensures r.effects.markSent <==> HeartbeatDue(s, o) && o.send.Sent?
    ensures r.effects.handshakeReset <==> HandshakeDue(s, o) && o.send.Sent?
    ensures r.next.handshakeTimer ==
      (if r.effects.handshakeReset then Some(s.handshakeTimer.value.Reset()) else s.handshakeTimer)
    // a failed send returns the error and changes nothing
    ensures SendFails(s, o) ==>
      r.result == Err(Wrapped(o.send.err)) && r.next == s && r.effects == NoEffects
    // otherwise the call reads one datagram and returns what the reading decides
    ensures r.effects.markHeard <==> !Drops(s, o) && !SendFails(s, o) && FromServer(s, o.recv) && !s.config.connectionless
    ensures !Drops(s, o) && !SendFails(s, o) ==> r.result == ReadDatagram(tags, s, o.recv).result
  {
    if !s.config.connectionless then
      if s.connected then
        if s.manager.ShouldDrop(o.timeoutElapsed) then
          Step(s.(connected := false), [], NoEffects, Ok(Disconnection))
        else if s.manager.ShouldSendHeartbeat(o.heartbeatElapsed) then
          var sent := [Outbound(ControlFrame(tags, Heartbeat), s.address)];
          match o.send
          case SendFailed(e) => Step(s, sent, NoEffects, Err(Wrapped(e)))
          case Sent => Deliver(s, sent, NoEffects.(markSent := true), ReadDatagram(tags, s, o.recv))
        else
          Deliver(s, [], NoEffects, ReadDatagram(tags, s, o.recv))
      else
        var timer := s.handshakeTimer.value;
        if timer.Ringing(o.handshakeElapsed) then
          var sent := [Outbound(ControlFrame(tags, ClientHandshake), s.address)];
          match o.send
          case SendFailed(e) => Step(s, sent, NoEffects, Err(Wrapped(e)))
          case Sent =>
            Deliver(s.(handshakeTimer := Some(timer.Reset())), sent,
                    NoEffects.(handshakeReset := true), ReadDatagram(tags, s, o.recv))
        else
          Deliver(s, [], NoEffects, ReadDatagram(tags, s, o.recv))
    else
      Deliver(s, [], NoEffects, ReadDatagram(tags, s, o.recv))
  }
}
