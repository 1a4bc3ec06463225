/** Runs of the client socket: a sequence of polls, each fed with what the
    outside world answered during that poll, and the properties that hold
    over every such run. */
module ClientRuns {
  import opened Wrappers
  import opened Transport
  import opened Framing
  import opened Liveness
  import opened ClientSocket

  /** Every datagram the server sends during the run can be read. */
  predicate AllReadable(s: Client, obs: seq<Observations>) {
    forall i | 0 <= i < |obs| :: Readable(s, obs[i].recv)
  }

  /** `t` is a state of the socket `s`: same server, configuration and
      connection manager, and the invariant holds. */
  predicate SameSocket(s: Client, t: Client) {
    t.Valid() && t.address == s.address && t.config == s.config && t.manager == s.manager
  }

  /** The steps of polling `s` once per element of `obs`. */
  function Run(tags: Tags, s: Client, obs: seq<Observations>): (steps: seq<Step>)
    requires tags.Distinct() && s.Valid() && AllReadable(s, obs)
    ensures |steps| == |obs|
    ensures forall i | 0 <= i < |steps| :: SameSocket(s, steps[i].next)
    decreases |obs|
  {
    if obs == [] then []
    else
      var first := Receive(tags, s, obs[0]);
      [first] + Run(tags, first.next, obs[1..])
  }

  /** The state the `i`-th poll starts from. */
  function Before(s: Client, steps: seq<Step>, i: nat): Client
    requires i <= |steps|
  {
    if i == 0 then s else steps[i - 1].next
  }

  /** Each step of a run is one `Receive` from the state the previous step left. */
  lemma {:induction false} RunIsChain(tags: Tags, s: Client, obs: seq<Observations>, i: nat)
    requires tags.Distinct() && s.Valid() && AllReadable(s, obs)
    requires i < |obs|
    ensures var steps := Run(tags, s, obs);
      && SameSocket(s, Before(s, steps, i))
      && steps[i] == Receive(tags, Before(s, steps, i), obs[i])
    decreases i
  {
    var steps := Run(tags, s, obs);
    if i > 0 {
      var first := Receive(tags, s, obs[0]);
      var rest := Run(tags, first.next, obs[1..]);
      assert steps == [first] + rest;
      RunIsChain(tags, first.next, obs[1..], i - 1);
      assert Before(first.next, rest, i - 1) == Before(s, steps, i);
    }
  }

  /** Between a step that leaves `connected == c` and a later one that leaves
      it `!c`, some step returned the event announcing the change. */
  lemma {:induction false} ChangeNeedsEvent(tags: Tags, s: Client, obs: seq<Observations>, i: nat, m: nat)
    requires tags.Distinct() && s.Valid() && AllReadable(s, obs)
    requires i < m < |obs|
    requires Run(tags, s, obs)[i].next.connected != Run(tags, s, obs)[m].next.connected
    ensures var steps := Run(tags, s, obs);
      exists k :: i < k <= m &&
        steps[k].result == Ok(if steps[i].next.connected then Disconnection else Connection)
    decreases m - i
  {
    var steps := Run(tags, s, obs);
    RunIsChain(tags, s, obs, i + 1);
    var event := if steps[i].next.connected then Disconnection else Connection;
    if steps[i + 1].result != Ok(event) {
      assert steps[i + 1].next.connected == steps[i].next.connected;
      ChangeNeedsEvent(tags, s, obs, i + 1, m);
    }
  }

  /** Two `Disconnection` events of a run are always separated by a `Connection`. */
  lemma {:induction false} DisconnectionsSeparated(tags: Tags, s: Client, obs: seq<Observations>, i: nat, j: nat)
    requires tags.Distinct() && s.Valid() && AllReadable(s, obs)
    requires i < j < |obs|
    requires Run(tags, s, obs)[i].result == Ok(Disconnection)
    requires Run(tags, s, obs)[j].result == Ok(Disconnection)
    ensures exists k :: i < k < j && Run(tags, s, obs)[k].result == Ok(Connection)
  {
    var steps := Run(tags, s, obs);
    RunIsChain(tags, s, obs, i);
    RunIsChain(tags, s, obs, j);
    assert !steps[i].next.connected;
    assert steps[j - 1].next.connected;
    ChangeNeedsEvent(tags, s, obs, i, j - 1);
  }

  /** Two `Connection` events of a run are always separated by a `Disconnection`. */
  lemma {:induction false} ConnectionsSeparated(tags: Tags, s: Client, obs: seq<Observations>, i: nat, j: nat)
    requires tags.Distinct() && s.Valid() && AllReadable(s, obs)
    requires i < j < |obs|
    requires Run(tags, s, obs)[i].result == Ok(Connection)
    requires Run(tags, s, obs)[j].result == Ok(Connection)
    ensures exists k :: i < k < j && Run(tags, s, obs)[k].result == Ok(Disconnection)
  {
    var steps := Run(tags, s, obs);
    RunIsChain(tags, s, obs, i);
    RunIsChain(tags, s, obs, j);
    assert steps[i].next.connected;
    assert !steps[j - 1].next.connected;
    ChangeNeedsEvent(tags, s, obs, i, j - 1);
  }

  /** The handshake timer has not been rung manually (or does not exist). */
  predicate NotRungManually(c: Client) {
    c.handshakeTimer.Some? ==> !c.handshakeTimer.value.rungManually
  }

  /** No poll rings the handshake timer manually. */
  lemma {:induction false} StaysNotRung(tags: Tags, s: Client, obs: seq<Observations>, i: nat, m: nat)
    requires tags.Distinct() && s.Valid() && AllReadable(s, obs)
    requires i <= m < |obs|
    requires NotRungManually(Run(tags, s, obs)[i].next)
    ensures NotRungManually(Run(tags, s, obs)[m].next)
    decreases m - i
  {
    if i < m {
      RunIsChain(tags, s, obs, i + 1);
      StaysNotRung(tags, s, obs, i + 1, m);
    }
  }

  /** Once a handshake has been sent and the timer reset, every later
      handshake of the run waits for the handshake interval to elapse. */
  lemma {:induction false} HandshakeRetryWaits(tags: Tags, s: Client, obs: seq<Observations>, i: nat, j: nat)
    requires tags.Distinct() && s.Valid() && AllReadable(s, obs)
    requires i < j < |obs|
    requires Run(tags, s, obs)[i].effects.handshakeReset
    requires Run(tags, s, obs)[j].sent == [Outbound(ControlFrame(tags, ClientHandshake), s.address)]
    ensures obs[j].handshakeElapsed
  {
    RunIsChain(tags, s, obs, i);
    StaysNotRung(tags, s, obs, i, j - 1);
    RunIsChain(tags, s, obs, j);
  }

  /** A connectionless socket never sends, never touches the connection
      manager, always stays connected, never reports a connection change,
      and delivers every datagram from the server whole. */
  lemma {:induction false} ConnectionlessRun(tags: Tags, s: Client, obs: seq<Observations>, i: nat)
    requires tags.Distinct() && s.Valid() && AllReadable(s, obs)
    requires s.config.connectionless
    requires i < |obs|
    ensures var step := Run(tags, s, obs)[i];
      && step.sent == []
      && step.effects == NoEffects
      && step.next.connected
      && step.result != Ok(Connection) && step.result != Ok(Disconnection)
      && (FromServer(s, obs[i].recv) ==> step.result == Ok(Packet(obs[i].recv.payload)))
  {
    RunIsChain(tags, s, obs, i);
  }

  /** A freshly connected socket that is not connectionless sends a handshake
      on its first poll, whatever the clocks say. */
  lemma {:induction false} FirstPollSendsHandshake(tags: Tags, address: SocketAddr, config: Option<Config>, defaults: Config, o: Observations)
    requires tags.Distinct()
    requires !(if config.Some? then config.value else defaults).connectionless
    requires Readable(Connect(address, config, defaults), o.recv)
    ensures Receive(tags, Connect(address, config, defaults), o).sent == [Outbound(ControlFrame(tags, ClientHandshake), address)]
  {
  }

  /** `server_address()` is the address given to `connect`, at every point of every run. */
  lemma {:induction false} ServerAddressFixed(tags: Tags, address: SocketAddr, config: Option<Config>, defaults: Config,
                           obs: seq<Observations>, i: nat)
    requires tags.Distinct()
    requires AllReadable(Connect(address, config, defaults), obs)
    requires i < |obs|
    ensures ServerAddress(Run(tags, Connect(address, config, defaults), obs)[i].next) == address
  {
  }

  /** A server handshake connects a disconnected socket once; the same
      handshake on the next poll is a duplicate and changes nothing. */
  lemma {:induction false} ServerHandshakeOnce(tags: Tags, s: Client, o1: Observations, o2: Observations)
    requires tags.Distinct() && s.Valid()
    requires !s.config.connectionless && !s.connected
    requires o1.recv == Received(ControlFrame(tags, ServerHandshake), s.address) && o2.recv == o1.recv
    requires !SendFails(s, o1)
    requires !o2.timeoutElapsed && o2.send.Sent?
    ensures var r1 := Receive(tags, s, o1);
      && r1.result == Ok(Connection) && r1.next.connected
      && var r2 := Receive(tags, r1.next, o2);
         r2.result == Ok(SocketEvent.None) && r2.next.connected && r2.effects.markHeard
  {
  }

  /** A data frame from the server is delivered with its tag stripped,
      whether or not the socket is connected, and counts as hearing from the server. */
  lemma {:induction false} DataFrameDelivered(tags: Tags, s: Client, o: Observations, payload: seq<byte>)
    requires tags.Distinct() && s.Valid() && !s.config.connectionless
    requires o.recv == Received(DataFrame(tags, payload), s.address)
    requires !Drops(s, o) && !SendFails(s, o)
    ensures var r := Receive(tags, s, o);
      r.result == Ok(Packet(payload)) && r.effects.markHeard && r.next.connected == s.connected
  {
    DataFrameParts(tags, payload);
  }

  /** A datagram from any other address is refused, is not counted as
      hearing from the server, and leaves the connection as it was. */
  lemma {:induction false} ForeignSenderRefused(tags: Tags, s: Client, o: Observations)
    requires tags.Distinct() && s.Valid()
    requires o.recv.Received? && o.recv.from != s.address
    requires !Drops(s, o) && !SendFails(s, o)
    ensures var r := Receive(tags, s, o);
      r.result == Err(Message("Unknown sender.")) && !r.effects.markHeard && r.next.connected == s.connected
  {
  }

  /** A poll that reports a timeout, or whose control frame cannot be sent,
      returns before `recv_from`: the datagram waiting on the socket plays no part. */
  lemma {:induction false} EarlyReturnDoesNotRead(tags: Tags, s: Client, o: Observations, recv: RecvOutcome)
    requires tags.Distinct() && s.Valid() && Readable(s, o.recv) && Readable(s, recv)
    requires Drops(s, o) || SendFails(s, o)
    ensures Receive(tags, s, o) == Receive(tags, s, o.(recv := recv))
  {
  }

  /** A connectionless socket consults no clock and makes no send: only the
      datagram it reads decides the poll. */
  lemma {:induction false} ConnectionlessIgnoresClocks(tags: Tags, s: Client, o: Observations, o': Observations)
    requires tags.Distinct() && s.Valid() && s.config.connectionless
    requires o.recv == o'.recv && Readable(s, o.recv)
    ensures Receive(tags, s, o) == Receive(tags, s, o')
  {
  }

  /** On a freshly connected tracked socket, a `Disconnection` can only
      follow a `Connection` earlier in the same run. */
  lemma {:induction false} FirstDisconnectionFollowsConnection(tags: Tags, address: SocketAddr, config: Option<Config>,
                                                               defaults: Config, obs: seq<Observations>, j: nat)
    requires tags.Distinct()
    requires !(if config.Some? then config.value else defaults).connectionless
    requires AllReadable(Connect(address, config, defaults), obs)
    requires j < |obs|
    requires Run(tags, Connect(address, config, defaults), obs)[j].result == Ok(Disconnection)
    ensures exists k :: 0 <= k < j && Run(tags, Connect(address, config, defaults), obs)[k].result == Ok(Connection)
  {
    var s := Connect(address, config, defaults);
    var steps := Run(tags, s, obs);
    RunIsChain(tags, s, obs, 0);
    RunIsChain(tags, s, obs, j);
    assert j > 0 && steps[j - 1].next.connected;
    if steps[0].result != Ok(Connection) {
      assert !steps[0].next.connected;
      ChangeNeedsEvent(tags, s, obs, 0, j - 1);
    }
  }
}
