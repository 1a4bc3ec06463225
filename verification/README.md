# naia-socket UDP client: connection state machine

This project models the client side of the naia-socket (formerly gaia-socket)
UDP transport. `UdpClientSocket::connect` builds the socket state.
`UdpClientSocket::receive` is polled once per tick. Each poll can:

- declare the server dropped;
- send a heartbeat or a handshake;
- read one datagram and turn it into a `SocketEvent`: `None`, `Packet`,
  `Connection` or `Disconnection`.

One poll is a pure function:

    Receive(tags, state, observations) == Step(next state, frames sent, effects, result)

- `observations` collects everything the outside world answers during the
  call. It has the clock's answer for each timer, the outcome of the one
  `send_to` the call may make, and the outcome of `recv_from`.
- `effects` records which of `mark_sent`, `mark_heard` and the handshake
  timer's `reset` were called.
- `tags` gives the byte values of the `MessageHeader` enum. That enum is
  defined in a crate outside this model, so its values are a parameter, and
  Rust's rule that distinct variants have distinct values becomes the
  precondition `Tags.Distinct()`.

`Run` chains polls over a sequence of observations. The lemmas in
`ClientRuns` state what holds over every run:

- `Connection` and `Disconnection` events alternate;
- handshake retries wait for the timer;
- a connectionless socket never sends and never changes state.

Files:

- `wrappers.dfy`: `Option` and `Result`.
- `transport.dfy`: bytes, addresses, I/O errors, and send and receive outcomes.
- `framing.dfy`: the header byte and the control and data frame layouts.
- `liveness.dfy`: the handshake `Timer` and the `ConnectionManager`, with the
  wall clock as an input.
- `client_socket.dfy`: `Connect`, `Receive` and `ReadDatagram`.
- `client_runs.dfy`: runs of polls and the lemmas about them.

Behaviour of the code worth noting:

- A timeout is checked before a due heartbeat, and a timeout ends the poll
  without reading (src/udp_client_socket/mod.rs:77-81).
- The handshake timer is reset only after the handshake was sent; a failed
  send returns the error first (src/udp_client_socket/mod.rs:96-99).
- `mark_heard` is called for every frame from the server, including server
  handshakes and unknown tags (src/udp_client_socket/mod.rs:117).
- In connectionless mode the whole datagram, including its first byte, is
  delivered as the packet (src/udp_client_socket/mod.rs:114).
- On a socket that is not connectionless, the code indexes the first byte of
  every frame from the server, so an empty datagram panics
  (src/udp_client_socket/mod.rs:119). `Receive` therefore requires such a
  datagram to be non-empty (`Readable`).

## Model

| member | source | states |
|---|---|---|
| ClientSocket.Connect | src/udp_client_socket/mod.rs:41-70 | The stored heartbeat interval is half the supplied one, or half the default when no config is supplied, rounded down. The other config fields are kept. A tracked socket starts disconnected, with a tracking connection manager and a handshake timer of the handshake interval that rings at once. A connectionless socket starts connected, with no handshake timer and the connectionless manager. The socket invariant holds. |
| ClientSocket.Receive | src/udp_client_socket/mod.rs:73-155 | One poll keeps the invariant, the server address, the config and the manager. `connected` changes exactly when `Connection` or `Disconnection` is returned. `Disconnection` is returned iff the socket is connected, tracked and the manager reports a timeout; it then sends nothing and makes no call. The frame sent is exactly `[Heartbeat]` to the server iff a heartbeat is due, exactly `[ClientHandshake]` iff the socket is disconnected and the handshake timer rings, and nothing otherwise. `mark_sent` is called iff a heartbeat was sent successfully, and the timer is reset iff a handshake was sent successfully. A failed send returns the wrapped error with the state unchanged and no calls. Otherwise the result is what reading the datagram decides, and `mark_heard` is called iff a tracked socket read a datagram from the server. |
| ClientSocket.ReadDatagram | src/udp_client_socket/mod.rs:104-154 | Reading never disconnects. It connects iff a disconnected tracked socket reads a `ServerHandshake` frame from the server. `mark_heard` is called iff a tracked socket reads anything from the server. A datagram from another address gives `Err("Unknown sender.")`. `WouldBlock` gives `Ok(None)` and any other read error gives the wrapped error. A connectionless socket delivers the whole datagram. A tracked socket never fails on a frame from the server, and every packet it delivers is a data frame with its tag removed. A `Data` frame gives its payload. A heartbeat, a server handshake while connected, or any other tag gives `Ok(None)`. |
| Framing.Decode | src/udp_client_socket/mod.rs:119-120 | A byte decodes to `Other` exactly when it is none of the four tags; otherwise `Encode`, which models `MessageHeader::X as u8` (mod.rs:84, 94), gives the byte back. |
| Framing.DecodeEncode | src/udp_client_socket/mod.rs:119-120 | Decoding the byte of any known header gives that header back. |
| Framing.DataFrameParts | src/udp_client_socket/mod.rs:129-132 | A data frame is one byte longer than its payload, its first byte decodes to `Data`, and the bytes after it are the payload. |
| Liveness.Timer.RingManual | src/udp_client_socket/mod.rs:56-57 | A manually rung timer rings whatever the clock says and keeps its duration. |
| Liveness.Timer.Reset | src/udp_client_socket/mod.rs:99 | A reset timer rings exactly when the clock says its interval has passed, and keeps its duration. |
| ClientRuns.Run | src/udp_client_socket/mod.rs:73-155 | A run has one step per poll, and every state it passes through is a valid state of the same socket, with the same server, config and manager. |
| ClientRuns.ChangeNeedsEvent | src/udp_client_socket/mod.rs:76-126 | If `connected` differs between two points of a run, some step in between returned the event announcing the change. |
| ClientRuns.DisconnectionsSeparated | src/udp_client_socket/mod.rs:76-126 | Between any two `Disconnection` events of a run there is a `Connection`. |
| ClientRuns.ConnectionsSeparated | src/udp_client_socket/mod.rs:76-126 | Between any two `Connection` events of a run there is a `Disconnection`. |
| ClientRuns.HandshakeRetryWaits | src/udp_client_socket/mod.rs:90-100 | After a handshake was sent and the timer reset, every later handshake in the run is sent only once the clock says the handshake interval has elapsed. |
| ClientRuns.ConnectionlessRun | src/udp_client_socket/mod.rs:75-115 | Every poll of a connectionless socket sends nothing, calls nothing on the manager or timer, stays connected, never reports a connection change, and delivers each datagram from the server whole. |
| ClientRuns.ConnectionlessIgnoresClocks | src/udp_client_socket/mod.rs:75-115 | A connectionless poll depends only on the datagram read, not on any clock or send outcome. |
| ClientRuns.EarlyReturnDoesNotRead | src/udp_client_socket/mod.rs:76-101 | A poll that reports a timeout, or whose control frame fails to send, does not depend on the waiting datagram. |
| ClientRuns.FirstPollSendsHandshake | src/udp_client_socket/mod.rs:53-59 | The first poll of a freshly connected tracked socket sends exactly `[ClientHandshake]` to the server, whatever the clocks say. |
| ClientRuns.ServerAddressFixed | src/udp_client_socket/mod.rs:161-163 | `server_address()`, modelled by `ClientSocket.ServerAddress`, returns the address given to `connect` at every point of every run. |
| ClientRuns.ServerHandshakeOnce | src/udp_client_socket/mod.rs:121-128 | A server handshake connects a disconnected socket and returns `Connection`. The same handshake on the next poll, if that poll reports no timeout and its heartbeat, if any, is sent, returns `None`, keeps the socket connected and still counts as hearing from the server. |
| ClientRuns.DataFrameDelivered | src/udp_client_socket/mod.rs:129-133 | A data frame from the server is delivered as its payload, connected or not. It counts as hearing from the server and leaves `connected` unchanged. |
| ClientRuns.FirstDisconnectionFollowsConnection | src/udp_client_socket/mod.rs:53-59 | On a freshly connected tracked socket, every `Disconnection` in a run is preceded by a `Connection` earlier in the same run. |
| ClientRuns.ForeignSenderRefused | src/udp_client_socket/mod.rs:110-143 | A datagram from another address yields `Err("Unknown sender.")`, does not count as hearing from the server, and leaves `connected` unchanged. |

## Left out

- Socket setup is OS I/O and is not modelled: finding the local address and a free port, `bind`, `set_nonblocking`, and parsing the server address string (src/udp_client_socket/mod.rs:32-39). `Connect` takes the parsed server address.
- `Config::default()` lives in the `gaia_socket_shared` crate, which this model does not include. It is the `defaults` parameter of `Connect`.
- Shared ownership is not modelled: the `Rc<RefCell<…>>` handles, `get_sender` and the `MessageSender` clone. message_sender.rs is not part of this model. The message sender's own `mark_sent` calls reach the same manager; they appear here only through the clock answers.
- `Timer` and `ConnectionManager` read the wall clock. Each clock reading is a boolean input, and only the state the client changes is kept: the manual-ring flag and the manager variant. `mark_sent` and `mark_heard` are recorded as effects.
- `MessageHeader` and its byte values live in the `gaia_socket_shared` crate, which this model does not include. They appear as the `Tags` parameter, and `Other` stands for every unrecognised byte. `MessageHeader::from(u8)` is taken to invert `as u8` on the four tags, so `ReadDatagram`'s statement that a delivered packet is a data frame without its tag rests on that assumption.
- The `DEFAULT_MTU` receive buffer is not modelled. A longer datagram is truncated or reported as a receive error, depending on the platform; both are `RecvOutcome` values.
- ClientSocket.Receive, ClientSocket.ReadDatagram: an empty datagram from the server on a tracked socket makes the source panic by indexing `payload[0]`. The model excludes it through the precondition `Readable` and does not model the panic.
- The `info!` log line on heartbeats has no behaviour and is left out.
- The link conditioner (client/src/link_conditioner.rs) is left out. Its `process_result`, `has_result` and `get_result` are `unimplemented!()`, so any loss, latency or queueing behaviour would be invented.
- The server callback trait (src/server/mod.rs) and the module wiring (src/lib.rs) contain no logic and are left out.
