/** The raw datagram transport as the client socket sees it: addresses, the
    I/O error kinds it distinguishes, and the outcome of one `send_to` or one
    non-blocking `recv_from`. The transport itself is not modelled; each
    outcome is an input to the step function. */
module Transport {

  newtype byte = x: int | 0 <= x < 256

  newtype Port = x: int | 0 <= x < 0x1_0000

  /** An IP address and a port; the model only compares addresses for equality. */
  datatype SocketAddr = SocketAddr(ip: seq<byte>, port: Port)

  /** The only error kind the client socket tells apart is `WouldBlock`. */
  datatype ErrorKind = WouldBlock | OtherKind(code: nat)

  datatype IoError = IoError(kind: ErrorKind)

  /** What one `send_to` call reported. */
  datatype SendOutcome = Sent | SendFailed(err: IoError)

  /** What one `recv_from` call reported: the bytes of one datagram and the
      address it came from, or an error. */
  datatype RecvOutcome =
    | Received(payload: seq<byte>, from: SocketAddr)
    | RecvFailed(err: IoError)

  /** One call of `send_to`: the bytes handed to the transport and their destination. */
  datatype Outbound = Outbound(bytes: seq<byte>, to: SocketAddr)
}
