/** Values the sender engine works on: packet bytes, sessions, queue entries,
    the answers the operating system gives to `send` and `select`, and the
    reports handed to the error callback. */
module NetTypes {

  datatype Option<+T> = None | Some(value: T)

  newtype byte = x: int | 0 <= x < 256

  /** A session is identified by its id; the socket descriptor is only read. */
  type SessionId = nat

  /** The id no live session carries; the marker starts with it. */
  const INVALID_SESSION: SessionId := 0

  datatype Session = Session(id: SessionId, socket: int)

  /** A packet is an opaque byte buffer produced upstream. */
  datatype Packet = Packet(data: seq<byte>)

  /** The length the engine reads from a packet is a 16-bit unsigned value. */
  function PacketLen(p: Packet): (n: nat)
    ensures n < 0x1_0000
    ensures |p.data| < 0x1_0000 ==> n == |p.data|
    ensures n <= |p.data|
  {
    |p.data| % 0x1_0000
  }

  /** One queue entry: a packet (a list handed to the batch store may hold
      null packets, so the packet is optional) and the session it goes to. */
  datatype SendData = SendData(packet: Option<Packet>, session: Session)

  /** The error code reported by the socket layer, by class. */
  datatype SocketError = WouldBlock | NotConnected | NotSocket | OtherError(code: int)

  /** What one non-blocking `send` returned. */
  datatype SendResult = Sent(bytes: nat) | SendFailed(err: SocketError)

  /** What the bounded writability wait returned. */
  datatype SelectResult = Writable | SelectTimedOut | SelectFailed(err: SocketError)

  datatype NetErrorKind = ErrSockSendFailed | ErrSockSelectFailed

  /** One invocation of the error callback. */
  datatype NetError = NetError(sessionId: SessionId, kind: NetErrorKind, err: SocketError)

  /** Disconnect-style errors are expected churn and are never reported. */
  predicate IsBenign(err: SocketError)
  {
    err == NotConnected || err == NotSocket
  }

  const SEND_ERROR_TIMEOUT_MSEC: int := 20000

  /** Queue capacities; the dedicated server build uses the larger pair. */
  function SendQueueSize(dedicatedServer: bool): nat
  {
    if dedicatedServer then 10000 else 1000
  }

  /** The low-priority queue is never the smaller one, and the two
      capacities together stay below 2^32, the range of the load count. */
  function SendLowPrioQueueSize(dedicatedServer: bool): (n: nat)
    ensures SendQueueSize(dedicatedServer) <= n
    ensures SendQueueSize(dedicatedServer) + n < 0x1_0000_0000
  {
    if dedicatedServer then 10000000 else 10000
  }
}
