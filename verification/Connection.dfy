/** The connection state behind its lock (src/dtls/connector.rs, src/client/clients.rs:25-47). */
module Connection {
  datatype Status = New | Connected | Shutdown

  /** `locked` while some connect call holds the state across its handshake; `successes` counts
      the connect calls that returned a transport. */
  datatype Conn = Conn(status: Status, locked: bool, srtp: bool, successes: nat)

  const NEW_CONN := Conn(New, false, false, 0)

  /** connect up to its first await: with the lock, replace the state by Shutdown. A state other
      than New makes it fail at once, and the Shutdown stays. */
  function Enter(c: Conn, sslOk: bool): Conn {
    if !sslOk then c
    else if c.status == New then c.(status := Shutdown, locked := true)
    else c.(status := Shutdown)
  }

  /** connect after its handshake: Connected on success, and the lock is released. */
  function Leave(c: Conn, handshakeOk: bool): Conn {
    if handshakeOk then Conn(Connected, false, c.srtp, c.successes + 1) else c.(locked := false)
  }

  function Rank(s: Status): nat {
    match s case New => 0 case Connected => 1 case Shutdown => 2
  }

  /** What anyone who gets the lock sees; while connect holds it, the last such value is New. */
  function Visible(c: Conn): Status {
    if c.locked then New else c.status
  }

  datatype ConnectResult = Transport | AlreadyConnected | WouldBlock | SslError | HandshakeError

  /** The client state as the source keeps it. */
  class ClientState {
    var status: Status

    constructor ()
      ensures status == New
    {
      status := New;
    }

    /** The whole of connect, which holds the state lock from beginning to end. */
    method Connect(sslOk: bool, handshakeOk: bool) returns (r: ConnectResult)
      modifies this
      ensures !sslOk ==> r == SslError && status == old(status)
      ensures sslOk && old(status) == New && handshakeOk ==> r == Transport && status == Connected
      ensures sslOk && old(status) == New && !handshakeOk ==> r == HandshakeError && status == Shutdown
      ensures sslOk && old(status) == Connected ==> r == AlreadyConnected && status == Shutdown
      ensures sslOk && old(status) == Shutdown ==> r == WouldBlock && status == Shutdown
      ensures forall c: Conn | c.status == old(status) && !c.locked ::
                var entered := Enter(c, sslOk);
                status == (if entered.locked then Leave(entered, handshakeOk) else entered).status
    {
      if !sslOk {
        return SslError;
      }
      var previous := status;
      status := Shutdown;
      match previous {
        case New =>
          if !handshakeOk {
            return HandshakeError;
          }
        case Connected => return AlreadyConnected;
        case Shutdown => return WouldBlock;
      }
      status := Connected;
      return Transport;
    }
  }
}
