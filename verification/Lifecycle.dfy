/** The life of a connection: NetStatus of src/net/TcpConnection.h. */
module Lifecycle {

  datatype Status = Connecting | Connected | Disconnecting | Disconnected

  /** How far along its life a connection is. */
  function Stage(s: Status): nat {
    match s case Connecting => 0 case Connected => 1 case Disconnecting => 2 case Disconnected => 3
  }
}
