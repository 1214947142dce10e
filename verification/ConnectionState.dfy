/** The states of a connection (irono/net/TcpConnection.h). */
module ConnectionStates {
  datatype State = Connecting | Connected | Disconnecting | Disconnected
}
