/** The realtime connection: one module-level slot, filled lazily by initSocket, read by
    getSocket and emptied by disconnectSocket. */
module SocketClient {

  /** A connection handle. Its creation stands for the library's connect call. */
  class Socket {
    var disconnected: bool

    constructor ()
      ensures !disconnected
    {
      disconnected := false;
    }

    method Disconnect()
      modifies this
      ensures disconnected
    {
      disconnected := true;
    }
  }

  /** The module's state: the `socket` slot, null until the first initSocket. */
  class SocketModule {
    var socket: Socket?

    constructor ()
      ensures socket == null
    {
      socket := null;
    }

    /** initSocket: the handle in the slot if there is one, otherwise a new connected
        handle, stored in the slot. */
    method InitSocket() returns (s: Socket)
      modifies this
      ensures old(socket) != null ==> s == old(socket)
      ensures old(socket) == null ==> fresh(s) && !s.disconnected
      ensures socket == s
    {
      if socket != null {
        return socket;
      }
      s := new Socket();
      socket := s;
    }

    /** getSocket: the slot as it is; nothing is created. */
    method GetSocket() returns (s: Socket?)
      ensures s == socket
    {
      s := socket;
    }

    /** disconnectSocket: a stored handle is disconnected and the slot emptied; with an
        empty slot nothing happens. */
    method DisconnectSocket()
      modifies this, socket
      ensures socket == null
      ensures old(socket) != null ==> old(socket).disconnected
    {
      if socket != null {
        socket.Disconnect();
        socket := null;
      }
    }
  }

  /** Repeated initialisation shares one handle; after a disconnect the next
      initialisation makes a new handle, distinct from the disconnected one. */
  method LifecycleScenario()
  {
    var m := new SocketModule();
    var a := m.InitSocket();
    var b := m.InitSocket();
    assert a == b;
    var g := m.GetSocket();
    assert g == a;
    m.DisconnectSocket();
    assert a.disconnected;
    g := m.GetSocket();
    assert g == null;
    m.DisconnectSocket();
    var c := m.InitSocket();
    assert c != a && !c.disconnected;
  }
}
