/** The WebSocket broadcast hub: the set of connected clients, and the relay of every
    message a client sends to every other connected client whose socket is open. */
module BroadcastHub {

  /** A message payload, relayed verbatim and never inspected. */
  type Message = string

  /** The `readyState` of a WebSocket. */
  datatype ReadyState = Connecting | Open | Closing | Closed

  /** One client socket: its ready state, which the transport sets, and what it has been sent. */
  class Connection {
    var readyState: ReadyState
    var outbox: seq<Message>

    constructor (state: ReadyState)
      ensures readyState == state && outbox == []
    {
      readyState := state;
      outbox := [];
    }

    /** `client.send(message)` */
    method Send(m: Message)
      modifies this
      ensures readyState == old(readyState)
      ensures outbox == old(outbox) + [m]
    {
      outbox := outbox + [m];
    }
  }

  class Hub {
    /** The `clients` set. */
    var clients: set<Connection>

    constructor ()
      ensures clients == {}
    {
      clients := {};
    }

    /** The `connection` event: the new socket joins the set. */
    method OnConnect(ws: Connection)
      modifies this
      ensures clients == old(clients) + {ws}
    {
      clients := clients + {ws};
    }

    /** The `close` event: the socket leaves the set; a socket already absent changes nothing. */
    method OnClose(ws: Connection)
      modifies this
      ensures clients == old(clients) - {ws}
      ensures ws !in old(clients) ==> clients == old(clients)
    {
      clients := clients - {ws};
    }

    /** The `message` event of `ws`: every member other than `ws` whose socket is open is sent
        `m` once; every other member, and `ws` itself, is sent nothing. */
    method OnMessage(ws: Connection, m: Message)
      modifies clients
      ensures forall c :: c in clients ==> c.readyState == old(c.readyState)
      ensures forall c :: c in clients ==>
                c.outbox == if c != ws && old(c.readyState) == Open then old(c.outbox) + [m]
                            else old(c.outbox)
      ensures ws.outbox == old(ws.outbox)
    {
      var pending := clients;
      while pending != {}
        invariant pending <= clients
        invariant forall c :: c in clients ==> c.readyState == old(c.readyState)
        invariant forall c :: c in pending ==> c.outbox == old(c.outbox)
        invariant forall c :: c in clients && c !in pending ==>
                    c.outbox == if c != ws && old(c.readyState) == Open then old(c.outbox) + [m]
                                else old(c.outbox)
        invariant ws.outbox == old(ws.outbox)
        decreases pending
      {
        var client :| client in pending;
        if client != ws && client.readyState == Open {
          client.Send(m);
        }
        pending := pending - {client};
      }
    }
  }

  /** Three clients, the second of which has closed its socket, and one message from the first:
      only the third receives it, and the sender receives nothing. */
  method SkipClosedScenario() {
    var hub := new Hub();
    var x := new Connection(Open);
    var y := new Connection(Closed);
    var z := new Connection(Open);
    hub.OnConnect(x);
    hub.OnConnect(y);
    hub.OnConnect(z);
    hub.OnMessage(x, "hi");
    assert z.outbox == ["hi"];
    assert x.outbox == [] && y.outbox == [];
  }
}
