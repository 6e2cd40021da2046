/** The part of the PeerJS transport that the session relies on: a peer
    registered under an identifier, the list of channels it keeps per remote
    identifier, and the channel operations `send` and `close` together with
    the peer's own `disconnect`. Broker registration, NAT traversal and byte
    delivery are not part of this model. */
module Transport {

  /** A channel handle. `serial` tells handles apart; `remote` is the identifier of the other end. */
  datatype Conn = Conn(serial: nat, remote: string)

  /** An operation the transport carries out on behalf of the session, in order. */
  datatype Effect = Sent(conn: Conn, message: string) | Closed(conn: Conn) | PeerDisconnected

  /** The channels listed for `remote`; none when the remote is unknown. */
  function Lookup(conns: map<string, seq<Conn>>, remote: string): seq<Conn> {
    if remote in conns then conns[remote] else []
  }

  /** The channel lists after `c` has been filed under `remote`. */
  function Appended(conns: map<string, seq<Conn>>, remote: string, c: Conn): (r: map<string, seq<Conn>>)
    ensures Lookup(r, remote) == Lookup(conns, remote) + [c]
    ensures forall other :: other != remote ==> Lookup(r, other) == Lookup(conns, other)
  {
    conns[remote := Lookup(conns, remote) + [c]]
  }

  /** A PeerJS peer: `connections` maps each remote identifier to the channels
      opened to or from it, in the order they were created. */
  class Peer {
    const id: string
    var connections: map<string, seq<Conn>>
    var issued: nat
    var effects: seq<Effect>

    /** Every listed channel is filed under its own remote and was issued by this peer. */
    ghost predicate Valid()
      reads this
    {
      forall r | r in connections :: forall c | c in connections[r] :: c.remote == r && c.serial < issued
    }

    constructor (id: string)
      ensures Valid()
      ensures this.id == id && connections == map[] && effects == []
    {
      this.id := id;
      connections := map[];
      issued := 0;
      effects := [];
    }

    /** A new channel to or from `remote`, filed at the end of its list. Both
        `peer.connect(remote)` and an inbound request from `remote` create one. */
    method Register(remote: string) returns (c: Conn)
      requires Valid()
      modifies this
      ensures Valid()
      ensures c.remote == remote && c.serial == old(issued)
      ensures connections == Appended(old(connections), remote, c)
      ensures effects == old(effects)
    {
      c := Conn(issued, remote);
      connections := Appended(connections, remote, c);
      issued := issued + 1;
    }

    /** `conn.send(message)`. */
    method Send(conn: Conn, message: string)
      modifies this
      ensures effects == old(effects) + [Sent(conn, message)]
      ensures connections == old(connections) && issued == old(issued)
    {
      effects := effects + [Sent(conn, message)];
    }

    /** `conn.close()`. */
    method Close(conn: Conn)
      modifies this
      ensures effects == old(effects) + [Closed(conn)]
      ensures connections == old(connections) && issued == old(issued)
    {
      effects := effects + [Closed(conn)];
    }

    /** `peer.disconnect()`: leaves the broker; the channel lists stay as they are. */
    method Disconnect()
      modifies this
      ensures effects == old(effects) + [PeerDisconnected]
      ensures connections == old(connections) && issued == old(issued)
    {
      effects := effects + [PeerDisconnected];
    }
  }
}
