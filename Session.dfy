/** The session state machine of the chat hook's provider: the own code, the
    optional transport peer and the optional channel, the one-shot start-up,
    `connect`, the automatic return channel on an inbound "open" event,
    `disconnect`, `sendMessage`, and the status derived from the two optional
    fields. */
module Session {
  import opened Wrappers
  import opened Identity
  import opened Transport

  datatype Status = Disconnected | Initialized | Connected

  /** The status the provider exposes, derived from which of `peer` and
      `connection` are present. Each status names one combination: a
      connection without a peer still reads as disconnected. */
  function StatusOf(hasPeer: bool, hasConnection: bool): (status: Status)
    ensures status == Disconnected <==> !hasPeer
    ensures status == Initialized <==> hasPeer && !hasConnection
    ensures status == Connected <==> hasPeer && hasConnection
  {
    if hasPeer then (if hasConnection then Connected else Initialized) else Disconnected
  }

  const NotInitializedError: string := "The PeerJS peer is not initialized yet."
  const InvalidCodeError: string := "Invalid code."
  const ConnectionExistsError: string := "A connection already exists."
  const NoOpenConnectionError: string := "There is no open connection"

  /** How a call ends: normally, or by throwing an Error with `message`. */
  datatype Outcome = Done | Threw(message: string)

  // ---------------------------------------------------------------------
  // The auto-reciprocation guard over the transport's channel lists
  // ---------------------------------------------------------------------

  /** An inbound channel from `remote` that finishes opening is answered with
      a return channel exactly when the transport lists one channel for `remote`. */
  predicate Reciprocates(conns: map<string, seq<Conn>>, remote: string): (answers: bool)
    ensures answers ==> remote in conns && |conns[remote]| == 1
  {
    |Lookup(conns, remote)| == 1
  }

  /** What happens to the transport's channel lists: a channel is filed, by
      `connect` or by an inbound request; or an inbound channel from `remote`
      finishes opening, and `back` is the return channel the guard may open. */
  datatype Event = Register(c: Conn) | Open(remote: string, back: Conn)

  function Step(conns: map<string, seq<Conn>>, e: Event): map<string, seq<Conn>> {
    match e
    case Register(c) => Appended(conns, c.remote, c)
    case Open(r, back) => if Reciprocates(conns, r) then Appended(conns, r, back) else conns
  }

  /** Number of open events in `trace` for `remote` that open a return channel. */
  function Reciprocations(conns: map<string, seq<Conn>>, trace: seq<Event>, remote: string): nat
    decreases |trace|
  {
    if trace == [] then 0
    else
      var fires := trace[0].Open? && trace[0].remote == remote && Reciprocates(conns, remote);
      (if fires then 1 else 0) + Reciprocations(Step(conns, trace[0]), trace[1..], remote)
  }

  /** Channel lists only grow. */
  lemma StepNeverShrinks(conns: map<string, seq<Conn>>, e: Event, r: string)
    ensures |Lookup(Step(conns, e), r)| >= |Lookup(conns, r)|
  {
  }

  /** Once two channels are listed for a remote, no open event for it reciprocates again. */
  lemma {:induction false} NoReciprocationPastOne(conns: map<string, seq<Conn>>, trace: seq<Event>, r: string)
    requires |Lookup(conns, r)| >= 2
    ensures Reciprocations(conns, trace, r) == 0
    decreases |trace|
  {
    if trace != [] {
      StepNeverShrinks(conns, trace[0], r);
      NoReciprocationPastOne(Step(conns, trace[0]), trace[1..], r);
    }
  }

  /** Whatever the order of events, at most one return channel is opened per remote. */
  lemma {:induction false} AtMostOneReciprocation(conns: map<string, seq<Conn>>, trace: seq<Event>, r: string)
    ensures Reciprocations(conns, trace, r) <= 1
    decreases |trace|
  {
    if trace != [] {
      var e := trace[0];
      if e.Open? && e.remote == r && Reciprocates(conns, r) {
        assert |Lookup(Step(conns, e), r)| == 2;
        NoReciprocationPastOne(Step(conns, e), trace[1..], r);
      } else {
        AtMostOneReciprocation(Step(conns, e), trace[1..], r);
      }
    }
  }

  /** A first inbound request from a fresh remote is answered once it opens. */
  lemma FirstInboundReciprocates(conns: map<string, seq<Conn>>, inbound: Conn, back: Conn)
    requires Lookup(conns, inbound.remote) == []
    ensures Reciprocations(conns, [Register(inbound), Open(inbound.remote, back)], inbound.remote) == 1
  {
    var r := inbound.remote;
    var trace := [Register(inbound), Open(r, back)];
    var after := Step(conns, trace[0]);
    assert Reciprocates(after, r);
    assert trace[1..] == [Open(r, back)];
    assert Reciprocations(after, [Open(r, back)], r) == 1 by {
      assert [Open(r, back)][1..] == [];
    }
  }

  /** When the session has dialled a remote itself and then gets a request from
      it, the request's open event finds two channels and does not reciprocate. */
  lemma DialThenInboundNeverReciprocates(conns: map<string, seq<Conn>>, dial: Conn, inbound: Conn, rest: seq<Event>)
    requires dial.remote == inbound.remote
    requires Lookup(conns, dial.remote) == []
    ensures Reciprocations(conns, [Register(dial), Register(inbound)] + rest, dial.remote) == 0
  {
    var r := dial.remote;
    var trace := [Register(dial), Register(inbound)] + rest;
    var once := Step(conns, trace[0]);
    var twice := Step(once, trace[1..][0]);
    assert |Lookup(twice, r)| == 2;
    assert trace[1..][1..] == rest;
    NoReciprocationPastOne(twice, rest, r);
  }

  // ---------------------------------------------------------------------
  // The provider's state
  // ---------------------------------------------------------------------

  /** The identifier the provider registers under, and dials a valid code by.
      Such a code is nonzero, hence truthy, so getId never draws for it. */
  function IdOf(code: int): (id: string)
    requires 10000 <= code
    ensures forall k :: 0 <= k < DrawSpan ==> id == GetId(Some(Num(code)), k)
  {
    GetId(Some(Num(code)), 0)
  }

  class Provider {
    const code: int
    var peer: Peer?
    var connection: Option<Conn>

    function PeerSet(): set<object>
      reads this
    {
      if peer != null then {peer} else {}
    }

    /** The own code was drawn; the peer is registered under it; a present
        channel is one the peer lists, so a channel never exists without a peer. */
    ghost predicate Valid()
      reads this, PeerSet()
    {
      && 10000 <= code <= 99998
      && (peer != null ==> peer.Valid() && peer.id == IdOf(code))
      && (connection.Some? ==> peer != null && connection.value in Lookup(peer.connections, connection.value.remote))
    }

    /** The status shown to the pages: "connected" needs both fields, "initialized" only the peer. */
    function Status(): (status: Status)
      reads this
      ensures status == Disconnected <==> peer == null
      ensures status == Initialized <==> peer != null && connection.None?
      ensures status == Connected <==> peer != null && connection.Some?
    {
      StatusOf(peer != null, connection.Some?)
    }

    /** Under the invariant the provider is connected exactly when it holds a channel. */
    lemma ConnectedIffChannel()
      requires Valid()
      ensures (Status() == Connected) == connection.Some?
      ensures (Status() == Disconnected) == (peer == null)
    {
    }

    /** The provider mounts with a code drawn once (`k` stands for the random draw) and neither peer nor channel. */
    constructor (k: int)
      requires 0 <= k < DrawSpan
      ensures Valid()
      ensures code == GetCode(k) && peer == null && connection == None
      ensures Status() == Disconnected
    {
      code := GetCode(k);
      peer := null;
      connection := None;
    }

    /** The start-up effect: only when neither a peer nor a channel exists, a
        peer is created under the own identifier and stored. Running it again is a no-op. */
    method Initialize()
      requires Valid()
      modifies this
      ensures Valid()
      ensures old(peer) == null && old(connection) == None ==>
        && peer != null && fresh(peer)
        && peer.id == IdOf(code)
        && peer.connections == map[] && peer.effects == []
        && connection == None
        && Status() == Initialized
      ensures old(peer) != null || old(connection).Some? ==>
        peer == old(peer) && connection == old(connection)
    {
      if connection.Some? || peer != null {
        return;
      }
      var newPeer := new Peer(IdOf(code));
      peer := newPeer;
    }

    /** `connect(target)`: three checks in order, each throwing and changing
        nothing; then a channel to the target's identifier becomes the connection. */
    method Connect(target: int) returns (outcome: Outcome)
      requires Valid()
      modifies this`connection, PeerSet()
      ensures Valid()
      ensures peer == old(peer)
      ensures old(peer) == null ==> outcome == Threw(NotInitializedError)
      ensures old(peer) != null && !IsValidCode(Num(target)) ==> outcome == Threw(InvalidCodeError)
      ensures old(peer) != null && IsValidCode(Num(target)) && old(connection).Some? ==>
        outcome == Threw(ConnectionExistsError)
      ensures outcome.Threw? ==> connection == old(connection) && unchanged(PeerSet())
      ensures old(peer) != null && IsValidCode(Num(target)) && old(connection).None? ==>
        && outcome == Done
        && connection.Some? && connection.value.remote == IdOf(target)
        && connection.value.serial == old(peer.issued)
        && peer.connections == Appended(old(peer.connections), IdOf(target), connection.value)
        && peer.connections == Step(old(peer.connections), Register(connection.value))
        && peer.effects == old(peer.effects)
        && Status() == Connected
    {
      if peer == null {
        return Threw(NotInitializedError);
      }
      if !IsValidCode(Num(target)) {
        return Threw(InvalidCodeError);
      }
      if connection.Some? {
        return Threw(ConnectionExistsError);
      }
      var c := peer.Register(IdOf(target));
      connection := Some(c);
      return Done;
    }

    /** The transport delivers an inbound request from `remote`: its channel is
        filed under `remote`. The handlers registered for it change no state here. */
    method OnInboundConnection(remote: string) returns (inbound: Conn)
      requires Valid() && peer != null
      modifies PeerSet()
      ensures Valid()
      ensures peer == old(peer) && connection == old(connection)
      ensures inbound.remote == remote && inbound.serial == old(peer.issued)
      ensures peer.connections == Appended(old(peer.connections), remote, inbound)
      ensures peer.connections == Step(old(peer.connections), Register(inbound))
      ensures peer.effects == old(peer.effects)
    {
      inbound := peer.Register(remote);
    }

    /** The inbound channel `inbound` finishes opening. When the peer lists
        exactly one channel for its remote, a return channel is opened and
        replaces whatever connection there was; otherwise nothing changes. */
    method OnInboundOpen(inbound: Conn)
      requires Valid() && peer != null
      requires inbound in Lookup(peer.connections, inbound.remote)
      modifies this`connection, PeerSet()
      ensures Valid()
      ensures peer == old(peer)
      ensures Reciprocates(old(peer.connections), inbound.remote) ==>
        && connection.Some? && connection.value.remote == inbound.remote
        && connection.value.serial == old(peer.issued)
        && peer.connections == Appended(old(peer.connections), inbound.remote, connection.value)
        && peer.connections == Step(old(peer.connections), Open(inbound.remote, connection.value))
        && peer.effects == old(peer.effects)
        && Status() == Connected
      ensures !Reciprocates(old(peer.connections), inbound.remote) ==>
        connection == old(connection) && unchanged(PeerSet())
    {
      if Reciprocates(peer.connections, inbound.remote) {
        var back := peer.Register(inbound.remote);
        connection := Some(back);
      }
    }

    /** `disconnect()`: closes the channel if there is one, then disconnects the
        peer if there is one. It never throws and clears neither field, so the
        status stays what it was. */
    method Disconnect()
      requires Valid()
      modifies PeerSet()
      ensures Valid()
      ensures peer == old(peer) && connection == old(connection)
      ensures Status() == old(Status())
      ensures peer != null ==>
        && peer.connections == old(peer.connections)
        && peer.effects == old(peer.effects)
             + (if connection.Some? then [Closed(connection.value)] else [])
             + [PeerDisconnected]
    {
      if connection.Some? {
        peer.Close(connection.value);
      }
      if peer != null {
        peer.Disconnect();
      }
    }

    /** `sendMessage(message)`: throws when there is no channel; otherwise sends
        exactly `message`, once, on it. */
    method SendMessage(message: string) returns (outcome: Outcome)
      requires Valid()
      modifies PeerSet()
      ensures Valid()
      ensures peer == old(peer) && connection == old(connection)
      ensures connection.None? ==> outcome == Threw(NoOpenConnectionError) && unchanged(PeerSet())
      ensures connection.Some? ==>
        && outcome == Done
        && peer.connections == old(peer.connections)
        && peer.effects == old(peer.effects) + [Sent(connection.value, message)]
    {
      if connection.None? {
        return Threw(NoOpenConnectionError);
      }
      peer.Send(connection.value, message);
      return Done;
    }
  }

  /** Two providers mount with codes drawn by `ka` and `kb` and run their start-up effects. */
  method StartPair(ka: int, kb: int) returns (a: Provider, b: Provider)
    requires 0 <= ka < DrawSpan && 0 <= kb < DrawSpan
    requires ka != kb
    ensures fresh(a) && fresh(b) && a != b
    ensures a.Valid() && b.Valid() && a.peer != null && b.peer != null
    ensures fresh(a.peer) && fresh(b.peer) && a.peer != b.peer
    ensures a.code == GetCode(ka) && b.code == GetCode(kb) && a.code != b.code
    ensures a.connection == None && b.connection == None
    ensures a.peer.connections == map[] && b.peer.connections == map[]
  {
    a := new Provider(ka);
    b := new Provider(kb);
    a.Initialize();
    b.Initialize();
  }

  /** An inbound request from a remote `a` has not seen before reaches `a`
      and opens: `a` answers it with a return channel, which becomes its connection. */
  method Answer(a: Provider, remote: string)
    requires a.Valid() && a.peer != null
    requires Lookup(a.peer.connections, remote) == []
    modifies a`connection, a.peer
    ensures a.Valid() && a.peer == old(a.peer)
    ensures a.Status() == Connected && a.connection.value.remote == remote
  {
    var fromRemote := a.OnInboundConnection(remote);
    assert Reciprocates(a.peer.connections, remote);
    a.OnInboundOpen(fromRemote);
  }

  /** `b` connects to `a`, and `a` answers the inbound request with a return
      channel: both end connected, each over a channel to the other, and `b`
      lists its one dial to `a`. */
  method DialAndAnswer(a: Provider, b: Provider)
    requires a != b && a.Valid() && b.Valid() && a.peer != null && b.peer != null
    requires a.peer != b.peer && a.code != b.code
    requires b.connection == None
    requires Lookup(a.peer.connections, b.peer.id) == []
    requires Lookup(b.peer.connections, a.peer.id) == []
    modifies a`connection, b`connection, a.peer, b.peer
    ensures a.Valid() && b.Valid() && a.peer == old(a.peer) && b.peer == old(b.peer)
    ensures a.Status() == Connected && b.Status() == Connected
    ensures a.connection.value.remote == IdOf(b.code)
    ensures b.connection.value.remote == IdOf(a.code)
    ensures |Lookup(b.peer.connections, a.peer.id)| == 1
  {
    var pa, pb := a.peer, b.peer;
    assert pa.id == IdOf(a.code) && pb.id == IdOf(b.code);
    var dialled := b.Connect(a.code);
    assert dialled == Done;
    assert |Lookup(pb.connections, pa.id)| == 1;
    Answer(a, pb.id);
  }

  /** The scenario of two fresh providers: the second connects to the first,
      the first answers with a return channel, and both end connected, each
      over a channel to the other. When the return request reaches the second
      provider it finds two channels listed for the first, so its "open" event
      will not be answered. */
  method TwoPeerHandshake(ka: int, kb: int) returns (a: Provider, b: Provider, fromA: Conn)
    requires 0 <= ka < DrawSpan && 0 <= kb < DrawSpan
    requires ka != kb
    ensures a.Valid() && b.Valid()
    ensures a.code == GetCode(ka) && b.code == GetCode(kb)
    ensures a.Status() == Connected && b.Status() == Connected
    ensures a.connection.value.remote == IdOf(b.code)
    ensures b.connection.value.remote == IdOf(a.code)
    ensures b.peer != null && fromA in Lookup(b.peer.connections, fromA.remote)
    ensures fromA.remote == IdOf(a.code) && !Reciprocates(b.peer.connections, fromA.remote)
  {
    a, b := StartPair(ka, kb);
    DialAndAnswer(a, b);
    var pa, pb := a.peer, b.peer;
    // a's return request reaches b, which already lists its own dial to a.
    ghost var before := pb.connections;
    fromA := b.OnInboundConnection(pa.id);
    assert Lookup(pb.connections, pa.id) == Lookup(before, pa.id) + [fromA];
  }
}
