/**
 * The relay as the server runs it: one object holding the global `rooms`
 * map, every live connection's `currentRoom`, and the outbox that stands
 * for the `client.send` calls. Each event handler runs to completion, so
 * each method below is one atomic event. Which connections are open
 * (`readyState === OPEN`) is decided by the transport and is passed in as
 * `open`.
 *
 * Every handler is proved to leave the state its reference definition in
 * module Protocol describes and to append exactly that definition's
 * broadcast to the outbox, and to keep Protocol's invariants.
 */
module Server {
  import opened Messages
  import opened Outbox
  import opened Registry
  import Protocol
  import Properties

  class Relay {
    var rooms: Rooms
    var current: map<ConnId, JsValue>
    var outbox: seq<Delivery>

    function Snapshot(): (s: Protocol.Session)
      reads this
    {
      Protocol.Session(rooms, current)
    }

    ghost predicate Valid()
      reads this
    {
      Snapshot().Valid()
    }

    constructor ()
      ensures Valid()
      ensures rooms == map[] && current == map[] && outbox == []
    {
      rooms := map[];
      current := map[];
      outbox := [];
    }

    /** A new connection: `let currentRoom = null`. */
    method OnConnect(c: ConnId)
      requires Valid() && Protocol.IsNewConnection(Snapshot(), c)
      modifies this
      ensures Valid()
      ensures Snapshot() == Protocol.Connect(old(Snapshot()), c)
      ensures outbox == old(outbox)
    {
      Properties.ConnectKeepsValid(Snapshot(), c);
      current := current[c := Null];
    }

    /** The leave procedure (`handleLeave(ws, roomId)`). */
    method HandleLeave(c: ConnId, roomId: JsValue, open: set<ConnId>)
      modifies this
      ensures var r := Protocol.HandleLeave(old(Snapshot()), c, roomId, open);
        Snapshot() == r.next && Appends(old(outbox), outbox, r.recipients, r.notice)
    {
      if Truthy(roomId) && roomId in rooms {
        rooms := rooms[roomId := rooms[roomId] - {c}];
        var sent := Fanout(rooms[roomId], {}, open, PeerLeft);
        outbox := outbox + sent;
        if rooms[roomId] == {} {
          rooms := rooms - {roomId};
        }
      } else {
        assert outbox[|outbox|..] == [];
      }
    }

    /** The `join` case of the message handler. */
    method Join(c: ConnId, key: JsValue, open: set<ConnId>)
      requires c in current
      modifies this
      ensures var r := Protocol.Join(old(Snapshot()), c, key, open);
        Snapshot() == r.next && Appends(old(outbox), outbox, r.recipients, r.notice)
    {
      current := current[c := key];
      if !(key in rooms) {
        rooms := rooms[key := {}];
      }
      rooms := rooms[key := rooms[key] + {c}];
      var sent := Fanout(rooms[key], {c}, open, PeerJoined);
      outbox := outbox + sent;
    }

    /** Sends `notice` to the other open members of `c`'s current room, if
        that room is truthy and exists (the forwarding cases of the
        message handler). */
    method Forward(c: ConnId, notice: Record, open: set<ConnId>)
      requires c in current
      modifies this`outbox
      ensures var r := Protocol.Forward(old(Snapshot()), c, notice, open);
        Appends(old(outbox), outbox, r.recipients, r.notice)
    {
      var room := current[c];
      if Truthy(room) && room in rooms {
        var sent := Fanout(rooms[room], {c}, open, notice);
        outbox := outbox + sent;
      } else {
        assert outbox[|outbox|..] == [];
      }
    }

    /** The `leave` case of the message handler: the leave procedure for
        the current room, then `currentRoom = null`. */
    method Leave(c: ConnId, open: set<ConnId>)
      requires c in current
      modifies this
      ensures var r := Protocol.HandleLeave(old(Snapshot()), c, old(current[c]), open);
        && Snapshot() == Protocol.Session(r.next.rooms, old(current)[c := Null])
        && Appends(old(outbox), outbox, r.recipients, r.notice)
    {
      HandleLeave(c, current[c], open);
      current := current[c := Null];
    }

    /** The `'message'` handler: dispatch on `data.type`. */
    method OnMessage(c: ConnId, m: Inbound, open: set<ConnId>)
      requires Valid() && c in current
      modifies this
      ensures Valid()
      ensures var r := Protocol.Receive(old(Snapshot()), c, m, open);
        Snapshot() == r.next && Appends(old(outbox), outbox, r.recipients, r.notice)
      ensures var r := Protocol.Receive(old(Snapshot()), c, m, open);
        forall x :: Received(outbox, x) == Received(old(outbox), x) + (if x in r.recipients then [r.notice] else [])
    {
      ghost var before := Snapshot();
      ghost var sentBefore := outbox;
      Properties.ReceiveKeepsValid(before, c, m, open);
      match m {
        case Malformed =>
          assert outbox[|outbox|..] == [];
        case Parsed(data) =>
          var t := Field(data, "type");
          if t == JoinType {
            Join(c, Field(data, "room"), open);
          } else if IsNegotiation(t) {
            Forward(c, data, open);
          } else if IsStatus(t) {
            Forward(c, Bare(t), open);
          } else if t == LeaveType {
            Leave(c, open);
          } else {
            assert outbox[|outbox|..] == [];
          }
      }
      ghost var r := Protocol.Receive(before, c, m, open);
      forall x ensures Received(outbox, x) == Received(sentBefore, x) + (if x in r.recipients then [r.notice] else []) {
        AppendsReceived(sentBefore, outbox, r.recipients, r.notice, x);
      }
    }

    /** The `'close'` handler: the leave procedure for the last
        `currentRoom`, after which the connection is gone. */
    method OnClose(c: ConnId, open: set<ConnId>)
      requires Valid() && c in current
      modifies this
      ensures Valid()
      ensures var r := Protocol.Close(old(Snapshot()), c, open);
        Snapshot() == r.next && Appends(old(outbox), outbox, r.recipients, r.notice)
      ensures var r := Protocol.Close(old(Snapshot()), c, open);
        forall x :: Received(outbox, x) == Received(old(outbox), x) + (if x in r.recipients then [r.notice] else [])
    {
      ghost var before := Snapshot();
      ghost var sentBefore := outbox;
      Properties.CloseKeepsValid(before, c, open);
      HandleLeave(c, current[c], open);
      current := current - {c};
      ghost var r := Protocol.Close(before, c, open);
      forall x ensures Received(outbox, x) == Received(sentBefore, x) + (if x in r.recipients then [r.notice] else []) {
        AppendsReceived(sentBefore, outbox, r.recipients, r.notice, x);
      }
    }
  }
}

/**
 * The signaling walk-through: A joins room "x", B joins "x", A sends an
 * offer and a `talking` status, then B disconnects. Each peer's inbox is
 * exactly what the protocol promises, and "x" is left with A alone.
 */
module Scenario {
  import opened Messages
  import opened Outbox
  import opened Protocol
  import Server

  const A: ConnId := 1
  const B: ConnId := 2
  const X: JsValue := Str("x")
  const JoinX: Record := map["type" := JoinType, "room" := X]
  const Offer: Record := map["type" := OfferType, "sdp" := Str("abc")]
  const Talking: Record := map["type" := TalkingType]

  const Connected: Session := Session(map[], map[A := Null, B := Null])
  const AJoined: Session := Session(map[X := {A}], map[A := X, B := Null])
  const BothJoined: Session := Session(map[X := {A, B}], map[A := X, B := X])
  const BClosed: Session := Session(map[X := {A}], map[A := X])

  /** A, alone in the new room, is told nothing. */
  lemma FirstJoinTellsNobody()
    ensures Receive(Connected, A, Parsed(JoinX), {A, B}) == Reaction(AJoined, {}, PeerJoined)
  {
    assert Field(JoinX, "type") == JoinType && Field(JoinX, "room") == X;
    var r := Receive(Connected, A, Parsed(JoinX), {A, B});
    assert r.next.rooms[X] == {A};
    assert r.next.rooms == AJoined.rooms;
    assert r.next.current == AJoined.current;
  }

  /** B's join tells A. */
  lemma SecondJoinTellsFirst()
    ensures Receive(AJoined, B, Parsed(JoinX), {A, B}) == Reaction(BothJoined, {A}, PeerJoined)
  {
    assert Field(JoinX, "type") == JoinType && Field(JoinX, "room") == X;
    var r := Receive(AJoined, B, Parsed(JoinX), {A, B});
    assert r.next.rooms[X] == {A, B};
    assert r.next.rooms == BothJoined.rooms;
    assert r.next.current == BothJoined.current;
    assert r.recipients == {A};
  }

  /** A's offer reaches B unchanged. */
  lemma OfferReachesPeer()
    ensures Receive(BothJoined, A, Parsed(Offer), {A, B}) == Reaction(BothJoined, {B}, Offer)
  {
    assert Field(Offer, "type") == OfferType;
  }

  /** A's `talking` reaches B as a bare `{type}`. */
  lemma TalkingReachesPeer()
    ensures Receive(BothJoined, A, Parsed(Talking), {A, B}) == Reaction(BothJoined, {B}, Bare(TalkingType))
  {
    assert Field(Talking, "type") == TalkingType;
  }

  /** B's disconnect tells A, and "x" keeps A alone. */
  lemma CloseTellsRemainingPeer()
    ensures Close(BothJoined, B, {A}) == Reaction(BClosed, {A}, PeerLeft)
  {
    assert BothJoined.rooms[X] - {B} == {A};
  }

  /** Delivers one inbound message whose reaction is already known. */
  method Deliver(relay: Server.Relay, c: ConnId, m: Inbound, open: set<ConnId>, ghost r: Reaction)
    requires relay.Valid() && c in relay.current
    requires Receive(relay.Snapshot(), c, m, open) == r
    modifies relay
    ensures relay.Valid() && relay.Snapshot() == r.next
    ensures forall x :: Received(relay.outbox, x) == Received(old(relay.outbox), x) + (if x in r.recipients then [r.notice] else [])
  {
    relay.OnMessage(c, m, open);
  }

  /** A and B connect and join "x"; A is told that B joined. */
  method JoinBoth() returns (relay: Server.Relay)
    ensures fresh(relay) && relay.Valid() && relay.Snapshot() == BothJoined
    ensures Received(relay.outbox, A) == [PeerJoined] && Received(relay.outbox, B) == []
  {
    relay := new Server.Relay();
    relay.OnConnect(A);
    relay.OnConnect(B);
    assert relay.Snapshot() == Connected;
    FirstJoinTellsNobody();
    Deliver(relay, A, Parsed(JoinX), {A, B}, Reaction(AJoined, {}, PeerJoined));
    SecondJoinTellsFirst();
    Deliver(relay, B, Parsed(JoinX), {A, B}, Reaction(BothJoined, {A}, PeerJoined));
  }

  /** A sends B an offer. */
  method SendOffer(relay: Server.Relay)
    requires relay.Valid() && relay.Snapshot() == BothJoined
    requires Received(relay.outbox, A) == [PeerJoined] && Received(relay.outbox, B) == []
    modifies relay
    ensures relay.Valid() && relay.Snapshot() == BothJoined
    ensures Received(relay.outbox, A) == [PeerJoined] && Received(relay.outbox, B) == [Offer]
  {
    OfferReachesPeer();
    Deliver(relay, A, Parsed(Offer), {A, B}, Reaction(BothJoined, {B}, Offer));
  }

  /** A tells B that it is talking. */
  method SendTalking(relay: Server.Relay)
    requires relay.Valid() && relay.Snapshot() == BothJoined
    requires Received(relay.outbox, A) == [PeerJoined] && Received(relay.outbox, B) == [Offer]
    modifies relay
    ensures relay.Valid() && relay.Snapshot() == BothJoined
    ensures Received(relay.outbox, A) == [PeerJoined]
    ensures Received(relay.outbox, B) == [Offer, Bare(TalkingType)]
  {
    TalkingReachesPeer();
    Deliver(relay, A, Parsed(Talking), {A, B}, Reaction(BothJoined, {B}, Bare(TalkingType)));
  }

  /** B disconnects; A is told that B left. */
  method Hangup(relay: Server.Relay)
    requires relay.Valid() && relay.Snapshot() == BothJoined
    requires Received(relay.outbox, A) == [PeerJoined]
    requires Received(relay.outbox, B) == [Offer, Bare(TalkingType)]
    modifies relay
    ensures relay.Valid() && relay.Snapshot() == BClosed
    ensures Received(relay.outbox, A) == [PeerJoined, PeerLeft]
    ensures Received(relay.outbox, B) == [Offer, Bare(TalkingType)]
  {
    CloseTellsRemainingPeer();
    relay.OnClose(B, {A});
  }

  method WalkieTalkieSession() returns (inboxA: seq<Record>, inboxB: seq<Record>, roomX: set<ConnId>)
    ensures inboxA == [PeerJoined, PeerLeft]
    ensures inboxB == [Offer, Bare(TalkingType)]
    ensures roomX == {A}
  {
    var relay := JoinBoth();
    SendOffer(relay);
    SendTalking(relay);
    Hangup(relay);
    inboxA := Received(relay.outbox, A);
    inboxB := Received(relay.outbox, B);
    roomX := relay.rooms[X];
  }
}
