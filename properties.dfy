/**
 * What the relay promises, proved about the reference definition in
 * module Protocol: the two invariants every event keeps, who receives
 * which notice, and the corner cases of the protocol (leaving twice,
 * joining a second room, falsy room keys, ignored messages).
 */
module Properties {
  import opened Messages
  import opened Registry
  import opened Outbox
  import opened Protocol

  function TypeOf(m: Inbound): (t: JsValue)
  {
    match m
    case Malformed => Undefined
    case Parsed(data) => Field(data, "type")
  }

  // ---------------------------------------------------------------------
  // Invariants

  lemma ConnectKeepsValid(s: Session, c: ConnId)
    requires s.Valid() && IsNewConnection(s, c)
    ensures Connect(s, c).Valid()
  {
  }

  /** The leave procedure for a connection's own current room keeps both
      invariants for every other connection. */
  lemma LeaveKeepsOthersConsistent(s: Session, c: ConnId, open: set<ConnId>, d: ConnId)
    requires s.Valid() && c in s.current && d in s.current && d != c && Truthy(s.current[d])
    ensures var r := HandleLeave(s, c, s.current[c], open).next;
      s.current[d] in r.rooms && d in r.rooms[s.current[d]]
  {
    var room := s.current[c];
    if Truthy(room) && room in s.rooms && s.current[d] == room {
      assert d in s.rooms[room] && d != c;
    }
  }

  lemma HandleLeaveKeepsRoomsNonEmpty(s: Session, c: ConnId, roomId: JsValue, open: set<ConnId>)
    requires s.Valid()
    ensures NoEmptyRooms(HandleLeave(s, c, roomId, open).next.rooms)
  {
    if Truthy(roomId) && roomId in s.rooms {
      RemoveMemberKeepsRoomsNonEmpty(s.rooms, roomId, c);
    }
  }

  /** `join` keeps both invariants. */
  lemma JoinKeepsValid(s: Session, c: ConnId, key: JsValue, open: set<ConnId>)
    requires s.Valid() && c in s.current
    ensures Join(s, c, key, open).next.Valid()
  {
    var r := Join(s, c, key, open).next;
    AddMemberKeepsRoomsNonEmpty(s.rooms, key, c);
    forall d | d in r.current && Truthy(r.current[d])
      ensures r.current[d] in r.rooms && d in r.rooms[r.current[d]]
    {
      if d != c {
        assert s.current[d] in s.rooms && d in s.rooms[s.current[d]];
      }
    }
  }

  /** A `leave` message keeps both invariants. */
  lemma LeaveMessageKeepsValid(s: Session, c: ConnId, open: set<ConnId>)
    requires s.Valid() && c in s.current
    ensures Session(HandleLeave(s, c, s.current[c], open).next.rooms, s.current[c := Null]).Valid()
  {
    var r := Session(HandleLeave(s, c, s.current[c], open).next.rooms, s.current[c := Null]);
    HandleLeaveKeepsRoomsNonEmpty(s, c, s.current[c], open);
    forall d | d in r.current && Truthy(r.current[d])
      ensures r.current[d] in r.rooms && d in r.rooms[r.current[d]]
    {
      LeaveKeepsOthersConsistent(s, c, open, d);
    }
  }

  /** Every inbound message keeps the registry free of empty rooms and
      keeps each truthy `currentRoom` backed by a membership. */
  lemma ReceiveKeepsValid(s: Session, c: ConnId, m: Inbound, open: set<ConnId>)
    requires s.Valid() && c in s.current
    ensures Receive(s, c, m, open).next.Valid()
  {
    var t := TypeOf(m);
    if m.Parsed? && t == JoinType {
      JoinKeepsValid(s, c, Field(m.data, "room"), open);
    } else if m.Parsed? && t == LeaveType {
      LeaveMessageKeepsValid(s, c, open);
    }
  }

  /** Closing a connection keeps both invariants. */
  lemma CloseKeepsValid(s: Session, c: ConnId, open: set<ConnId>)
    requires s.Valid() && c in s.current
    ensures Close(s, c, open).next.Valid()
  {
    var r := Close(s, c, open).next;
    HandleLeaveKeepsRoomsNonEmpty(s, c, s.current[c], open);
    forall d | d in r.current && Truthy(r.current[d])
      ensures r.current[d] in r.rooms && d in r.rooms[r.current[d]]
    {
      LeaveKeepsOthersConsistent(s, c, open, d);
    }
  }

  // ---------------------------------------------------------------------
  // join

  /** After `join` the connection's current room is the requested key and
      it is a member there; the room holds its earlier members plus the
      joiner (it starts empty if it did not exist) and no other room
      changes. */
  lemma JoinRegisters(s: Session, c: ConnId, data: Record, open: set<ConnId>)
    requires c in s.current && Field(data, "type") == JoinType
    ensures var key := Field(data, "room");
      var r := Receive(s, c, Parsed(data), open).next;
      && r.current[c] == key
      && key in r.rooms && c in r.rooms[key]
      && (forall x :: x in r.rooms[key] <==> x == c || (key in s.rooms && x in s.rooms[key]))
      && r.rooms.Keys == s.rooms.Keys + {key}
      && (forall k :: k in s.rooms && k != key ==> r.rooms[k] == s.rooms[k])
      && (forall d :: d in s.current && d != c ==> r.current[d] == s.current[d])
  {
  }

  /** `join` puts exactly one `peer-joined` into the inbox of each open
      member that was in the room before, and nothing into any other inbox,
      the joiner's included. */
  lemma JoinNotifiesPriorMembers(s: Session, c: ConnId, data: Record, open: set<ConnId>,
                                 before: seq<Delivery>, after: seq<Delivery>)
    requires c in s.current && Field(data, "type") == JoinType
    requires var r := Receive(s, c, Parsed(data), open); Appends(before, after, r.recipients, r.notice)
    ensures var key := Field(data, "room");
      forall x :: Received(after, x) == Received(before, x) +
        (if key in s.rooms && x in s.rooms[key] && x != c && x in open then [PeerJoined] else [])
  {
    var r := Receive(s, c, Parsed(data), open);
    forall x {
      AppendsReceived(before, after, r.recipients, r.notice, x);
    }
  }

  /** Joining a second room does not take the connection out of the first. */
  lemma RejoinKeepsOldMembership(s: Session, c: ConnId, data: Record, open: set<ConnId>)
    requires s.Valid() && c in s.current && Truthy(s.current[c])
    requires Field(data, "type") == JoinType && Field(data, "room") != s.current[c]
    ensures var old_room := s.current[c];
      var r := Receive(s, c, Parsed(data), open).next;
      old_room in r.rooms && c in r.rooms[old_room] && r.current[c] != old_room
  {
  }

  // ---------------------------------------------------------------------
  // Forwarding

  /** `offer`, `answer` and `ice-candidate` go, unchanged, to every other
      open member of the sender's current room, if that room is truthy and
      exists, and to nobody otherwise; the state does not change. */
  lemma NegotiationForwardedVerbatim(s: Session, c: ConnId, data: Record, open: set<ConnId>)
    requires c in s.current && IsNegotiation(Field(data, "type"))
    ensures var room := s.current[c];
      var r := Receive(s, c, Parsed(data), open);
      && r.next == s
      && (Truthy(room) && room in s.rooms ==>
            r.notice == data
            && forall x :: x in r.recipients <==> x in s.rooms[room] && x != c && x in open)
      && (!(Truthy(room) && room in s.rooms) ==> r.recipients == {})
  {
  }

  /** `talking` and `stopped` are forwarded as `{type}` alone, whatever other
      fields the inbound message had, to every other open member of the
      current room; without a truthy, existing current room nothing is
      sent. The state does not change. */
  lemma StatusForwardedBare(s: Session, c: ConnId, data: Record, open: set<ConnId>)
    requires c in s.current && IsStatus(Field(data, "type"))
    ensures var room := s.current[c];
      var r := Receive(s, c, Parsed(data), open);
      && r.next == s
      && (Truthy(room) && room in s.rooms ==>
            r.notice.Keys == {"type"} && r.notice["type"] == data["type"]
            && forall x :: x in r.recipients <==> x in s.rooms[room] && x != c && x in open)
      && (!(Truthy(room) && room in s.rooms) ==> r.recipients == {})
  {
  }

  /** Forwards from a connection that is in no room reach nobody. */
  lemma ForwardWithoutRoomIsSilent(s: Session, c: ConnId, data: Record, open: set<ConnId>)
    requires c in s.current && !Truthy(s.current[c])
    requires IsNegotiation(Field(data, "type")) || IsStatus(Field(data, "type"))
    ensures Receive(s, c, Parsed(data), open) == Quiet(s)
  {
  }

  // ---------------------------------------------------------------------
  // Leaving

  /** A `leave` message runs the leave procedure for the connection's
      current room (same registry, same broadcast) and then sets
      `currentRoom` to `null`. */
  lemma LeaveMessageRunsLeaveProcedure(s: Session, c: ConnId, data: Record, open: set<ConnId>)
    requires c in s.current && Field(data, "type") == LeaveType
    ensures var r := Receive(s, c, Parsed(data), open);
      var left := HandleLeave(s, c, s.current[c], open);
      && r.next.rooms == left.next.rooms
      && r.recipients == left.recipients
      && r.notice == left.notice
      && r.next.current == s.current[c := Null]
  {
  }

  /** Leaving a room, by a `leave` message or by closing: each remaining
      open member of the leaver's room gets exactly one more `peer-left` and
      every other inbox is unchanged; the room survives exactly when someone
      else is still in it. */
  lemma LeavingTellsRoomOnce(s: Session, c: ConnId, r: Reaction, open: set<ConnId>,
                             before: seq<Delivery>, after: seq<Delivery>)
    requires s.Valid() && c in s.current && Truthy(s.current[c])
    requires r.next.rooms == HandleLeave(s, c, s.current[c], open).next.rooms
    requires r.recipients == HandleLeave(s, c, s.current[c], open).recipients
    requires r.notice == HandleLeave(s, c, s.current[c], open).notice
    requires Appends(before, after, r.recipients, r.notice)
    ensures var room := s.current[c];
      && room in s.rooms
      && (forall x :: Received(after, x) == Received(before, x) +
            (if x in s.rooms[room] && x != c && x in open then [PeerLeft] else []))
      && (room in r.next.rooms <==> exists x :: x in s.rooms[room] && x != c)
  {
    forall x {
      AppendsReceived(before, after, r.recipients, r.notice, x);
    }
  }

  /** A `leave` message or a close from a connection with no truthy,
      existing current room sends nothing and changes no room. */
  lemma LeaveWithoutRoomIsSilent(s: Session, c: ConnId, data: Record, open: set<ConnId>)
    requires c in s.current && (!Truthy(s.current[c]) || s.current[c] !in s.rooms)
    requires Field(data, "type") == LeaveType
    ensures Receive(s, c, Parsed(data), open) == Reaction(Session(s.rooms, s.current[c := Null]), {}, map[])
    ensures Close(s, c, open) == Reaction(Session(s.rooms, s.current - {c}), {}, map[])
  {
    LeaveMessageRunsLeaveProcedure(s, c, data, open);
  }

  /** A `leave` message resets `currentRoom` to `null`; afterwards the
      connection's forwards reach nobody, a second `leave` does nothing, and
      closing the connection sends no second `peer-left` and changes no
      room. */
  lemma LeaveThenSilent(s: Session, c: ConnId, data: Record, open: set<ConnId>, m: Inbound, open': set<ConnId>)
    requires c in s.current && Field(data, "type") == LeaveType
    requires m.Parsed? && (IsNegotiation(TypeOf(m)) || IsStatus(TypeOf(m)) || TypeOf(m) == LeaveType)
    ensures var s' := Receive(s, c, Parsed(data), open).next;
      && s'.current[c] == Null
      && Receive(s', c, m, open') == Quiet(s')
      && Close(s', c, open').recipients == {}
      && Close(s', c, open').next.rooms == s'.rooms
  {
    var s' := Receive(s, c, Parsed(data), open).next;
    assert s'.current[c] == Null;
    if TypeOf(m) == LeaveType {
      LeaveWithoutRoomIsSilent(s', c, m.data, open');
    } else {
      ForwardWithoutRoomIsSilent(s', c, m.data, open');
    }
  }

  /** A room whose key is falsy is never cleaned up: its members stay in it
      after they leave or close. */
  lemma FalsyRoomKeepsClosedMember(s: Session, c: ConnId, data: Record, open: set<ConnId>, open': set<ConnId>)
    requires c in s.current && Field(data, "type") == JoinType && !Truthy(Field(data, "room"))
    ensures var key := Field(data, "room");
      var s' := Receive(s, c, Parsed(data), open).next;
      && c !in Close(s', c, open').next.current
      && key in Close(s', c, open').next.rooms
      && c in Close(s', c, open').next.rooms[key]
  {
  }

  // ---------------------------------------------------------------------
  // Ignored input

  /** A frame that does not decode, or whose `type` is none of the protocol's,
      changes nothing and sends nothing. */
  lemma IgnoredMessagesAreNoOps(s: Session, c: ConnId, m: Inbound, open: set<ConnId>)
    requires c in s.current && (m.Malformed? || IsIgnored(TypeOf(m)))
    ensures Receive(s, c, m, open) == Quiet(s)
  {
  }
}
