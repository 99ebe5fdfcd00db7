/**
 * What each event does, as functions of the relay's state: the reference
 * definition the imperative server in module Server is proved against.
 *
 * The state is the room registry plus, per live connection, its
 * `currentRoom` (`null` until the first `join`). A step yields the next
 * state and at most one broadcast: one notice sent once to each of a set
 * of recipients (an empty set when nothing is sent).
 */
module Protocol {
  import opened Messages
  import opened Registry

  datatype Session = Session(rooms: Rooms, current: map<ConnId, JsValue>)
  {
    /** The registry's eager clean-up, and the agreement between a
        connection's `currentRoom` and the registry: a connection whose
        current room is truthy is a member of that room. */
    ghost predicate Valid()
    {
      && NoEmptyRooms(rooms)
      && forall c :: c in current && Truthy(current[c]) ==>
           current[c] in rooms && c in rooms[current[c]]
    }
  }

  datatype Reaction = Reaction(next: Session, recipients: set<ConnId>, notice: Record)

  /** A step that changes nothing and sends nothing. */
  function Quiet(s: Session): (r: Reaction)
    ensures r.next == s && r.recipients == {}
  {
    Reaction(s, {}, map[])
  }

  /** `c` names a connection the server has never seen: it is not live and
      no room holds it (every `ws` object is new, so no earlier membership,
      even one left behind by a closed connection, can belong to it). */
  ghost predicate IsNewConnection(s: Session, c: ConnId)
  {
    c !in s.current && forall key :: key in s.rooms ==> c !in s.rooms[key]
  }

  /** A new connection starts with `currentRoom = null`, in no room. */
  function Connect(s: Session, c: ConnId): (r: Session)
    requires IsNewConnection(s, c)
    ensures forall key :: key in r.rooms ==> c !in r.rooms[key]
    ensures r.rooms == s.rooms
    ensures r.current.Keys == s.current.Keys + {c} && r.current[c] == Null
    ensures forall d :: d in s.current ==> r.current[d] == s.current[d]
  {
    Session(s.rooms, s.current[c := Null])
  }

  /** The leave procedure for connection `c` and room `roomId`. It does
      nothing unless `roomId` is truthy and names an existing room; then `c`
      leaves that room, every remaining open member is told `peer-left`,
      and the room goes away if it is now empty. It never touches
      `currentRoom`. */
  function HandleLeave(s: Session, c: ConnId, roomId: JsValue, open: set<ConnId>): (r: Reaction)
    ensures r.next.current == s.current
    ensures !(Truthy(roomId) && roomId in s.rooms) ==> r == Quiet(s)
    ensures Truthy(roomId) && roomId in s.rooms ==>
      && r.notice == PeerLeft
      && (forall x :: x in r.recipients <==> x in s.rooms[roomId] && x != c && x in open)
      && (roomId in r.next.rooms <==> exists x :: x in s.rooms[roomId] && x != c)
      && (roomId in r.next.rooms ==> forall x :: x in r.next.rooms[roomId] <==> x in s.rooms[roomId] && x != c)
      && r.next.rooms.Keys - {roomId} == s.rooms.Keys - {roomId}
      && (forall k :: k in s.rooms && k != roomId ==> k in r.next.rooms && r.next.rooms[k] == s.rooms[k])
  {
    if Truthy(roomId) && roomId in s.rooms then
      var rooms := RemoveMember(s.rooms, roomId, c);
      var remaining := s.rooms[roomId] - {c};
      Reaction(Session(rooms, s.current), remaining * open, PeerLeft)
    else
      Quiet(s)
  }

  /** `join`: `currentRoom` becomes the message's `room` field, whatever it
      is, the connection is registered in that room, and every other open
      member of the room is told `peer-joined`. */
  function Join(s: Session, c: ConnId, key: JsValue, open: set<ConnId>): (r: Reaction)
    requires c in s.current
    ensures r.next.rooms == AddMember(s.rooms, key, c)
    ensures r.next.current == s.current[c := key]
    ensures r.notice == PeerJoined
    ensures forall x :: x in r.recipients <==> key in s.rooms && x in s.rooms[key] && x != c && x in open
  {
    var rooms := AddMember(s.rooms, key, c);
    Reaction(Session(rooms, s.current[c := key]), (rooms[key] - {c}) * open, PeerJoined)
  }

  /** A forward from `c`: `notice` goes to every other open member of the
      current room, when that room is truthy and exists; the state never
      changes. */
  function Forward(s: Session, c: ConnId, notice: Record, open: set<ConnId>): (r: Reaction)
    requires c in s.current
    ensures r.next == s
    ensures r.notice == notice || r.recipients == {}
    ensures forall x :: x in r.recipients <==>
      Truthy(s.current[c]) && s.current[c] in s.rooms && x in s.rooms[s.current[c]] && x != c && x in open
  {
    var room := s.current[c];
    if Truthy(room) && room in s.rooms then
      Reaction(s, (s.rooms[room] - {c}) * open, notice)
    else
      Quiet(s)
  }

  /** The message handler: dispatch on the `type` field. */
  function Receive(s: Session, c: ConnId, m: Inbound, open: set<ConnId>): (r: Reaction)
    requires c in s.current
    ensures r.next.current.Keys == s.current.Keys
  {
    match m
    case Malformed => Quiet(s)
    case Parsed(data) =>
      var t := Field(data, "type");
      if t == JoinType then
        Join(s, c, Field(data, "room"), open)
      else if IsNegotiation(t) then
        Forward(s, c, data, open)
      else if IsStatus(t) then
        Forward(s, c, Bare(t), open)
      else if t == LeaveType then
        var left := HandleLeave(s, c, s.current[c], open);
        Reaction(Session(left.next.rooms, s.current[c := Null]), left.recipients, left.notice)
      else
        Quiet(s)
  }

  /** Connection close: the leave procedure for the last `currentRoom`;
      the connection then no longer exists. */
  function Close(s: Session, c: ConnId, open: set<ConnId>): (r: Reaction)
    requires c in s.current
    ensures r.next.current == s.current - {c}
    ensures var left := HandleLeave(s, c, s.current[c], open);
      r.next.rooms == left.next.rooms && r.recipients == left.recipients && r.notice == left.notice
  {
    var left := HandleLeave(s, c, s.current[c], open);
    Reaction(Session(left.next.rooms, s.current - {c}), left.recipients, left.notice)
  }
}
