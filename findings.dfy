/**
 * The log lines of `join` (server.js:44) and of the leave procedure
 * (server.js:106, 118) interpolate the room key into a template literal.
 * For most keys that is harmless, but converting a decoded JSON object
 * that has its own `toString` field to a string throws a TypeError: the
 * field is not callable, so the conversion falls back to `valueOf`, which
 * returns the object itself rather than a primitive. An array converts by
 * joining its elements, so it throws when one of them does.
 *
 * The throw comes after the registry was already changed. In `join`
 * (after `room.add`, server.js:42) it only suppresses `peer-joined`. In the
 * leave procedure (after `room.delete`, server.js:104) it also skips the
 * clean-up of the emptied room, and on the `leave` path it skips
 * `currentRoom = null` (server.js:83). On the close path nothing catches
 * it (server.js:91-94), so it escapes the `close` listener.
 *
 * This module models those steps as written. The rest of the model
 * (modules Protocol and Server) follows the evidently intended behaviour,
 * in which a log line never changes what the server does.
 */
module Findings {
  import opened Messages
  import opened Registry
  import opened Protocol

  /** Whether `${v}` throws for a value decoded from JSON. */
  predicate StringConversionThrows(v: JsValue)
  {
    match v
    case Obj(fields) => "toString" in fields
    case Arr(items) => exists i :: 0 <= i < |items| && StringConversionThrows(items[i])
    case _ => false
  }

  /** A step as written: its state, its broadcast, and whether an exception
      left the step part-way through. */
  datatype Outcome = Outcome(next: Session, recipients: set<ConnId>, notice: Record, threw: bool)

  /** `join` as written: the registration happens, then the log line may
      throw before anyone is told; the message handler catches it. */
  function JoinAsWritten(s: Session, c: ConnId, key: JsValue, open: set<ConnId>): (r: Outcome)
    requires c in s.current
    ensures r.next == Join(s, c, key, open).next
    ensures r.threw <==> StringConversionThrows(key)
    ensures r.threw ==> r.recipients == {}
  {
    var j := Join(s, c, key, open);
    if StringConversionThrows(key) then Outcome(j.next, {}, map[], true)
    else Outcome(j.next, j.recipients, j.notice, false)
  }

  /** The leave procedure as written: `c` is removed, then the log line may
      throw before the broadcast and before the clean-up. */
  function HandleLeaveAsWritten(s: Session, c: ConnId, roomId: JsValue, open: set<ConnId>): (r: Outcome)
    ensures r.next.current == s.current
    ensures r.threw <==> Truthy(roomId) && roomId in s.rooms && StringConversionThrows(roomId)
    ensures r.threw ==>
      && r.recipients == {}
      && roomId in r.next.rooms && r.next.rooms[roomId] == s.rooms[roomId] - {c}
      && r.next.rooms.Keys == s.rooms.Keys
      && (forall k :: k in s.rooms && k != roomId ==> r.next.rooms[k] == s.rooms[k])
    ensures !r.threw ==> var left := HandleLeave(s, c, roomId, open);
      r.next == left.next && r.recipients == left.recipients && r.notice == left.notice
  {
    if Truthy(roomId) && roomId in s.rooms && StringConversionThrows(roomId) then
      Outcome(Session(s.rooms[roomId := s.rooms[roomId] - {c}], s.current), {}, map[], true)
    else
      var left := HandleLeave(s, c, roomId, open);
      Outcome(left.next, left.recipients, left.notice, false)
  }

  /** A `leave` message as written: when the leave procedure throws, the
      handler's `catch` swallows it and `currentRoom = null` never runs. */
  function LeaveMessageAsWritten(s: Session, c: ConnId, open: set<ConnId>): (r: Outcome)
    requires c in s.current
    ensures var left := HandleLeaveAsWritten(s, c, s.current[c], open);
      && r.threw == left.threw && r.next.rooms == left.next.rooms
      && r.recipients == left.recipients && r.notice == left.notice
    ensures r.threw ==> r.next.current == s.current
    ensures !r.threw ==> r.next.current == s.current[c := Null]
  {
    var left := HandleLeaveAsWritten(s, c, s.current[c], open);
    if left.threw then left
    else Outcome(Session(left.next.rooms, s.current[c := Null]), left.recipients, left.notice, false)
  }

  /** Connection close as written: `threw` means the exception escapes the
      `close` listener. */
  function CloseAsWritten(s: Session, c: ConnId, open: set<ConnId>): (r: Outcome)
    requires c in s.current
    ensures r.next.current == s.current - {c}
    ensures var left := HandleLeaveAsWritten(s, c, s.current[c], open);
      && r.threw == left.threw && r.next.rooms == left.next.rooms
      && r.recipients == left.recipients && r.notice == left.notice
  {
    var left := HandleLeaveAsWritten(s, c, s.current[c], open);
    Outcome(Session(left.next.rooms, s.current - {c}), left.recipients, left.notice, left.threw)
  }

  /** For every key whose string conversion does not throw, the code as
      written does exactly what the model of module Protocol does. */
  lemma AsWrittenAgreesOnPrintableKeys(s: Session, c: ConnId, key: JsValue, open: set<ConnId>)
    requires c in s.current && !StringConversionThrows(key)
    ensures var r := JoinAsWritten(s, c, key, open);
      var j := Join(s, c, key, open);
      !r.threw && r.next == j.next && r.recipients == j.recipients && r.notice == j.notice
    ensures var r := HandleLeaveAsWritten(s, c, key, open);
      var left := HandleLeave(s, c, key, open);
      !r.threw && r.next == left.next && r.recipients == left.recipients && r.notice == left.notice
  {
  }

  /** The room key `{"toString": 0}`. */
  const ThrowingKey: JsValue := Obj(map["toString" := Num(0.0)])

  /** One client connects, joins room `{"toString": 0}` and disconnects. As
      written, the close throws out of its listener and the registry keeps
      the emptied room; the intended close removes the room. */
  lemma ClosingThrowingRoomLeavesItEmpty()
    ensures var s := JoinAsWritten(Connect(Session(map[], map[]), 1), 1, ThrowingKey, {1}).next;
      var r := CloseAsWritten(s, 1, {});
      && s.Valid()
      && r.threw
      && ThrowingKey in r.next.rooms && r.next.rooms[ThrowingKey] == {}
      && !NoEmptyRooms(r.next.rooms)
      && Close(s, 1, {}).next.rooms == map[]
  {
  }

  /** The same client sends `leave` instead. As written, its `currentRoom`
      still names a room it is no longer a member of, and that room is left
      empty in the registry; the intended `leave` keeps both invariants. */
  lemma LeavingThrowingRoomBreaksBothInvariants()
    ensures var s := JoinAsWritten(Connect(Session(map[], map[]), 1), 1, ThrowingKey, {1}).next;
      var r := LeaveMessageAsWritten(s, 1, {1});
      && r.threw
      && r.next.current[1] == ThrowingKey && Truthy(ThrowingKey)
      && ThrowingKey in r.next.rooms && 1 !in r.next.rooms[ThrowingKey]
      && !r.next.Valid()
      && Session(HandleLeave(s, 1, s.current[1], {1}).next.rooms, s.current[1 := Null]).Valid()
  {
  }
}
