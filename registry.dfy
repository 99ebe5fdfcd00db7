/**
 * The room registry: the server's global `rooms` map from room key to the
 * set of connections in that room. A room key is whatever value the
 * joining client sent as `room`; keys are compared as values.
 */
module Registry {
  import opened Messages

  type Rooms = map<JsValue, set<ConnId>>

  /** Eager clean-up: no room is kept once it has no member. */
  ghost predicate NoEmptyRooms(rooms: Rooms)
  {
    forall key :: key in rooms ==> rooms[key] != {}
  }

  /** Registration on `join`: the room is created empty if absent, then
      `c` is added to it. */
  function AddMember(rooms: Rooms, key: JsValue, c: ConnId): (r: Rooms)
    ensures r.Keys == rooms.Keys + {key}
    ensures forall x :: x in r[key] <==> x == c || (key in rooms && x in rooms[key])
    ensures forall k :: k in rooms && k != key ==> k in r && r[k] == rooms[k]
  {
    var room := if key in rooms then rooms[key] else {};
    rooms[key := room + {c}]
  }

  /** Deregistration by the leave procedure: `c` is taken out of the room,
      and the room is deleted when nobody is left in it. */
  function RemoveMember(rooms: Rooms, key: JsValue, c: ConnId): (r: Rooms)
    requires key in rooms
    ensures key in r <==> exists x :: x in rooms[key] && x != c
    ensures key in r ==> forall x :: x in r[key] <==> x in rooms[key] && x != c
    ensures r.Keys - {key} == rooms.Keys - {key}
    ensures forall k :: k in rooms && k != key ==> k in r && r[k] == rooms[k]
  {
    var room := rooms[key] - {c};
    if room == {} then
      assert forall x :: x in rooms[key] ==> x == c by {
        forall x | x in rooms[key] ensures x == c {
          assert x !in room;
        }
      }
      rooms - {key}
    else
      assert exists y :: y in room;
      rooms[key := room]
  }

  /** Adding a member keeps every room non-empty. */
  lemma AddMemberKeepsRoomsNonEmpty(rooms: Rooms, key: JsValue, c: ConnId)
    requires NoEmptyRooms(rooms)
    ensures NoEmptyRooms(AddMember(rooms, key, c))
  {
    var r := AddMember(rooms, key, c);
    assert c in r[key];
  }

  /** Removing a member keeps every room non-empty, because an emptied room
      is deleted. */
  lemma RemoveMemberKeepsRoomsNonEmpty(rooms: Rooms, key: JsValue, c: ConnId)
    requires NoEmptyRooms(rooms) && key in rooms
    ensures NoEmptyRooms(RemoveMember(rooms, key, c))
  {
    var r := RemoveMember(rooms, key, c);
    if key in r {
      var y :| y in rooms[key] && y != c;
      assert y in r[key];
    }
  }
}
