/**
 `create_room` as socket.js writes it. The handler validates the payload
 itself as a room name, so only a non-empty string gets through, and then
 reads the key from the payload's `name` property, which a string does not
 have. Every accepted request therefore creates (or reuses) the room filed
 under the key "undefined" and calls `joinRoom(socket, undefined)`, which
 clears `socket.roomName`. The connection is left a player of a room that
 neither the update handlers nor `disconnect` can find again. Module
 Registry models the evidently intended handler, which validates
 `roomData.name`.
 */
module AsWritten {
  import opened JsValues
  import opened RoomNames
  import opened Registry

  /** The property key `rooms[undefined]` reads and writes. */
  const UndefinedKey: string := "undefined"

  /** The entry `joinRoom(socket, undefined)` stores: `cRoom` is undefined. */
  const UnnamedSeed: JsValue := Obj(map["x" := Num(0), "y" := Num(0), "cRoom" := Undefined])

  /** `joinRoom(socket, undefined)`. A truthy `socket.roomName` always
      differs from `undefined`, so any current room is left first; then
      `socket.roomName` becomes `undefined` and the entry is written under
      the key "undefined". If the leave step deleted that very room, the
      write reads `.players` of `undefined` and the handler throws: `None`. */
  function JoinUndefined(s: State, c: ConnId): (r: Option<State>)
    requires UndefinedKey in s.rooms
    ensures r.None? <==> Occupies(s, c, UndefinedKey) && s.rooms[UndefinedKey].players.Keys == {c}
    ensures r.Some? ==>
              && r.value.current == s.current - {c}
              && UndefinedKey in r.value.rooms
              && c in r.value.rooms[UndefinedKey].players
              && r.value.rooms[UndefinedKey].players[c] == UnnamedSeed
              && r.value.rooms.Keys <= s.rooms.Keys
  {
    var left := if CurrentRoom(s, c).Some? then LeavePrevious(s, c, CurrentRoom(s, c).value) else s;
    if UndefinedKey !in left.rooms then None
    else
      var players := left.rooms[UndefinedKey].players[c := UnnamedSeed];
      var rooms := left.rooms[UndefinedKey := left.rooms[UndefinedKey].(players := players)];
      Some(State(rooms, left.current - {c},
                 left.outbox + [ Msg(Conn(c), InitialState(players)),
                                 Msg(UndefinedGroupExcept(c), NewPlayer(c, UnnamedSeed)),
                                 Msg(All, RoomsList(rooms)) ]))
  }

  /** The `create_room` handler as written: a payload that is not a valid
      room name is ignored (every `{name, type}` object among them); a valid
      one, whose `name` property is undefined (`ValidNameHasNoNameProperty`),
      creates the room "undefined" if missing and joins it with an undefined
      name. The requested name never becomes a room, and the connection is
      left without a current room. `None` is the thrown TypeError. */
  function CreateRoomAsWritten(s: State, c: ConnId, roomData: JsValue): (r: Option<State>)
    ensures !IsValidRoomName(roomData) ==> r == Some(s)
    ensures r.None? <==>
              IsValidRoomName(roomData) && Occupies(s, c, UndefinedKey) && s.rooms[UndefinedKey].players.Keys == {c}
    ensures r.Some? && IsValidRoomName(roomData) ==>
              && CurrentRoom(r.value, c).None?
              && r.value.rooms.Keys <= s.rooms.Keys + {UndefinedKey}
              && UndefinedKey in r.value.rooms
              && c in r.value.rooms[UndefinedKey].players
              && r.value.rooms[UndefinedKey].players[c] == UnnamedSeed
  {
    if !IsValidRoomName(roomData) then Some(s)
    else
      var created := if UndefinedKey in s.rooms then s
                     else s.(rooms := s.rooms[UndefinedKey := Room(map[], map[], RequestedKind(roomData))]);
      JoinUndefined(created, c)
  }

  /** The discrepancy on the first request of a fresh server: the room the
      client names is not created, the registry invariant is broken (the
      connection is a player of "undefined" without it being its current
      room), a later `disconnect` leaves that entry behind for good, and
      a `{name}` object payload is ignored outright.
      The intended handler (`Registry.CreateRoom`) creates the room, and
      keeps the invariant (`RegistryProofs.CreateRoomKeepsValid`). */
  lemma CreateRoomAsWrittenLeaks(c: ConnId, name: string)
    requires IsValidRoomName(Str(name)) && name != UndefinedKey
    ensures var r := CreateRoomAsWritten(Initial, c, Str(name));
            && r.Some?
            && name !in r.value.rooms
            && !Valid(r.value)
            && Disconnect(r.value, c).rooms == r.value.rooms
            && c in Disconnect(r.value, c).rooms[UndefinedKey].players
    ensures CreateRoomAsWritten(Initial, c, Obj(map["name" := Str(name)])) == Some(Initial)
    ensures name in CreateRoom(Initial, c, Obj(map["name" := Str(name)])).rooms
  {
    var r := CreateRoomAsWritten(Initial, c, Str(name));
    assert !Occupies(Initial, c, UndefinedKey);
    var t := r.value;
    assert !PlayersAreCurrent(t) by {
      assert UndefinedKey in t.rooms && c in t.rooms[UndefinedKey].players && c !in t.current;
    }
    assert !IsValidRoomName(Obj(map["name" := Str(name)]));
    assert RequestedName(Obj(map["name" := Str(name)])) == Str(name);
  }

  /** The thrown case is reachable: after the first request, `join_room`
      with the name "undefined" makes that room the connection's current
      room, and a second `create_room` then leaves it, deleting it, before
      writing into it. */
  lemma CreateRoomAsWrittenThrows(c: ConnId, name: string)
    requires IsValidRoomName(Str(name))
    ensures var s1 := CreateRoomAsWritten(Initial, c, Str(name));
            && s1.Some?
            && CreateRoomAsWritten(JoinExisting(s1.value, c, Str(UndefinedKey)), c, Str(name)).None?
  {
    var s1 := CreateRoomAsWritten(Initial, c, Str(name));
    assert !Occupies(Initial, c, UndefinedKey);
    assert s1.value.rooms.Keys == {UndefinedKey};
    assert s1.value.rooms[UndefinedKey].players.Keys == {c};
    var s2 := JoinExisting(s1.value, c, Str(UndefinedKey));
    assert IsValidRoomName(Str(UndefinedKey));
    assert s2.rooms[UndefinedKey].players.Keys == {c};
  }
}
