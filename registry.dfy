/**
 The room registry and relay of socket.js as a state machine. A `State` is
 the module-level `rooms` table, every connection's `socket.roomName`, and
 the sequence of messages handed to the transport so far. Each socket.io
 handler runs to completion before the next one starts, so each handler is
 one function from state to state.
 */
module Registry {
  import opened JsValues
  import opened RoomNames

  /** `socket.id`, chosen by the transport. */
  type ConnId = string

  /** One entry of `rooms`: the occupants' last-known states, the `blocks`
      sub-table (stored, never read) and the `type` tag. */
  datatype Room = Room(players: map<ConnId, JsValue>, blocks: map<string, JsValue>, kind: JsValue)

  /** Who a message is addressed to: `socket.emit` (the connection itself),
      `socket.to(room).emit` (the room's group without the sender),
      `socket.to(undefined).emit` (the transport's group filed under
      `undefined`, without the sender; only `create_room` as written
      reaches it) or `io.emit` (every connection). */
  datatype Target =
    | Conn(id: ConnId)
    | RoomExcept(room: string, sender: ConnId)
    | UndefinedGroupExcept(sender: ConnId)
    | All

  datatype Event =
    | RoomsList(table: map<string, Room>)
    | InitialState(players: map<ConnId, JsValue>)
    | NewPlayer(id: ConnId, state: JsValue)
    | RemovePlayer(id: ConnId)
    | Relay(name: string, id: ConnId, field: string, data: JsValue)
    | GotRooms(id: ConnId, roomData: map<string, Room>)

  datatype Msg = Msg(to: Target, event: Event)

  /** `current` holds `socket.roomName` for the connections that have one;
      a connection without an entry has it `undefined`. */
  datatype State = State(rooms: map<string, Room>, current: map<ConnId, string>, outbox: seq<Msg>)

  const Initial: State := State(map[], map[], [])

  /** `socket.roomName` when it is truthy. */
  function CurrentRoom(s: State, c: ConnId): Option<string>
  {
    if c in s.current && s.current[c] != "" then Some(s.current[c]) else None
  }

  /** The connection's current room exists and lists it as a player. */
  predicate Occupies(s: State, c: ConnId, r: string)
  {
    CurrentRoom(s, c) == Some(r) && r in s.rooms && c in s.rooms[r].players
  }

  /** The state every occupant starts with: `{x: 0, y: 0, cRoom: name}`. */
  function Seed(name: string): JsValue
  {
    Obj(map["x" := Num(0), "y" := Num(0), "cRoom" := Str(name)])
  }

  /** Removing `c` leaves a map with no entries exactly when `c` was its
      only key, if any. */
  lemma RemovalEmpties<K, V>(m: map<K, V>, c: K)
    ensures |m - {c}| == 0 <==> m.Keys <= {c}
  {
    var rest := m - {c};
    assert rest.Keys == m.Keys - {c};
    if |rest| == 0 {
      assert rest == map[];
    } else {
      var k :| k in rest;
    }
  }

  // ------------------------------------------------------------------
  // The registry invariant
  // ------------------------------------------------------------------

  /** Every room is keyed by a valid name. */
  predicate NamesValid(s: State)
  {
    forall r :: r in s.rooms ==> IsValidRoomName(Str(r))
  }

  /** A room exists only while it has players. */
  predicate NoEmptyRooms(s: State)
  {
    forall r :: r in s.rooms ==> s.rooms[r].players != map[]
  }

  /** A connection's current room exists and contains it. */
  predicate CurrentIsOccupied(s: State)
  {
    forall c :: c in s.current ==> s.current[c] in s.rooms && c in s.rooms[s.current[c]].players
  }

  /** A player of a room has that room as its current room, so no
      connection is a player in two rooms. */
  predicate PlayersAreCurrent(s: State)
  {
    forall r, c :: r in s.rooms && c in s.rooms[r].players ==> c in s.current && s.current[c] == r
  }

  predicate Valid(s: State)
  {
    NamesValid(s) && NoEmptyRooms(s) && CurrentIsOccupied(s) && PlayersAreCurrent(s)
  }

  // ------------------------------------------------------------------
  // The channel table of the nine update handlers
  // ------------------------------------------------------------------

  datatype Channel =
    | UpdateCursor | UpdateBlocks | UpdateChat | UpdateDamage | RemoveBullet
    | UpdateBullet | UpdateData | UpdateWait | GetRooms

  /** The inbound event name the handler is registered under. */
  function InboundName(ch: Channel): string
  {
    match ch
    case UpdateCursor => "updateCursor"
    case UpdateBlocks => "updateBlocks"
    case UpdateChat => "updateChat"
    case UpdateDamage => "updateDamage"
    case RemoveBullet => "removeBullet"
    case UpdateBullet => "updateBullet"
    case UpdateData => "updateData"
    case UpdateWait => "updateWait"
    case GetRooms => "getRooms"
  }

  /** The handler registrations read as a dispatch by event name: the
      channel whose handler is registered under `name`, if any. The update
      functions take the channel itself; this table only records which
      inbound names exist (see `ChannelTable`). */
  function ChannelNamed(name: string): (r: Option<Channel>)
    ensures r.Some? ==> InboundName(r.value) == name
    ensures r.None? ==> forall ch :: InboundName(ch) != name
  {
    match name
    case "updateCursor" => Some(UpdateCursor)
    case "updateBlocks" => Some(UpdateBlocks)
    case "updateChat" => Some(UpdateChat)
    case "updateDamage" => Some(UpdateDamage)
    case "removeBullet" => Some(RemoveBullet)
    case "updateBullet" => Some(UpdateBullet)
    case "updateData" => Some(UpdateData)
    case "updateWait" => Some(UpdateWait)
    case "getRooms" => Some(GetRooms)
    case _ => None
  }

  /** The outbound event name of the relay. */
  function EventName(ch: Channel): string
  {
    match ch
    case UpdateCursor => "update"
    case UpdateBlocks => "updateBl"
    case UpdateChat => "updateCh"
    case UpdateDamage => "updateD"
    case RemoveBullet => "updateRb"
    case UpdateBullet => "updateB"
    case UpdateData => "updateP"
    case UpdateWait => "updateW"
    case GetRooms => "gotRooms"
  }

  /** The property of the relayed message that carries the payload. */
  function FieldName(ch: Channel): string
  {
    match ch
    case UpdateCursor => "cursorData"
    case UpdateBlocks => "blockData"
    case UpdateChat => "chatData"
    case UpdateDamage => "damageData"
    case RemoveBullet => "bulletData"
    case UpdateBullet => "bulletData"
    case UpdateData => "playerData"
    case UpdateWait => "waitData"
    case GetRooms => "roomData"
  }

  /** Every inbound name dispatches back to its own channel, and no two
      channels share an inbound or an outbound event name (two of them,
      `removeBullet` and `updateBullet`, do share the field `bulletData`). */
  lemma ChannelTable(ch1: Channel, ch2: Channel)
    ensures ChannelNamed(InboundName(ch1)) == Some(ch1)
    ensures ch1 != ch2 ==> InboundName(ch1) != InboundName(ch2)
    ensures ch1 != ch2 ==> EventName(ch1) != EventName(ch2)
    ensures FieldName(RemoveBullet) == FieldName(UpdateBullet)
  {
  }

  /** The relayed message: a copy of the payload, except `getRooms`, which
      relays the whole room table as it is after the update. */
  function RelayEvent(ch: Channel, c: ConnId, data: map<string, JsValue>, table: map<string, Room>): Event
  {
    if ch == GetRooms then GotRooms(c, table) else Relay(EventName(ch), c, FieldName(ch), Obj(data))
  }

  // ------------------------------------------------------------------
  // Handlers
  // ------------------------------------------------------------------

  /** Delete `c` from the players of room `r`, and delete the room too if
      that leaves it without players (`Object.keys(players).length === 0`).
      Every other room is untouched. */
  function RemoveOccupant(rooms: map<string, Room>, r: string, c: ConnId): (out: map<string, Room>)
    requires r in rooms
    ensures r in out <==> !(rooms[r].players.Keys <= {c})
    ensures r in out ==> out[r] == rooms[r].(players := rooms[r].players - {c})
    ensures out.Keys - {r} == rooms.Keys - {r}
    ensures forall q :: q in out && q != r ==> q in rooms && out[q] == rooms[q]
  {
    var players := rooms[r].players - {c};
    RemovalEmpties(rooms[r].players, c);
    if |players| == 0 then rooms - {r} else rooms[r := rooms[r].(players := players)]
  }

  /** On connection the new client is sent the room table; nothing changes. */
  function Connect(s: State, c: ConnId): (t: State)
    ensures t.rooms == s.rooms && t.current == s.current
    ensures t.outbox == s.outbox + [Msg(Conn(c), RoomsList(s.rooms))]
  {
    s.(outbox := s.outbox + [Msg(Conn(c), RoomsList(s.rooms))])
  }

  /** The leave step of `joinRoom`, run against the previous room `prev`:
      only if `prev` still exists and lists the connection, remove it, tell
      the rest of `prev`, delete `prev` if that emptied it, and send the
      room table to everyone. `socket.roomName` is not touched here. */
  function LeavePrevious(s: State, c: ConnId, prev: string): (t: State)
    ensures t.current == s.current
    ensures !(prev in s.rooms && c in s.rooms[prev].players) ==> t == s
    ensures prev in t.rooms <==> prev in s.rooms && s.rooms[prev].players.Keys != {c}
    ensures prev in t.rooms ==> t.rooms[prev] == s.rooms[prev].(players := s.rooms[prev].players - {c})
    ensures t.rooms.Keys - {prev} == s.rooms.Keys - {prev}
    ensures forall r :: r in t.rooms && r != prev ==> r in s.rooms && t.rooms[r] == s.rooms[r]
    ensures prev in s.rooms && c in s.rooms[prev].players ==>
              t.outbox == s.outbox + [Msg(RoomExcept(prev, c), RemovePlayer(c)), Msg(All, RoomsList(t.rooms))]
  {
    if prev in s.rooms && c in s.rooms[prev].players then
      var rooms := RemoveOccupant(s.rooms, prev, c);
      State(rooms, s.current, s.outbox + [Msg(RoomExcept(prev, c), RemovePlayer(c)), Msg(All, RoomsList(rooms))])
    else
      s
  }

  /** The connection switches from its current room to another one. */
  predicate Switching(s: State, c: ConnId, name: string)
  {
    CurrentRoom(s, c).Some? && CurrentRoom(s, c).value != name
  }

  /** The second half of `joinRoom`, once any previous room is left: set
      the current room, seed the connection's entry, send the joiner the
      room's players, announce the joiner to the rest of the room and send
      the room table to everyone. */
  function Enter(s: State, c: ConnId, name: string): (t: State)
    requires name in s.rooms
    ensures t.current == s.current[c := name]
    ensures t.rooms.Keys == s.rooms.Keys
    ensures t.rooms[name] == s.rooms[name].(players := s.rooms[name].players[c := Seed(name)])
    ensures forall r :: r in s.rooms && r != name ==> t.rooms[r] == s.rooms[r]
    ensures t.outbox == s.outbox + [ Msg(Conn(c), InitialState(t.rooms[name].players)),
                                     Msg(RoomExcept(name, c), NewPlayer(c, Seed(name))),
                                     Msg(All, RoomsList(t.rooms)) ]
  {
    var players := s.rooms[name].players[c := Seed(name)];
    var rooms := s.rooms[name := s.rooms[name].(players := players)];
    State(rooms, s.current[c := name],
          s.outbox + [ Msg(Conn(c), InitialState(players)),
                       Msg(RoomExcept(name, c), NewPlayer(c, Seed(name))),
                       Msg(All, RoomsList(rooms)) ])
  }

  /** Joining `name` makes the connection leave room `r`. */
  predicate LeavesRoom(s: State, c: ConnId, name: string, r: string)
  {
    Switching(s, c, name) && CurrentRoom(s, c).value == r
  }

  /** `joinRoom`: leave the previous room if it is a different one, make
      `name` the current room, (re)seed the connection's entry there, send
      it the room's players, announce it to the rest of the room and send
      the room table to everyone. Re-joining the current room skips the
      leave step and resets the connection's entry to the seed. */
  function JoinRoom(s: State, c: ConnId, name: string): (t: State)
    requires name in s.rooms
    ensures t.current == s.current[c := name]
    ensures name in t.rooms
    ensures t.rooms[name] == s.rooms[name].(players := s.rooms[name].players[c := Seed(name)])
    ensures t.rooms.Keys <= s.rooms.Keys
    ensures forall r :: r in s.rooms && r != name && !LeavesRoom(s, c, name, r) ==> r in t.rooms && t.rooms[r] == s.rooms[r]
    ensures |t.outbox| >= |s.outbox| + 3 && t.outbox[..|s.outbox|] == s.outbox
    ensures t.outbox[|t.outbox| - 3..] ==
              [ Msg(Conn(c), InitialState(t.rooms[name].players)),
                Msg(RoomExcept(name, c), NewPlayer(c, Seed(name))),
                Msg(All, RoomsList(t.rooms)) ]
  {
    if Switching(s, c, name) then
      var left := LeavePrevious(s, c, CurrentRoom(s, c).value);
      assert left.rooms[name] == s.rooms[name];
      Enter(left, c, name)
    else
      Enter(s, c, name)
  }

  /** The name and type a `create_room` payload `{name, type}` asks for. */
  function RequestedName(roomData: JsValue): JsValue
  {
    Member(roomData, "name")
  }

  function RequestedKind(roomData: JsValue): (k: JsValue)
    ensures Member(roomData, "type").Undefined? ==> k == Str("custom")
    ensures Member(roomData, "type").Null? ==> k == Str("custom")
    ensures !(Member(roomData, "type").Undefined? || Member(roomData, "type").Null?) ==>
              roomData.Obj? && "type" in roomData.fields && k == roomData.fields["type"]
  {
    Coalesce(Member(roomData, "type"), Str("custom"))
  }

  /** `create_room`, with the payload's `name` validated (socket.js
      validates the payload itself; see module AsWritten): create the room
      if it is missing, then join it. An existing room keeps its players,
      blocks and type. */
  function CreateRoom(s: State, c: ConnId, roomData: JsValue): (t: State)
    ensures !IsValidRoomName(RequestedName(roomData)) ==> t == s
    ensures IsValidRoomName(RequestedName(roomData)) ==>
              var name := RequestedName(roomData).s;
              && t.current == s.current[c := name]
              && t.rooms.Keys <= s.rooms.Keys + {name}
              && Occupies(t, c, name)
              && t.rooms[name].players[c] == Seed(name)
              && (name in s.rooms ==> t == JoinRoom(s, c, name))
              && (name !in s.rooms ==>
                    t == JoinRoom(s.(rooms := s.rooms[name := Room(map[], map[], RequestedKind(roomData))]), c, name))
              && (name in s.rooms ==>
                    && t.rooms[name].kind == s.rooms[name].kind
                    && t.rooms[name].blocks == s.rooms[name].blocks
                    && t.rooms[name].players == s.rooms[name].players[c := Seed(name)])
              && (name !in s.rooms ==>
                    t.rooms[name] == Room(map[c := Seed(name)], map[], RequestedKind(roomData)))
              && (forall r :: r in s.rooms && r != name && !LeavesRoom(s, c, name, r) ==>
                    r in t.rooms && t.rooms[r] == s.rooms[r])
              && |t.outbox| >= |s.outbox| + 3 && t.outbox[..|s.outbox|] == s.outbox
              && t.outbox[|t.outbox| - 3..] ==
                   [ Msg(Conn(c), InitialState(t.rooms[name].players)),
                     Msg(RoomExcept(name, c), NewPlayer(c, Seed(name))),
                     Msg(All, RoomsList(t.rooms)) ]
  {
    var v := RequestedName(roomData);
    if !IsValidRoomName(v) then s
    else
      var created := if v.s in s.rooms then s
                     else s.(rooms := s.rooms[v.s := Room(map[], map[], RequestedKind(roomData))]);
      assert forall r :: LeavesRoom(s, c, v.s, r) <==> LeavesRoom(created, c, v.s, r);
      JoinRoom(created, c, v.s)
  }

  /** `join_room`: join only a room that already exists. */
  function JoinExisting(s: State, c: ConnId, roomName: JsValue): (t: State)
    ensures !IsValidRoomName(roomName) || roomName.s !in s.rooms ==> t == s
    ensures IsValidRoomName(roomName) && roomName.s in s.rooms ==> t == JoinRoom(s, c, roomName.s)
    ensures IsValidRoomName(roomName) && roomName.s in s.rooms ==>
              && Occupies(t, c, roomName.s)
              && t.rooms[roomName.s].players[c] == Seed(roomName.s)
              && t.rooms[roomName.s].kind == s.rooms[roomName.s].kind
              && t.rooms[roomName.s].players.Keys == s.rooms[roomName.s].players.Keys + {c}
              && t.current == s.current[c := roomName.s]
              && t.rooms[roomName.s] == s.rooms[roomName.s].(players := s.rooms[roomName.s].players[c := Seed(roomName.s)])
              && (forall r :: r in s.rooms && r != roomName.s && !LeavesRoom(s, c, roomName.s, r) ==>
                    r in t.rooms && t.rooms[r] == s.rooms[r])
              && |t.outbox| >= |s.outbox| + 3 && t.outbox[..|s.outbox|] == s.outbox
              && t.outbox[|t.outbox| - 3..] ==
                   [ Msg(Conn(c), InitialState(t.rooms[roomName.s].players)),
                     Msg(RoomExcept(roomName.s, c), NewPlayer(c, Seed(roomName.s))),
                     Msg(All, RoomsList(t.rooms)) ]
  {
    if !IsValidRoomName(roomName) then s
    else if roomName.s !in s.rooms then s
    else JoinRoom(s, c, roomName.s)
  }

  /** One of the nine update handlers: if the connection is a player of its
      current room, replace its entry by a copy of the payload and relay to
      the rest of the room; otherwise do nothing. */
  function Update(s: State, c: ConnId, ch: Channel, data: map<string, JsValue>): (t: State)
    ensures (CurrentRoom(s, c).None? || !Occupies(s, c, CurrentRoom(s, c).value)) ==> t == s
    ensures CurrentRoom(s, c).Some? && Occupies(s, c, CurrentRoom(s, c).value) ==>
              var r := CurrentRoom(s, c).value;
              && t.current == s.current
              && t.rooms.Keys == s.rooms.Keys
              && t.rooms[r].players.Keys == s.rooms[r].players.Keys
              && t.rooms[r].players[c] == Obj(data)
              && (forall p :: p in s.rooms[r].players && p != c ==> t.rooms[r].players[p] == s.rooms[r].players[p])
              && t.rooms[r].kind == s.rooms[r].kind && t.rooms[r].blocks == s.rooms[r].blocks
              && (forall q :: q in s.rooms && q != r ==> t.rooms[q] == s.rooms[q])
              && t.outbox == s.outbox + [Msg(RoomExcept(r, c), RelayEvent(ch, c, data, t.rooms))]
              && (ch != GetRooms ==>
                    t.outbox[|s.outbox|].event == Relay(EventName(ch), c, FieldName(ch), t.rooms[r].players[c]))
              && (ch == GetRooms ==> t.outbox[|s.outbox|].event == GotRooms(c, t.rooms))
  {
    match CurrentRoom(s, c)
    case None => s
    case Some(r) =>
      if r !in s.rooms then s
      else if c !in s.rooms[r].players then s
      else
        var rooms := s.rooms[r := s.rooms[r].(players := s.rooms[r].players[c := Obj(data)])];
        s.(rooms := rooms, outbox := s.outbox + [Msg(RoomExcept(r, c), RelayEvent(ch, c, data, rooms))])
  }

  /** `disconnect`: if the connection's current room exists, remove the
      connection from it, tell the rest of the room, delete the room if it
      is now empty and send the room table to everyone. The connection's
      own record goes away with it. */
  function Disconnect(s: State, c: ConnId): (t: State)
    ensures t.current == s.current - {c}
    ensures (CurrentRoom(s, c).None? || CurrentRoom(s, c).value !in s.rooms) ==>
              t.rooms == s.rooms && t.outbox == s.outbox
    ensures CurrentRoom(s, c).Some? && CurrentRoom(s, c).value in s.rooms ==>
              var r := CurrentRoom(s, c).value;
              && (r in t.rooms <==> !(s.rooms[r].players.Keys <= {c}))
              && (r in t.rooms ==> t.rooms[r] == s.rooms[r].(players := s.rooms[r].players - {c}))
              && t.rooms.Keys - {r} == s.rooms.Keys - {r}
              && (forall q :: q in t.rooms && q != r ==> q in s.rooms && t.rooms[q] == s.rooms[q])
              && t.outbox == s.outbox + [Msg(RoomExcept(r, c), RemovePlayer(c)), Msg(All, RoomsList(t.rooms))]
  {
    match CurrentRoom(s, c)
    case None => s.(current := s.current - {c})
    case Some(r) =>
      if r !in s.rooms then s.(current := s.current - {c})
      else
        var rooms := RemoveOccupant(s.rooms, r, c);
        State(rooms, s.current - {c}, s.outbox + [Msg(RoomExcept(r, c), RemovePlayer(c)), Msg(All, RoomsList(rooms))])
  }
}
