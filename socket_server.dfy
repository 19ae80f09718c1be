/**
 The server of socket.js as it runs: one object holding the `rooms` table,
 every connection's `socket.roomName` and the messages handed to the
 transport, updated in place by one method per socket.io handler. Each
 method is proved to produce exactly the state its handler function in
 module Registry describes, and to keep the registry invariant.
 */
module SocketServer {
  import opened JsValues
  import opened RoomNames
  import opened Registry
  import opened RegistryProofs

  class RoomServer {
    /** The module-level `rooms` object. */
    var rooms: map<string, Room>
    /** `socket.roomName` of every connection that has one. */
    var current: map<ConnId, string>
    /** Every message emitted so far, in order. */
    var outbox: seq<Msg>

    function Snapshot(): State
      reads this
    {
      State(rooms, current, outbox)
    }

    predicate Valid()
      reads this
    {
      Registry.Valid(Snapshot())
    }

    /** Start-up: `Object.create(null)`, no connections, nothing sent. */
    constructor ()
      ensures Snapshot() == Initial
      ensures Valid()
    {
      rooms := map[];
      current := map[];
      outbox := [];
    }

    /** `connection`: send the new client the room table. */
    method OnConnection(c: ConnId)
      requires Valid()
      modifies this
      ensures Snapshot() == Connect(old(Snapshot()), c)
      ensures Valid()
    {
      outbox := outbox + [Msg(Conn(c), RoomsList(rooms))];
    }

    /** `joinRoom(socket, name)`, statement by statement. */
    method JoinRoom(c: ConnId, name: string)
      requires name in rooms
      modifies this
      ensures Snapshot() == Registry.JoinRoom(old(Snapshot()), c, name)
    {
      ghost var s := Snapshot();
      var cur := CurrentRoom(Snapshot(), c);
      if cur.Some? && cur.value != name {
        var prev := cur.value;
        LeaveRoom(c, prev);
        assert Snapshot() == LeavePrevious(s, c, prev);
      }
      EnterRoom(c, name);
    }

    /** The second half of `joinRoom`: set `socket.roomName`, seed the
        entry, then the three emits. */
    method EnterRoom(c: ConnId, name: string)
      requires name in rooms
      modifies this
      ensures Snapshot() == Enter(old(Snapshot()), c, name)
    {
      current := current[c := name];
      var players := rooms[name].players[c := Seed(name)];
      rooms := rooms[name := rooms[name].(players := players)];
      outbox := outbox + [Msg(Conn(c), InitialState(players))];
      outbox := outbox + [Msg(RoomExcept(name, c), NewPlayer(c, Seed(name)))];
      outbox := outbox + [Msg(All, RoomsList(rooms))];
    }

    /** The leave step of `joinRoom` for the previous room `prev`. */
    method LeaveRoom(c: ConnId, prev: string)
      modifies this
      ensures Snapshot() == LeavePrevious(old(Snapshot()), c, prev)
    {
      if prev in rooms && c in rooms[prev].players {
        DeleteOccupant(c, prev);
        outbox := outbox + [Msg(All, RoomsList(rooms))];
      }
    }

    /** Delete the connection from room `r`, tell the rest of the room, and
        delete the room if that left it without players. The steps shared by
        the leave step of `joinRoom` and by `disconnect`. */
    method DeleteOccupant(c: ConnId, r: string)
      requires r in rooms
      modifies this
      ensures Snapshot() == State(RemoveOccupant(old(rooms), r, c), old(current),
                                  old(outbox) + [Msg(RoomExcept(r, c), RemovePlayer(c))])
    {
      var players := rooms[r].players - {c};
      outbox := outbox + [Msg(RoomExcept(r, c), RemovePlayer(c))];
      if |players| == 0 {
        rooms := rooms - {r};
      } else {
        rooms := rooms[r := rooms[r].(players := players)];
      }
    }

    /** `create_room`, reading the name from the payload's `name`. */
    method OnCreateRoom(c: ConnId, roomData: JsValue)
      requires Valid()
      modifies this
      ensures Snapshot() == CreateRoom(old(Snapshot()), c, roomData)
      ensures Valid()
    {
      ghost var s := Snapshot();
      var v := RequestedName(roomData);
      if !IsValidRoomName(v) {
        return;
      }
      if v.s !in rooms {
        rooms := rooms[v.s := Room(map[], map[], RequestedKind(roomData))];
      }
      JoinRoom(c, v.s);
      CreateRoomKeepsValid(s, c, roomData);
    }

    /** `join_room`: only a valid name of an existing room is joined. */
    method OnJoinRoom(c: ConnId, roomName: JsValue)
      requires Valid()
      modifies this
      ensures Snapshot() == JoinExisting(old(Snapshot()), c, roomName)
      ensures Valid()
    {
      ghost var s := Snapshot();
      JoinExistingKeepsValid(s, c, roomName);
      if !IsValidRoomName(roomName) {
        return;
      }
      if roomName.s !in rooms {
        return;
      }
      JoinRoom(c, roomName.s);
    }

    /** The update handler of channel `ch`. */
    method OnUpdate(c: ConnId, ch: Channel, data: map<string, JsValue>)
      requires Valid()
      modifies this
      ensures Snapshot() == Update(old(Snapshot()), c, ch, data)
      ensures Valid()
    {
      ghost var s := Snapshot();
      UpdateKeepsValid(s, c, ch, data);
      var cur := CurrentRoom(Snapshot(), c);
      if cur.None? {
        return;
      }
      var r := cur.value;
      if r !in rooms {
        return;
      }
      if c !in rooms[r].players {
        return;
      }
      rooms := rooms[r := rooms[r].(players := rooms[r].players[c := Obj(data)])];
      outbox := outbox + [Msg(RoomExcept(r, c), RelayEvent(ch, c, data, rooms))];
    }

    /** `disconnect`: leave the current room if it exists; the connection's
        `roomName` goes with the socket. */
    method OnDisconnect(c: ConnId)
      requires Valid()
      modifies this
      ensures Snapshot() == Disconnect(old(Snapshot()), c)
      ensures Valid()
    {
      DisconnectKeepsValid(Snapshot(), c);
      RemoveConnection(c);
    }

    /** The steps of `disconnect`, which need no invariant. */
    method RemoveConnection(c: ConnId)
      modifies this
      ensures Snapshot() == Disconnect(old(Snapshot()), c)
    {
      var cur := CurrentRoom(Snapshot(), c);
      if cur.Some? && cur.value in rooms {
        var r := cur.value;
        DeleteOccupant(c, r);
        outbox := outbox + [Msg(All, RoomsList(rooms))];
      }
      current := current - {c};
    }
  }
}
