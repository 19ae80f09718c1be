/**
 Properties of the registry that relate handlers to each other: every
 handler keeps the registry invariant, a room switch moves exactly one
 occupant, re-joining resets, creation is idempotent on the table, a
 second disconnect is harmless, and a two-client session (C1 creates a
 room, C2 joins it, then C1 and C2 disconnect) plays out as intended.
 */
module RegistryProofs {
  import opened JsValues
  import opened RoomNames
  import opened Registry

  /** The invariant, except that room `name` may be empty: the state
      `create_room` is in between inserting a fresh room and joining it. */
  predicate ValidExceptEmpty(s: State, name: string)
  {
    && NamesValid(s)
    && CurrentIsOccupied(s)
    && PlayersAreCurrent(s)
    && (forall r :: r in s.rooms && r != name ==> s.rooms[r].players != map[])
  }

  /** The leave step of a room switch: the previous room loses the
      connection and is deleted exactly when the connection was its only
      player; only if the connection was found there are `removePlayer`
      and the room list as it stands after the removal sent. */
  lemma JoinRoomLeavesPrevious(s: State, c: ConnId, name: string)
    requires name in s.rooms && Switching(s, c, name)
    ensures var t := JoinRoom(s, c, name);
            var p := CurrentRoom(s, c).value;
            && (p in t.rooms <==> p in s.rooms && s.rooms[p].players.Keys != {c})
            && (p in t.rooms ==> t.rooms[p] == s.rooms[p].(players := s.rooms[p].players - {c}))
            && (Occupies(s, c, p) ==>
                  && |t.outbox| == |s.outbox| + 5
                  && t.outbox[|s.outbox|] == Msg(RoomExcept(p, c), RemovePlayer(c))
                  && t.outbox[|s.outbox| + 1] == Msg(All, RoomsList(RemoveOccupant(s.rooms, p, c))))
            && (!Occupies(s, c, p) ==> |t.outbox| == |s.outbox| + 3)
  {
    var p := CurrentRoom(s, c).value;
    var left := LeavePrevious(s, c, p);
    assert JoinRoom(s, c, name) == Enter(left, c, name);
  }

  /** Re-joining the current room skips the leave step, resets the
      connection's entry to the seed and announces it to the room again. */
  lemma RejoinResets(s: State, c: ConnId, r: string)
    requires Occupies(s, c, r)
    ensures var t := JoinRoom(s, c, r);
            && t.rooms == s.rooms[r := s.rooms[r].(players := s.rooms[r].players[c := Seed(r)])]
            && t.current == s.current
            && |t.outbox| == |s.outbox| + 3
            && t.outbox[|s.outbox| + 1] == Msg(RoomExcept(r, c), NewPlayer(c, Seed(r)))
  {
    assert !Switching(s, c, r);
    assert JoinRoom(s, c, r) == Enter(s, c, r);
  }

  /** The facts about `joinRoom` the invariant proofs use: `prev` is the
      room being left (or `name` itself when there is none), and every
      other room is untouched. */
  predicate JoinShape(s: State, t: State, c: ConnId, name: string, prev: string)
  {
    && name in s.rooms && name in t.rooms && prev in s.rooms
    && t.current == s.current[c := name]
    && t.rooms.Keys <= s.rooms.Keys
    && t.rooms[name].players.Keys == s.rooms[name].players.Keys + {c}
    && (forall r :: r in t.rooms && r != name && r != prev ==> r in s.rooms && t.rooms[r] == s.rooms[r])
    && (forall r :: r in s.rooms && r != name && r != prev ==> r in t.rooms)
    && (prev == name ==> c in s.current ==> s.current[c] == name)
    && (prev != name ==>
          && c in s.current && s.current[c] == prev
          && (prev in t.rooms <==> s.rooms[prev].players.Keys != {c})
          && (prev in t.rooms ==> t.rooms[prev].players == s.rooms[prev].players - {c}))
  }

  lemma JoinRoomShape(s: State, c: ConnId, name: string) returns (prev: string)
    requires name in s.rooms
    requires NamesValid(s) && CurrentIsOccupied(s)
    ensures JoinShape(s, JoinRoom(s, c, name), c, name, prev)
  {
    prev := if Switching(s, c, name) then CurrentRoom(s, c).value else name;
    if Switching(s, c, name) {
      JoinRoomLeavesPrevious(s, c, name);
    }
    if c in s.current {
      assert IsValidRoomName(Str(s.current[c]));
    }
  }

  lemma JoinShapeNoEmptyRooms(s: State, t: State, c: ConnId, name: string, prev: string)
    requires JoinShape(s, t, c, name, prev)
    requires forall r :: r in s.rooms && r != name ==> s.rooms[r].players != map[]
    ensures NoEmptyRooms(t)
  {
    forall r | r in t.rooms
      ensures t.rooms[r].players != map[]
    {
      if r == name {
        assert c in t.rooms[r].players;
      } else if r == prev {
        assert s.rooms[r].players.Keys != {c};
        var p :| p in s.rooms[r].players && p != c;
        assert p in t.rooms[r].players;
      }
    }
  }

  lemma JoinShapeCurrentIsOccupied(s: State, t: State, c: ConnId, name: string, prev: string)
    requires JoinShape(s, t, c, name, prev) && CurrentIsOccupied(s)
    ensures CurrentIsOccupied(t)
  {
    forall p | p in t.current
      ensures t.current[p] in t.rooms && p in t.rooms[t.current[p]].players
    {
      if p != c {
        var r := s.current[p];
        if r == prev && r != name {
          assert p in s.rooms[r].players - {c};
        }
      }
    }
  }

  lemma JoinShapePlayersAreCurrent(s: State, t: State, c: ConnId, name: string, prev: string)
    requires JoinShape(s, t, c, name, prev) && PlayersAreCurrent(s)
    ensures PlayersAreCurrent(t)
  {
    forall r, p | r in t.rooms && p in t.rooms[r].players
      ensures p in t.current && t.current[p] == r
    {
      if p == c {
        assert r == name;
      } else {
        if r == name {
          assert p in s.rooms[r].players.Keys;
        } else if r == prev {
          assert p in s.rooms[r].players - {c};
        } else {
          assert t.rooms[r] == s.rooms[r];
        }
        assert p in s.rooms[r].players;
      }
    }
  }

  /** `joinRoom` restores the invariant, also when it is entered with the
      target room still empty (right after `create_room` made it). */
  lemma JoinRoomKeepsValid(s: State, c: ConnId, name: string)
    requires name in s.rooms
    requires ValidExceptEmpty(s, name)
    ensures Valid(JoinRoom(s, c, name))
  {
    var t := JoinRoom(s, c, name);
    var prev := JoinRoomShape(s, c, name);
    JoinShapeNoEmptyRooms(s, t, c, name, prev);
    JoinShapeCurrentIsOccupied(s, t, c, name, prev);
    JoinShapePlayersAreCurrent(s, t, c, name, prev);
  }

  lemma JoinExistingKeepsValid(s: State, c: ConnId, roomName: JsValue)
    requires Valid(s)
    ensures Valid(JoinExisting(s, c, roomName))
  {
    if IsValidRoomName(roomName) && roomName.s in s.rooms {
      JoinRoomKeepsValid(s, c, roomName.s);
    }
  }

  /** A fresh room with a valid name and no players may be added to a
      valid registry; only its emptiness breaks the invariant. */
  lemma InsertEmptyRoom(s: State, name: string, room: Room)
    requires Valid(s) && name !in s.rooms && IsValidRoomName(Str(name)) && room.players == map[]
    ensures ValidExceptEmpty(s.(rooms := s.rooms[name := room]), name)
  {
    var t := s.(rooms := s.rooms[name := room]);
    assert forall q :: q in s.rooms ==> t.rooms[q] == s.rooms[q];
  }

  lemma CreateRoomKeepsValid(s: State, c: ConnId, roomData: JsValue)
    requires Valid(s)
    ensures Valid(CreateRoom(s, c, roomData))
  {
    var v := RequestedName(roomData);
    if IsValidRoomName(v) {
      if v.s in s.rooms {
        JoinRoomKeepsValid(s, c, v.s);
      } else {
        var room := Room(map[], map[], RequestedKind(roomData));
        InsertEmptyRoom(s, v.s, room);
        JoinRoomKeepsValid(s.(rooms := s.rooms[v.s := room]), c, v.s);
      }
    }
  }

  /** The players of every room and every current room stay as they are. */
  predicate SameOccupancy(s: State, t: State)
  {
    && t.current == s.current
    && t.rooms.Keys == s.rooms.Keys
    && forall q :: q in s.rooms ==> t.rooms[q].players.Keys == s.rooms[q].players.Keys
  }

  lemma SameOccupancyKeepsValid(s: State, t: State)
    requires Valid(s) && SameOccupancy(s, t)
    ensures Valid(t)
  {
    forall q | q in t.rooms
      ensures t.rooms[q].players != map[]
    {
      var p :| p in s.rooms[q].players;
      assert p in t.rooms[q].players;
    }
  }

  lemma UpdateKeepsValid(s: State, c: ConnId, ch: Channel, data: map<string, JsValue>)
    requires Valid(s)
    ensures Valid(Update(s, c, ch, data))
  {
    var t := Update(s, c, ch, data);
    if CurrentRoom(s, c).Some? && Occupies(s, c, CurrentRoom(s, c).value) {
      assert SameOccupancy(s, t);
      SameOccupancyKeepsValid(s, t);
    }
  }

  /** The facts about `disconnect` from room `r` the invariant proofs use. */
  predicate LeaveShape(s: State, t: State, c: ConnId, r: string)
  {
    && c in s.current && s.current[c] == r && r in s.rooms
    && t.current == s.current - {c}
    && (r in t.rooms <==> !(s.rooms[r].players.Keys <= {c}))
    && (r in t.rooms ==> t.rooms[r].players == s.rooms[r].players - {c})
    && t.rooms.Keys - {r} == s.rooms.Keys - {r}
    && (forall q :: q in t.rooms && q != r ==> q in s.rooms && t.rooms[q] == s.rooms[q])
  }

  lemma LeaveShapeNoEmptyRooms(s: State, t: State, c: ConnId, r: string)
    requires LeaveShape(s, t, c, r) && NoEmptyRooms(s)
    ensures NoEmptyRooms(t)
  {
    forall q | q in t.rooms
      ensures t.rooms[q].players != map[]
    {
      if q == r {
        var p :| p in s.rooms[r].players && p != c;
        assert p in t.rooms[q].players;
      }
    }
  }

  lemma LeaveShapeCurrentIsOccupied(s: State, t: State, c: ConnId, r: string)
    requires LeaveShape(s, t, c, r) && CurrentIsOccupied(s)
    ensures CurrentIsOccupied(t)
  {
    forall p | p in t.current
      ensures t.current[p] in t.rooms && p in t.rooms[t.current[p]].players
    {
      var q := s.current[p];
      if q == r {
        assert p in s.rooms[r].players - {c};
      } else {
        assert q in s.rooms.Keys - {r};
      }
    }
  }

  lemma LeaveShapePlayersAreCurrent(s: State, t: State, c: ConnId, r: string)
    requires LeaveShape(s, t, c, r) && PlayersAreCurrent(s)
    ensures PlayersAreCurrent(t)
  {
    forall q, p | q in t.rooms && p in t.rooms[q].players
      ensures p in t.current && t.current[p] == q
    {
      if q == r {
        assert p in s.rooms[r].players - {c};
      } else {
        assert q in s.rooms && t.rooms[q] == s.rooms[q];
      }
      assert s.current[p] == q && p != c;
      assert t.current[p] == s.current[p];
    }
  }

  lemma DisconnectKeepsValid(s: State, c: ConnId)
    requires Valid(s)
    ensures Valid(Disconnect(s, c))
  {
    var t := Disconnect(s, c);
    if c in s.current {
      var r := s.current[c];
      assert IsValidRoomName(Str(r));
      assert LeaveShape(s, t, c, r);
      LeaveShapeNoEmptyRooms(s, t, c, r);
      LeaveShapeCurrentIsOccupied(s, t, c, r);
      LeaveShapePlayersAreCurrent(s, t, c, r);
    }
  }

  lemma AddedKeyCounts<K, V>(m: map<K, V>, k: K, v: V)
    requires k !in m
    ensures |m[k := v]| == |m| + 1
  {
    assert m[k := v].Keys == m.Keys + {k};
  }

  lemma RemovedKeyCounts<K, V>(m: map<K, V>, k: K)
    requires k in m
    ensures |m - {k}| == |m| - 1
    ensures |m| == 1 <==> m.Keys == {k}
  {
    assert (m - {k}).Keys == m.Keys - {k};
    if |m| == 1 {
      RemovalEmpties(m, k);
    }
  }

  /** What the invariant says about a connection that switches rooms: it
      is a player of the room it leaves and not of the one it enters. */
  lemma SwitchFacts(s: State, c: ConnId, name: string)
    requires Valid(s) && name in s.rooms && Switching(s, c, name)
    ensures Occupies(s, c, s.current[c]) && c !in s.rooms[name].players
  {
  }

  /** Switching rooms moves exactly one occupant: the new room gains the
      connection, the old room loses it and is deleted exactly when it
      was the only player there, and the rest of the old room is told. */
  lemma SwitchMovesOneOccupant(s: State, c: ConnId, name: string)
    requires Valid(s) && name in s.rooms && Switching(s, c, name)
    ensures var t := JoinRoom(s, c, name);
            var p := s.current[c];
            && c !in s.rooms[name].players
            && |t.rooms[name].players| == |s.rooms[name].players| + 1
            && (p !in t.rooms <==> |s.rooms[p].players| == 1)
            && (p in t.rooms ==> |t.rooms[p].players| == |s.rooms[p].players| - 1)
            && |t.outbox| == |s.outbox| + 5
            && t.outbox[|s.outbox|] == Msg(RoomExcept(p, c), RemovePlayer(c))
  {
    SwitchFacts(s, c, name);
    SwitchCounts(s, c, name);
  }

  lemma SwitchCounts(s: State, c: ConnId, name: string)
    requires name in s.rooms && Switching(s, c, name)
    requires Occupies(s, c, s.current[c]) && c !in s.rooms[name].players
    ensures var t := JoinRoom(s, c, name);
            var p := s.current[c];
            && |t.rooms[name].players| == |s.rooms[name].players| + 1
            && (p !in t.rooms <==> |s.rooms[p].players| == 1)
            && (p in t.rooms ==> |t.rooms[p].players| == |s.rooms[p].players| - 1)
            && |t.outbox| == |s.outbox| + 5
            && t.outbox[|s.outbox|] == Msg(RoomExcept(p, c), RemovePlayer(c))
  {
    var p := s.current[c];
    JoinRoomLeavesPrevious(s, c, name);
    AddedKeyCounts(s.rooms[name].players, c, Seed(name));
    RemovedKeyCounts(s.rooms[p].players, c);
  }

  /** A second `create_room` for the same name by the same connection
      leaves the table and the current rooms as the first one left them. */
  lemma CreateRoomTwice(s: State, c: ConnId, roomData: JsValue)
    requires IsValidRoomName(RequestedName(roomData))
    ensures var once := CreateRoom(s, c, roomData);
            var twice := CreateRoom(once, c, roomData);
            twice.rooms == once.rooms && twice.current == once.current
  {
    var name := RequestedName(roomData).s;
    var once := CreateRoom(s, c, roomData);
    assert Occupies(once, c, name);
    CreateExistingJoins(once, c, roomData);
    RejoinResets(once, c, name);
    var room := once.rooms[name];
    RewriteSame(room.players, c);
    assert room.(players := room.players) == room;
    RewriteSame(once.rooms, name);
  }

  /** Writing back the value a key already has changes nothing. */
  lemma RewriteSame<K, V>(m: map<K, V>, k: K)
    requires k in m
    ensures m[k := m[k]] == m
  {
  }

  /** `create_room` for a room that exists is `joinRoom` alone. */
  lemma CreateExistingJoins(s: State, c: ConnId, roomData: JsValue)
    requires IsValidRoomName(RequestedName(roomData)) && RequestedName(roomData).s in s.rooms
    ensures CreateRoom(s, c, roomData) == JoinRoom(s, c, RequestedName(roomData).s)
  {
  }

  /** An update replaces the stored entry, it never merges with it. */
  lemma UpdatesReplace(s: State, c: ConnId, r: string, ch1: Channel, d1: map<string, JsValue>,
                       ch2: Channel, d2: map<string, JsValue>)
    requires Occupies(s, c, r)
    ensures Update(Update(s, c, ch1, d1), c, ch2, d2).rooms[r].players[c] == Obj(d2)
  {
  }

  /** Once a connection is gone, a late update or a second disconnect
      from it changes nothing. The second half rests on `Disconnect`
      dropping the connection's `socket.roomName` along with the socket:
      socket.js never clears it, and running its handler again on a socket
      whose room still had players would send `removePlayer` and the room
      list again. */
  lemma NothingAfterDisconnect(s: State, c: ConnId, ch: Channel, data: map<string, JsValue>)
    ensures var t := Disconnect(s, c);
            Update(t, c, ch, data) == t && Disconnect(t, c) == t
  {
  }

  /** A two-client session, for any two connections and any valid name: C1 creates the room and is its only player, seeded;
      C2 joins and is sent both players' states while the rest of the room
      (C1) is told about C2; C1 disconnects, C2 stays and the rest of the
      room (C2) is told; C2 disconnects and the last room list sent to
      everyone is empty. */
  lemma TwoClientScenario(c1: ConnId, c2: ConnId, name: string)
    requires c1 != c2 && IsValidRoomName(Str(name))
    ensures var s1 := CreateRoom(Initial, c1, Obj(map["name" := Str(name)]));
            var s2 := JoinExisting(s1, c2, Str(name));
            var s3 := Disconnect(s2, c1);
            var s4 := Disconnect(s3, c2);
            && s1.rooms == map[name := Room(map[c1 := Seed(name)], map[], Str("custom"))]
            && s2.rooms[name].players == map[c1 := Seed(name), c2 := Seed(name)]
            && Msg(Conn(c2), InitialState(s2.rooms[name].players)) in s2.outbox
            && Msg(RoomExcept(name, c2), NewPlayer(c2, Seed(name))) in s2.outbox
            && s3.rooms == map[name := Room(map[c2 := Seed(name)], map[], Str("custom"))]
            && Msg(RoomExcept(name, c1), RemovePlayer(c1)) in s3.outbox
            && s4.rooms == map[]
            && s4.outbox[|s4.outbox| - 1] == Msg(All, RoomsList(map[]))
  {
    var s1 := CreateRoom(Initial, c1, Obj(map["name" := Str(name)]));
    ScenarioCreate(c1, name, Initial, s1);
    var s2 := JoinExisting(s1, c2, Str(name));
    ScenarioJoin(c1, c2, name, s1, s2);
    var s3 := Disconnect(s2, c1);
    ScenarioFirstLeaves(c1, c2, name, s2, s3);
    var s4 := Disconnect(s3, c2);
    ScenarioLastLeaves(c2, name, s3, s4);
  }

  lemma ScenarioCreate(c1: ConnId, name: string, s0: State, s1: State)
    requires IsValidRoomName(Str(name))
    requires s0.rooms == map[] && s0.current == map[]
    requires s1 == CreateRoom(s0, c1, Obj(map["name" := Str(name)]))
    ensures s1.rooms == map[name := Room(map[c1 := Seed(name)], map[], Str("custom"))]
    ensures s1.current == map[c1 := name]
  {
    var d := Obj(map["name" := Str(name)]);
    assert RequestedName(d) == Str(name);
    assert RequestedKind(d) == Str("custom");
    assert s1.rooms.Keys == {name};
  }

  lemma ScenarioJoin(c1: ConnId, c2: ConnId, name: string, s1: State, s2: State)
    requires c1 != c2 && IsValidRoomName(Str(name))
    requires s1.rooms == map[name := Room(map[c1 := Seed(name)], map[], Str("custom"))]
    requires s1.current == map[c1 := name]
    requires s2 == JoinExisting(s1, c2, Str(name))
    ensures s2.rooms == map[name := Room(map[c1 := Seed(name), c2 := Seed(name)], map[], Str("custom"))]
    ensures s2.current == map[c1 := name, c2 := name]
    ensures Msg(Conn(c2), InitialState(s2.rooms[name].players)) in s2.outbox
    ensures Msg(RoomExcept(name, c2), NewPlayer(c2, Seed(name))) in s2.outbox
  {
    assert s2 == JoinRoom(s1, c2, name);
    assert s2.rooms.Keys == {name};
    var n := |s2.outbox|;
    assert s2.outbox[n - 3] == Msg(Conn(c2), InitialState(s2.rooms[name].players));
    assert s2.outbox[n - 2] == Msg(RoomExcept(name, c2), NewPlayer(c2, Seed(name)));
  }

  lemma ScenarioFirstLeaves(c1: ConnId, c2: ConnId, name: string, s2: State, s3: State)
    requires c1 != c2 && IsValidRoomName(Str(name))
    requires s2.rooms == map[name := Room(map[c1 := Seed(name), c2 := Seed(name)], map[], Str("custom"))]
    requires s2.current == map[c1 := name, c2 := name]
    requires s3 == Disconnect(s2, c1)
    ensures s3.rooms == map[name := Room(map[c2 := Seed(name)], map[], Str("custom"))]
    ensures s3.current == map[c2 := name]
    ensures Msg(RoomExcept(name, c1), RemovePlayer(c1)) in s3.outbox
  {
    assert CurrentRoom(s2, c1) == Some(name);
    ScenarioFirstLeavesRooms(c1, c2, name, s2.rooms, s3.rooms);
    assert s3.current == s2.current - {c1};
    assert s3.current.Keys == {c2};
    var n := |s2.outbox|;
    assert s3.outbox[n] == Msg(RoomExcept(name, c1), RemovePlayer(c1));
  }

  lemma ScenarioFirstLeavesRooms(c1: ConnId, c2: ConnId, name: string, before: map<string, Room>, after: map<string, Room>)
    requires c1 != c2
    requires before == map[name := Room(map[c1 := Seed(name), c2 := Seed(name)], map[], Str("custom"))]
    requires name in after <==> !(before[name].players.Keys <= {c1})
    requires name in after ==> after[name] == before[name].(players := before[name].players - {c1})
    requires after.Keys - {name} == before.Keys - {name}
    ensures after == map[name := Room(map[c2 := Seed(name)], map[], Str("custom"))]
  {
    assert before[name].players - {c1} == map[c2 := Seed(name)];
    assert c2 in before[name].players.Keys && c2 !in {c1};
    assert name in after;
    assert before.Keys - {name} == {};
    assert after.Keys == {name};
  }

  lemma ScenarioLastLeaves(c2: ConnId, name: string, s3: State, s4: State)
    requires IsValidRoomName(Str(name))
    requires s3.rooms == map[name := Room(map[c2 := Seed(name)], map[], Str("custom"))]
    requires s3.current == map[c2 := name]
    requires s4 == Disconnect(s3, c2)
    ensures s4.rooms == map[]
    ensures s4.outbox[|s4.outbox| - 1] == Msg(All, RoomsList(map[]))
  {
    assert CurrentRoom(s3, c2) == Some(name);
    assert s3.rooms[name].players.Keys <= {c2};
    assert s4.rooms.Keys == {};
  }
}
