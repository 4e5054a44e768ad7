/** The relay server's room registry: a list of rooms, each holding the socket ids
    of its players, changed in place by the join and disconnect handlers. Messages
    the server emits are returned as events; the transport is not modelled. */
module Relay {
  import opened PuyoTypes

  datatype Room = Room(id: string, players: seq<string>)

  /** What the server emits: to everybody in a room, to the caller, or to one
      player. */
  datatype Event =
    | StartGame(roomId: string)
    | RoomFull(to: string, roomId: string)
    | OpponentFieldUpdate(to: string, field: Field)
    | ReceiveNuisancePuyos(to: string, nuisancePuyos: int)
    | OpponentDisconnected(to: string)

  /** Room ids are unique and every room holds one or two players. */
  predicate RegistryValid(rooms: seq<Room>) {
    (forall i, j :: 0 <= i < j < |rooms| ==> rooms[i].id != rooms[j].id) &&
    (forall i :: 0 <= i < |rooms| ==> 1 <= |rooms[i].players| <= 2)
  }

  /** The first room with the given id, or -1. */
  function FindRoom(rooms: seq<Room>, roomId: string): (r: int)
    ensures -1 <= r < |rooms|
    ensures r >= 0 ==> rooms[r].id == roomId
    ensures forall i :: 0 <= i < |rooms| && (r < 0 || i < r) ==> rooms[i].id != roomId
  {
    if rooms == [] then -1
    else if rooms[0].id == roomId then 0
    else var r := FindRoom(rooms[1..], roomId); if r < 0 then -1 else r + 1
  }

  /** The first room whose players include the socket, or -1. */
  function FindPlayerRoom(rooms: seq<Room>, socketId: string): (r: int)
    ensures -1 <= r < |rooms|
    ensures r >= 0 ==> socketId in rooms[r].players
    ensures forall i :: 0 <= i < |rooms| && (r < 0 || i < r) ==> socketId !in rooms[i].players
  {
    if rooms == [] then -1
    else if socketId in rooms[0].players then 0
    else var r := FindPlayerRoom(rooms[1..], socketId); if r < 0 then -1 else r + 1
  }

  /** The first position of a player id in a list, or -1. */
  function IndexOf(players: seq<string>, socketId: string): (r: int)
    ensures -1 <= r < |players|
    ensures r >= 0 ==> players[r] == socketId
    ensures forall i :: 0 <= i < |players| && (r < 0 || i < r) ==> players[i] != socketId
  {
    if players == [] then -1
    else if players[0] == socketId then 0
    else var r := IndexOf(players[1..], socketId); if r < 0 then -1 else r + 1
  }

  /** The first player other than the socket, or -1. */
  function FindOpponent(players: seq<string>, socketId: string): (r: int)
    ensures -1 <= r < |players|
    ensures r >= 0 ==> players[r] != socketId
    ensures forall i :: 0 <= i < |players| && (r < 0 || i < r) ==> players[i] == socketId
  {
    if players == [] then -1
    else if players[0] != socketId then 0
    else var r := FindOpponent(players[1..], socketId); if r < 0 then -1 else r + 1
  }

  /** The registry and the events after a join. */
  datatype Outcome = Outcome(rooms: seq<Room>, events: seq<Event>)

  /** joinRoom as a specification: create the room when no room has the id; then
      add the caller if the room has fewer than two players (announcing the start
      when that makes two), or tell the caller the room is full. */
  function Joined(rooms: seq<Room>, socketId: string, roomId: string): Outcome
  {
    var found := FindRoom(rooms, roomId);
    var withRoom := if found < 0 then rooms + [Room(roomId, [])] else rooms;
    var i := if found < 0 then |rooms| else found;
    var room := withRoom[i];
    if |room.players| < 2 then
      var players := room.players + [socketId];
      Outcome(withRoom[i := room.(players := players)], if |players| == 2 then [StartGame(roomId)] else [])
    else Outcome(withRoom, [RoomFull(socketId, roomId)])
  }

  /** What a join does: an unknown id gets a new room at the end holding just the
      caller; a full room leaves the registry unchanged and answers roomFull; the
      start is announced exactly when the room had one player; every other room
      is left as it was; and a valid registry stays valid. */
  lemma JoinedProperties(rooms: seq<Room>, socketId: string, roomId: string)
    requires RegistryValid(rooms)
    ensures var o := Joined(rooms, socketId, roomId);
            FindRoom(rooms, roomId) < 0 ==> o == Outcome(rooms + [Room(roomId, [socketId])], [])
    ensures var o := Joined(rooms, socketId, roomId);
            var i := FindRoom(rooms, roomId);
            i >= 0 && |rooms[i].players| >= 2 ==> o == Outcome(rooms, [RoomFull(socketId, roomId)])
    ensures var o := Joined(rooms, socketId, roomId);
            var i := FindRoom(rooms, roomId);
            i >= 0 && |rooms[i].players| < 2 ==>
              o.rooms == rooms[i := Room(roomId, rooms[i].players + [socketId])] &&
              (o.events == [StartGame(roomId)] <==> |rooms[i].players| == 1) &&
              (o.events == [] <==> |rooms[i].players| == 0)
    ensures RegistryValid(Joined(rooms, socketId, roomId).rooms)
  {
    if FindRoom(rooms, roomId) < 0 {
      assert [] + [socketId] == [socketId];
      assert (rooms + [Room(roomId, [])])[|rooms| := Room(roomId, [socketId])] == rooms + [Room(roomId, [socketId])];
    }
  }

  /** A socket can join the same room twice, and then the game starts with one
      player on both sides. */
  lemma JoinTwice()
    ensures Joined([Room("A", ["s"])], "s", "A") == Outcome([Room("A", ["s", "s"])], [StartGame("A")])
  {
    assert FindRoom([Room("A", ["s"])], "A") == 0;
    assert ["s"] + ["s"] == ["s", "s"];
  }

  /** The players' list without the entry at index (splice(index, 1)). */
  function Remove(players: seq<string>, index: int): (r: seq<string>)
    requires 0 <= index < |players|
    ensures |r| == |players| - 1
    ensures forall i :: 0 <= i < |r| ==> r[i] == if i < index then players[i] else players[i + 1]
  {
    players[..index] + players[index + 1..]
  }

  /** The disconnect handler's forEach from position k, with len the length the
      iteration fixed when it started: a position past the current end is skipped;
      a room holding the socket loses its first entry for it, is deleted when that
      leaves it empty (the rooms after it move down one place, and the iteration
      still goes on at k + 1), and otherwise tells a lone remaining player the
      opponent has gone. */
  function Departed(rooms: seq<Room>, socketId: string, k: nat, len: nat): (o: Outcome)
    decreases len - k
  {
    if k >= len then Outcome(rooms, [])
    else if k >= |rooms| then Departed(rooms, socketId, k + 1, len)
    else
      var room := rooms[k];
      var index := IndexOf(room.players, socketId);
      if index < 0 then Departed(rooms, socketId, k + 1, len)
      else
        var players := Remove(room.players, index);
        if |players| == 0 then Departed(rooms[..k] + rooms[k + 1..], socketId, k + 1, len)
        else
          var rest := Departed(rooms[k := room.(players := players)], socketId, k + 1, len);
          Outcome(rest.rooms, (if |players| == 1 then [OpponentDisconnected(players[0])] else []) + rest.events)
  }

  /** One turn of the disconnect loop over the rooms: the room at position k loses
      the socket, is dropped when it empties, and a lone remaining player is told. */
  method DepartStep(rooms: seq<Room>, socketId: string, k: nat, len: nat) returns (next: seq<Room>, sent: seq<Event>)
    requires k < len
    ensures var d := Departed(next, socketId, k + 1, len);
            Departed(rooms, socketId, k, len) == Outcome(d.rooms, sent + d.events)
  {
    next, sent := rooms, [];
    if k < |rooms| {
      var room := rooms[k];
      var index := IndexOf(room.players, socketId);
      if index > -1 {
        var players := Remove(room.players, index);
        if |players| == 0 {
          next := rooms[..k] + rooms[k + 1..];
        } else {
          next := rooms[k := room.(players := players)];
          if |players| == 1 {
            sent := [OpponentDisconnected(players[0])];
          }
        }
      }
    }
  }

  /** When no room from position k on holds the socket, the rest of the iteration
      changes nothing and sends nothing. */
  lemma {:induction false} DepartedUntouched(rooms: seq<Room>, socketId: string, k: nat, len: nat)
    requires forall i :: k <= i < |rooms| ==> socketId !in rooms[i].players
    ensures Departed(rooms, socketId, k, len) == Outcome(rooms, [])
    decreases len - k
  {
    if k < len {
      DepartedUntouched(rooms, socketId, k + 1, len);
    }
  }

  /** A socket that is in no room leaves the registry as it was. */
  lemma DisconnectStranger(rooms: seq<Room>, socketId: string)
    requires FindPlayerRoom(rooms, socketId) < 0
    ensures Departed(rooms, socketId, 0, |rooms|) == Outcome(rooms, [])
  {
    DepartedUntouched(rooms, socketId, 0, |rooms|);
  }

  lemma {:induction false} DepartedSkips(rooms: seq<Room>, socketId: string, k: nat, j: nat, len: nat)
    requires k <= j <= len && j <= |rooms|
    requires forall i :: k <= i < j ==> socketId !in rooms[i].players
    ensures Departed(rooms, socketId, k, len) == Departed(rooms, socketId, j, len)
    decreases j - k
  {
    if k < j {
      DepartedSkips(rooms, socketId, k + 1, j, len);
    }
  }

  /** A socket that is the only player of one room and in no other room: that
      room is deleted, and nobody is told. */
  lemma DisconnectLastPlayer(rooms: seq<Room>, socketId: string, j: nat)
    requires j < |rooms| && rooms[j].players == [socketId]
    requires forall i :: 0 <= i < |rooms| && i != j ==> socketId !in rooms[i].players
    ensures Departed(rooms, socketId, 0, |rooms|) == Outcome(rooms[..j] + rooms[j + 1..], [])
  {
    DepartedSkips(rooms, socketId, 0, j, |rooms|);
    assert IndexOf(rooms[j].players, socketId) == 0;
    var after := rooms[..j] + rooms[j + 1..];
    assert forall i :: j + 1 <= i < |after| ==> after[i] == rooms[i + 1];
    DepartedUntouched(after, socketId, j + 1, |rooms|);
  }

  /** A socket that shares one room with another player and is in no other room:
      the room keeps just the other player, who is told the opponent has gone. */
  lemma DisconnectFromPair(rooms: seq<Room>, socketId: string, j: nat)
    requires j < |rooms| && |rooms[j].players| == 2
    requires socketId in rooms[j].players && rooms[j].players[0] != rooms[j].players[1]
    requires forall i :: 0 <= i < |rooms| && i != j ==> socketId !in rooms[i].players
    ensures var other := if rooms[j].players[0] == socketId then rooms[j].players[1] else rooms[j].players[0];
            Departed(rooms, socketId, 0, |rooms|) ==
              Outcome(rooms[j := Room(rooms[j].id, [other])], [OpponentDisconnected(other)])
  {
    DepartedSkips(rooms, socketId, 0, j, |rooms|);
    var other := if rooms[j].players[0] == socketId then rooms[j].players[1] else rooms[j].players[0];
    var index := IndexOf(rooms[j].players, socketId);
    assert Remove(rooms[j].players, index) == [other];
    var after := rooms[j := Room(rooms[j].id, [other])];
    DepartedUntouched(after, socketId, j + 1, |rooms|);
  }

  /** The iteration never breaks the registry's invariant. */
  lemma {:induction false} DepartedValid(rooms: seq<Room>, socketId: string, k: nat, len: nat)
    requires RegistryValid(rooms)
    ensures RegistryValid(Departed(rooms, socketId, k, len).rooms)
    decreases len - k
  {
    if k < len && k < |rooms| {
      var room := rooms[k];
      var index := IndexOf(room.players, socketId);
      if index >= 0 {
        var players := Remove(room.players, index);
        if |players| == 0 {
          var after := rooms[..k] + rooms[k + 1..];
          assert forall i :: 0 <= i < |after| ==> after[i] == rooms[if i < k then i else i + 1];
          DepartedValid(after, socketId, k + 1, len);
        } else {
          DepartedValid(rooms[k := room.(players := players)], socketId, k + 1, len);
        }
      } else {
        DepartedValid(rooms, socketId, k + 1, len);
      }
    } else if k < len {
      DepartedValid(rooms, socketId, k + 1, len);
    }
  }

  /** The deletion of a room makes the iteration skip the room after it: a socket
      that joined room A and then room B, which t joined too, disconnects; A is
      deleted, B is never visited, so the socket stays in B and t is never told.
      The registry arises from three joins on an empty server. */
  lemma DisconnectSkipsNextRoom()
    ensures var r1 := Joined([], "s", "A");
            var r2 := Joined(r1.rooms, "s", "B");
            var r3 := Joined(r2.rooms, "t", "B");
            r3 == Outcome([Room("A", ["s"]), Room("B", ["s", "t"])], [StartGame("B")])
    ensures Departed([Room("A", ["s"]), Room("B", ["s", "t"])], "s", 0, 2) == Outcome([Room("B", ["s", "t"])], [])
  {
    var r1 := Joined([], "s", "A");
    assert [] + ["s"] == ["s"];
    assert [Room("A", [])][0 := Room("A", ["s"])] == [Room("A", ["s"])];
    assert r1 == Outcome([Room("A", ["s"])], []);
    var r2 := Joined(r1.rooms, "s", "B");
    assert FindRoom(r1.rooms, "B") == -1;
    assert [Room("A", ["s"]), Room("B", [])][1 := Room("B", ["s"])] == [Room("A", ["s"]), Room("B", ["s"])];
    assert r2 == Outcome([Room("A", ["s"]), Room("B", ["s"])], []);
    assert FindRoom(r2.rooms, "B") == 1;
    assert ["s"] + ["t"] == ["s", "t"];
    var rooms := [Room("A", ["s"]), Room("B", ["s", "t"])];
    assert IndexOf(rooms[0].players, "s") == 0;
    assert Remove(rooms[0].players, 0) == [];
    assert rooms[..0] + rooms[1..] == [Room("B", ["s", "t"])];
    assert Departed([Room("B", ["s", "t"])], "s", 1, 2) == Outcome([Room("B", ["s", "t"])], []);
  }

  /** The relay server's room registry. */
  class RoomRegistry {
    var rooms: seq<Room>

    ghost predicate Valid()
      reads this
    {
      RegistryValid(rooms)
    }

    constructor ()
      ensures Valid() && rooms == []
    {
      rooms := [];
    }

    /** The joinRoom handler, as Joined describes. */
    method JoinRoom(socketId: string, roomId: string) returns (events: seq<Event>)
      requires Valid()
      modifies this
      ensures Valid()
      ensures Outcome(rooms, events) == Joined(old(rooms), socketId, roomId)
    {
      JoinedProperties(rooms, socketId, roomId);
      var i := FindRoom(rooms, roomId);
      if i < 0 {
        rooms := rooms + [Room(roomId, [])];
        i := |rooms| - 1;
      }
      var room := rooms[i];
      if |room.players| < 2 {
        rooms := rooms[i := room.(players := room.players + [socketId])];
        events := if |room.players| + 1 == 2 then [StartGame(roomId)] else [];
      } else {
        events := [RoomFull(socketId, roomId)];
      }
    }

    /** The updateField handler: the field goes, unchanged, to a player other than
        the sender in the first room that holds the sender; nothing is sent when
        the sender is in no room or has no opponent there. */
    method UpdateField(socketId: string, field: Field) returns (events: seq<Event>)
      ensures var i := FindPlayerRoom(rooms, socketId);
              events == [] <==> i < 0 || forall p :: p in rooms[i].players ==> p == socketId
      ensures events != [] ==>
                var i := FindPlayerRoom(rooms, socketId);
                |events| == 1 && events[0].OpponentFieldUpdate? && events[0].field == field &&
                events[0].to != socketId && events[0].to in rooms[i].players
    {
      var i := FindPlayerRoom(rooms, socketId);
      events := [];
      if i >= 0 {
        var o := FindOpponent(rooms[i].players, socketId);
        if o >= 0 {
          events := [OpponentFieldUpdate(rooms[i].players[o], field)];
          assert rooms[i].players[o] in rooms[i].players;
        } else {
          forall p | p in rooms[i].players
            ensures p == socketId
          {
            var n :| 0 <= n < |rooms[i].players| && rooms[i].players[n] == p;
          }
        }
      }
    }

    /** The sendNuisancePuyos handler: the amount goes, unchanged, to a player other
        than the sender in the first room that holds the sender; nothing is sent
        when the sender is in no room or has no opponent there. */
    method SendNuisancePuyos(socketId: string, nuisancePuyos: int) returns (events: seq<Event>)
      ensures var i := FindPlayerRoom(rooms, socketId);
              events == [] <==> i < 0 || forall p :: p in rooms[i].players ==> p == socketId
      ensures events != [] ==>
                var i := FindPlayerRoom(rooms, socketId);
                |events| == 1 && events[0].ReceiveNuisancePuyos? && events[0].nuisancePuyos == nuisancePuyos &&
                events[0].to != socketId && events[0].to in rooms[i].players
    {
      var i := FindPlayerRoom(rooms, socketId);
      events := [];
      if i >= 0 {
        var o := FindOpponent(rooms[i].players, socketId);
        if o >= 0 {
          events := [ReceiveNuisancePuyos(rooms[i].players[o], nuisancePuyos)];
          assert rooms[i].players[o] in rooms[i].players;
        } else {
          forall p | p in rooms[i].players
            ensures p == socketId
          {
            var n :| 0 <= n < |rooms[i].players| && rooms[i].players[n] == p;
          }
        }
      }
    }

    /** The disconnect handler, as Departed describes from position 0 over the
        length the registry had when the iteration started. */
    method Disconnect(socketId: string) returns (events: seq<Event>)
      requires Valid()
      modifies this
      ensures Valid()
      ensures Outcome(rooms, events) == Departed(old(rooms), socketId, 0, |old(rooms)|)
    {
      DepartedValid(rooms, socketId, 0, |rooms|);
      var len := |rooms|;
      events := [];
      var k := 0;
      while k < len
        invariant 0 <= k <= len
        invariant var d := Departed(rooms, socketId, k, len);
                  Departed(old(rooms), socketId, 0, len) == Outcome(d.rooms, events + d.events)
      {
        ghost var before := events;
        var next, sent := DepartStep(rooms, socketId, k, len);
        rooms := next;
        events := events + sent;
        ghost var d := Departed(rooms, socketId, k + 1, len);
        assert before + (sent + d.events) == events + d.events;
        k := k + 1;
      }
    }
  }
}
