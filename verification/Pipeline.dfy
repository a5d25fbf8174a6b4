/** One message on its way through the middlewares, as the context object whose `Next` counts
    up: the chain visits its stages in order, each at most once, and what it does to the rooms
    and the connection is what `Server` says. Rooms are values here; `LobbyRoom` is the object
    that computes them. */
module Pipeline {
  import opened Bytes
  import opened Tables
  import opened Lobby
  import opened LobbyRuns
  import opened Server

  datatype Stage = FatalStage | UserStage | RoomStage | Endpoint

  const CHAIN := [FatalStage, UserStage, RoomStage, Endpoint]

  const S_INSTRUCTIONS := 12

  /** The rooms after an event in one of them. */
  function RoomsThen(rooms: seq<Lobby>, re: Option<(nat, Event)>): seq<Lobby>
    requires re.Some? ==> re.value.0 < |rooms| && Possible(rooms[re.value.0], re.value.1)
  {
    if re.None? then rooms else rooms[re.value.0 := After(rooms[re.value.0], re.value.1)]
  }

  /** What the endpoint sends to the users of its room; a leave is handled after it. */
  ghost function EndpointSends(l: Lobby, u: User, m: Message): seq<Send>
    requires Admissible(l)
  {
    match EndpointEvent(u, m)
    case None => []
    case Some(e) => if e.LeaveRoom? then [] else Sends(l, e)
  }

  /** The rooms after the endpoint; a leave is handled after it. */
  function EndpointRooms(rooms: seq<Lobby>, conn: Conn, m: Message): seq<Lobby>
    requires conn.user.Some? && conn.room.Some? && conn.room.value < |rooms| && Admissible(rooms[conn.room.value])
  {
    match EndpointEvent(conn.user.value, m)
    case None => rooms
    case Some(e) =>
      if e.LeaveRoom? then rooms else rooms[conn.room.value := After(rooms[conn.room.value], e)]
  }

  /** What a message that is no join sends: the endpoint's, or the leave's after it. */
  ghost function PlainSends(l: Lobby, u: User, m: Message): seq<Send>
    requires Admissible(l)
  {
    match EndpointEvent(u, m)
    case None => []
    case Some(e) => Sends(l, e)
  }

  /** Whether the endpoint reports success. */
  predicate EndpointOk(l: Lobby, u: User, m: Message)
    requires Admissible(l)
  {
    if m.instruction >= S_INSTRUCTIONS then false
    else
      match EndpointEvent(u, m)
      case None => true
      case Some(e) => Succeeds(l, e)
  }

  /** Every event the message can cause is possible: rooms are sound and a new user sits nowhere. */
  predicate Handleable(rooms: seq<Lobby>, conn: Conn, m: Message) {
    && (conn.room.Some? ==> conn.user.Some? && conn.room.value < |rooms|)
    && (m.instruction != S_JOIN_ROOM && conn.user.Some? ==> conn.room.Some?)
    && forall r :: 0 <= r < |rooms| ==>
         Admissible(rooms[r]) && (m.auth.Some? ==> !IsPlayer(rooms[r].table, m.auth.value))
  }

  lemma {:induction false} EventIsPossible(rooms: seq<Lobby>, conn: Conn, m: Message)
    requires Handleable(rooms, conn, m)
    ensures var re := RoomEvent(conn, m, |rooms|);
      && (re.Some? ==> re.value.0 < |rooms| && Possible(rooms[re.value.0], re.value.1))
      && (re.Some? && re.value.1.JoinRoom? ==> m.auth == Some(re.value.1.user))
  {
  }

  ghost predicate JoinsNow(rooms: seq<Lobby>, conn: Conn, m: Message)
    requires Handleable(rooms, conn, m)
  {
    EventIsPossible(rooms, conn, m);
    var re := RoomEvent(conn, m, |rooms|);
    m.instruction == S_JOIN_ROOM && re.Some? && Succeeds(rooms[re.value.0], re.value.1)
  }

  /** The message gets past the gate and, if it is a join, succeeds. */
  ghost predicate Arrives(rooms: seq<Lobby>, conn: Conn, m: Message)
    requires Handleable(rooms, conn, m)
  {
    Gate(conn, m).Some? && (m.instruction == S_JOIN_ROOM ==> JoinsNow(rooms, conn, m))
  }

  ghost function RoomsOut(rooms: seq<Lobby>, conn: Conn, m: Message): seq<Lobby>
    requires Handleable(rooms, conn, m)
  {
    EventIsPossible(rooms, conn, m);
    RoomsThen(rooms, RoomEvent(conn, m, |rooms|))
  }

  /** Everything a message makes the server send to users of rooms, in order. */
  ghost function SendsOut(rooms: seq<Lobby>, conn: Conn, m: Message): seq<Send>
    requires Handleable(rooms, conn, m)
  {
    EventIsPossible(rooms, conn, m);
    match RoomEvent(conn, m, |rooms|)
    case Some((r, e)) => Sends(rooms[r], e)
    case None => []
  }

  /** For a message that is no join, the one room touched is the connection's own. */
  lemma {:induction false} PlainMessage(rooms: seq<Lobby>, conn: Conn, m: Message)
    requires Handleable(rooms, conn, m) && m.instruction != S_JOIN_ROOM && conn.user.Some?
    ensures Arrives(rooms, conn, m) && StopAt(rooms, conn, m) == 4
    ensures ConnAfter(conn, m, JoinsNow(rooms, conn, m)) == conn.(open := m.instruction != S_FATAL_ERROR)
    ensures Admissible(rooms[conn.room.value])
    ensures RoomsOut(rooms, conn, m) ==
      match EndpointEvent(conn.user.value, m)
      case None => rooms
      case Some(e) => rooms[conn.room.value := After(rooms[conn.room.value], e)]
    ensures SendsOut(rooms, conn, m) == PlainSends(rooms[conn.room.value], conn.user.value, m)
  {
    EventIsPossible(rooms, conn, m);
  }

  /** A leave message does nothing at its endpoint; no other message does anything after it. */
  lemma {:induction false} EndpointThenLeave(rooms: seq<Lobby>, conn: Conn, m: Message)
    requires conn.user.Some? && conn.room.Some? && conn.room.value < |rooms| && Admissible(rooms[conn.room.value])
    ensures m.instruction == S_LEAVE_ROOM ==>
      && EndpointEvent(conn.user.value, m) == Some(LeaveRoom(conn.user.value)) && EndpointRooms(rooms, conn, m) == rooms
      && EndpointSends(rooms[conn.room.value], conn.user.value, m) == []
      && PlainSends(rooms[conn.room.value], conn.user.value, m)
           == Sends(rooms[conn.room.value], LeaveRoom(conn.user.value))
    ensures m.instruction != S_LEAVE_ROOM ==>
      && PlainSends(rooms[conn.room.value], conn.user.value, m)
           == EndpointSends(rooms[conn.room.value], conn.user.value, m)
      && EndpointRooms(rooms, conn, m) ==
           match EndpointEvent(conn.user.value, m)
           case None => rooms
           case Some(e) => rooms[conn.room.value := After(rooms[conn.room.value], e)]
  {
  }

  /** A join that got past the gate arrives exactly when it succeeds. */
  lemma {:induction false} JoinMessage(rooms: seq<Lobby>, conn: Conn, m: Message)
    requires Handleable(rooms, conn, m) && m.instruction == S_JOIN_ROOM && Gate(conn, m).Some?
    ensures Arrives(rooms, conn, m) <==> JoinsNow(rooms, conn, m)
    ensures StopAt(rooms, conn, m) == if JoinsNow(rooms, conn, m) then 4 else 3
    ensures ConnAfter(conn, m, true) == Conn(Gate(conn, m), Some(ReadJoin(m.data).value.roomId), true)
    ensures ConnAfter(conn, m, false) == Conn(Gate(conn, m), conn.room, false)
  {
  }

  /** The stage after the last one visited. */
  ghost function StopAt(rooms: seq<Lobby>, conn: Conn, m: Message): (k: nat)
    requires Handleable(rooms, conn, m)
    ensures k <= 4
  {
    if Gate(conn, m).None? then 2 else if Arrives(rooms, conn, m) then 4 else 3
  }

  /** A message turned away at the gate changes and sends nothing. */
  lemma {:induction false} TurnedAway(rooms: seq<Lobby>, conn: Conn, m: Message)
    requires Handleable(rooms, conn, m) && Gate(conn, m).None?
    ensures RoomsOut(rooms, conn, m) == rooms && SendsOut(rooms, conn, m) == []
    ensures !Arrives(rooms, conn, m) && StopAt(rooms, conn, m) == 2
    ensures ConnAfter(conn, m, JoinsNow(rooms, conn, m)) == conn.(open := false)
  {
  }

  /** Past the gate, with the user in the payload, the message means what it meant before. */
  lemma {:induction false} PastTheGate(rooms: seq<Lobby>, conn: Conn, m: Message)
    requires Handleable(rooms, conn, m) && Gate(conn, m).Some?
    ensures var conn' := conn.(user := Gate(conn, m));
      && Handleable(rooms, conn', m) && Gate(conn', m) == Gate(conn, m)
      && RoomsOut(rooms, conn', m) == RoomsOut(rooms, conn, m) && SendsOut(rooms, conn', m) == SendsOut(rooms, conn, m)
      && JoinsNow(rooms, conn', m) == JoinsNow(rooms, conn, m) && Arrives(rooms, conn', m) == Arrives(rooms, conn, m)
      && StopAt(rooms, conn', m) == StopAt(rooms, conn, m)
      && ConnAfter(conn', m, JoinsNow(rooms, conn, m)) == ConnAfter(conn, m, JoinsNow(rooms, conn, m))
  {
    SameRoomEvent(conn, m, |rooms|);
  }

  lemma {:induction false} SameRoomEvent(conn: Conn, m: Message, roomCount: nat)
    requires Gate(conn, m).Some?
    ensures RoomEvent(conn.(user := Gate(conn, m)), m, roomCount) == RoomEvent(conn, m, roomCount)
  {
  }

  /** The endpoint of a join does nothing. */
  lemma {:induction false} JoinEndpointIsEmpty(l: Lobby, u: User, m: Message)
    requires Admissible(l) && m.instruction == S_JOIN_ROOM
    ensures EndpointEvent(u, m).None? && PlainSends(l, u, m) == []
  {
  }

  class Context {
    const m: Message
    var rooms: seq<Lobby>
    var conn: Conn
    var mdwIdx: int
    var visited: seq<Stage>
    /** Everything sent to users of rooms so far, in order. */
    ghost var sent: seq<Send>

    constructor (m: Message, rooms: seq<Lobby>, conn: Conn)
      ensures this.m == m && this.rooms == rooms && this.conn == conn
      ensures mdwIdx == -1 && visited == [] && sent == []
    {
      this.m, this.rooms, this.conn, mdwIdx, visited, sent := m, rooms, conn, -1, [], [];
    }

    /** There is a user and a room of its own for an endpoint to find. */
    ghost predicate AtEndpoint()
      reads this
    {
      conn.user.Some? && conn.room.Some? && conn.room.value < |rooms| && Admissible(rooms[conn.room.value])
    }

    /** Runs the stage after the current one; after the last middleware, the endpoint. */
    method Next() returns (ok: bool)
      requires -1 <= mdwIdx <= 2
      requires mdwIdx <= 1 ==> Handleable(rooms, conn, m) && conn.open
      requires mdwIdx == 1 ==> conn.user.Some? && conn.user == Gate(conn, m)
      requires mdwIdx == 2 ==> AtEndpoint()
      modifies this
      ensures old(mdwIdx) <= 1 ==>
        && rooms == RoomsOut(old(rooms), old(conn), m)
        && sent == old(sent) + SendsOut(old(rooms), old(conn), m)
        && conn == ConnAfter(old(conn), m, JoinsNow(old(rooms), old(conn), m)).(open := true)
        && (ok <==> Arrives(old(rooms), old(conn), m))
        && visited == old(visited) + CHAIN[old(mdwIdx) + 1..StopAt(old(rooms), old(conn), m)]
      ensures old(mdwIdx) == 2 ==>
        && conn == old(conn) && visited == old(visited) + [Endpoint]
        && rooms == EndpointRooms(old(rooms), conn, m)
        && sent == old(sent) + EndpointSends(old(rooms)[conn.room.value], conn.user.value, m)
        && (ok <==> EndpointOk(old(rooms)[conn.room.value], conn.user.value, m))
      decreases 3 - mdwIdx, 0
    {
      mdwIdx := mdwIdx + 1;
      if mdwIdx == 0 {
        ok := ProcessFatal();
      } else if mdwIdx == 1 {
        ok := ProcessUser();
      } else if mdwIdx == 2 {
        ok := ProcessRoom();
      } else {
        ok := Distribute();
      }
    }

    method ProcessFatal() returns (ok: bool)
      requires Handleable(rooms, conn, m) && conn.open && mdwIdx == 0
      modifies this
      ensures rooms == RoomsOut(old(rooms), old(conn), m)
      ensures sent == old(sent) + SendsOut(old(rooms), old(conn), m)
      ensures conn == ConnAfter(old(conn), m, JoinsNow(old(rooms), old(conn), m)).(open := true)
      ensures ok <==> Arrives(old(rooms), old(conn), m)
      ensures visited == old(visited) + CHAIN[0..StopAt(old(rooms), old(conn), m)]
      decreases 3 - mdwIdx, 1
    {
      visited := visited + [FatalStage];
      ok := Next();
    }

    /** Only a join that authenticates sets the user; without a user the message stops here. */
    method ProcessUser() returns (ok: bool)
      requires Handleable(rooms, conn, m) && conn.open && mdwIdx == 1
      modifies this
      ensures rooms == RoomsOut(old(rooms), old(conn), m)
      ensures sent == old(sent) + SendsOut(old(rooms), old(conn), m)
      ensures conn == ConnAfter(old(conn), m, JoinsNow(old(rooms), old(conn), m)).(open := true)
      ensures ok <==> Arrives(old(rooms), old(conn), m)
      ensures visited == old(visited) + CHAIN[1..StopAt(old(rooms), old(conn), m)]
      decreases 3 - mdwIdx, 1
    {
      visited := visited + [UserStage];
      assert sent + [] == sent;
      if Gate(conn, m).None? {
        TurnedAway(rooms, conn, m);
      } else {
        PastTheGate(rooms, conn, m);
      }
      if m.instruction == S_JOIN_ROOM {
        if ReadJoin(m.data).None? || m.auth.None? {
          return false;
        }
        conn := conn.(user := m.auth);
      }
      if conn.user.None? {
        return false;
      }
      ok := Next();
    }

    method ProcessRoom() returns (ok: bool)
      requires Handleable(rooms, conn, m) && conn.open && mdwIdx == 2
      requires conn.user.Some? && conn.user == Gate(conn, m)
      modifies this
      ensures rooms == RoomsOut(old(rooms), old(conn), m)
      ensures sent == old(sent) + SendsOut(old(rooms), old(conn), m)
      ensures conn == ConnAfter(old(conn), m, JoinsNow(old(rooms), old(conn), m)).(open := true)
      ensures ok <==> Arrives(old(rooms), old(conn), m)
      ensures visited == old(visited) + CHAIN[2..StopAt(old(rooms), old(conn), m)]
      decreases 3 - mdwIdx, 3
    {
      visited := visited + [RoomStage];
      assert CHAIN[2..3] == [RoomStage] && CHAIN[2..4] == [RoomStage] + CHAIN[3..4];
      if m.instruction == S_JOIN_ROOM {
        ok := ProcessJoin();
      } else {
        ok := ProcessPlain();
      }
    }

    method ProcessJoin() returns (ok: bool)
      requires Handleable(rooms, conn, m) && conn.open && mdwIdx == 2
      requires conn.user.Some? && conn.user == Gate(conn, m)
      requires m.instruction == S_JOIN_ROOM
      modifies this
      ensures rooms == RoomsOut(old(rooms), old(conn), m)
      ensures sent == old(sent) + SendsOut(old(rooms), old(conn), m)
      ensures conn == ConnAfter(old(conn), m, JoinsNow(old(rooms), old(conn), m)).(open := true)
      ensures ok <==> Arrives(old(rooms), old(conn), m)
      ensures visited == old(visited) + CHAIN[3..StopAt(old(rooms), old(conn), m)]
      decreases 3 - mdwIdx, 2
    {
      JoinMessage(rooms, conn, m);
      ok := ReceiveJoinRoom();
      assert sent + [] == sent;
      if ok {
        JoinEndpointIsEmpty(rooms[conn.room.value], conn.user.value, m);
        CallEndpoint();
      }
    }

    method ProcessPlain() returns (ok: bool)
      requires Handleable(rooms, conn, m) && conn.open && mdwIdx == 2
      requires conn.user.Some? && conn.user == Gate(conn, m)
      requires m.instruction != S_JOIN_ROOM
      modifies this
      ensures rooms == RoomsOut(old(rooms), old(conn), m)
      ensures sent == old(sent) + SendsOut(old(rooms), old(conn), m)
      ensures conn == ConnAfter(old(conn), m, JoinsNow(old(rooms), old(conn), m)).(open := true)
      ensures ok <==> Arrives(old(rooms), old(conn), m)
      ensures visited == old(visited) + CHAIN[3..StopAt(old(rooms), old(conn), m)]
      decreases 3 - mdwIdx, 2
    {
      PlainMessage(rooms, conn, m);
      CallEndpoint();
      ok := true;
    }

    /** What the endpoint reports is ignored. A leave message empties the user's place afterwards. */
    method CallEndpoint()
      requires mdwIdx == 2 && AtEndpoint()
      modifies this
      ensures conn == old(conn) && visited == old(visited) + [Endpoint]
      ensures sent == old(sent) + PlainSends(old(rooms)[conn.room.value], conn.user.value, m)
      ensures rooms ==
        match EndpointEvent(conn.user.value, m)
        case None => old(rooms)
        case Some(e) => old(rooms)[conn.room.value := After(old(rooms)[conn.room.value], e)]
      decreases 3 - mdwIdx, 1
    {
      EndpointThenLeave(rooms, conn, m);
      var _ := Next();
      if m.instruction == S_LEAVE_ROOM {
        sent := sent + Sends(rooms[conn.room.value], LeaveRoom(conn.user.value));
        rooms := rooms[conn.room.value := After(rooms[conn.room.value], LeaveRoom(conn.user.value))];
      }
    }

    method ReceiveJoinRoom() returns (ok: bool)
      requires Handleable(rooms, conn, m) && conn.open && conn.user == Gate(conn, m) && conn.user.Some?
      requires m.instruction == S_JOIN_ROOM
      modifies this`rooms, this`conn, this`sent
      ensures rooms == RoomsOut(old(rooms), old(conn), m)
      ensures sent == old(sent) + SendsOut(old(rooms), old(conn), m)
      ensures ok <==> JoinsNow(old(rooms), old(conn), m)
      ensures ok ==> ReadJoin(m.data).Some? && ReadJoin(m.data).value.roomId < |rooms|
      ensures ok ==> Admissible(rooms[ReadJoin(m.data).value.roomId])
      ensures conn == if ok then old(conn).(room := Some(ReadJoin(m.data).value.roomId)) else old(conn)
    {
      EventIsPossible(rooms, conn, m);
      var j := ReadJoin(m.data).value;
      if j.roomId >= |rooms| {
        return false;
      }
      var l, e := rooms[j.roomId], JoinRoom(conn.user.value, j.role);
      rooms, sent := rooms[j.roomId := After(l, e)], sent + Sends(l, e);
      ok := Succeeds(l, e);
      if ok {
        conn := conn.(room := Some(j.roomId));
      }
    }

    /** The endpoints: they may only be called with a user and a room in the payloads. */
    method Distribute() returns (ok: bool)
      requires mdwIdx == 3 && AtEndpoint()
      modifies this`rooms, this`visited, this`sent
      ensures ok <==> EndpointOk(old(rooms)[conn.room.value], conn.user.value, m)
      ensures sent == old(sent) + EndpointSends(old(rooms)[conn.room.value], conn.user.value, m)
      ensures var r, u := conn.room.value, conn.user.value;
        && (m.instruction == 4 ==> rooms == old(rooms)[r := After(old(rooms)[r], PlayerReady(u))])
        && (m.instruction == 5 ==> rooms == old(rooms)[r := After(old(rooms)[r], PlayerStone(u, m.data))])
        && (m.instruction == 6 ==> rooms == old(rooms)[r := After(old(rooms)[r], PlayerRegret(u))])
        && (m.instruction !in {4, 5, 6} ==> rooms == old(rooms))
      ensures m.instruction in {0, 1, 3, 7, 8, 9, 10} ==> ok
      ensures m.instruction >= 12 ==> !ok
      ensures visited == old(visited) + [Endpoint]
      ensures rooms == EndpointRooms(old(rooms), conn, m)
    {
      visited := visited + [Endpoint];
      assert sent + [] == sent;
      if m.instruction >= S_INSTRUCTIONS {
        return false;
      }
      var r, u := conn.room.value, conn.user.value;
      var l := rooms[r];
      if m.instruction == S_READY {
        ok := Apply(r, l, PlayerReady(u));
      } else if m.instruction == S_PLAYER_STONE {
        ok := Apply(r, l, PlayerStone(u, m.data));
      } else if m.instruction == S_PLAYER_REGRET {
        ok := Apply(r, l, PlayerRegret(u));
      } else if m.instruction == S_USER_INFO {
        ok := Apply(r, l, AskInfo(u, m.data));
      } else if m.instruction == S_MESSAGE {
        ok := Apply(r, l, Say(u, m.data, m.now));
      } else {
        ok := true;
      }
    }

    /** An endpoint that acts on the room. */
    method Apply(r: nat, l: Lobby, e: Event) returns (ok: bool)
      requires r < |rooms| && rooms[r] == l && Possible(l, e)
      modifies this`rooms, this`sent
      ensures rooms == old(rooms)[r := After(l, e)] && sent == old(sent) + Sends(l, e)
      ensures ok <==> Succeeds(l, e)
    {
      rooms, sent := rooms[r := After(l, e)], sent + Sends(l, e);
      ok := Succeeds(l, e);
    }
  }

  /** One turn of a connection's request loop: the stages visited are a prefix of the chain, all
      of it exactly when the message reached an endpoint; otherwise the loop ends. */
  method Handle(m: Message, rooms: seq<Lobby>, conn: Conn)
    returns (rooms': seq<Lobby>, conn': Conn, visited: seq<Stage>, ghost sent: seq<Send>)
    requires Handleable(rooms, conn, m) && conn.open
    requires ConnInv(conn, |rooms|)
    ensures ConnInv(conn', |rooms'|)
    ensures rooms' == RoomsOut(rooms, conn, m)
    ensures sent == SendsOut(rooms, conn, m)
    ensures conn' == ConnAfter(conn, m, JoinsNow(rooms, conn, m))
    ensures visited <= CHAIN
    ensures visited == CHAIN <==> Arrives(rooms, conn, m)
    ensures visited == CHAIN ==> conn'.user.Some? && conn'.room.Some? && conn'.room.value < |rooms'|
    ensures visited != CHAIN ==> !conn'.open
    ensures visited ==
      if Gate(conn, m).None? then [FatalStage, UserStage]
      else if Arrives(rooms, conn, m) then [FatalStage, UserStage, RoomStage, Endpoint]
      else [FatalStage, UserStage, RoomStage]
  {
    var ctx := new Context(m, rooms, conn);
    var ok := ctx.Next();
    visited, sent := ctx.visited, ctx.sent;
    assert visited == CHAIN[..StopAt(rooms, conn, m)];
    assert CHAIN[..4] == CHAIN && CHAIN[..3] == [FatalStage, UserStage, RoomStage];
    assert CHAIN[..2] == [FatalStage, UserStage];
    rooms', conn' := ctx.rooms, ctx.conn.(open := ok && m.instruction != S_FATAL_ERROR);
  }

  function Lobbies(rooms: seq<History>): seq<Lobby> {
    seq(|rooms|, r requires 0 <= r < |rooms| => rooms[r].lobby)
  }

  /** A user object the database hands out now sits nowhere yet. */
  lemma {:induction false} NewUserIsNotSeated(s: System, id: nat, m: Message)
    requires SystemInv(s) && Enabled(s, Receive(id, m))
    ensures Handleable(Lobbies(s.rooms), s.conns[id], m)
  {
    var rooms := Lobbies(s.rooms);
    assert ConnInv(s.conns[id], |s.rooms|);
    forall r | 0 <= r < |rooms|
      ensures Admissible(rooms[r]) && (m.auth.Some? ==> !IsPlayer(rooms[r].table, m.auth.value))
    {
      assert RoomInv(s.rooms[r], s.used);
      if m.auth.Some? {
        SeatedAreThePlayers(rooms[r].table, m.auth.value);
      }
    }
  }

  lemma {:induction false} RoomsAgree(rooms: seq<History>, used: set<User>, re: Option<(nat, Event)>)
    requires RoomsInv(rooms, used)
    requires re.Some? ==> re.value.0 < |rooms| && (re.value.1.JoinRoom? ==> re.value.1.user !in used)
    requires re.Some? ==> Possible(rooms[re.value.0].lobby, re.value.1)
    ensures Lobbies(RoomsAfter(rooms, used, re)) == RoomsThen(Lobbies(rooms), re)
  {
    OneRoomChanges(rooms, used, re);
    var left, expected := RoomsAfter(rooms, used, re), RoomsThen(Lobbies(rooms), re);
    forall r | 0 <= r < |rooms|
      ensures Lobbies(left)[r] == expected[r]
    {
      if re.None? || r != re.value.0 {
        assert left[r] == rooms[r];
      }
    }
  }

  lemma {:induction false} JoinsAgree(s: System, id: nat, m: Message)
    requires SystemInv(s) && Enabled(s, Receive(id, m))
    requires Handleable(Lobbies(s.rooms), s.conns[id], m)
    ensures Joins(s, id, m) <==> JoinsNow(Lobbies(s.rooms), s.conns[id], m)
  {
    EventIsPossible(Lobbies(s.rooms), s.conns[id], m);
  }

  lemma {:induction false} RoomsOutAgree(rooms: seq<History>, used: set<User>, conn: Conn, m: Message)
    requires RoomsInv(rooms, used) && Handleable(Lobbies(rooms), conn, m)
    requires m.auth.Some? ==> m.auth.value !in used
    ensures var re := RoomEvent(conn, m, |rooms|);
      && (re.Some? ==> re.value.0 < |rooms| && (re.value.1.JoinRoom? ==> re.value.1.user !in used))
      && Lobbies(RoomsAfter(rooms, used, re)) == RoomsOut(Lobbies(rooms), conn, m)
  {
    var re := RoomEvent(conn, m, |rooms|);
    assert |Lobbies(rooms)| == |rooms|;
    assert re.Some? ==> re.value.0 < |rooms| && (re.value.1.JoinRoom? ==> re.value.1.user !in used) by {
      EventIsPossible(Lobbies(rooms), conn, m);
    }
    assert re.Some? ==> Possible(rooms[re.value.0].lobby, re.value.1) by {
      EventIsPossible(Lobbies(rooms), conn, m);
    }
    assert Lobbies(RoomsAfter(rooms, used, re)) == RoomsThen(Lobbies(rooms), re) by {
      RoomsAgree(rooms, used, re);
    }
  }

  /** What one turn of the loop computes is what the system's transition does. */
  lemma {:induction false} HandleIsReceive(s: System, id: nat, m: Message)
    requires SystemInv(s) && Enabled(s, Receive(id, m))
    ensures Handleable(Lobbies(s.rooms), s.conns[id], m)
    ensures Lobbies(Act(s, Receive(id, m)).rooms) == RoomsOut(Lobbies(s.rooms), s.conns[id], m)
    ensures Act(s, Receive(id, m)).conns[id] == ConnAfter(s.conns[id], m, JoinsNow(Lobbies(s.rooms), s.conns[id], m))
    ensures ReachesEndpoint(s, id, m) <==> Arrives(Lobbies(s.rooms), s.conns[id], m)
  {
    NewUserIsNotSeated(s, id, m);
    JoinsAgree(s, id, m);
    RoomsOutAgree(s.rooms, s.used, s.conns[id], m);
  }
}
