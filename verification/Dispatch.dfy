/** What messages do on the server, by their numbers and bytes, and a whole game played by
    messages alone. */
module Dispatch {
  import opened Bytes
  import opened Codec
  import opened Messages
  import opened Chess
  import opened Rules
  import opened Tables
  import opened Lobby
  import opened LobbyRuns
  import opened RoomEffects
  import opened Server
  import opened Pipeline

  // ---------- what a join request asks for ----------

  /** The server acts on the room and the role that the client wrote. */
  lemma {:induction false} JoinIsRead(j: JoinRequest)
    requires PutJoinRequest(j).Some?
    ensures ReadJoin(PutJoinRequest(j).value) == Some(JoinFields(j.roomId, j.role))
  {
    JoinRequestArrives(j);
  }

  /** What the server reads as a join request begins with the bytes of one: the room, a name, a
      password, the role. */
  lemma {:induction false} ReadJoinIsWritten(data: seq<byte>) returns (j: JoinRequest, rest: seq<byte>)
    requires ReadJoin(data).Some?
    ensures PutJoinRequest(j).Some? && data == PutJoinRequest(j).value + rest
    ensures ReadJoin(data) == Some(JoinFields(j.roomId, j.role))
  {
    var p := Decode(JOIN_REQUEST, data).value;
    Canonical(JOIN_REQUEST, data);
    var vs := p.part;
    assert Inhabits(vs[0], JOIN_REQUEST[0]) && Inhabits(vs[1], JOIN_REQUEST[1]);
    assert Inhabits(vs[2], JOIN_REQUEST[2]) && Inhabits(vs[3], JOIN_REQUEST[3]);
    CapacityOfWords();
    j := JoinRequest(vs[0].n, vs[1].bytes, vs[2].bytes, vs[3].n);
    rest := p.rest;
    JoinBytes(j, vs);
  }

  lemma {:induction false} JoinBytes(j: JoinRequest, vs: seq<Value>)
    requires InhabitAll(vs, JOIN_REQUEST) && vs == JoinValues(j) && Encode(JOIN_REQUEST, vs).Some?
    ensures PutJoinRequest(j) == Encode(JOIN_REQUEST, vs)
  {
    EncodesIffFits(JOIN_REQUEST, vs);
    assert FieldFits(JOIN_REQUEST[1], vs[1]) && FieldFits(JOIN_REQUEST[2], vs[2]);
    JoinRequestArrives(j);
    Canonical(JOIN_REQUEST, PutJoinRequest(j).value);
    var bs := Encode(JOIN_REQUEST, vs).value;
    assert bs + [] == bs;
  }

  // ---------- what the other messages do ----------

  /** The event in the user's room, by the number of the message. */
  function EventOf(u: User, m: Message): Option<Event> {
    match m.instruction
    case 2 => Some(AskInfo(u, m.data))
    case 3 => Some(LeaveRoom(u))
    case 4 => Some(PlayerReady(u))
    case 5 => Some(PlayerStone(u, m.data))
    case 6 => Some(PlayerRegret(u))
    case 11 => Some(Say(u, m.data, m.now))
    case _ => None
  }

  /** A connection with a user and a room. */
  predicate InRoom(s: System, id: nat, r: nat, u: User) {
    id in s.conns && s.conns[id].user == Some(u) && s.conns[id].room == Some(r)
  }

  /** A message of a connection with a user and a room makes that room take the event of its
      number and sends what that event sends; every other room, and the connection, stay as they
      are, but number 0 ends the connection. */
  lemma {:induction false} MessageActs(s: System, id: nat, m: Message, r: nat, u: User)
    requires SystemInv(s) && Enabled(s, Receive(id, m)) && InRoom(s, id, r, u) && m.instruction != 1
    ensures r < |s.rooms| && Handleable(Lobbies(s.rooms), s.conns[id], m)
    ensures var s', e := Act(s, Receive(id, m)), EventOf(u, m);
      && s'.conns == s.conns[id := Conn(Some(u), Some(r), m.instruction != 0)]
      && |s'.rooms| == |s.rooms|
      && (forall k :: 0 <= k < |s.rooms| && k != r ==> s'.rooms[k] == s.rooms[k])
      && (e.None? ==> s'.rooms[r] == s.rooms[r] && SendsOut(Lobbies(s.rooms), s.conns[id], m) == [])
      && (e.Some? ==>
            && Possible(s.rooms[r].lobby, e.value) && s'.rooms[r].lobby == After(s.rooms[r].lobby, e.value)
            && SendsOut(Lobbies(s.rooms), s.conns[id], m) == Sends(s.rooms[r].lobby, e.value))
  {
    assert ConnInv(s.conns[id], |s.rooms|);
    NewUserIsNotSeated(s, id, m);
    EventByNumber(s.conns[id], m, |s.rooms|, r, u);
    EventIsFresh(s, id, m);
    OneRoomChanges(s.rooms, s.used, RoomEvent(s.conns[id], m, |s.rooms|));
  }

  lemma {:induction false} MessageTakes(s: System, id: nat, m: Message, r: nat, u: User, e: Event)
    requires SystemInv(s) && Enabled(s, Receive(id, m)) && InRoom(s, id, r, u) && m.instruction !in {0, 1}
    requires EventOf(u, m) == Some(e)
    ensures r < |s.rooms| && Possible(s.rooms[r].lobby, e) && Handleable(Lobbies(s.rooms), s.conns[id], m)
    ensures var s' := Act(s, Receive(id, m));
      && s'.conns == s.conns[id := Conn(Some(u), Some(r), true)]
      && r < |s'.rooms| && s'.rooms[r].lobby == After(s.rooms[r].lobby, e)
    ensures SendsOut(Lobbies(s.rooms), s.conns[id], m) == Sends(s.rooms[r].lobby, e)
  {
    MessageActs(s, id, m, r, u);
  }

  lemma {:induction false} EventByNumber(conn: Conn, m: Message, roomCount: nat, r: nat, u: User)
    requires conn.user == Some(u) && conn.room == Some(r) && m.instruction != 1
    ensures RoomEvent(conn, m, roomCount) == (if EventOf(u, m).None? then None else Some((r, EventOf(u, m).value)))
    ensures ConnAfter(conn, m, false) == conn.(open := m.instruction != 0) == ConnAfter(conn, m, true)
  {
  }

  /** Without a user nothing but a join does anything: the connection ends. */
  lemma {:induction false} StrangerIsTurnedAway(s: System, id: nat, m: Message)
    requires SystemInv(s) && Enabled(s, Receive(id, m))
    requires if m.instruction == 1 then m.auth.None? || ReadJoin(m.data).None? else s.conns[id].user.None?
    ensures var s' := Act(s, Receive(id, m));
      s'.rooms == s.rooms && s'.conns == s.conns[id := s.conns[id].(open := false)]
  {
  }

  /** A join request, written by the client and authenticated as a new user, makes the room it
      names take that user in the role it names. The connection goes on, with that user and room,
      exactly if the join succeeds; else it ends, with the new user and the old room. */
  lemma {:induction false} JoinRequestActs(s: System, id: nat, m: Message, j: JoinRequest, u: User)
    requires SystemInv(s) && Enabled(s, Receive(id, m)) && PutJoinRequest(j).Some?
    requires m.instruction == 1 && m.data == PutJoinRequest(j).value && m.auth == Some(u)
    ensures var rooms, r, e := Act(s, Receive(id, m)).rooms, j.roomId as int, JoinRoom(u, j.role);
      && |rooms| == |s.rooms| && (forall k :: 0 <= k < |s.rooms| && k != r ==> rooms[k] == s.rooms[k])
      && (r < |s.rooms| ==> Possible(s.rooms[r].lobby, e) && rooms[r].lobby == After(s.rooms[r].lobby, e))
    ensures var s', r, e := Act(s, Receive(id, m)), j.roomId as int, JoinRoom(u, j.role);
      && s'.used == s.used + {u}
      && s'.conns == s.conns[id :=
           if r < |s.rooms| && Succeeds(s.rooms[r].lobby, e) then Conn(Some(u), Some(r), true)
           else Conn(Some(u), s.conns[id].room, false)]
  {
    JoinByBytes(s.conns[id], m, j, u, |s.rooms|);
    JoinMovesRoom(s, id, m, j, u);
    JoinMovesConn(s, id, m, j, u);
  }

  lemma {:induction false} JoinMovesConn(s: System, id: nat, m: Message, j: JoinRequest, u: User)
    requires SystemInv(s) && Enabled(s, Receive(id, m)) && PutJoinRequest(j).Some?
    requires m.instruction == 1 && m.data == PutJoinRequest(j).value && m.auth == Some(u)
    requires j.roomId < |s.rooms| ==> Possible(s.rooms[j.roomId].lobby, JoinRoom(u, j.role))
    ensures var s', r, e := Act(s, Receive(id, m)), j.roomId as int, JoinRoom(u, j.role);
      && s'.used == s.used + {u}
      && s'.conns == s.conns[id :=
           if r < |s.rooms| && Succeeds(s.rooms[r].lobby, e) then Conn(Some(u), Some(r), true)
           else Conn(Some(u), s.conns[id].room, false)]
  {
    JoinByBytes(s.conns[id], m, j, u, |s.rooms|);
    JoinsByBytes(s, id, m, j, u);
    ActOfReceive(s, id, m);
  }

  lemma {:induction false} ActOfReceive(s: System, id: nat, m: Message)
    requires SystemInv(s) && Enabled(s, Receive(id, m))
    ensures var s' := Act(s, Receive(id, m));
      && s'.conns == s.conns[id := ConnAfter(s.conns[id], m, Joins(s, id, m))]
      && s'.used == s.used + if m.auth.Some? then {m.auth.value} else {}
  {
  }

  /** It sends what that join sends. */
  lemma {:induction false} JoinRequestSends(s: System, id: nat, m: Message, j: JoinRequest, u: User)
    requires SystemInv(s) && Enabled(s, Receive(id, m)) && PutJoinRequest(j).Some?
    requires m.instruction == 1 && m.data == PutJoinRequest(j).value && m.auth == Some(u)
    ensures Handleable(Lobbies(s.rooms), s.conns[id], m)
    ensures j.roomId < |s.rooms| ==> Possible(s.rooms[j.roomId].lobby, JoinRoom(u, j.role))
    ensures SendsOut(Lobbies(s.rooms), s.conns[id], m) ==
      if j.roomId < |s.rooms| then Sends(s.rooms[j.roomId].lobby, JoinRoom(u, j.role)) else []
  {
    JoinByBytes(s.conns[id], m, j, u, |s.rooms|);
    NewUserIsNotSeated(s, id, m);
    JoinMovesRoom(s, id, m, j, u);
  }

  lemma {:induction false} JoinMovesRoom(s: System, id: nat, m: Message, j: JoinRequest, u: User)
    requires SystemInv(s) && Enabled(s, Receive(id, m)) && m.auth == Some(u)
    requires RoomEvent(s.conns[id], m, |s.rooms|) ==
      if j.roomId < |s.rooms| then Some((j.roomId as nat, JoinRoom(u, j.role))) else None
    ensures var rooms, e := Act(s, Receive(id, m)).rooms, JoinRoom(u, j.role);
      && |rooms| == |s.rooms| && (forall k :: 0 <= k < |s.rooms| && k != j.roomId ==> rooms[k] == s.rooms[k])
      && (j.roomId < |s.rooms| ==>
            Possible(s.rooms[j.roomId].lobby, e) && rooms[j.roomId].lobby == After(s.rooms[j.roomId].lobby, e))
  {
    EventIsFresh(s, id, m);
    OneRoomChanges(s.rooms, s.used, RoomEvent(s.conns[id], m, |s.rooms|));
  }

  lemma {:induction false} JoinByBytes(conn: Conn, m: Message, j: JoinRequest, u: User, roomCount: nat)
    requires PutJoinRequest(j).Some? && m.instruction == 1 && m.data == PutJoinRequest(j).value && m.auth == Some(u)
    ensures RoomEvent(conn, m, roomCount) ==
      if j.roomId < roomCount then Some((j.roomId as nat, JoinRoom(u, j.role))) else None
    ensures ConnAfter(conn, m, true) == Conn(Some(u), Some(j.roomId), true)
    ensures ConnAfter(conn, m, false) == Conn(Some(u), conn.room, false)
  {
    JoinIsRead(j);
  }

  lemma {:induction false} JoinsByBytes(s: System, id: nat, m: Message, j: JoinRequest, u: User)
    requires SystemInv(s) && Enabled(s, Receive(id, m)) && m.instruction == 1
    requires RoomEvent(s.conns[id], m, |s.rooms|) ==
      if j.roomId < |s.rooms| then Some((j.roomId as nat, JoinRoom(u, j.role))) else None
    requires j.roomId < |s.rooms| ==> Possible(s.rooms[j.roomId].lobby, JoinRoom(u, j.role))
    ensures Joins(s, id, m) <==> j.roomId < |s.rooms| && Succeeds(s.rooms[j.roomId].lobby, JoinRoom(u, j.role))
  {
  }

  /** A connection that ends makes its room take its user's leave. */
  lemma {:induction false} DisconnectActs(s: System, id: nat, r: nat, u: User)
    requires SystemInv(s) && InRoom(s, id, r, u)
    ensures r < |s.rooms| && Possible(s.rooms[r].lobby, LeaveRoom(u))
    ensures var s' := Act(s, Disconnect(id));
      && s'.conns == s.conns - {id} && s'.used == s.used && |s'.rooms| == |s.rooms|
      && (forall k :: 0 <= k < |s.rooms| && k != r ==> s'.rooms[k] == s.rooms[k])
      && s'.rooms[r].lobby == After(s.rooms[r].lobby, LeaveRoom(u))
  {
    assert ConnInv(s.conns[id], |s.rooms|);
    OneRoomChanges(s.rooms, s.used, LeaveEvent(s.conns[id]));
  }

  // ---------- a game by messages alone ----------

  /** The client's request to join as a player. */
  function JoinMessage(r: byte, u: User): Message {
    Message(1, PutJoinRequest(JoinRequest(r, u.name, [], 0x50)).value, Some(u), 0)
  }

  const READY := Message(4, [], None, 0)

  function StoneMessage(number: byte, coor: byte): Message {
    Message(5, [number, coor], None, 0)
  }

  /** Two users join on connections 0 and 1, and both are ready. */
  function Beginning(r: byte, u: User, v: User): seq<Action> {
    [] + [Connect(0)] + [Receive(0, JoinMessage(r, u))] + [Connect(1)] + [Receive(1, JoinMessage(r, v))]
    + [Receive(0, READY)] + [Receive(1, READY)]
  }

  /** Stones on these cells, by the second to join and the first in turn. */
  function Stones(coors: seq<byte>): seq<Action>
    requires |coors| <= 225
  {
    if coors == [] then []
    else
      var last := |coors| - 1;
      Stones(coors[..last]) + [Receive(if last % 2 == 0 then 1 else 0, StoneMessage(last, coors[last]))]
  }

  /** Both sit at the table of room `r`, and these are the moves. */
  ghost predicate AtTable(s: System, r: nat, u: User, v: User, ready: byte, playing: bool, log: seq<byte>) {
    && r < |s.rooms|
    && 0 in s.conns && s.conns[0] == Conn(Some(u), Some(r), true)
    && 1 in s.conns && s.conns[1] == Conn(Some(v), Some(r), true)
    && var t := s.rooms[r].lobby.table;
    && t == Table(Some(u), Some(v), 255, 255, ready, playing, t.chess)
    && Logged(t.chess) && Log(t.chess) == log
  }

  lemma {:induction false} FirstIsReady(s: System, r: nat, u: User, v: User)
    requires SystemInv(s) && AtTable(s, r, u, v, 255, false, [])
    ensures Enabled(s, Receive(0, READY)) && AtTable(Act(s, Receive(0, READY)), r, u, v, 0, false, [])
  {
    MessageTakes(s, 0, READY, r, u, PlayerReady(u));
    ReadyEffect(s.rooms[r].lobby, u);
  }

  lemma {:induction false} SecondIsReady(s: System, r: nat, u: User, v: User)
    requires SystemInv(s) && AtTable(s, r, u, v, 0, false, []) && u != v
    ensures Enabled(s, Receive(1, READY)) && AtTable(Act(s, Receive(1, READY)), r, u, v, 255, true, [])
  {
    MessageTakes(s, 1, READY, r, v, PlayerReady(v));
    ReadyEffect(s.rooms[r].lobby, v);
  }

  /** A cell of the board that is not logged is empty. */
  lemma {:induction false} UnloggedIsEmpty(h: History, coor: byte)
    requires Inv(h) && ValidLog(Log(h.lobby.table.chess) + [coor])
    ensures Has(h.lobby.table.chess.board, coor % 16, coor / 16, 255)
  {
    var log := Log(h.lobby.table.chess);
    var all, p := log + [coor], ParseCoor(coor);
    assert all[|log|] == coor && OnBoard(p);
    forall i | 0 <= i < |log|
      ensures ParseCoor(log[i]) != p
    {
      assert all[i] == log[i] && all[i] != all[|log|];
      if ParseCoor(log[i]) == p { ParseCoorInjective(log[i], coor); }
    }
    ReplayIsEmptyOffTheLog(log, p);
  }

  lemma {:induction false} StoneIsTaken(s: System, r: nat, u: User, v: User, log: seq<byte>, coor: byte)
    requires SystemInv(s) && AtTable(s, r, u, v, 255, true, log) && u != v && ValidLog(log + [coor]) && |log| < 225
    ensures var id := if |log| % 2 == 0 then 1 else 0;
      var a := Receive(id, StoneMessage(|log|, coor));
      Enabled(s, a) && AtTable(Act(s, a), r, u, v, 255, true, log + [coor])
  {
    if |log| % 2 == 0 {
      MoverPlaces(s, r, u, v, log, coor, 1, v);
    } else {
      MoverPlaces(s, r, u, v, log, coor, 0, u);
    }
  }

  lemma {:induction false} MoverPlaces(
    s: System, r: nat, u: User, v: User, log: seq<byte>, coor: byte, id: nat, w: User)
    requires SystemInv(s) && AtTable(s, r, u, v, 255, true, log) && ValidLog(log + [coor]) && |log| < 225
    requires if |log| % 2 == 0 then id == 1 && w == v else id == 0 && w == u
    ensures Enabled(s, Receive(id, StoneMessage(|log|, coor)))
    ensures AtTable(Act(s, Receive(id, StoneMessage(|log|, coor))), r, u, v, 255, true, log + [coor])
  {
    MoverMayPlace(s, r, u, v, log, coor);
    StoneTakes(s, id, r, w, |log|, coor);
    StoneMovesTable(s, Act(s, Receive(id, StoneMessage(|log|, coor))), r, u, v, log, coor, id, w);
  }

  lemma {:induction false} StoneTakes(s: System, id: nat, r: nat, w: User, number: byte, coor: byte)
    requires SystemInv(s) && InRoom(s, id, r, w) && s.conns[id].open && r < |s.rooms| && Admissible(s.rooms[r].lobby)
    ensures Enabled(s, Receive(id, StoneMessage(number, coor)))
    ensures var s' := Act(s, Receive(id, StoneMessage(number, coor)));
      && s'.conns == s.conns[id := Conn(Some(w), Some(r), true)] && r < |s'.rooms|
      && s'.rooms[r].lobby == After(s.rooms[r].lobby, PlayerStone(w, [number, coor]))
  {
    MessageTakes(s, id, StoneMessage(number, coor), r, w, PlayerStone(w, [number, coor]));
  }

  lemma {:induction false} StoneMovesTable(
    s: System, s': System, r: nat, u: User, v: User, log: seq<byte>, coor: byte, id: nat, w: User)
    requires AtTable(s, r, u, v, 255, true, log) && |log| < 225 && Admissible(s.rooms[r].lobby) && r < |s'.rooms|
    requires (id == 0 && w == u) || (id == 1 && w == v)
    requires MayPlace(s.rooms[r].lobby.table, w, |log|, coor)
    requires s'.conns == s.conns[id := Conn(Some(w), Some(r), true)]
    requires s'.rooms[r].lobby == After(s.rooms[r].lobby, PlayerStone(w, [|log|, coor]))
    ensures AtTable(s', r, u, v, 255, true, log + [coor])
  {
    StoneAtTable(s.rooms[r].lobby, w, [|log|, coor]);
  }

  lemma {:induction false} MoverMayPlace(s: System, r: nat, u: User, v: User, log: seq<byte>, coor: byte)
    requires SystemInv(s) && AtTable(s, r, u, v, 255, true, log) && ValidLog(log + [coor])
    ensures Admissible(s.rooms[r].lobby)
    ensures MayPlace(s.rooms[r].lobby.table, if |log| % 2 == 0 then v else u, |log|, coor)
  {
    assert RoomInv(s.rooms[r], s.used);
    UnloggedIsEmpty(s.rooms[r], coor);
  }

  lemma {:induction false} StoneAtTable(l: Lobby, w: User, data: seq<byte>)
    requires Admissible(l) && |data| == 2 && MayPlace(l.table, w, data[0], data[1])
    ensures var t' := After(l, PlayerStone(w, data)).table;
      t' == l.table.(chess := t'.chess) && Logged(t'.chess) && Log(t'.chess) == Log(l.table.chess) + [data[1]]
  {
    StoneEffect(l, w, data);
    var s, s' := l.table.chess, After(l, PlayerStone(w, data)).table.chess;
    assert s'.record[..s'.cursor] == s.record[..s.cursor] + [data[1]];
  }

  /** Where a run from `s` has come. */
  ghost predicate Comes(
    s: System, acts: seq<Action>, r: nat, u: User, v: User, ready: byte, playing: bool, log: seq<byte>) {
    SystemInv(s) && EnabledAll(s, acts) && AtTable(ActAll(s, acts), r, u, v, ready, playing, log)
  }

  lemma {:induction false} FrontOfActions(acts: seq<Action>, a: Action)
    ensures (acts + [a])[..|acts|] == acts && (acts + [a])[|acts|] == a && acts + [a] != []
  {
  }

  lemma {:induction false} OneMoreAction(s: System, acts: seq<Action>, a: Action)
    requires SystemInv(s) && EnabledAll(s, acts) && Enabled(ActAll(s, acts), a)
    ensures EnabledAll(s, acts + [a]) && ActAll(s, acts + [a]) == Act(ActAll(s, acts), a)
  {
    FrontOfActions(acts, a);
  }

  lemma {:induction false} StonesAreTaken(s: System, acts: seq<Action>, r: nat, u: User, v: User, coors: seq<byte>)
    requires Comes(s, acts, r, u, v, 255, true, []) && u != v && ValidLog(coors) && |coors| <= 225
    ensures Comes(s, acts + Stones(coors), r, u, v, 255, true, coors)
    decreases |coors|
  {
    if coors == [] {
      assert acts + Stones(coors) == acts;
    } else {
      var last := |coors| - 1;
      StonesAreTaken(s, acts, r, u, v, coors[..last]);
      LastStone(s, acts, r, u, v, coors);
    }
  }

  lemma {:induction false} LastStone(s: System, acts: seq<Action>, r: nat, u: User, v: User, coors: seq<byte>)
    requires coors != [] && u != v && ValidLog(coors) && |coors| <= 225
    requires Comes(s, acts + Stones(coors[..|coors| - 1]), r, u, v, 255, true, coors[..|coors| - 1])
    ensures Comes(s, acts + Stones(coors), r, u, v, 255, true, coors)
  {
    var last := |coors| - 1;
    var before := acts + Stones(coors[..last]);
    var a := Receive(if last % 2 == 0 then 1 else 0, StoneMessage(last, coors[last]));
    LastOfCoors(acts, coors);
    StoneIsTaken(ActAll(s, before), r, u, v, coors[..last], coors[last]);
    OneMoreAction(s, before, a);
  }

  lemma {:induction false} LastOfCoors(acts: seq<Action>, coors: seq<byte>)
    requires coors != [] && |coors| <= 225
    ensures var last := |coors| - 1;
      && coors[..last] + [coors[last]] == coors
      && acts + Stones(coors[..last]) + [Receive(if last % 2 == 0 then 1 else 0, StoneMessage(last, coors[last]))]
           == acts + Stones(coors)
  {
  }

  // ---------- taking the seats ----------

  /** Only the first user is there. */
  ghost predicate OneIsIn(s: System, r: nat, u: User, l: Lobby) {
    && r < |s.rooms| && s.conns == map[0 := Conn(Some(u), Some(r), true)] && s.used == {u}
    && s.rooms[r].lobby == l.(table := l.table.(black := Some(u)), users := [u])
  }

  /** A room nobody has joined, whose name fits into a snapshot. */
  predicate NewRoom(l: Lobby) {
    && Admissible(l) && l.users == [] && |l.name| <= 255 && Log(l.table.chess) == []
    && l.table == Table(None, None, 255, 255, 255, false, l.table.chess)
  }

  lemma {:induction false} FirstTakesBlack(l: Lobby, u: User)
    requires NewRoom(l)
    ensures Possible(l, JoinRoom(u, 0x50)) && Succeeds(l, JoinRoom(u, 0x50))
    ensures After(l, JoinRoom(u, 0x50)) == l.(table := l.table.(black := Some(u)), users := [u])
  {
    JoinSeats(l, u, 0x50);
    var l' := After(l, JoinRoom(u, 0x50));
    assert [] + [u] == [u];
    OneUserNames(l'.table, u);
    SnapshotFitsIff(l');
  }

  lemma {:induction false} SecondTakesWhite(l: Lobby, u: User, v: User)
    requires NewRoom(l) && u != v
    ensures var l1 := l.(table := l.table.(black := Some(u)), users := [u]);
      && Possible(l1, JoinRoom(v, 0x50)) && Succeeds(l1, JoinRoom(v, 0x50))
      && After(l1, JoinRoom(v, 0x50)).table == Table(Some(u), Some(v), 255, 255, 255, false, l.table.chess)
  {
    var l1 := l.(table := l.table.(black := Some(u)), users := [u]);
    JoinSeats(l1, v, 0x50);
    var l2 := After(l1, JoinRoom(v, 0x50));
    SnapshotNamesUnseated(l2.table, [], u);
    SnapshotNamesUnseated(l2.table, [u], v);
    assert [] + [u] == [u] && OnlookerNames(l2.table, l2.users) == [];
    SnapshotFitsIff(l2);
  }

  lemma {:induction false} ConnectActs(s: System, id: nat)
    requires SystemInv(s) && id !in s.conns
    ensures Act(s, Connect(id)) == s.(conns := s.conns[id := Conn(None, None, true)]) && SystemInv(Act(s, Connect(id)))
  {
    ActKeepsInv(s, Connect(id));
  }

  lemma {:induction false} RequestIsWritten(r: byte, u: User)
    ensures PutJoinRequest(JoinRequest(r, u.name, [], 0x50)).Some?
  {
    JoinRequestArrives(JoinRequest(r, u.name, [], 0x50));
  }

  lemma {:induction false} FirstJoinActs(s: System, r: byte, u: User)
    requires SystemInv(s) && s.conns == map[] && s.used == {} && r < |s.rooms| && NewRoom(s.rooms[r].lobby)
    ensures Enabled(s, Connect(0))
    ensures var s1, a := Act(s, Connect(0)), Receive(0, JoinMessage(r, u));
      && SystemInv(s1) && Enabled(s1, a) && SystemInv(Act(s1, a)) && OneIsIn(Act(s1, a), r, u, s.rooms[r].lobby)
  {
    ConnectActs(s, 0);
    var s1 := Act(s, Connect(0));
    FirstTakesBlack(s.rooms[r].lobby, u);
    PlayerJoins(s1, 0, r, u);
    ActKeepsInv(s1, Receive(0, JoinMessage(r, u)));
    OnlyConnection(s.conns, Conn(None, None, true), Conn(Some(u), Some(r), true));
  }

  lemma {:induction false} OnlyConnection(conns: map<nat, Conn>, before: Conn, after: Conn)
    requires conns == map[]
    ensures conns[0 := before][0 := after] == map[0 := after]
  {
  }

  /** The client's request to join as a player, where that succeeds. */
  lemma {:induction false} PlayerJoins(s: System, id: nat, r: byte, u: User)
    requires SystemInv(s) && Enabled(s, Receive(id, JoinMessage(r, u))) && r < |s.rooms|
    requires Possible(s.rooms[r].lobby, JoinRoom(u, 0x50)) && Succeeds(s.rooms[r].lobby, JoinRoom(u, 0x50))
    ensures var s' := Act(s, Receive(id, JoinMessage(r, u)));
      && s'.used == s.used + {u} && s'.conns == s.conns[id := Conn(Some(u), Some(r), true)]
      && r < |s'.rooms| && s'.rooms[r].lobby == After(s.rooms[r].lobby, JoinRoom(u, 0x50))
  {
    RequestIsWritten(r, u);
    JoinRequestActs(s, id, JoinMessage(r, u), JoinRequest(r, u.name, [], 0x50), u);
  }

  lemma {:induction false} SecondJoinActs(s: System, r: byte, u: User, v: User, l: Lobby)
    requires SystemInv(s) && OneIsIn(s, r, u, l) && NewRoom(l) && u != v
    ensures Enabled(s, Connect(1))
    ensures var s1, a := Act(s, Connect(1)), Receive(1, JoinMessage(r, v));
      && SystemInv(s1) && Enabled(s1, a) && SystemInv(Act(s1, a)) && AtTable(Act(s1, a), r, u, v, 255, false, [])
  {
    ConnectActs(s, 1);
    var s1 := Act(s, Connect(1));
    SecondTakesWhite(l, u, v);
    PlayerJoins(s1, 1, r, v);
    ActKeepsInv(s1, Receive(1, JoinMessage(r, v)));
  }

  lemma {:induction false} BeginningIsTaken(s: System, r: byte, u: User, v: User)
    requires SystemInv(s) && s.conns == map[] && s.used == {} && r < |s.rooms| && NewRoom(s.rooms[r].lobby) && u != v
    ensures Comes(s, Beginning(r, u, v), r, u, v, 255, true, [])
  {
    FirstJoinActs(s, r, u);
    OneMoreAction(s, [], Connect(0));
    OneMoreAction(s, [] + [Connect(0)], Receive(0, JoinMessage(r, u)));
    var first := [] + [Connect(0)] + [Receive(0, JoinMessage(r, u))];
    SecondJoinActs(ActAll(s, first), r, u, v, s.rooms[r].lobby);
    OneMoreAction(s, first, Connect(1));
    OneMoreAction(s, first + [Connect(1)], Receive(1, JoinMessage(r, v)));
    var second := first + [Connect(1)] + [Receive(1, JoinMessage(r, v))];
    FirstIsReady(ActAll(s, second), r, u, v);
    OneMoreAction(s, second, Receive(0, READY));
    SecondIsReady(ActAll(s, second + [Receive(0, READY)]), r, u, v);
    OneMoreAction(s, second + [Receive(0, READY)], Receive(1, READY));
  }

  /** On a server just started, two clients that join a room as players and are both ready can
      play any stones on different cells of the board, in turn, the second to join beginning:
      every message is taken, and the log is those stones in that order. */
  lemma {:induction false} AnyGameCanBePlayed(
    rooms: seq<(seq<byte>, int)>, r: byte, u: User, v: User, coors: seq<byte>)
    requires r < |rooms| && |rooms[r].0| <= 255 && u != v && ValidLog(coors)
    ensures |coors| <= 225 && EnabledAll(Booted(rooms), Beginning(r, u, v) + Stones(coors))
    ensures var s := ActAll(Booted(rooms), Beginning(r, u, v) + Stones(coors));
      && r < |s.rooms|
      && var t := s.rooms[r].lobby.table;
      && t.black == Some(u) && t.white == Some(v) && t.isPlaying
      && t.chess.cursor == |coors| && t.chess.record[..|coors|] == coors
  {
    LogFits(coors);
    BeginningIsTaken(Booted(rooms), r, u, v);
    StonesAreTaken(Booted(rooms), Beginning(r, u, v), r, u, v, coors);
  }

  /** The last of these stones is told to everyone listed, and, exactly when it lies on a line of
      five, so is the winner's colour. */
  lemma {:induction false} LineWinsTheGame(s: System, r: nat, u: User, v: User, log: seq<byte>, coor: byte)
    requires SystemInv(s) && AtTable(s, r, u, v, 255, true, log) && u != v && ValidLog(log + [coor]) && |log| < 225
    ensures var id, m, users := if |log| % 2 == 0 then 1 else 0, StoneMessage(|log|, coor), s.rooms[r].lobby.users;
      && Enabled(s, Receive(id, m)) && r < |Act(s, Receive(id, m)).rooms|
      && Handleable(Lobbies(s.rooms), s.conns[id], m)
      && var sends := SendsOut(Lobbies(s.rooms), s.conns[id], m);
      && var board := Act(s, Receive(id, m)).rooms[r].lobby.table.chess.board;
      if LineThrough(board, coor % 16, coor / 16) then
        EachGetsBoth(sends, users, Packet(8, [coor]), Packet(13, [|log| % 2]))
      else EachGets(sends, users, Packet(8, [coor]))
  {
    var id, w := if |log| % 2 == 0 then 1 else 0, if |log| % 2 == 0 then v else u;
    MoverMayPlace(s, r, u, v, log, coor);
    MessageTakes(s, id, StoneMessage(|log|, coor), r, w, PlayerStone(w, [|log|, coor]));
    StoneIsTold(s.rooms[r].lobby, w, |log|, coor);
  }

  lemma {:induction false} StoneIsTold(l: Lobby, w: User, number: byte, coor: byte)
    requires Admissible(l) && MayPlace(l.table, w, number, coor)
    ensures var e := PlayerStone(w, [number, coor]);
      if LineThrough(After(l, e).table.chess.board, coor % 16, coor / 16) then
        EachGetsBoth(Sends(l, e), l.users, Packet(8, [coor]), Packet(13, [l.table.chess.cursor % 2]))
      else EachGets(Sends(l, e), l.users, Packet(8, [coor]))
  {
    StoneEffect(l, w, [number, coor]);
  }
}
