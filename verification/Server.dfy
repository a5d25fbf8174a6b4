/** The whole server as a transition system: connections come and go, each message runs through
    the middlewares to an endpoint, one message at a time, and changes at most one room. */
module Server {
  import opened Bytes
  import opened Codec
  import opened Messages
  import opened Tables
  import opened Lobby
  import opened LobbyRuns

  const S_FATAL_ERROR := 0
  const S_JOIN_ROOM := 1
  const S_USER_INFO := 2
  const S_LEAVE_ROOM := 3
  const S_READY := 4
  const S_PLAYER_STONE := 5
  const S_PLAYER_REGRET := 6
  const S_MESSAGE := 11

  /** A message, with the answer the user database will give if it is asked, a fresh user object
      or a refusal, and the time a chat line will be stamped with. */
  datatype Message = Message(instruction: nat, data: seq<byte>, auth: Option<User>, now: LongWord)

  /** A connection's payloads, and whether its request loop goes on. */
  datatype Conn = Conn(user: Option<User>, room: Option<nat>, open: bool)

  const NEW_CONN := Conn(None, None, true)

  datatype JoinFields = JoinFields(roomId: nat, role: byte)

  /** Room and role of a join request read under the given schema. */
  function ReadJoinAs(fs: seq<Field>, data: seq<byte>): Option<JoinFields> {
    var p :- Decode(fs, data);
    if |p.part| == 4 && p.part[0].Num? && p.part[3].Num? && p.part[3].n < 256 then
      Some(JoinFields(p.part[0].n, p.part[3].n))
    else None
  }

  function ReadJoin(data: seq<byte>): Option<JoinFields> {
    ReadJoinAs(JOIN_REQUEST, data)
  }

  /** The authentication gate: the user a message acts for, or nothing if it is turned away. */
  function Gate(conn: Conn, m: Message): Option<User> {
    if m.instruction == S_JOIN_ROOM then (if ReadJoin(m.data).None? then None else m.auth) else conn.user
  }

  /** What the endpoint and the leave handling after it do to the user's room. */
  function EndpointEvent(u: User, m: Message): Option<Event> {
    if m.instruction == S_READY then Some(PlayerReady(u))
    else if m.instruction == S_PLAYER_STONE then Some(PlayerStone(u, m.data))
    else if m.instruction == S_PLAYER_REGRET then Some(PlayerRegret(u))
    else if m.instruction == S_LEAVE_ROOM then Some(LeaveRoom(u))
    else if m.instruction == S_MESSAGE then Some(Say(u, m.data, m.now))
    else if m.instruction == S_USER_INFO then Some(AskInfo(u, m.data))
    else None
  }

  /** The room a message acts on and the event it is there; none when it stops before. */
  function RoomEvent(conn: Conn, m: Message, roomCount: nat): Option<(nat, Event)> {
    var u :- Gate(conn, m);
    if m.instruction == S_JOIN_ROOM then
      var j :- ReadJoin(m.data);
      if j.roomId < roomCount then Some((j.roomId, JoinRoom(u, j.role))) else None
    else
      var room :- conn.room;
      var e :- EndpointEvent(u, m);
      Some((room, e))
  }

  /** The connection after a message; `joined` says whether its join, if it was one, succeeded.
      A failed join leaves the new user with the old room. A fatal-error message closes the
      socket, so the loop's next read fails. */
  function ConnAfter(conn: Conn, m: Message, joined: bool): Conn {
    match Gate(conn, m)
    case None => conn.(open := false)
    case Some(u) =>
      if m.instruction == S_JOIN_ROOM then
        if joined then Conn(Some(u), Some(ReadJoin(m.data).value.roomId), true)
        else Conn(Some(u), conn.room, false)
      else conn.(open := m.instruction != S_FATAL_ERROR)
  }

  // ---------- the system ----------

  datatype System = System(rooms: seq<History>, conns: map<nat, Conn>, used: set<User>)

  datatype Action = Connect(id: nat) | Receive(id: nat, m: Message) | Disconnect(id: nat)

  /** A connection that is still served and has a user has a room too. */
  predicate ConnInv(conn: Conn, roomCount: nat) {
    && (conn.room.Some? ==> conn.user.Some? && conn.room.value < roomCount)
    && (conn.open && conn.user.Some? ==> conn.room.Some?)
  }

  ghost predicate RoomInv(h: History, used: set<User>) {
    Inv(h) && h.crowd.asked <= used
  }

  ghost predicate RoomsInv(rooms: seq<History>, used: set<User>) {
    forall r :: 0 <= r < |rooms| ==> RoomInv(rooms[r], used)
  }

  ghost predicate SystemInv(s: System) {
    && RoomsInv(s.rooms, s.used)
    && (forall id :: id in s.conns ==> ConnInv(s.conns[id], |s.rooms|))
  }

  /** Connections are new, messages come from connections still served, and every user object
      the database hands out is new. */
  ghost predicate Enabled(s: System, a: Action) {
    match a
    case Connect(id) => id !in s.conns
    case Receive(id, m) => id in s.conns && s.conns[id].open && (m.auth.Some? ==> m.auth.value !in s.used)
    case Disconnect(id) => id in s.conns
  }

  ghost function RoomsAfter(rooms: seq<History>, used: set<User>, re: Option<(nat, Event)>): (rooms': seq<History>)
    requires RoomsInv(rooms, used)
    requires re.Some? ==> re.value.0 < |rooms| && (re.value.1.JoinRoom? ==> re.value.1.user !in used)
    ensures |rooms'| == |rooms|
  {
    if re.None? then rooms
    else
      assert RoomInv(rooms[re.value.0], used);
      rooms[re.value.0 := Next(rooms[re.value.0], re.value.1)]
  }

  lemma {:induction false} RoomsStaySound(
    rooms: seq<History>, used: set<User>, re: Option<(nat, Event)>, used': set<User>)
    requires RoomsInv(rooms, used) && used <= used'
    requires re.Some? ==> re.value.0 < |rooms| && (re.value.1.JoinRoom? ==> re.value.1.user in used' - used)
    ensures RoomsInv(RoomsAfter(rooms, used, re), used')
  {
    forall r | 0 <= r < |rooms|
      ensures RoomInv(RoomsAfter(rooms, used, re)[r], used')
    {
      assert RoomInv(rooms[r], used);
      if re.Some? && re.value.0 == r {
        RoomStaysSound(rooms[r], used, re.value.1, used');
      } else {
        UsedGrows(rooms[r], used, used');
      }
    }
  }

  lemma {:induction false} RoomStaysSound(h: History, used: set<User>, e: Event, used': set<User>)
    requires RoomInv(h, used) && used <= used' && (e.JoinRoom? ==> e.user in used' - used)
    ensures Fresh(h.crowd, e) && RoomInv(Next(h, e), used')
  {
  }

  lemma {:induction false} UsedGrows(h: History, used: set<User>, used': set<User>)
    requires RoomInv(h, used) && used <= used'
    ensures RoomInv(h, used')
  {
  }

  /** Whether the message ran all the way to an endpoint. */
  ghost predicate ReachesEndpoint(s: System, id: nat, m: Message)
    requires SystemInv(s) && Enabled(s, Receive(id, m))
  {
    Gate(s.conns[id], m).Some? && (m.instruction == S_JOIN_ROOM ==> Joins(s, id, m))
  }

  ghost predicate Joins(s: System, id: nat, m: Message)
    requires SystemInv(s) && Enabled(s, Receive(id, m))
  {
    var re := RoomEvent(s.conns[id], m, |s.rooms|);
    && m.instruction == S_JOIN_ROOM && re.Some?
    && Possible(s.rooms[re.value.0].lobby, re.value.1) && Succeeds(s.rooms[re.value.0].lobby, re.value.1)
  }

  /** A connection that ends leaves its room. */
  function LeaveEvent(conn: Conn): Option<(nat, Event)> {
    if conn.room.Some? && conn.user.Some? then Some((conn.room.value, LeaveRoom(conn.user.value))) else None
  }

  ghost function Act(s: System, a: Action): (s': System)
    requires SystemInv(s) && Enabled(s, a)
  {
    match a
    case Connect(id) => s.(conns := s.conns[id := NEW_CONN])
    case Receive(id, m) =>
      var conn := s.conns[id];
      var re := RoomEvent(conn, m, |s.rooms|);
      System(
        RoomsAfter(s.rooms, s.used, re),
        s.conns[id := ConnAfter(conn, m, Joins(s, id, m))],
        s.used + if m.auth.Some? then {m.auth.value} else {})
    case Disconnect(id) =>
      var conn := s.conns[id];
      s.(rooms := RoomsAfter(s.rooms, s.used, LeaveEvent(conn)), conns := s.conns - {id})
  }

  lemma {:induction false} ConnStaysSound(s: System, id: nat, m: Message)
    requires SystemInv(s) && Enabled(s, Receive(id, m))
    ensures ConnInv(ConnAfter(s.conns[id], m, Joins(s, id, m)), |s.rooms|)
  {
  }

  lemma {:induction false} RoomsKeepInv(s: System, a: Action)
    requires SystemInv(s) && Enabled(s, a)
    ensures RoomsInv(Act(s, a).rooms, Act(s, a).used)
  {
    match a
    case Connect(id) =>
    case Receive(id, m) =>
      var used' := s.used + if m.auth.Some? then {m.auth.value} else {};
      RoomsStaySound(s.rooms, s.used, RoomEvent(s.conns[id], m, |s.rooms|), used');
    case Disconnect(id) =>
      RoomsStaySound(s.rooms, s.used, LeaveEvent(s.conns[id]), s.used);
  }

  lemma {:induction false} ActKeepsInv(s: System, a: Action)
    requires SystemInv(s) && Enabled(s, a)
    ensures SystemInv(Act(s, a))
  {
    RoomsKeepInv(s, a);
    var s' := Act(s, a);
    assert |s'.rooms| == |s.rooms|;
    forall id | id in s'.conns
      ensures ConnInv(s'.conns[id], |s'.rooms|)
    {
      if a.Receive? && id == a.id {
        ConnStaysSound(s, id, a.m);
      } else if id in s.conns {
        assert ConnInv(s.conns[id], |s.rooms|);
      }
    }
  }

  ghost predicate EnabledAll(s: System, acts: seq<Action>)
    requires SystemInv(s)
    decreases |acts|, 0
  {
    acts == [] ||
    var last := |acts| - 1;
    EnabledAll(s, acts[..last]) && Enabled(ActAll(s, acts[..last]), acts[last])
  }

  ghost function ActAll(s: System, acts: seq<Action>): (s': System)
    requires SystemInv(s) && EnabledAll(s, acts)
    ensures SystemInv(s')
    decreases |acts|, 1
  {
    if acts == [] then s
    else
      var last := |acts| - 1;
      var s1 := ActAll(s, acts[..last]);
      ActKeepsInv(s1, acts[last]);
      Act(s1, acts[last])
  }

  ghost function Booted(rooms: seq<(seq<byte>, int)>): (s: System)
    ensures SystemInv(s)
  {
    System(seq(|rooms|, i requires 0 <= i < |rooms| => Opened(rooms[i].0, rooms[i].1)), map[], {})
  }

  /** In every run of the server, whatever is sent on whatever connections: a message that
      reaches an endpoint finds its user and its room, and every room keeps its invariants. */
  lemma {:induction false} EndpointsFindUserAndRoom(
    rooms: seq<(seq<byte>, int)>, acts: seq<Action>, id: nat, m: Message)
    requires EnabledAll(Booted(rooms), acts)
    requires Enabled(ActAll(Booted(rooms), acts), Receive(id, m))
    requires ReachesEndpoint(ActAll(Booted(rooms), acts), id, m)
    ensures var s := ActAll(Booted(rooms), acts);
      var conn := ConnAfter(s.conns[id], m, Joins(s, id, m));
      && conn.user.Some? && conn.room.Some? && conn.room.value < |s.rooms|
      && (forall r :: 0 <= r < |s.rooms| ==> Inv(s.rooms[r]))
  {
    var s := ActAll(Booted(rooms), acts);
    assert ConnInv(s.conns[id], |s.rooms|);
    assert forall r :: 0 <= r < |s.rooms| ==> RoomInv(s.rooms[r], s.used);
  }

  /** A message that stops before the endpoints ends its connection's loop. */
  lemma {:induction false} StoppedMeansClosed(s: System, id: nat, m: Message)
    requires SystemInv(s) && Enabled(s, Receive(id, m))
    ensures !ReachesEndpoint(s, id, m) ==> !Act(s, Receive(id, m)).conns[id].open
    ensures ReachesEndpoint(s, id, m) && m.instruction != S_FATAL_ERROR ==> Act(s, Receive(id, m)).conns[id].open
  {
  }

  lemma {:induction false} EventIsFresh(s: System, id: nat, m: Message)
    requires SystemInv(s) && Enabled(s, Receive(id, m))
    ensures var re := RoomEvent(s.conns[id], m, |s.rooms|);
      re.Some? ==> re.value.0 < |s.rooms| && (re.value.1.JoinRoom? ==> re.value.1.user !in s.used)
  {
    assert ConnInv(s.conns[id], |s.rooms|);
  }

  lemma {:induction false} AdmittedRoom(s: System, id: nat, m: Message)
    requires SystemInv(s) && Enabled(s, Receive(id, m)) && RoomEvent(s.conns[id], m, |s.rooms|).Some?
    ensures var (r, e) := RoomEvent(s.conns[id], m, |s.rooms|).value;
      && r < |s.rooms| && Possible(s.rooms[r].lobby, e)
      && Act(s, Receive(id, m)).rooms[r].lobby == After(s.rooms[r].lobby, e)
  {
    EventIsFresh(s, id, m);
    OneRoomChanges(s.rooms, s.used, RoomEvent(s.conns[id], m, |s.rooms|));
  }

  lemma {:induction false} RefusedConn(conn: Conn, m: Message)
    requires m.instruction == S_JOIN_ROOM
    ensures !ConnAfter(conn, m, false).open && ConnAfter(conn, m, false).room == conn.room
  {
  }

  lemma {:induction false} NextIsAfter(h: History, used: set<User>, e: Event)
    requires RoomInv(h, used) && (e.JoinRoom? ==> e.user !in used)
    ensures Possible(h.lobby, e) && Fresh(h.crowd, e) && Next(h, e).lobby == After(h.lobby, e)
  {
  }

  /** Whatever is sent, at most one room changes, and that one by one event. */
  lemma {:induction false} OneRoomChanges(rooms: seq<History>, used: set<User>, re: Option<(nat, Event)>)
    requires RoomsInv(rooms, used)
    requires re.Some? ==> re.value.0 < |rooms| && (re.value.1.JoinRoom? ==> re.value.1.user !in used)
    ensures forall k :: 0 <= k < |rooms| && (re.None? || k != re.value.0) ==> RoomsAfter(rooms, used, re)[k] == rooms[k]
    ensures re.Some? ==> Possible(rooms[re.value.0].lobby, re.value.1)
    ensures re.Some? ==> RoomsAfter(rooms, used, re)[re.value.0].lobby == After(rooms[re.value.0].lobby, re.value.1)
  {
    if re.Some? {
      var (r, e) := re.value;
      assert RoomInv(rooms[r], used);
      NextIsAfter(rooms[r], used, e);
      assert RoomsAfter(rooms, used, re) == rooms[r := Next(rooms[r], e)];
    }
  }

  lemma {:induction false} AdmittedIsListed(l: Lobby, u: User, role: byte)
    requires Possible(l, JoinRoom(u, role)) && Admit(l, u, role).Some?
    ensures u in After(l, JoinRoom(u, role)).users
  {
    var l' := Admit(l, u, role).value;
    assert l'.users[|l.users|] == u;
  }
}
