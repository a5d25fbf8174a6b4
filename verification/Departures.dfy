/** What connections leave behind when they end, over every later state of the server: who stays
    listed in a room, and who keeps a seat, for good. */
module Departures {
  import opened Bytes
  import opened Tables
  import opened Lobby
  import opened LobbyRuns
  import opened Server

  // ---------- every connection has its own user ----------

  /** Users of connections are objects handed out before, and no two connections share one. */
  ghost predicate OwnUsers(s: System) {
    && (forall id :: id in s.conns && s.conns[id].user.Some? ==> s.conns[id].user.value in s.used)
    && (forall i, j :: i in s.conns && j in s.conns && i != j && s.conns[i].user.Some? ==>
          s.conns[i].user != s.conns[j].user)
  }

  lemma {:induction false} UserAfter(conn: Conn, m: Message, joined: bool)
    ensures ConnAfter(conn, m, joined).user == conn.user || (m.auth.Some? && ConnAfter(conn, m, joined).user == m.auth)
    ensures m.instruction != S_JOIN_ROOM ==> ConnAfter(conn, m, joined).user == conn.user
  {
  }

  lemma {:induction false} ActKeepsOwnUsers(s: System, a: Action)
    requires SystemInv(s) && Enabled(s, a) && OwnUsers(s)
    ensures OwnUsers(Act(s, a))
  {
    match a
    case Connect(_) =>
    case Receive(id, m) =>
      UserAfter(s.conns[id], m, Joins(s, id, m));
      NewUserIsOwn(s, id, m);
    case Disconnect(_) =>
  }

  lemma {:induction false} NewUserIsOwn(s: System, id: nat, m: Message)
    requires SystemInv(s) && Enabled(s, Receive(id, m)) && OwnUsers(s)
    ensures m.auth.Some? ==> forall i :: i in s.conns ==> s.conns[i].user != m.auth
  {
  }

  lemma {:induction false} RunsKeepOwnUsers(s: System, acts: seq<Action>)
    requires SystemInv(s) && EnabledAll(s, acts) && OwnUsers(s)
    ensures OwnUsers(ActAll(s, acts))
    decreases |acts|
  {
    if acts != [] {
      var last := |acts| - 1;
      RunsKeepOwnUsers(s, acts[..last]);
      ActKeepsOwnUsers(ActAll(s, acts[..last]), acts[last]);
    }
  }

  /** In every run of the server no two connections share a user. */
  lemma {:induction false} NobodySharesAUser(rooms: seq<(seq<byte>, int)>, acts: seq<Action>)
    requires EnabledAll(Booted(rooms), acts)
    ensures OwnUsers(ActAll(Booted(rooms), acts))
  {
    RunsKeepOwnUsers(Booted(rooms), acts);
  }

  // ---------- users no connection can move any more ----------

  /** No connection that holds this user has this room. */
  ghost predicate Adrift(s: System, r: nat, u: User) {
    u in s.used && forall id :: id in s.conns && s.conns[id].user == Some(u) ==> s.conns[id].room != Some(r)
  }

  /** Listed as before and seated as before. */
  predicate SamePlace(l: Lobby, l': Lobby, u: User) {
    && (u in l'.users <==> u in l.users)
    && (l'.table.black == Some(u) <==> l.table.black == Some(u))
    && (l'.table.white == Some(u) <==> l.table.white == Some(u))
  }

  lemma {:induction false} WithoutOther(users: seq<User>, v: User, u: User)
    requires u != v
    ensures u in Without(users, v) <==> u in users
    decreases |users|
  {
    if users != [] && users[0] != v {
      WithoutOther(users[1..], v, u);
    }
  }

  /** What others do moves nobody. */
  lemma {:induction false} OthersMoveNobody(l: Lobby, e: Event, u: User)
    requires Possible(l, e) && e.user != u
    ensures SamePlace(l, After(l, e), u)
  {
    if e.LeaveRoom? {
      WithoutOther(l.users, e.user, u);
    }
  }

  /** The room an action acts on, and the event it is there. */
  function ActionEvent(s: System, a: Action): Option<(nat, Event)>
    requires a.Connect? || a.id in s.conns
  {
    match a
    case Connect(_) => None
    case Receive(id, m) => RoomEvent(s.conns[id], m, |s.rooms|)
    case Disconnect(id) => LeaveEvent(s.conns[id])
  }

  lemma {:induction false} ActionRooms(s: System, a: Action)
    requires SystemInv(s) && Enabled(s, a)
    ensures var re := ActionEvent(s, a);
      && (re.Some? ==> re.value.0 < |s.rooms| && (re.value.1.JoinRoom? ==> re.value.1.user !in s.used))
      && Act(s, a).rooms == RoomsAfter(s.rooms, s.used, re)
  {
    match a
    case Connect(_) =>
    case Receive(id, m) => EventIsFresh(s, id, m);
    case Disconnect(id) => assert ConnInv(s.conns[id], |s.rooms|);
  }

  lemma {:induction false} AdriftActsNot(s: System, a: Action, r: nat, u: User)
    requires SystemInv(s) && Enabled(s, a) && Adrift(s, r, u)
    ensures ActionEvent(s, a).Some? && ActionEvent(s, a).value.0 == r ==> ActionEvent(s, a).value.1.user != u
  {
  }

  lemma {:induction false} StaysAdrift(s: System, a: Action, r: nat, u: User)
    requires SystemInv(s) && Enabled(s, a) && Adrift(s, r, u)
    ensures Adrift(Act(s, a), r, u)
  {
    if a.Receive? {
      RoomOrUserStays(s.conns[a.id], a.m, Joins(s, a.id, a.m));
    }
  }

  /** A message that gives the connection another room gives it a new user. */
  lemma {:induction false} RoomOrUserStays(conn: Conn, m: Message, joined: bool)
    ensures var conn' := ConnAfter(conn, m, joined);
      (conn'.user == conn.user && conn'.room == conn.room) || (m.auth.Some? && conn'.user == m.auth)
  {
  }

  lemma {:induction false} AdriftOneAct(s: System, a: Action, r: nat, u: User)
    requires SystemInv(s) && Enabled(s, a) && r < |s.rooms| && Adrift(s, r, u)
    ensures r < |Act(s, a).rooms| && Adrift(Act(s, a), r, u)
    ensures SamePlace(s.rooms[r].lobby, Act(s, a).rooms[r].lobby, u)
  {
    StaysAdrift(s, a, r, u);
    ActionRooms(s, a);
    AdriftActsNot(s, a, r, u);
    var re := ActionEvent(s, a);
    OneRoomChanges(s.rooms, s.used, re);
    if re.Some? && re.value.0 == r {
      OthersMoveNobody(s.rooms[r].lobby, re.value.1, u);
    }
  }

  lemma {:induction false} SamePlaceTwice(l: Lobby, l1: Lobby, l2: Lobby, u: User)
    requires SamePlace(l, l1, u) && SamePlace(l1, l2, u)
    ensures SamePlace(l, l2, u)
  {
  }

  /** Whatever happens on the server, a user no connection can move stays where it is: listed or
      not, in its seat or in none. */
  lemma {:induction false} AdriftForGood(s: System, acts: seq<Action>, r: nat, u: User)
    requires SystemInv(s) && EnabledAll(s, acts) && r < |s.rooms| && Adrift(s, r, u)
    ensures r < |ActAll(s, acts).rooms| && Adrift(ActAll(s, acts), r, u)
    ensures SamePlace(s.rooms[r].lobby, ActAll(s, acts).rooms[r].lobby, u)
    decreases |acts|
  {
    if acts != [] {
      var last := |acts| - 1;
      AdriftForGood(s, acts[..last], r, u);
      var s1 := ActAll(s, acts[..last]);
      AdriftOneAct(s1, acts[last], r, u);
      SamePlaceTwice(s.rooms[r].lobby, s1.rooms[r].lobby, Act(s1, acts[last]).rooms[r].lobby, u);
    }
  }

  /** A run that goes on after an action, and where it comes to. */
  ghost predicate GoesOn(s: System, a: Action, acts: seq<Action>)
    requires SystemInv(s) && Enabled(s, a)
  {
    ActKeepsInv(s, a);
    EnabledAll(Act(s, a), acts)
  }

  ghost function Later(s: System, a: Action, acts: seq<Action>): (s': System)
    requires SystemInv(s) && Enabled(s, a) && GoesOn(s, a, acts)
    ensures SystemInv(s')
  {
    ActKeepsInv(s, a);
    ActAll(Act(s, a), acts)
  }

  // ---------- connections that end ----------

  lemma {:induction false} LeavingRoom(l: Lobby, crowd: Crowd, u: User)
    requires Admissible(l) && LobbyRoster(l, crowd)
    ensures var l' := After(l, LeaveRoom(u));
      !IsPlayer(l'.table, u) && (u in l'.users <==> IsPlayer(l.table, u))
  {
    if IsPlayer(l.table, u) {
      PlayerIsListed(l, crowd, u);
      PlayerLeaves(l, u);
    } else {
      OtherLeaves(l, u);
    }
  }

  lemma {:induction false} PlayerLeaves(l: Lobby, u: User)
    requires Admissible(l) && IsPlayer(l.table, u)
    ensures var l' := After(l, LeaveRoom(u)); !IsPlayer(l'.table, u) && l'.users == l.users
  {
  }

  lemma {:induction false} OtherLeaves(l: Lobby, u: User)
    requires Admissible(l) && Distinct(l.users) && !IsPlayer(l.table, u)
    ensures var l' := After(l, LeaveRoom(u)); l'.table == l.table && u !in l'.users
  {
    WithoutRemoves(l.users, u);
  }

  lemma {:induction false} PlayerIsListed(l: Lobby, crowd: Crowd, u: User)
    requires LobbyRoster(l, crowd) && IsPlayer(l.table, u)
    ensures u in l.users
  {
    SeatedAreThePlayers(l.table, u);
  }

  lemma {:induction false} EndedLeaves(s: System, id: nat)
    requires SystemInv(s) && id in s.conns && s.conns[id].user.Some? && s.conns[id].room.Some?
    ensures var r, u, s' := s.conns[id].room.value, s.conns[id].user.value, Act(s, Disconnect(id));
      && r < |s.rooms| && r < |s'.rooms|
      && (u in s'.rooms[r].lobby.users <==> IsPlayer(s.rooms[r].lobby.table, u))
      && !IsPlayer(s'.rooms[r].lobby.table, u)
  {
    var r, u := s.conns[id].room.value, s.conns[id].user.value;
    assert ConnInv(s.conns[id], |s.rooms|);
    assert RoomInv(s.rooms[r], s.used);
    LeavingRoom(s.rooms[r].lobby, s.rooms[r].crowd, u);
    EndedRooms(s, id, r, u);
    OneRoomChanges(s.rooms, s.used, Some((r, LeaveRoom(u))));
  }

  lemma {:induction false} EndedRooms(s: System, id: nat, r: nat, u: User)
    requires SystemInv(s) && id in s.conns && s.conns[id].user == Some(u) && s.conns[id].room == Some(r)
    requires r < |s.rooms|
    ensures Act(s, Disconnect(id)).rooms == RoomsAfter(s.rooms, s.used, Some((r, LeaveRoom(u))))
  {
  }

  lemma {:induction false} EndedIsAdrift(s: System, id: nat)
    requires SystemInv(s) && OwnUsers(s) && id in s.conns && s.conns[id].user.Some? && s.conns[id].room.Some?
    ensures Adrift(Act(s, Disconnect(id)), s.conns[id].room.value, s.conns[id].user.value)
  {
  }

  /** When a connection ends, its user is listed in its room in every later state if it held a
      seat at that moment, and in none if it did not; it has no seat in either case. So a player
      whose connection breaks stays listed for good, and one that sent a leave message first
      does not. */
  lemma {:induction false} EndedStaysListedIff(s: System, id: nat, acts: seq<Action>)
    requires SystemInv(s) && OwnUsers(s) && id in s.conns && s.conns[id].user.Some? && s.conns[id].room.Some?
    requires GoesOn(s, Disconnect(id), acts)
    ensures var r, u := s.conns[id].room.value, s.conns[id].user.value;
      var s' := Later(s, Disconnect(id), acts);
      && r < |s.rooms| && r < |s'.rooms|
      && (u in s'.rooms[r].lobby.users <==> IsPlayer(s.rooms[r].lobby.table, u))
      && !IsPlayer(s'.rooms[r].lobby.table, u)
  {
    EndedLeaves(s, id);
    EndedIsAdrift(s, id);
    ActKeepsInv(s, Disconnect(id));
    AdriftForGood(Act(s, Disconnect(id)), acts, s.conns[id].room.value, s.conns[id].user.value);
  }

  // ---------- joins that fail after the seat was taken ----------

  lemma {:induction false} FailedIsAdrift(s: System, id: nat, m: Message, r: nat)
    requires SystemInv(s) && OwnUsers(s) && Enabled(s, Receive(id, m)) && s.conns[id].room != Some(r)
    requires m.instruction == S_JOIN_ROOM && Gate(s.conns[id], m).Some? && !Joins(s, id, m)
    ensures Adrift(Act(s, Receive(id, m)), r, Gate(s.conns[id], m).value)
  {
    RefusedConn(s.conns[id], m);
  }

  /** Admitted by the room, but without a snapshot. */
  ghost predicate FailsAdmitted(s: System, id: nat, m: Message, r: nat, u: User, role: byte)
    requires SystemInv(s) && Enabled(s, Receive(id, m))
  {
    && m.instruction == S_JOIN_ROOM && RoomEvent(s.conns[id], m, |s.rooms|) == Some((r, JoinRoom(u, role)))
    && r < |s.rooms| && Possible(s.rooms[r].lobby, JoinRoom(u, role))
    && Admit(s.rooms[r].lobby, u, role).Some? && !Joins(s, id, m)
  }

  lemma {:induction false} AfterFailing(s: System, id: nat, m: Message, r: nat, u: User, role: byte)
    requires SystemInv(s) && OwnUsers(s) && Enabled(s, Receive(id, m)) && s.conns[id].room != Some(r)
    requires FailsAdmitted(s, id, m, r, u, role)
    ensures var s1 := Act(s, Receive(id, m));
      && SystemInv(s1) && !s1.conns[id].open && r < |s1.rooms| && Adrift(s1, r, u)
      && s1.rooms[r].lobby == After(s.rooms[r].lobby, JoinRoom(u, role))
  {
    ActKeepsInv(s, Receive(id, m));
    GateOfJoin(s.conns[id], m, |s.rooms|);
    FailedIsAdrift(s, id, m, r);
    FailedIsClosed(s, id, m);
    AdmittedRoom(s, id, m);
  }

  lemma {:induction false} GateOfJoin(conn: Conn, m: Message, roomCount: nat)
    ensures var re := RoomEvent(conn, m, roomCount);
      re.Some? && re.value.1.JoinRoom? ==> Gate(conn, m) == Some(re.value.1.user)
  {
  }

  lemma {:induction false} FailedIsClosed(s: System, id: nat, m: Message)
    requires SystemInv(s) && Enabled(s, Receive(id, m)) && m.instruction == S_JOIN_ROOM && !Joins(s, id, m)
    ensures !Act(s, Receive(id, m)).conns[id].open
  {
    RefusedConn(s.conns[id], m);
  }

  /** A join that is admitted but whose snapshot cannot be sent is never undone: the connection
      ends, and in every later state the user is still listed and, if it joined as a player,
      still holds its seat. */
  lemma {:induction false} FailedJoinStaysListed(
    s: System, id: nat, m: Message, r: nat, u: User, role: byte, acts: seq<Action>)
    requires SystemInv(s) && OwnUsers(s) && Enabled(s, Receive(id, m)) && s.conns[id].room != Some(r)
    requires FailsAdmitted(s, id, m, r, u, role)
    requires GoesOn(s, Receive(id, m), acts)
    ensures !Act(s, Receive(id, m)).conns[id].open
    ensures var s' := Later(s, Receive(id, m), acts);
      && r < |s'.rooms| && u in s'.rooms[r].lobby.users
      && (IsPlayer(s'.rooms[r].lobby.table, u) <==> role == ROLE_PLAYER)
  {
    AfterFailing(s, id, m, r, u, role);
    AdmittedPlace(s.rooms[r].lobby, u, role);
    AdriftForGood(Act(s, Receive(id, m)), acts, r, u);
  }

  lemma {:induction false} AdmittedPlace(l: Lobby, u: User, role: byte)
    requires Possible(l, JoinRoom(u, role)) && Admit(l, u, role).Some?
    ensures u in After(l, JoinRoom(u, role)).users
    ensures IsPlayer(After(l, JoinRoom(u, role)).table, u) <==> role == ROLE_PLAYER
  {
    AdmittedIsListed(l, u, role);
  }

  // ---------- a dead seat stops the games ----------

  /** The user has a seat, has not asked for a start, and no game goes on. */
  predicate Stalled(l: Lobby, u: User) {
    && Admissible(l) && IsPlayer(l.table, u) && !l.table.isPlaying
    && l.table.readyColor != ColorOf(l.table, u)
  }

  lemma {:induction false} JoinerIsStalled(l: Lobby, u: User)
    requires Possible(l, JoinRoom(u, ROLE_PLAYER)) && Admit(l, u, ROLE_PLAYER).Some?
    ensures Stalled(After(l, JoinRoom(u, ROLE_PLAYER)), u)
  {
  }

  lemma {:induction false} ReadyKeepsStalled(t: Table, u: User, v: User)
    requires Sound(t) && u != v && IsPlayer(t, u) && !t.isPlaying && t.readyColor != ColorOf(t, u)
    ensures var t' := AfterReady(t, v); IsPlayer(t', u) && !t'.isPlaying && t'.readyColor != ColorOf(t', u)
  {
  }

  lemma {:induction false} OthersKeepStalled(l: Lobby, e: Event, u: User)
    requires Possible(l, e) && e.user != u && Stalled(l, u)
    ensures Stalled(After(l, e), u)
  {
    if e.PlayerReady? {
      ReadyKeepsStalled(l.table, u, e.user);
    }
  }

  /** While a seated user that no connection can move has not asked for a start, no game starts
      in its room, whatever happens on the server. */
  lemma {:induction false} DeadSeatStopsGames(s: System, acts: seq<Action>, r: nat, u: User)
    requires SystemInv(s) && EnabledAll(s, acts) && r < |s.rooms| && Adrift(s, r, u) && Stalled(s.rooms[r].lobby, u)
    ensures r < |ActAll(s, acts).rooms| && Stalled(ActAll(s, acts).rooms[r].lobby, u)
    decreases |acts|
  {
    if acts != [] {
      var last := |acts| - 1;
      var s1 := ActAll(s, acts[..last]);
      DeadSeatStopsGames(s, acts[..last], r, u);
      AdriftForGood(s, acts[..last], r, u);
      StalledOneAct(s1, acts[last], r, u);
    }
  }

  lemma {:induction false} StalledOneAct(s: System, a: Action, r: nat, u: User)
    requires SystemInv(s) && Enabled(s, a) && r < |s.rooms| && Adrift(s, r, u) && Stalled(s.rooms[r].lobby, u)
    ensures r < |Act(s, a).rooms| && Stalled(Act(s, a).rooms[r].lobby, u)
  {
    ActionRooms(s, a);
    AdriftActsNot(s, a, r, u);
    var re := ActionEvent(s, a);
    OneRoomChanges(s.rooms, s.used, re);
    if re.Some? && re.value.0 == r {
      OthersKeepStalled(s.rooms[r].lobby, re.value.1, u);
    }
  }

  /** After a player's join that failed admitted, no game ever goes on in that room again. */
  lemma {:induction false} FailedJoinStopsGames(s: System, id: nat, m: Message, r: nat, u: User, acts: seq<Action>)
    requires SystemInv(s) && OwnUsers(s) && Enabled(s, Receive(id, m)) && s.conns[id].room != Some(r)
    requires FailsAdmitted(s, id, m, r, u, ROLE_PLAYER)
    requires GoesOn(s, Receive(id, m), acts)
    ensures var s' := Later(s, Receive(id, m), acts);
      r < |s'.rooms| && !s'.rooms[r].lobby.table.isPlaying
  {
    AfterFailing(s, id, m, r, u, ROLE_PLAYER);
    JoinerIsStalled(s.rooms[r].lobby, u);
    DeadSeatStopsGames(Act(s, Receive(id, m)), acts, r, u);
  }

  /** Once two different users that no connection can move hold the seats, no player is admitted
      any more. */
  lemma {:induction false} TwoDeadSeats(s: System, acts: seq<Action>, r: nat, u: User, v: User, w: User)
    requires SystemInv(s) && EnabledAll(s, acts) && r < |s.rooms| && u != v
    requires Adrift(s, r, u) && IsPlayer(s.rooms[r].lobby.table, u)
    requires Adrift(s, r, v) && IsPlayer(s.rooms[r].lobby.table, v)
    requires r < |ActAll(s, acts).rooms| && Possible(ActAll(s, acts).rooms[r].lobby, JoinRoom(w, ROLE_PLAYER))
    ensures Admit(ActAll(s, acts).rooms[r].lobby, w, ROLE_PLAYER).None?
  {
    AdriftForGood(s, acts, r, u);
    AdriftForGood(s, acts, r, v);
  }
}
