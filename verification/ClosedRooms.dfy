/** How connections that come, join and break close a room for the rest of every run of the
    server. */
module ClosedRooms {
  import opened Bytes
  import opened Messages
  import opened Chess
  import opened Tables
  import opened Lobby
  import opened LobbyRuns
  import opened Server
  import opened Departures
  import opened PileUp
  import Framing

  // ---------- abandoned users ----------

  /** Different users, listed in the room without a seat, that no connection can move. */
  ghost predicate Abandoned(s: System, r: nat, gone: seq<User>) {
    && SystemInv(s) && r < |s.rooms| && Linger(s.rooms[r].lobby, gone)
    && forall g :: g in gone ==> Adrift(s, r, g)
  }

  predicate SameRoom(l: Lobby, l': Lobby) {
    l'.name == l.name && l'.maxUsers == l.maxUsers
  }

  lemma {:induction false} ActKeepsRoom(s: System, a: Action, r: nat)
    requires SystemInv(s) && Enabled(s, a) && r < |s.rooms|
    ensures var rooms := Act(s, a).rooms;
      r < |rooms| && SameRoom(s.rooms[r].lobby, rooms[r].lobby)
  {
    ActionRooms(s, a);
    var re := ActionEvent(s, a);
    OneRoomChanges(s.rooms, s.used, re);
    if re.Some? && re.value.0 == r {
      CapacityIsFixed(s.rooms[r].lobby, re.value.1);
    }
  }

  /** A room keeps its name and capacity. */
  lemma {:induction false} RunsKeepRoom(s: System, acts: seq<Action>, r: nat)
    requires SystemInv(s) && EnabledAll(s, acts) && r < |s.rooms|
    ensures var rooms := ActAll(s, acts).rooms;
      r < |rooms| && SameRoom(s.rooms[r].lobby, rooms[r].lobby)
    decreases |acts|
  {
    if acts != [] {
      RunsKeepRoom(s, acts[..|acts| - 1], r);
      ActKeepsRoom(ActAll(s, acts[..|acts| - 1]), acts[|acts| - 1], r);
    }
  }

  lemma {:induction false} AbandonedForGood(s: System, acts: seq<Action>, r: nat, gone: seq<User>)
    requires Abandoned(s, r, gone) && EnabledAll(s, acts)
    ensures Abandoned(ActAll(s, acts), r, gone)
  {
    RunsKeepRoom(s, acts, r);
    forall g | g in gone
      ensures Adrift(ActAll(s, acts), r, g) && SamePlace(s.rooms[r].lobby, ActAll(s, acts).rooms[r].lobby, g)
    {
      AdriftForGood(s, acts, r, g);
    }
  }

  /** A player whose connection breaks is abandoned. */
  lemma {:induction false} BrokenIsAbandoned(s: System, id: nat)
    requires SystemInv(s) && OwnUsers(s) && id in s.conns && s.conns[id].user.Some? && s.conns[id].room.Some?
    requires s.conns[id].room.value < |s.rooms|
    requires IsPlayer(s.rooms[s.conns[id].room.value].lobby.table, s.conns[id].user.value)
    ensures Abandoned(Act(s, Disconnect(id)), s.conns[id].room.value, [s.conns[id].user.value])
  {
    var r, u := s.conns[id].room.value, s.conns[id].user.value;
    ActKeepsInv(s, Disconnect(id));
    EndedIsAdrift(s, id);
    EndedLeaves(s, id);
    OneIsAbandoned(Act(s, Disconnect(id)), r, u);
  }

  lemma {:induction false} OneIsAbandoned(s: System, r: nat, u: User)
    requires SystemInv(s) && r < |s.rooms| && Adrift(s, r, u)
    requires u in s.rooms[r].lobby.users && !IsPlayer(s.rooms[r].lobby.table, u)
    ensures Abandoned(s, r, [u])
  {
  }

  /** A message that asks to join room `r`. */
  ghost predicate AsksToJoin(s: System, id: nat, m: Message, r: nat, u: User, role: byte) {
    && SystemInv(s) && Enabled(s, Receive(id, m)) && r < |s.rooms|
    && RoomEvent(s.conns[id], m, |s.rooms|) == Some((r, JoinRoom(u, role)))
  }

  /** Whatever happens on the server from then on: with more than 255 users abandoned in a room,
      or with names too long for a frame, no join into it succeeds on any connection; and with as
      many of them as there are places for onlookers, no onlooker is even admitted. */
  lemma {:induction false} AbandonedCloseTheRoom(
    s: System, acts: seq<Action>, r: nat, gone: seq<User>, id: nat, m: Message, u: User, role: byte)
    requires Abandoned(s, r, gone) && EnabledAll(s, acts) && AsksToJoin(ActAll(s, acts), id, m, r, u, role)
    ensures var s', l := ActAll(s, acts), s.rooms[r].lobby;
      && Possible(s'.rooms[r].lobby, JoinRoom(u, role))
      && (|gone| > 255 || LeastSize(l, gone) > Framing.MAX_PAYLOAD ==> !Joins(s', id, m))
      && (|gone| >= l.maxUsers - 2 ==> Admit(s'.rooms[r].lobby, u, ROLE_ONLOOKER).None?)
  {
    var s' := ActAll(s, acts);
    AbandonedForGood(s, acts, r, gone);
    RunsKeepRoom(s, acts, r);
    EventIsFresh(s', id, m);
    assert RoomInv(s'.rooms[r], s'.used);
    LingerersCloseTheRoom(s'.rooms[r], gone, u, role);
  }

  // ---------- a run that does it ----------

  /** Each message in turn comes on a new connection, which breaks after it. */
  function ServerRounds(id: nat, ms: seq<Message>): seq<Action> {
    if ms == [] then []
    else
      var last := |ms| - 1;
      ServerRounds(id, ms[..last]) + [Connect(id)] + [Receive(id, ms[last])] + [Disconnect(id)]
  }

  predicate JoinsAs(m: Message, r: nat, u: User) {
    m.instruction == S_JOIN_ROOM && m.auth == Some(u) && ReadJoin(m.data) == Some(JoinFields(r, ROLE_PLAYER))
  }

  lemma {:induction false} OneMoreAct(s: System, acts: seq<Action>, now: System, a: Action, next: System)
    requires SystemInv(s) && EnabledAll(s, acts) && ActAll(s, acts) == now && SystemInv(now)
    requires Enabled(now, a) && Act(now, a) == next
    ensures EnabledAll(s, acts + [a]) && ActAll(s, acts + [a]) == next
  {
    assert (acts + [a])[..|acts|] == acts;
  }

  // the three actions of a round, one by one

  lemma {:induction false} NewConnJoins(m: Message, r: nat, u: User, roomCount: nat)
    requires JoinsAs(m, r, u) && r < roomCount
    ensures RoomEvent(NEW_CONN, m, roomCount) == Some((r, JoinRoom(u, ROLE_PLAYER)))
    ensures ConnAfter(NEW_CONN, m, true) == Conn(Some(u), Some(r), true)
  {
  }

  lemma {:induction false} RoomsAfterEvent(rooms: seq<History>, used: set<User>, r: nat, e: Event)
    requires RoomsInv(rooms, used) && r < |rooms| && (e.JoinRoom? ==> e.user !in used)
    ensures Inv(rooms[r]) && Fresh(rooms[r].crowd, e)
    ensures RoomsAfter(rooms, used, Some((r, e))) == rooms[r := Next(rooms[r], e)]
  {
    assert RoomInv(rooms[r], used);
  }

  lemma {:induction false} ConnectAct(s: System, id: nat)
    requires SystemInv(s) && id !in s.conns
    ensures Act(s, Connect(id)) == s.(conns := s.conns[id := NEW_CONN]) && SystemInv(Act(s, Connect(id)))
  {
    ActKeepsInv(s, Connect(id));
  }

  lemma {:induction false} JoinSucceeds(s: System, id: nat, m: Message, r: nat, u: User)
    requires SystemInv(s) && id in s.conns && s.conns[id] == NEW_CONN && r < |s.rooms|
    requires JoinsAs(m, r, u) && u !in s.used
    requires Possible(s.rooms[r].lobby, JoinRoom(u, ROLE_PLAYER))
    requires Succeeds(s.rooms[r].lobby, JoinRoom(u, ROLE_PLAYER))
    ensures Enabled(s, Receive(id, m)) && Joins(s, id, m)
  {
    NewConnJoins(m, r, u, |s.rooms|);
  }

  lemma {:induction false} JoinAct(s: System, id: nat, m: Message, r: nat, u: User)
    requires SystemInv(s) && id in s.conns && s.conns[id] == NEW_CONN && r < |s.rooms|
    requires JoinsAs(m, r, u) && Enabled(s, Receive(id, m)) && Joins(s, id, m)
    ensures Inv(s.rooms[r]) && Fresh(s.rooms[r].crowd, JoinRoom(u, ROLE_PLAYER))
    ensures Act(s, Receive(id, m)) ==
      System(s.rooms[r := Next(s.rooms[r], JoinRoom(u, ROLE_PLAYER))], s.conns[id := Conn(Some(u), Some(r), true)],
             s.used + {u})
  {
    NewConnJoins(m, r, u, |s.rooms|);
    RoomsAfterEvent(s.rooms, s.used, r, JoinRoom(u, ROLE_PLAYER));
  }

  lemma {:induction false} BreakAct(s: System, id: nat, r: nat, u: User)
    requires SystemInv(s) && id in s.conns && s.conns[id] == Conn(Some(u), Some(r), true) && r < |s.rooms|
    ensures Inv(s.rooms[r])
    ensures Act(s, Disconnect(id)) == System(s.rooms[r := Next(s.rooms[r], LeaveRoom(u))], s.conns - {id}, s.used)
  {
    RoomsAfterEvent(s.rooms, s.used, r, LeaveRoom(u));
  }

  /** The state after a round. */
  ghost function RoundState(s: System, r: nat, u: User): System
    requires r < |s.rooms| && Inv(s.rooms[r]) && u !in s.rooms[r].crowd.asked
  {
    System(s.rooms[r := Next(Next(s.rooms[r], JoinRoom(u, ROLE_PLAYER)), LeaveRoom(u))], s.conns, s.used + {u})
  }

  lemma {:induction false} Unasked(s: System, r: nat, u: User)
    requires SystemInv(s) && r < |s.rooms| && u !in s.used
    ensures Inv(s.rooms[r]) && u !in s.rooms[r].crowd.asked
  {
    assert RoomInv(s.rooms[r], s.used);
  }

  predicate RoundStarts(s: System, id: nat, m: Message, r: nat, u: User) {
    id !in s.conns && r < |s.rooms| && JoinsAs(m, r, u) && u !in s.used
  }

  predicate WillSucceed(l: Lobby, u: User) {
    Possible(l, JoinRoom(u, ROLE_PLAYER)) && Succeeds(l, JoinRoom(u, ROLE_PLAYER))
  }

  lemma {:induction false} RoundConnects(s: System, id: nat, m: Message, r: nat, u: User)
    requires SystemInv(s) && RoundStarts(s, id, m, r, u) && WillSucceed(s.rooms[r].lobby, u)
    ensures var s1 := s.(conns := s.conns[id := NEW_CONN]);
      Enabled(s, Connect(id)) && Act(s, Connect(id)) == s1 && SystemInv(s1)
      && Enabled(s1, Receive(id, m)) && Joins(s1, id, m)
  {
    ConnectAct(s, id);
    JoinSucceeds(Act(s, Connect(id)), id, m, r, u);
  }

  ghost function JoinedState(s: System, id: nat, r: nat, u: User): System
    requires r < |s.rooms| && Inv(s.rooms[r]) && u !in s.rooms[r].crowd.asked
  {
    System(s.rooms[r := Next(s.rooms[r], JoinRoom(u, ROLE_PLAYER))], s.conns[id := Conn(Some(u), Some(r), true)],
           s.used + {u})
  }

  lemma {:induction false} RoundJoins(s: System, id: nat, m: Message, r: nat, u: User)
    requires SystemInv(s) && RoundStarts(s, id, m, r, u) && Inv(s.rooms[r]) && u !in s.rooms[r].crowd.asked
    requires var s1 := s.(conns := s.conns[id := NEW_CONN]);
      SystemInv(s1) && Enabled(s1, Receive(id, m)) && Joins(s1, id, m)
    ensures var s1 := s.(conns := s.conns[id := NEW_CONN]);
      Act(s1, Receive(id, m)) == JoinedState(s, id, r, u) && SystemInv(JoinedState(s, id, r, u))
  {
    var s1 := s.(conns := s.conns[id := NEW_CONN]);
    JoinAct(s1, id, m, r, u);
    TwiceSet(s.conns, id, NEW_CONN, Conn(Some(u), Some(r), true));
    ActKeepsInv(s1, Receive(id, m));
  }

  lemma {:induction false} RoundBreaks(s: System, id: nat, r: nat, u: User)
    requires id !in s.conns && r < |s.rooms| && Inv(s.rooms[r]) && u !in s.rooms[r].crowd.asked
    requires SystemInv(JoinedState(s, id, r, u))
    ensures Enabled(JoinedState(s, id, r, u), Disconnect(id))
    ensures Act(JoinedState(s, id, r, u), Disconnect(id)) == RoundState(s, r, u)
  {
    BreakAct(JoinedState(s, id, r, u), id, r, u);
    SetAndRemoved(s.conns, id, Conn(Some(u), Some(r), true));
    var h := Next(s.rooms[r], JoinRoom(u, ROLE_PLAYER));
    TwiceReplaced(s.rooms, r, h, Next(h, LeaveRoom(u)));
  }

  lemma {:induction false} TwiceSet(conns: map<nat, Conn>, id: nat, a: Conn, b: Conn)
    ensures conns[id := a][id := b] == conns[id := b]
  {
  }

  lemma {:induction false} SetAndRemoved(conns: map<nat, Conn>, id: nat, c: Conn)
    requires id !in conns
    ensures conns[id := c] - {id} == conns
  {
  }

  lemma {:induction false} TwiceReplaced(rooms: seq<History>, r: nat, a: History, b: History)
    requires r < |rooms|
    ensures rooms[r := a][r := b] == rooms[r := b] && rooms[r := a][r] == a
  {
  }

  lemma {:induction false} RoundActs(s: System, acts: seq<Action>, now: System, id: nat, m: Message, r: nat, u: User)
    requires SystemInv(s) && EnabledAll(s, acts) && ActAll(s, acts) == now && SystemInv(now)
    requires RoundStarts(now, id, m, r, u) && WillSucceed(now.rooms[r].lobby, u)
    ensures Inv(now.rooms[r]) && u !in now.rooms[r].crowd.asked
    ensures EnabledAll(s, acts + [Connect(id)] + [Receive(id, m)] + [Disconnect(id)])
    ensures ActAll(s, acts + [Connect(id)] + [Receive(id, m)] + [Disconnect(id)]) == RoundState(now, r, u)
  {
    Unasked(now, r, u);
    var s1, s2 := now.(conns := now.conns[id := NEW_CONN]), JoinedState(now, id, r, u);
    RoundConnects(now, id, m, r, u);
    OneMoreAct(s, acts, now, Connect(id), s1);
    RoundJoins(now, id, m, r, u);
    OneMoreAct(s, acts + [Connect(id)], s1, Receive(id, m), s2);
    RoundBreaks(now, id, r, u);
    OneMoreAct(s, acts + [Connect(id)] + [Receive(id, m)], s2, Disconnect(id), RoundState(now, r, u));
  }

  // ---------- one round after another ----------

  /** What rounds by these users lead to. */
  ghost predicate PiledUp(s: System, s': System, r: nat, users: seq<User>)
    requires r < |s.rooms|
  {
    && s'.conns == s.conns && s'.used == s.used + UserSet(users) && r < |s'.rooms|
    && Piled(s.rooms[r], s'.rooms[r], users)
  }

  lemma {:induction false} RoomOneMorePiled(h: History, h1: History, users: seq<User>, u: User)
    requires Inv(h1) && Piled(h, h1, users) && u !in h1.crowd.asked
    ensures Piled(h, Next(Next(h1, JoinRoom(u, ROLE_PLAYER)), LeaveRoom(u)), users + [u])
  {
    OneRound(h1, u);
    OneMoreRound(h, h1, Next(Next(h1, JoinRoom(u, ROLE_PLAYER)), LeaveRoom(u)), users, u);
  }

  lemma {:induction false} OneMoreInSet(used: set<User>, users: seq<User>, u: User)
    ensures used + UserSet(users) + {u} == used + UserSet(users + [u])
  {
    assert UserSet(users + [u]) == UserSet(users) + {u};
  }

  lemma {:induction false} RoundStateParts(s: System, r: nat, u: User)
    requires r < |s.rooms| && Inv(s.rooms[r]) && u !in s.rooms[r].crowd.asked
    ensures var s' := RoundState(s, r, u);
      && s'.conns == s.conns && s'.used == s.used + {u} && r < |s'.rooms|
      && s'.rooms[r] == Next(Next(s.rooms[r], JoinRoom(u, ROLE_PLAYER)), LeaveRoom(u))
  {
  }

  lemma {:induction false} OneMorePiled(s: System, now: System, r: nat, users: seq<User>, u: User)
    requires r < |s.rooms| && PiledUp(s, now, r, users)
    requires Inv(now.rooms[r]) && u !in now.rooms[r].crowd.asked
    ensures PiledUp(s, RoundState(now, r, u), r, users + [u])
  {
    RoundStateParts(now, r, u);
    RoomOneMorePiled(s.rooms[r], now.rooms[r], users, u);
    OneMoreInSet(s.used, users, u);
  }

  /** All of them, with those listed already, fit into one snapshot beside one more player. */
  predicate Fit(l: Lobby, users: seq<User>)
    requires Admissible(l)
  {
    && |l.name| <= 255 && |l.users| + |users| <= 256
    && 11 + |l.name| + |Log(l.table.chess)| + TotalSize(NamesOf(l.users + users)) <= Framing.MAX_PAYLOAD
  }

  lemma {:induction false} FrontFits(l: Lobby, front: seq<User>, u: User)
    requires Admissible(l) && Fit(l, front + [u])
    ensures Fit(l, front)
    ensures TotalSize(NamesOf(l.users + (front + [u]))) == TotalSize(NamesOf(l.users + front)) + 1 + |u.name|
  {
    assert l.users + (front + [u]) == l.users + front + [u];
    NamesSizeSplits(l.users + front, [u]);
    assert [u][1..] == [] && NamesOf([u]) == [u.name] && [u.name][1..] == [];
  }

  lemma {:induction false} PileTakesOneMore(l: Lobby, l': Lobby, front: seq<User>, u: User)
    requires Admissible(l) && Admissible(l') && Fit(l, front + [u])
    requires l'.name == l.name && l'.users == l.users + front && l'.table.chess == l.table.chess
    requires l'.table.black.None? && l'.table.white.None? && u !in l'.users
    ensures WillSucceed(l', u)
  {
    FrontFits(l, front, u);
    JoinBesideGhostsSucceedsIff(l', u);
  }

  lemma {:induction false} ListedWereUsed(s: System, r: nat, u: User)
    requires SystemInv(s) && r < |s.rooms| && u !in s.used
    ensures Admissible(s.rooms[r].lobby) && u !in s.rooms[r].lobby.users
  {
    assert RoomInv(s.rooms[r], s.used);
  }

  /** The connection with number `id` is free, nobody sits in the room, and the users are new. */
  ghost predicate RoundsStart(s: System, id: nat, ms: seq<Message>, r: nat, users: seq<User>) {
    && SystemInv(s) && id !in s.conns && r < |s.rooms| && NobodySits(s.rooms[r])
    && |ms| == |users| && (forall i :: 0 <= i < |ms| ==> JoinsAs(ms[i], r, users[i]))
    && Distinct(users) && UserSet(users) !! s.used
  }

  lemma {:induction false} FrontOfNew(users: seq<User>, used: set<User>)
    requires Distinct(users) && UserSet(users) !! used && users != []
    ensures var last := |users| - 1;
      && Distinct(users[..last]) && UserSet(users[..last]) !! used && users == users[..last] + [users[last]]
      && users[last] !in used + UserSet(users[..last])
  {
    var last := |users| - 1;
    assert users[last] in UserSet(users);
    assert UserSet(users[..last]) <= UserSet(users);
  }

  lemma {:induction false} FrontOfFitting(l: Lobby, users: seq<User>)
    requires Admissible(l) && Fit(l, users) && users != []
    ensures Fit(l, users[..|users| - 1])
  {
    assert users == users[..|users| - 1] + [users[|users| - 1]];
    FrontFits(l, users[..|users| - 1], users[|users| - 1]);
  }

  lemma {:induction false} FrontStarts(s: System, id: nat, ms: seq<Message>, r: nat, users: seq<User>)
    requires RoundsStart(s, id, ms, r, users) && users != []
    ensures RoundsStart(s, id, ms[..|users| - 1], r, users[..|users| - 1])
  {
    FrontOfNew(users, s.used);
  }

  lemma {:induction false} NoServerRounds(s: System, id: nat, r: nat)
    requires SystemInv(s) && r < |s.rooms| && NobodySits(s.rooms[r])
    ensures EnabledAll(s, ServerRounds(id, [])) && PiledUp(s, ActAll(s, ServerRounds(id, [])), r, [])
  {
    NothingPiled(s.rooms[r]);
    NobodyAdded(s.used);
  }

  lemma {:induction false} NobodyAdded(used: set<User>)
    ensures used + UserSet([]) == used
  {
  }

  /** After rounds of new users who fit, all of them are listed as departed, and connections and
      the other rooms' users are as before. */
  lemma {:induction false} ServerRoundsPileUp(s: System, id: nat, ms: seq<Message>, r: nat, users: seq<User>)
    requires RoundsStart(s, id, ms, r, users) && Admissible(s.rooms[r].lobby) && Fit(s.rooms[r].lobby, users)
    ensures EnabledAll(s, ServerRounds(id, ms))
    ensures PiledUp(s, ActAll(s, ServerRounds(id, ms)), r, users)
    decreases |users|
  {
    if users == [] {
      NoServerRounds(s, id, r);
    } else {
      var last := |users| - 1;
      FrontStarts(s, id, ms, r, users);
      FrontOfFitting(s.rooms[r].lobby, users);
      ServerRoundsPileUp(s, id, ms[..last], r, users[..last]);
      LastRound(s, id, ms, r, users);
    }
  }

  lemma {:induction false} LastRound(s: System, id: nat, ms: seq<Message>, r: nat, users: seq<User>)
    requires RoundsStart(s, id, ms, r, users) && users != []
    requires Admissible(s.rooms[r].lobby) && Fit(s.rooms[r].lobby, users)
    requires EnabledAll(s, ServerRounds(id, ms[..|ms| - 1]))
    requires PiledUp(s, ActAll(s, ServerRounds(id, ms[..|ms| - 1])), r, users[..|users| - 1])
    ensures EnabledAll(s, ServerRounds(id, ms))
    ensures PiledUp(s, ActAll(s, ServerRounds(id, ms)), r, users)
  {
    var last := |users| - 1;
    FrontOfNew(users, s.used);
    FrontAndLast(ms);
    RoundAfterRounds(s, id, ms[..last], ms[last], r, users[..last], users[last]);
  }

  lemma {:induction false} FrontAndLast(ms: seq<Message>)
    requires ms != []
    ensures ms == ms[..|ms| - 1] + [ms[|ms| - 1]]
  {
  }

  lemma {:induction false} RoundsOfOneMoreMessage(id: nat, ms: seq<Message>, m: Message)
    ensures ServerRounds(id, ms + [m]) == ServerRounds(id, ms) + [Connect(id)] + [Receive(id, m)] + [Disconnect(id)]
  {
    assert (ms + [m])[..|ms|] == ms;
  }

  lemma {:induction false} RoundAfterRounds(
    s: System, id: nat, ms: seq<Message>, m: Message, r: nat, users: seq<User>, u: User)
    requires SystemInv(s) && id !in s.conns && r < |s.rooms| && EnabledAll(s, ServerRounds(id, ms))
    requires PiledUp(s, ActAll(s, ServerRounds(id, ms)), r, users)
    requires JoinsAs(m, r, u) && u !in s.used + UserSet(users)
    requires Admissible(s.rooms[r].lobby) && Fit(s.rooms[r].lobby, users + [u])
    ensures EnabledAll(s, ServerRounds(id, ms + [m]))
    ensures PiledUp(s, ActAll(s, ServerRounds(id, ms + [m])), r, users + [u])
  {
    var now := ActAll(s, ServerRounds(id, ms));
    ListedWereUsed(now, r, u);
    PileTakesOneMore(s.rooms[r].lobby, now.rooms[r].lobby, users, u);
    RoundActs(s, ServerRounds(id, ms), now, id, m, r, u);
    RoundsOfOneMoreMessage(id, ms, m);
    Unasked(now, r, u);
    OneMorePiled(s, now, r, users, u);
  }

  lemma {:induction false} PiledAreAbandoned(s: System, s': System, r: nat, users: seq<User>)
    requires SystemInv(s) && OwnUsers(s) && SystemInv(s') && r < |s.rooms| && PiledUp(s, s', r, users)
    requires Distinct(users) && UserSet(users) !! s.used
    ensures Abandoned(s', r, users)
  {
    PiledLinger(s.rooms[r], s'.rooms[r], users);
    NewUsersAreAdrift(s, s', r, users);
  }

  lemma {:induction false} PiledLinger(h: History, h': History, users: seq<User>)
    requires Piled(h, h', users) && Distinct(users)
    ensures Linger(h'.lobby, users)
  {
  }

  lemma {:induction false} NewUsersAreAdrift(s: System, s': System, r: nat, users: seq<User>)
    requires OwnUsers(s) && s'.conns == s.conns && s'.used == s.used + UserSet(users) && UserSet(users) !! s.used
    ensures forall g :: g in users ==> Adrift(s', r, g)
  {
    forall g | g in users
      ensures Adrift(s', r, g)
    {
      assert g in UserSet(users);
    }
  }

  /** For instance: once 256 new users whose names fit have each connected, joined a room nobody
      sits in as a player and lost the connection, no join into that room ever succeeds again,
      whatever happens on the server. */
  lemma {:induction false} RoundsCloseTheRoom(
    s: System, id: nat, ms: seq<Message>, r: nat, users: seq<User>, acts: seq<Action>,
    id': nat, m: Message, u: User, role: byte)
    requires RoundsStart(s, id, ms, r, users) && OwnUsers(s) && |users| == 256
    requires Admissible(s.rooms[r].lobby) && Fit(s.rooms[r].lobby, users)
    ensures EnabledAll(s, ServerRounds(id, ms))
    ensures var s1 := ActAll(s, ServerRounds(id, ms));
      EnabledAll(s1, acts) && AsksToJoin(ActAll(s1, acts), id', m, r, u, role) ==> !Joins(ActAll(s1, acts), id', m)
  {
    ServerRoundsPileUp(s, id, ms, r, users);
    var s1 := ActAll(s, ServerRounds(id, ms));
    PiledAreAbandoned(s, s1, r, users);
    if EnabledAll(s1, acts) && AsksToJoin(ActAll(s1, acts), id', m, r, u, role) {
      AbandonedCloseTheRoom(s1, acts, r, users, id', m, u, role);
    }
  }

  /** A server just started is such a state, with 256 users of names up to 250 bytes, say. */
  lemma {:induction false} BootedRoomCanBeClosed(
    rooms: seq<(seq<byte>, int)>, id: nat, ms: seq<Message>, r: nat, users: seq<User>)
    requires r < |rooms| && |rooms[r].0| <= 255 && |users| == |ms| == 256 && Distinct(users)
    requires forall i :: 0 <= i < |ms| ==> JoinsAs(ms[i], r, users[i])
    requires forall i :: 0 <= i < |users| ==> |users[i].name| <= 250
    ensures RoundsStart(Booted(rooms), id, ms, r, users) && OwnUsers(Booted(rooms))
    ensures var l := Booted(rooms).rooms[r].lobby; Admissible(l) && Fit(l, users)
  {
    ShortNamesSize(users, 250);
    assert [] + users == users;
  }

  lemma {:induction false} ShortNamesSize(users: seq<User>, n: nat)
    requires forall i :: 0 <= i < |users| ==> |users[i].name| <= n
    ensures TotalSize(NamesOf(users)) <= (n + 1) * |users|
    decreases |users|
  {
    if users != [] {
      ShortNamesSize(users[1..], n);
      assert (n + 1) * |users| == (n + 1) + (n + 1) * |users[1..]|;
    }
  }
}
