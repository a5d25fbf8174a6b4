/** The two names a client shows at the seats, who it shows as ready and whether a game goes on,
    over whole runs, and the role it takes from the names. */
module SeatNames {
  import opened Bytes
  import opened Codec
  import opened Messages
  import opened Chess
  import opened Tables
  import opened Lobby
  import opened LobbyRuns
  import opened ClientViews
  import opened Mirror
  import opened Restarts

  datatype Names = Names(black: seq<byte>, white: seq<byte>)

  function NamesOfView(v: View): Names {
    Names(v.info.black, v.info.white)
  }

  /** The names of those who really sit there. */
  function SeatedNames(t: Table): Names {
    Names(SeatName(t.black), SeatName(t.white))
  }

  function AfterStart(n: Names, black: seq<byte>): Names {
    if n.black != black then Names(n.white, n.black) else n
  }

  /** What an event does to the names a listed client shows: only a start does anything. */
  function NamesAfter(t: Table, e: Event, n: Names): Names {
    if e.PlayerReady? && Completes(t, e.user) then AfterStart(n, SeatName(t.black)) else n
  }

  /** Names, the colour that is ready, and whether a game goes on. */
  datatype Panel = Panel(names: Names, ready: byte, playing: bool)

  function PanelOfView(v: View): Panel {
    Panel(NamesOfView(v), v.info.ready, v.info.playing)
  }

  function PanelOfTable(t: Table): Panel {
    Panel(SeatedNames(t), t.readyColor, t.isPlaying)
  }

  /** What an event does to them: a player's ready is shown, unless it starts the game; a start
      shows the game, and leaves the colour that was ready. Nothing ends the game again. */
  function PanelAfter(t: Table, e: Event, p: Panel): Panel {
    if e.PlayerReady? && Completes(t, e.user) then Panel(AfterStart(p.names, SeatName(t.black)), p.ready, true)
    else if e.PlayerReady? && t.black == Some(e.user) then p.(ready := 0)
    else if e.PlayerReady? && t.white == Some(e.user) then p.(ready := 1)
    else p
  }

  // ---------- packets that leave them alone ----------

  predicate KeepsNames(p: Packet) {
    || p.instruction in {C_STONE, C_GAME_OVER, C_MESSAGE, C_USER_INFO}
    || (p.instruction == C_OTHER_JOIN_ROOM && OtherJoinsAs(p.data, {ROLE_PLAYER, ROLE_ONLOOKER}))
  }

  /** A join of someone else in one of these roles, none of them a seat's colour. */
  predicate OtherJoinsAs(data: seq<byte>, roles: set<byte>) {
    var name := DecodeBlob("1", data);
    name.Some? && TakeByte(name.value.rest).Some? && TakeByte(name.value.rest).value.part in roles
  }

  lemma {:induction false} OneKeepsNames(v: View, p: Packet)
    requires KeepsNames(p) && Safe(p)
    ensures Apply(v, p).Some? ==> PanelOfView(Apply(v, p).value) == PanelOfView(v)
  {
    if p.instruction == C_MESSAGE {
      assert Apply(v, p) == OnMessage(v, p.data);
    } else if p.instruction == C_USER_INFO {
      assert Apply(v, p) == OnUserInfo(v, p.data);
    } else {
      OneMoveKeepsNames(v, p);
    }
  }

  lemma {:induction false} OneMoveKeepsNames(v: View, p: Packet)
    requires KeepsNames(p) && Safe(p) && p.instruction !in {C_MESSAGE, C_USER_INFO}
    ensures Apply(v, p).Some? ==> PanelOfView(Apply(v, p).value) == PanelOfView(v)
  {
  }

  lemma {:induction false} DeliveryKeepsNames(view: Option<View>, ps: seq<Packet>)
    requires forall i :: 0 <= i < |ps| ==> Safe(ps[i]) && KeepsNames(ps[i])
    ensures Deliver(view, ps).Some? ==> view.Some? && PanelOfView(Deliver(view, ps).value) == PanelOfView(view.value)
    decreases |ps|
  {
    if view.Some? && ps != [] {
      OneKeepsNames(view.value, ps[0]);
      DeliveryKeepsNames(Apply(view.value, ps[0]), ps[1..]);
    }
  }

  predicate AllKeep(ps: seq<Packet>) {
    forall i :: 0 <= i < |ps| ==> KeepsNames(ps[i])
  }

  lemma {:induction false} InboxKeeps(u: User, sends: seq<Send>)
    requires forall i :: 0 <= i < |sends| ==> KeepsNames(sends[i].packet)
    ensures AllKeep(Addressed(u, sends))
    decreases |sends|
  {
    if sends != [] {
      InboxKeeps(u, sends[1..]);
    }
  }

  lemma {:induction false} TellOthersKeeps(users: seq<User>, joiner: User, role: byte)
    requires role == ROLE_PLAYER || role == ROLE_ONLOOKER
    ensures forall i :: 0 <= i < |TellOthers(users, joiner, role)| ==>
      KeepsNames(TellOthers(users, joiner, role)[i].packet)
    decreases |users|
  {
    if users != [] {
      NameDecodes(users[0].name, [role]);
      TellOthersKeeps(users[1..], joiner, role);
    }
  }

  lemma {:induction false} LeaverIsTold(users: seq<User>, leaver: User, u: User)
    requires leaver != u
    ensures Addressed(u, TellLeaver(users, leaver)) == []
  {
    var sends := TellLeaver(users, leaver);
    AddressedToOne(u, leaver, sends, seq(|sends|, i requires 0 <= i < |sends| => sends[i].packet));
  }

  lemma {:induction false} OthersJoinKeeps(l: Lobby, w: User, role: byte, u: User)
    requires Possible(l, JoinRoom(w, role)) && w != u
    ensures AllKeep(Addressed(u, Sends(l, JoinRoom(w, role))))
  {
    if Admit(l, w, role).Some? {
      var l' := After(l, JoinRoom(w, role));
      TellOthersKeeps(l'.users, w, role);
      InboxKeeps(u, TellOthers(l'.users, w, role));
      AddressedSplits(u, TellOthers(l'.users, w, role), SnapshotSends(l', w));
      assert Addressed(u, SnapshotSends(l', w)) == [];
    }
  }

  lemma {:induction false} BroadcastKeeps(users: seq<User>, u: User, packets: seq<Packet>)
    requires Distinct(users) && AllKeep(packets)
    ensures AllKeep(Addressed(u, ToAll(users, packets)))
  {
    BroadcastReachesListed(users, u, packets);
  }

  /** Apart from a player's ready, nothing others do makes a listed client show any of this otherwise. */
  lemma {:induction false} OtherEventsKeepNames(l: Lobby, crowd: Crowd, e: Event, u: User)
    requires Possible(l, e) && LobbyRoster(l, crowd) && Fresh(crowd, e) && u in l.users
    requires (e.PlayerReady? ==> !IsPlayer(l.table, e.user)) && e != LeaveRoom(u)
    ensures AllKeep(Addressed(u, Sends(l, e)))
  {
    ListedDoesNotJoin(l, crowd, e, u);
    OthersEventKeepsNames(l, e, u);
  }

  lemma {:induction false} OthersEventKeepsNames(l: Lobby, e: Event, u: User)
    requires Possible(l, e) && Distinct(l.users) && (e.JoinRoom? ==> e.user != u)
    requires (e.PlayerReady? ==> !IsPlayer(l.table, e.user)) && e != LeaveRoom(u)
    ensures AllKeep(Addressed(u, Sends(l, e)))
  {
    match e
    case JoinRoom(w, role) =>
      OthersJoinKeeps(l, w, role, u);
    case PlayerReady(w) =>
      ReadyKeeps(l.table, w);
      BroadcastKeeps(l.users, u, ReadyPackets(l.table, w));
    case PlayerStone(w, data) =>
      StoneKeeps(l.table, w, data);
      BroadcastKeeps(l.users, u, StonePackets(l.table, w, data));
    case PlayerRegret(_) => InboxKeeps(u, []);
    case LeaveRoom(w) => LeaverIsTold(l.users, w, u);
    case Say(w, data, now) =>
      ChatKeeps(w, data, now);
      BroadcastKeeps(l.users, u, ChatPackets(w, data, now));
    case AskInfo(w, data) => InboxKeeps(u, InfoSends(l, w, data));
  }

  lemma {:induction false} ReadyKeeps(t: Table, w: User)
    requires Sound(t) && !IsPlayer(t, w)
    ensures AllKeep(ReadyPackets(t, w))
  {
  }

  lemma {:induction false} StoneKeeps(t: Table, w: User, data: seq<byte>)
    requires Sound(t)
    ensures AllKeep(StonePackets(t, w, data))
  {
  }

  lemma {:induction false} ChatKeeps(w: User, data: seq<byte>, now: LongWord)
    ensures AllKeep(ChatPackets(w, data, now))
  {
  }

  lemma {:induction false} StartPackets(t: Table, w: User)
    requires Sound(t) && Completes(t, w)
    ensures ReadyPackets(t, w) == [Packet(C_GAME_START, NameBytes(SeatName(t.black)))]
  {
  }

  lemma {:induction false} StartIsShown(v: View, name: Name)
    ensures var p := Packet(C_GAME_START, NameBytes(name));
      Safe(p) && Apply(v, p) == Some(v.(info := StartGame(v.info, name)))
  {
    NameDecodes(name, []);
  }

  lemma {:induction false} StartDelivers(l: Lobby, crowd: Crowd, w: User, u: User, v: View)
    requires Admissible(l) && LobbyRoster(l, crowd) && u in l.users && Completes(l.table, w)
    ensures var ps := Addressed(u, Sends(l, PlayerReady(w)));
      && ps == [Packet(C_GAME_START, NameBytes(SeatName(l.table.black)))] && Safe(ps[0])
      && Deliver(Some(v), ps) == Some(v.(info := StartGame(v.info, SeatName(l.table.black))))
  {
    StartPackets(l.table, w);
    BroadcastReachesListed(l.users, u, ReadyPackets(l.table, w));
    StartIsShown(v, SeatName(l.table.black));
    DeliverOne(v, Packet(C_GAME_START, NameBytes(SeatName(l.table.black))));
  }

  lemma {:induction false} ReadyDelivers(l: Lobby, crowd: Crowd, w: User, u: User, v: View)
    requires Admissible(l) && LobbyRoster(l, crowd) && u in l.users && IsPlayer(l.table, w) && !Completes(l.table, w)
    ensures var ps, color := Addressed(u, Sends(l, PlayerReady(w))), ColorOf(l.table, w);
      && ps == [Packet(C_PLAYER_READY, [color])] && Safe(ps[0])
      && Deliver(Some(v), ps) == Some(v.(info := v.info.(ready := color)))
  {
    var p := Packet(C_PLAYER_READY, [ColorOf(l.table, w)]);
    BroadcastReachesListed(l.users, u, ReadyPackets(l.table, w));
    assert Apply(v, p) == OnPlayerReady(v, p.data);
    DeliverOne(v, p);
  }

  lemma {:induction false} EventMovesNames(l: Lobby, crowd: Crowd, e: Event, u: User, view: Option<View>)
    requires Possible(l, e) && LobbyRoster(l, crowd) && Fresh(crowd, e) && u in l.users && e != LeaveRoom(u)
    requires SafeInbox(l, e, u)
    ensures var view' := Deliver(view, Addressed(u, Sends(l, e)));
      view'.Some? ==> view.Some? && PanelOfView(view'.value) == PanelAfter(l.table, e, PanelOfView(view.value))
  {
    if Starts(l.table, e) {
      if view.Some? {
        StartDelivers(l, crowd, e.user, u, view.value);
      }
    } else if e.PlayerReady? && IsPlayer(l.table, e.user) {
      if view.Some? {
        ReadyDelivers(l, crowd, e.user, u, view.value);
      }
    } else {
      OtherEventsKeepNames(l, crowd, e, u);
      DeliveryKeepsNames(view, Addressed(u, Sends(l, e)));
    }
  }

  // ---------- whole runs ----------

  /** The names after a run, swapped or not at each of its starts. */
  ghost function NamesFrom(h: History, es: seq<Event>, n: Names): Names
    requires Inv(h) && FreshFrom(h.crowd.asked, es)
  {
    if es == [] then n
    else NamesAfter(RunFrom(h, es[..|es| - 1]).lobby.table, es[|es| - 1], NamesFrom(h, es[..|es| - 1], n))
  }

  ghost function PanelFrom(h: History, es: seq<Event>, p: Panel): Panel
    requires Inv(h) && FreshFrom(h.crowd.asked, es)
  {
    if es == [] then p
    else PanelAfter(RunFrom(h, es[..|es| - 1]).lobby.table, es[|es| - 1], PanelFrom(h, es[..|es| - 1], p))
  }

  lemma {:induction false} PanelNames(h: History, es: seq<Event>, p: Panel)
    requires Inv(h) && FreshFrom(h.crowd.asked, es)
    ensures PanelFrom(h, es, p).names == NamesFrom(h, es, p.names)
    decreases |es|
  {
    if es != [] {
      PanelNames(h, es[..|es| - 1], p);
      NamesOfPanelAfter(RunFrom(h, es[..|es| - 1]).lobby.table, es[|es| - 1], PanelFrom(h, es[..|es| - 1], p));
    }
  }

  lemma {:induction false} NamesOfPanelAfter(t: Table, e: Event, p: Panel)
    ensures PanelAfter(t, e, p).names == NamesAfter(t, e, p.names)
  {
  }

  predicate NeverLeaves(es: seq<Event>, u: User) {
    LeaveRoom(u) !in es
  }

  lemma {:induction false} ShownPanel(h: History, es: seq<Event>, u: User, view: Option<View>, joined: nat)
    requires Inv(h) && FreshFrom(h.crowd.asked, es) && Stays(h, es, u)
    requires CopyInv(h.lobby, Copy(view, [], false, joined))
    requires NeverLeaves(es, u)
    ensures var view' := ViewFrom(h, es, u, view, joined);
      view'.Some? ==> view.Some? && PanelOfView(view'.value) == PanelFrom(h, es, PanelOfView(view.value))
    decreases |es|
  {
    if es != [] {
      var before, e := es[..|es| - 1], es[|es| - 1];
      var h1, view1 := RunFrom(h, before), ViewFrom(h, before, u, view, joined);
      ShownPanel(h, before, u, view, joined);
      OneMoreInCopy(h, es, u, view1, joined);
      assert e in es && Fresh(h1.crowd, e);
      EventMovesNames(h1.lobby, h1.crowd, e, u, view1);
    }
  }

  lemma {:induction false} NamesAtJoin(l: Lobby, u: User, role: byte, v: View)
    requires Possible(l, JoinRoom(u, role)) && Succeeds(l, JoinRoom(u, role))
    ensures var view := ViewAtJoin(l, u, role, v);
      view.Some? && PanelOfView(view.value) == PanelOfTable(After(l, JoinRoom(u, role)).table)
  {
    JoinerReceivesSnapshot(l, u, role);
    var l', ps := After(l, JoinRoom(u, role)), Addressed(u, Sends(l, JoinRoom(u, role)));
    LogIsOnBoard(l');
    assert ps == [Packet(C_YOU_JOIN_ROOM, ps[0].data)];
    SnapshotDelivery(v, ps[0].data, SnapshotOf(l'));
  }

  /** From its join on, while it stays listed and does not leave, a connected client shows at the
      seats the names of its snapshot, swapped at each start whose black player is not the one
      it shows as black, and nothing else: it is told neither who leaves nor who takes a seat.
      Its role is that of the seat with its name, and so right exactly as the names say. The
      ready colour and the game going on are those of `PanelFrom`. */
  lemma {:induction false} ClientNamesSeats(h: History, u: User, role: byte, v: View, es: seq<Event>)
    requires Inv(h) && u !in h.crowd.asked && Possible(h.lobby, JoinRoom(u, role))
    requires Succeeds(h.lobby, JoinRoom(u, role))
    requires FreshFrom(h.crowd.asked + {u}, es) && Stays(Next(h, JoinRoom(u, role)), es, u) && NeverLeaves(es, u)
    requires ClientShows(h, u, role, v, es).Some?
    ensures
      var h1, shown := Next(h, JoinRoom(u, role)), ClientShows(h, u, role, v, es).value;
      var t, names := RunFrom(h1, es).lobby.table, NamesFrom(h1, es, SeatedNames(h1.lobby.table));
      && PanelOfView(shown) == PanelFrom(h1, es, PanelOfTable(h1.lobby.table)) && NamesOfView(shown) == names
      && (RoleOf(shown.info, u.name) == ColorOf(t, u) <==> RightRole(names, t, u))
  {
    var h1, joined := Next(h, JoinRoom(u, role)), |Log(h.lobby.table.chess)|;
    NamesAtJoin(h.lobby, u, role, v);
    ShownPanel(h1, es, u, ViewAtJoin(h.lobby, u, role, v), joined);
    PanelNames(h1, es, PanelOfTable(h1.lobby.table));
    RoleByNames(ClientShows(h, u, role, v, es).value, RunFrom(h1, es).lobby.table, u);
  }

  /** The name is shown at the user's own seat and at none looked at before; at none if it has
      no seat. */
  predicate RightRole(n: Names, t: Table, u: User) {
    if t.black == Some(u) then n.black == u.name
    else if t.white == Some(u) then n.black != u.name && n.white == u.name
    else n.black != u.name && n.white != u.name
  }

  lemma {:induction false} RoleByNames(v: View, t: Table, u: User)
    ensures RoleOf(v.info, u.name) == ColorOf(t, u) <==> RightRole(NamesOfView(v), t, u)
  {
  }

  /** A start puts the names right exactly when the two shown were the two seated, in whichever
      order. */
  lemma {:induction false} StartRightsNamesIff(t: Table, w: User, n: Names)
    requires Sound(t) && Completes(t, w)
    ensures NamesAfter(t, PlayerReady(w), n) == SeatedNames(t) <==>
      n == SeatedNames(t) || n == Names(SeatedNames(t).white, SeatedNames(t).black)
  {
  }

  // ---------- a run that shows the wrong seats ----------

  function Replacing(): seq<Event> {
    [] + [LeaveRoom(FIRST)] + [JoinRoom(THIRD, ROLE_PLAYER)] + [PlayerReady(THIRD)] + [PlayerReady(SECOND)]
  }

  function ReplacedTable(ready: byte, playing: bool, chess: State): Table {
    Table(Some(THIRD), Some(SECOND), SPACE, SPACE, ready, playing, chess)
  }

  function LeftTable(chess: State): Table {
    Table(None, Some(SECOND), SPACE, SPACE, SPACE, false, chess)
  }

  lemma {:induction false} ReplacingSteps(chess: State)
    requires Logged(chess)
    ensures var pair, s0 := [FIRST, SECOND], PlayedTable(SPACE, false, chess);
      && Possible(Hall(s0, pair), LeaveRoom(FIRST))
      && After(Hall(s0, pair), LeaveRoom(FIRST)) == Hall(LeftTable(chess), pair)
      && Possible(Hall(LeftTable(chess), pair), JoinRoom(THIRD, ROLE_PLAYER))
      && After(Hall(LeftTable(chess), pair), JoinRoom(THIRD, ROLE_PLAYER))
           == Hall(ReplacedTable(SPACE, false, chess), USERS)
  {
    assert [FIRST, SECOND] + [THIRD] == USERS;
  }

  lemma {:induction false} ReplacingReadies(chess: State)
    requires Logged(chess)
    ensures var t1, t2 := ReplacedTable(SPACE, false, chess), ReplacedTable(BLACK, false, chess);
      && Possible(Hall(t1, USERS), PlayerReady(THIRD)) && !Starts(t1, PlayerReady(THIRD))
      && After(Hall(t1, USERS), PlayerReady(THIRD)) == Hall(t2, USERS)
      && Possible(Hall(t2, USERS), PlayerReady(SECOND)) && Starts(t2, PlayerReady(SECOND))
      && After(Hall(t2, USERS), PlayerReady(SECOND)) == Hall(ReplacedTable(SPACE, true, Restart(chess)), USERS)
  {
  }

  /** Where a run has come, with the names shown. */
  ghost predicate Comes(h: History, es: seq<Event>, l: Lobby, restarted: seq<byte>, from: Names, n: Names) {
    Reached(h, es, SECOND, l, restarted, false) && NamesFrom(h, es, from) == n
  }

  lemma {:induction false} ComesOn(
    h: History, es: seq<Event>, l: Lobby, restarted: seq<byte>, from: Names, n: Names, e: Event, l': Lobby)
    requires Comes(h, es, l, restarted, from, n) && Fresh(RunFrom(h, es).crowd, e)
    requires Possible(l, e) && After(l, e) == l' && SECOND in l'.users && !WinsNow(l.table, e)
    ensures Comes(h, es + [e], l', if Starts(l.table, e) then restarted + Log(l.table.chess) else restarted, from,
                  NamesAfter(l.table, e, n))
  {
    ReachOn(h, es, SECOND, l, restarted, false, e, l');
    OneMoreEvent(es, e);
  }

  /** The room after the second player's join. */
  ghost predicate PairIsIn(h: History) {
    && Inv(h) && h.crowd.asked == {FIRST, SECOND}
    && h.lobby == Hall(PlayedTable(SPACE, false, Chess.Start()), [FIRST, SECOND])
  }

  lemma {:induction false} ReplacingReached(h: History)
    requires PairIsIn(h)
    ensures Comes(h, Replacing(), Hall(ReplacedTable(SPACE, true, Restart(Chess.Start())), USERS), [],
                  SeatedNames(h.lobby.table), Names(SECOND.name, FIRST.name))
  {
    var chess, pair, n := Chess.Start(), [FIRST, SECOND], Names(FIRST.name, SECOND.name);
    var l1, l2 := Hall(LeftTable(chess), pair), Hall(ReplacedTable(SPACE, false, chess), USERS);
    var l3 := Hall(ReplacedTable(BLACK, false, chess), USERS);
    var l4 := Hall(ReplacedTable(SPACE, true, Restart(chess)), USERS);
    ReplacingSteps(chess);
    ReplacingReadies(chess);
    assert Comes(h, [], h.lobby, [], n, n);
    ComesOn(h, [], h.lobby, [], n, n, LeaveRoom(FIRST), l1);
    OneMoreEvent([], LeaveRoom(FIRST));
    ComesOn(h, [] + [LeaveRoom(FIRST)], l1, [], n, n, JoinRoom(THIRD, ROLE_PLAYER), l2);
    ComesOn(h, [] + [LeaveRoom(FIRST)] + [JoinRoom(THIRD, ROLE_PLAYER)], l2, [], n, n, PlayerReady(THIRD), l3);
    ComesOn(h, [] + [LeaveRoom(FIRST)] + [JoinRoom(THIRD, ROLE_PLAYER)] + [PlayerReady(THIRD)], l3, [], n, n,
            PlayerReady(SECOND), l4);
    assert [] + Log(chess) == [];
  }

  lemma {:induction false} SecondSucceeds(l: Lobby)
    requires l == Hall(NewTable().(black := Some(FIRST)), [FIRST])
    ensures Possible(l, JoinRoom(SECOND, ROLE_PLAYER)) && Succeeds(l, JoinRoom(SECOND, ROLE_PLAYER))
  {
    SecondJoins(l);
    var l' := After(l, JoinRoom(SECOND, ROLE_PLAYER));
    assert [FIRST, SECOND][1..] == [SECOND] && [SECOND][1..] == [];
    assert OnlookerNames(l'.table, []) == [] && OnlookerNames(l'.table, [SECOND]) == [];
    assert OnlookerNames(l'.table, [FIRST, SECOND]) == [];
    SnapshotFitsIff(l');
  }

  /** Without any namesake: the white player is told nothing when the black one disconnects and
      another takes that seat, swaps the names at the start, and takes itself for black. */
  lemma {:induction false} ReplacedPlayerTurnsTheRole(h: History, v: View)
    requires FirstIsIn(h)
    ensures Possible(h.lobby, JoinRoom(SECOND, ROLE_PLAYER)) && Succeeds(h.lobby, JoinRoom(SECOND, ROLE_PLAYER))
    ensures var h1 := Next(h, JoinRoom(SECOND, ROLE_PLAYER));
      && FreshFrom(h.crowd.asked + {SECOND}, Replacing()) && Stays(h1, Replacing(), SECOND)
      && var shown := ClientShows(h, SECOND, ROLE_PLAYER, v, Replacing());
      && shown.Some? && RoleOf(shown.value.info, SECOND.name) == BLACK
      && ColorOf(RunFrom(h1, Replacing()).lobby.table, SECOND) == WHITE
  {
    PairGetsIn(h);
    ReplacingReached(Next(h, JoinRoom(SECOND, ROLE_PLAYER)));
    ShownIsMirrored(h, SECOND, ROLE_PLAYER, v, Replacing());
    SecondNeverLeaves();
    ClientNamesSeats(h, SECOND, ROLE_PLAYER, v, Replacing());
    RoleTurned(ClientShows(h, SECOND, ROLE_PLAYER, v, Replacing()).value);
  }

  lemma {:induction false} PairGetsIn(h: History)
    requires FirstIsIn(h)
    ensures Possible(h.lobby, JoinRoom(SECOND, ROLE_PLAYER)) && Succeeds(h.lobby, JoinRoom(SECOND, ROLE_PLAYER))
    ensures SECOND !in h.crowd.asked && PairIsIn(Next(h, JoinRoom(SECOND, ROLE_PLAYER)))
  {
    SecondSucceeds(h.lobby);
    SecondJoins(h.lobby);
  }

  lemma {:induction false} SecondNeverLeaves()
    ensures NeverLeaves(Replacing(), SECOND)
  {
  }

  lemma {:induction false} RoleTurned(v: View)
    requires NamesOfView(v) == Names(SECOND.name, FIRST.name)
    ensures RoleOf(v.info, SECOND.name) == BLACK
  {
  }
}
