/** Two runs in which players start again over stones: a client falls behind the server, and a
    client whose board was wrong gets the right one. */
module Restarts {
  import opened Bytes
  import opened Chess
  import opened Tables
  import opened Lobby
  import opened LobbyRuns
  import opened ClientViews
  import opened Mirror
  import opened Messages

  const FIRST := User(0, [0x41], Stats(0, 0, 0, 0, 0))
  const SECOND := User(1, [0x42], Stats(0, 0, 0, 0, 0))
  const THIRD := User(2, [0x43], Stats(0, 0, 0, 0, 0))

  // ---------- following a run step by step ----------

  /** Where a run from `h` has come: `u` stayed listed, and this is the room now. */
  ghost predicate Reached(h: History, es: seq<Event>, u: User, l: Lobby, restarted: seq<byte>, won: bool) {
    && Inv(h) && FreshFrom(h.crowd.asked, es) && Stays(h, es, u) && Admissible(l)
    && RunFrom(h, es).lobby == l && StonesRestarted(h, es) == restarted && (SomeWin(h, es) <==> won)
  }

  lemma {:induction false} ReachedBefore(h: History, es: seq<Event>, e: Event)
    requires Inv(h) && FreshFrom(h.crowd.asked, es) && Fresh(RunFrom(h, es).crowd, e)
    ensures FreshFrom(h.crowd.asked, es + [e])
    ensures var t := RunFrom(h, es).lobby.table;
      && StonesRestarted(h, es + [e])
           == (if Starts(t, e) then StonesRestarted(h, es) + Log(t.chess) else StonesRestarted(h, es))
      && (SomeWin(h, es + [e]) <==> SomeWin(h, es) || WinsNow(t, e))
  {
    OneMoreEvent(es, e);
  }

  lemma {:induction false} StaysOn(h: History, es: seq<Event>, u: User, e: Event)
    requires Inv(h) && FreshFrom(h.crowd.asked, es) && Stays(h, es, u) && FreshFrom(h.crowd.asked, es + [e])
    requires u in RunFrom(h, es + [e]).lobby.users
    ensures Stays(h, es + [e], u)
  {
    OneMoreEvent(es, e);
  }

  lemma {:induction false} ReachOn(
    h: History, es: seq<Event>, u: User, l: Lobby, restarted: seq<byte>, won: bool, e: Event, l': Lobby)
    requires Reached(h, es, u, l, restarted, won) && Fresh(RunFrom(h, es).crowd, e)
    requires Possible(l, e) && After(l, e) == l' && u in l'.users
    ensures Reached(h, es + [e], u, l', if Starts(l.table, e) then restarted + Log(l.table.chess) else restarted,
                    won || WinsNow(l.table, e))
  {
    RunOneMore(h, es, e);
    ReachedBefore(h, es, e);
    StaysOn(h, es, u, e);
  }

  // ---------- the steps of the game ----------

  function PlayedTable(ready: byte, playing: bool, chess: State): Table {
    Table(Some(FIRST), Some(SECOND), SPACE, SPACE, ready, playing, chess)
  }

  /** A room without a name for three. */
  function Hall(t: Table, users: seq<User>): Lobby {
    Lobby(t, [], 3, users)
  }

  lemma {:induction false} PairIsReady(t: Table, users: seq<User>)
    requires t == PlayedTable(t.readyColor, t.isPlaying, t.chess) && Logged(t.chess)
    requires t.readyColor in {SPACE, BLACK}
    ensures Admissible(Hall(t, users))
    ensures t.readyColor == SPACE ==> After(Hall(t, users), PlayerReady(FIRST)) == Hall(t.(readyColor := BLACK), users)
    ensures t.readyColor == BLACK ==>
      After(Hall(t, users), PlayerReady(SECOND)) == Hall(PlayedTable(SPACE, true, Restart(t.chess)), users)
    ensures !Starts(t, PlayerReady(FIRST))
    ensures Starts(t, PlayerReady(SECOND)) <==> t.readyColor == BLACK
  {
  }

  /** Two readies start the game over. */
  lemma {:induction false} PairRestarts(
    h: History, es: seq<Event>, u: User, t: Table, users: seq<User>, restarted: seq<byte>)
    requires t == PlayedTable(SPACE, t.isPlaying, t.chess) && Logged(t.chess) && u in users
    requires Reached(h, es, u, Hall(t, users), restarted, false)
    ensures Reached(h, es + [PlayerReady(FIRST)] + [PlayerReady(SECOND)], u,
                    Hall(PlayedTable(SPACE, true, Restart(t.chess)), users), restarted + Log(t.chess), false)
  {
    var t1 := t.(readyColor := BLACK);
    PairIsReady(t, users);
    PairIsReady(t1, users);
    ReachOn(h, es, u, Hall(t, users), restarted, false, PlayerReady(FIRST), Hall(t1, users));
    ReachOn(h, es + [PlayerReady(FIRST)], u, Hall(t1, users), restarted, false, PlayerReady(SECOND),
            Hall(PlayedTable(SPACE, true, Restart(t.chess)), users));
  }

  /** Who moves under a number: the guard lets the white seat begin, which the second took. */
  function PlayerOf(number: nat): User {
    if number % 2 == 0 then SECOND else FIRST
  }

  lemma {:induction false} StoneLands(t: Table, users: seq<User>, coor: byte)
    requires t == PlayedTable(SPACE, true, t.chess) && Logged(t.chess) && t.chess.cursor < 2
    requires t.chess.board == Replay(Log(t.chess)) && Accepts(t.chess, t.chess.cursor, coor)
    ensures var e := PlayerStone(PlayerOf(t.chess.cursor), [t.chess.cursor, coor]);
      && Possible(Hall(t, users), e) && !WinsNow(t, e) && !Starts(t, e)
      && After(Hall(t, users), e) == Hall(t.(chess := PlaceStone(t.chess, t.chess.cursor, coor)), users)
  {
    PlayerPlays(t, coor);
    StoneKeepsReplay(t, PlayerOf(t.chess.cursor), [t.chess.cursor, coor]);
    TwoStonesDoNotWin(PlaceStone(t.chess, t.chess.cursor, coor));
  }

  lemma {:induction false} PlayerPlays(t: Table, coor: byte)
    requires t == PlayedTable(SPACE, true, t.chess) && Logged(t.chess) && t.chess.cursor < 2
    requires Accepts(t.chess, t.chess.cursor, coor)
    ensures Sound(t) && Plays(t, PlayerOf(t.chess.cursor), [t.chess.cursor, coor])
    ensures AfterStone(t, PlayerOf(t.chess.cursor), [t.chess.cursor, coor])
         == t.(chess := PlaceStone(t.chess, t.chess.cursor, coor))
  {
  }

  lemma {:induction false} TwoStonesDoNotWin(s: State)
    requires Logged(s) && s.board == Replay(Log(s)) && s.cursor <= 2
    ensures !Wins(s)
  {
    forall w: Window
      ensures !IsFive(s.board, w)
    {
      NotFive(s, w);
    }
  }

  lemma {:induction false} NotFive(s: State, w: Window)
    requires Logged(s) && s.board == Replay(Log(s)) && s.cursor <= 2
    ensures !IsFive(s.board, w)
  {
    if IsFive(s.board, w) {
      ShownIsLogged(s, w, 0);
      ShownIsLogged(s, w, 1);
      ShownIsLogged(s, w, 2);
    }
  }

  lemma {:induction false} ShownIsLogged(s: State, w: Window, k: int)
    requires Logged(s) && s.board == Replay(Log(s)) && s.cursor <= 2 && IsFive(s.board, w) && 0 <= k < 5
    ensures
      || (s.cursor > 0 && ParseCoor(Log(s)[0]) == Walk(w.start, w.axis, k))
      || (s.cursor > 1 && ParseCoor(Log(s)[1]) == Walk(w.start, w.axis, k))
  {
    var p := Walk(w.start, w.axis, k);
    assert Shows(s.board, p, At(s.board, w.start));
    if forall i :: 0 <= i < s.cursor ==> ParseCoor(Log(s)[i]) != p {
      ReplayIsEmptyOffTheLog(Log(s), p);
    }
  }

  lemma {:induction false} StoneReached(
    h: History, es: seq<Event>, u: User, t: Table, users: seq<User>, restarted: seq<byte>, coor: byte)
    requires t == PlayedTable(SPACE, true, t.chess) && Logged(t.chess) && t.chess.cursor < 2 && u in users
    requires t.chess.board == Replay(Log(t.chess)) && Accepts(t.chess, t.chess.cursor, coor)
    requires Reached(h, es, u, Hall(t, users), restarted, false)
    ensures Reached(h, es + [PlayerStone(PlayerOf(t.chess.cursor), [t.chess.cursor, coor])], u,
                    Hall(t.(chess := PlaceStone(t.chess, t.chess.cursor, coor)), users), restarted, false)
  {
    StoneLands(t, users, coor);
    ReachOn(h, es, u, Hall(t, users), restarted, false, PlayerStone(PlayerOf(t.chess.cursor), [t.chess.cursor, coor]),
            Hall(t.(chess := PlaceStone(t.chess, t.chess.cursor, coor)), users));
  }

  // ---------- two stones on an empty board ----------

  function OneStone(s: State): State
    requires Logged(s)
  {
    PlaceStone(s, 0, 0x11)
  }

  function TwoStones(s: State): State
    requires Logged(s)
  {
    PlaceStone(OneStone(s), 1, 0x22)
  }

  lemma {:induction false} TwoStonesAreLogged(s: State)
    requires Logged(s) && s.board == Blank() && s.cursor == 0
    ensures Accepts(s, 0, 0x11) && Log(OneStone(s)) == [0x11] && OneStone(s).cursor == 1
    ensures Accepts(OneStone(s), 1, 0x22) && Log(TwoStones(s)) == [0x11, 0x22]
    ensures s.board == Replay(Log(s)) && OneStone(s).board == Replay(Log(OneStone(s)))
  {
    assert Log(s) == [];
    StepKeepsReplay(s, Chess.Op.Stone(0, 0x11));
    assert [] + [0x11] == [0x11] && [0x11] + [0x22] == [0x11, 0x22];
    assert ParseCoor(0x11) == Cell(1, 1) && ParseCoor(0x22) == Cell(2, 2);
  }

  const FIRST_STONE := PlayerStone(SECOND, [0, 0x11])
  const SECOND_STONE := PlayerStone(FIRST, [1, 0x22])

  lemma {:induction false} FirstStoneReached(
    h: History, es: seq<Event>, u: User, s: State, users: seq<User>, restarted: seq<byte>)
    requires Logged(s) && s.board == Blank() && s.cursor == 0 && u in users
    requires Reached(h, es, u, Hall(PlayedTable(SPACE, true, s), users), restarted, false)
    ensures Reached(h, es + [FIRST_STONE], u, Hall(PlayedTable(SPACE, true, OneStone(s)), users), restarted, false)
  {
    TwoStonesAreLogged(s);
    StoneReached(h, es, u, PlayedTable(SPACE, true, s), users, restarted, 0x11);
  }

  lemma {:induction false} TwoStonesReached(
    h: History, es: seq<Event>, u: User, s: State, users: seq<User>, restarted: seq<byte>)
    requires Logged(s) && s.board == Blank() && s.cursor == 0 && u in users
    requires Reached(h, es, u, Hall(PlayedTable(SPACE, true, s), users), restarted, false)
    ensures Reached(h, es + [FIRST_STONE] + [SECOND_STONE], u, Hall(PlayedTable(SPACE, true, TwoStones(s)), users),
                    restarted, false)
  {
    TwoStonesAreLogged(s);
    FirstStoneReached(h, es, u, s, users, restarted);
    StoneReached(h, es + [FIRST_STONE], u, PlayedTable(SPACE, true, OneStone(s)), users, restarted, 0x22);
  }

  // ---------- the beginning of both runs ----------

  lemma {:induction false} FirstJoins()
    ensures Possible(NewLobby([], 3), JoinRoom(FIRST, ROLE_PLAYER))
    ensures Succeeds(NewLobby([], 3), JoinRoom(FIRST, ROLE_PLAYER))
    ensures FIRST !in Opened([], 3).crowd.asked
    ensures After(NewLobby([], 3), JoinRoom(FIRST, ROLE_PLAYER)) == Hall(NewTable().(black := Some(FIRST)), [FIRST])
  {
    FirstJoinSucceedsIff([], 3, FIRST, ROLE_PLAYER);
  }

  lemma {:induction false} SecondJoins(l: Lobby)
    requires l == Hall(NewTable().(black := Some(FIRST)), [FIRST])
    ensures Possible(l, JoinRoom(SECOND, ROLE_PLAYER))
    ensures After(l, JoinRoom(SECOND, ROLE_PLAYER)) == Hall(PlayedTable(SPACE, false, Chess.Start()), [FIRST, SECOND])
  {
  }

  /** The room after the first player's join. */
  ghost predicate FirstIsIn(h: History) {
    Inv(h) && h.crowd.asked == {FIRST} && h.lobby == Hall(NewTable().(black := Some(FIRST)), [FIRST])
  }

  function Opening(): seq<Event> {
    [] + [JoinRoom(SECOND, ROLE_PLAYER)] + [PlayerReady(FIRST)] + [PlayerReady(SECOND)]
  }

  lemma {:induction false} OpeningReached(h: History)
    requires FirstIsIn(h)
    ensures Reached(h, Opening(), FIRST, Hall(PlayedTable(SPACE, true, Restart(Chess.Start())), [FIRST, SECOND]), [],
                    false)
  {
    var t := PlayedTable(SPACE, false, Chess.Start());
    SecondJoins(h.lobby);
    assert Reached(h, [], FIRST, h.lobby, [], false);
    ReachOn(h, [], FIRST, h.lobby, [], false, JoinRoom(SECOND, ROLE_PLAYER), Hall(t, [FIRST, SECOND]));
    PairRestarts(h, [] + [JoinRoom(SECOND, ROLE_PLAYER)], FIRST, t, [FIRST, SECOND], []);
    assert [] + Log(t.chess) == [];
  }

  // ---------- a client falls behind ----------

  function Restarting(): seq<Event> {
    Opening() + [FIRST_STONE] + [PlayerReady(FIRST)] + [PlayerReady(SECOND)]
  }

  lemma {:induction false} RestartIsReached(h: History)
    requires FirstIsIn(h)
    ensures exists l: Lobby :: Reached(h, Restarting(), FIRST, l, [0x11], false) && Log(l.table.chess) == []
  {
    var s := Restart(Chess.Start());
    OpeningReached(h);
    TwoStonesAreLogged(s);
    FirstStoneReached(h, Opening(), FIRST, s, [FIRST, SECOND], []);
    PairRestarts(h, Opening() + [FIRST_STONE], FIRST, PlayedTable(SPACE, true, OneStone(s)), [FIRST, SECOND], []);
    assert [] + Log(OneStone(s)) == [0x11] && Log(Restart(OneStone(s))) == [];
  }

  /** The player who joined first is still connected after the second start, with the stone of
      the first game in its records while the server's log is empty again. */
  lemma {:induction false} RestartLeavesTheClientBehind(v: View)
    ensures var h := Opened([], 3);
      && FIRST !in h.crowd.asked && Possible(h.lobby, JoinRoom(FIRST, ROLE_PLAYER))
      && Succeeds(h.lobby, JoinRoom(FIRST, ROLE_PLAYER))
      && FreshFrom(h.crowd.asked + {FIRST}, Restarting())
      && Stays(Next(h, JoinRoom(FIRST, ROLE_PLAYER)), Restarting(), FIRST)
      && var shown := ClientShows(h, FIRST, ROLE_PLAYER, v, Restarting());
      && shown.Some? && shown.value.info.records == [0x11]
      && Log(RunFrom(Next(h, JoinRoom(FIRST, ROLE_PLAYER)), Restarting()).lobby.table.chess) == []
  {
    var h := Opened([], 3);
    FirstJoins();
    var h1 := Next(h, JoinRoom(FIRST, ROLE_PLAYER));
    RestartIsReached(h1);
    var l: Lobby :| Reached(h1, Restarting(), FIRST, l, [0x11], false) && Log(l.table.chess) == [];
    ShownIsMirrored(h, FIRST, ROLE_PLAYER, v, Restarting());
    assert [0x11] + [] == [0x11];
  }

  // ---------- a wrong board becomes right ----------

  const USERS := [FIRST, SECOND, THIRD]

  function Before(): seq<Event> {
    Opening() + [FIRST_STONE] + [SECOND_STONE]
  }

  /** The same two moves after another start. */
  function Again(): seq<Event> {
    [] + [PlayerReady(FIRST)] + [PlayerReady(SECOND)] + [FIRST_STONE] + [SECOND_STONE]
  }

  /** Two stones lie there when the onlooker comes. */
  ghost predicate TwoStonesIn(h: History) {
    && Inv(h) && THIRD !in h.crowd.asked
    && h.lobby == Hall(PlayedTable(SPACE, true, TwoStones(Restart(Chess.Start()))), [FIRST, SECOND])
  }

  lemma {:induction false} BeforeReached(h: History)
    requires FirstIsIn(h)
    ensures FreshFrom(h.crowd.asked, Before()) && TwoStonesIn(RunFrom(h, Before()))
  {
    OpeningReached(h);
    TwoStonesReached(h, Opening(), FIRST, Restart(Chess.Start()), [FIRST, SECOND], []);
    AskersBefore();
  }

  lemma {:induction false} AskersBefore()
    ensures THIRD !in Askers(Before())
  {
    OneMoreEvent([], JoinRoom(SECOND, ROLE_PLAYER));
    OneMoreEvent([] + [JoinRoom(SECOND, ROLE_PLAYER)], PlayerReady(FIRST));
    OneMoreEvent([] + [JoinRoom(SECOND, ROLE_PLAYER)] + [PlayerReady(FIRST)], PlayerReady(SECOND));
    OneMoreEvent(Opening(), FIRST_STONE);
    OneMoreEvent(Opening() + [FIRST_STONE], SECOND_STONE);
  }

  lemma {:induction false} ThirdJoins(l: Lobby)
    requires l == Hall(PlayedTable(SPACE, true, l.table.chess), [FIRST, SECOND]) && Logged(l.table.chess)
    ensures Possible(l, JoinRoom(THIRD, ROLE_ONLOOKER)) && Succeeds(l, JoinRoom(THIRD, ROLE_ONLOOKER))
    ensures After(l, JoinRoom(THIRD, ROLE_ONLOOKER)) == Hall(l.table, USERS)
  {
    SeatedCount(l.table);
    var l' := After(l, JoinRoom(THIRD, ROLE_ONLOOKER));
    assert [FIRST, SECOND] + [THIRD] == USERS;
    OnlyThirdNamed(l.table);
    LogFits(Log(l.table.chess));
    SnapshotFitsIff(l');
  }

  lemma {:induction false} OnlyThirdNamed(t: Table)
    requires t.black == Some(FIRST) && t.white == Some(SECOND)
    ensures OnlookerNames(t, USERS) == [THIRD.name] && TotalSize(OnlookerNames(t, USERS)) == 2
  {
    assert USERS[1..] == [SECOND, THIRD] && [SECOND, THIRD][1..] == [THIRD] && [THIRD][1..] == [];
    assert OnlookerNames(t, []) == [] && OnlookerNames(t, [THIRD]) == [THIRD.name] + [];
    assert OnlookerNames(t, [SECOND, THIRD]) == [] + [THIRD.name];
    assert [THIRD.name][1..] == [];
  }

  lemma {:induction false} AgainReachedFrom(h: History, s: State)
    requires Inv(h) && Logged(s) && Log(s) == [0x11, 0x22] && h.lobby == Hall(PlayedTable(SPACE, true, s), USERS)
    ensures Reached(h, Again(), THIRD, Hall(PlayedTable(SPACE, true, TwoStones(Restart(s))), USERS), [0x11, 0x22],
                    false)
  {
    assert Reached(h, [], THIRD, h.lobby, [], false);
    PairRestarts(h, [], THIRD, PlayedTable(SPACE, true, s), USERS, []);
    assert [] + Log(s) == [0x11, 0x22];
    TwoStonesReached(h, [] + [PlayerReady(FIRST)] + [PlayerReady(SECOND)], THIRD, Restart(s), USERS, [0x11, 0x22]);
  }

  lemma {:induction false} AgainReached(h: History, s: State)
    requires Inv(h) && Logged(s) && Log(s) == [0x11, 0x22] && h.lobby == Hall(PlayedTable(SPACE, true, s), USERS)
    ensures exists l: Lobby ::
      Reached(h, Again(), THIRD, l, [0x11, 0x22], false) && Log(l.table.chess) == [0x11, 0x22]
  {
    AgainReachedFrom(h, s);
    TwoStonesAreLogged(Restart(s));
  }

  lemma {:induction false} ThirdIsIn(h: History)
    requires TwoStonesIn(h)
    ensures Possible(h.lobby, JoinRoom(THIRD, ROLE_ONLOOKER)) && Succeeds(h.lobby, JoinRoom(THIRD, ROLE_ONLOOKER))
    ensures Log(h.lobby.table.chess) == [0x11, 0x22]
    ensures var h1 := Next(h, JoinRoom(THIRD, ROLE_ONLOOKER));
      && h1.lobby == Hall(h.lobby.table, USERS) && FreshFrom(h1.crowd.asked, []) && Stays(h1, [], THIRD)
  {
    ThirdJoins(h.lobby);
    TwoStonesAreLogged(Restart(Chess.Start()));
  }

  /** An onlooker who joins at two stones shows both in one colour. */
  lemma {:induction false} JoinedBoardIsWrong(h: History, v: View)
    requires TwoStonesIn(h)
    ensures Possible(h.lobby, JoinRoom(THIRD, ROLE_ONLOOKER)) && Succeeds(h.lobby, JoinRoom(THIRD, ROLE_ONLOOKER))
    ensures var h1 := Next(h, JoinRoom(THIRD, ROLE_ONLOOKER));
      && FreshFrom(h.crowd.asked + {THIRD}, []) && Stays(h1, [], THIRD)
      && var shown := ClientShows(h, THIRD, ROLE_ONLOOKER, v, []);
      && shown.Some? && shown.value.board != Transpose(h1.lobby.table.chess.board)
  {
    ThirdIsIn(h);
    ClientTracksServer(h, THIRD, ROLE_ONLOOKER, v, []);
  }

  /** After a new start and the same two moves its board is the server's. */
  lemma {:induction false} SameGameAgainRightsTheBoard(h: History, v: View)
    requires TwoStonesIn(h)
    ensures Possible(h.lobby, JoinRoom(THIRD, ROLE_ONLOOKER)) && Succeeds(h.lobby, JoinRoom(THIRD, ROLE_ONLOOKER))
    ensures var h1 := Next(h, JoinRoom(THIRD, ROLE_ONLOOKER));
      && FreshFrom(h.crowd.asked + {THIRD}, Again()) && Stays(h1, Again(), THIRD)
      && var shown := ClientShows(h, THIRD, ROLE_ONLOOKER, v, Again());
      && shown.Some? && shown.value.board == Transpose(RunFrom(h1, Again()).lobby.table.chess.board)
  {
    ThirdIsIn(h);
    var h1 := Next(h, JoinRoom(THIRD, ROLE_ONLOOKER));
    AgainReached(h1, h.lobby.table.chess);
    var l: Lobby :| Reached(h1, Again(), THIRD, l, [0x11, 0x22], false) && Log(l.table.chess) == [0x11, 0x22];
    ClientTracksServer(h, THIRD, ROLE_ONLOOKER, v, Again());
    assert Right([0x11, 0x22], [0x11, 0x22], 2);
  }

  /** Such a room is reached by a run from its opening. */
  lemma {:induction false} TwoStonesRoomIsReached()
    ensures var h := Opened([], 3);
      && Possible(h.lobby, JoinRoom(FIRST, ROLE_PLAYER)) && Fresh(h.crowd, JoinRoom(FIRST, ROLE_PLAYER))
      && var h1 := Next(h, JoinRoom(FIRST, ROLE_PLAYER));
      && FreshFrom(h1.crowd.asked, Before()) && TwoStonesIn(RunFrom(h1, Before()))
  {
    FirstJoins();
    BeforeReached(Next(Opened([], 3), JoinRoom(FIRST, ROLE_PLAYER)));
  }
}
