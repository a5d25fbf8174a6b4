/** Whole runs of a room: what holds after any list of events, given that every join request
    brings a fresh user object. History variables remember who was admitted as what and which
    stones the current game accepted. */
module LobbyRuns {
  import opened Bytes
  import opened Chess
  import opened Tables
  import opened Lobby

  /** An accepted stone: who sent it, under which move number, and where. */
  datatype Move = Move(user: User, number: int, coor: byte)

  datatype Crowd = Crowd(asked: set<User>, onlookers: set<User>, departed: set<User>)

  datatype Game = Game(black: Option<User>, white: Option<User>, moves: seq<Move>)

  datatype History = History(lobby: Lobby, crowd: Crowd, game: Game)

  // ---------- the roster ----------

  predicate Distinct(users: seq<User>) {
    forall i, j :: 0 <= i < j < |users| ==> users[i] != users[j]
  }

  /** The listed users are the seated players, the admitted onlookers and the players who left
      but are still listed, each once; all of them asked to join. */
  ghost predicate RosterInv(users: seq<User>, seated: set<User>, crowd: Crowd, places: int) {
    && Distinct(users)
    && (forall u :: u in users <==> u in seated || u in crowd.onlookers || u in crowd.departed)
    && seated !! crowd.onlookers && seated !! crowd.departed && crowd.onlookers !! crowd.departed
    && seated + crowd.onlookers + crowd.departed <= crowd.asked
    && |crowd.onlookers| <= places
  }

  lemma {:induction false} DistinctCount(users: seq<User>)
    requires Distinct(users)
    ensures |set u | u in users| == |users|
  {
    if users != [] {
      var rest := users[1..];
      DistinctCount(rest);
      assert users[0] !in rest;
      assert (set u | u in users) == {users[0]} + set u | u in rest;
    }
  }

  lemma {:induction false} RosterCount(users: seq<User>, seated: set<User>, crowd: Crowd, places: int)
    requires RosterInv(users, seated, crowd, places)
    ensures |users| == |seated| + |crowd.onlookers| + |crowd.departed|
  {
    DistinctCount(users);
    assert (set u | u in users) == seated + crowd.onlookers + crowd.departed;
    assert |seated + crowd.onlookers| == |seated| + |crowd.onlookers|;
    assert |seated + crowd.onlookers + crowd.departed| == |seated + crowd.onlookers| + |crowd.departed|;
  }

  lemma {:induction false} WithoutRemoves(users: seq<User>, u: User)
    requires Distinct(users)
    ensures Distinct(Without(users, u))
    ensures forall v :: v in Without(users, u) <==> v in users && v != u
  {
    if users != [] {
      var rest := users[1..];
      assert forall v :: v in users <==> v == users[0] || v in rest;
      assert users[0] !in rest;
      if users[0] != u {
        WithoutRemoves(rest, u);
        var kept := Without(rest, u);
        assert Without(users, u) == [users[0]] + kept;
        assert users[0] !in kept;
      }
    }
  }

  lemma {:induction false} SeatingKeepsRoster(users: seq<User>, seated: set<User>, crowd: Crowd, places: int, u: User)
    requires RosterInv(users, seated, crowd, places) && u !in crowd.asked
    ensures RosterInv(users + [u], seated + {u}, crowd.(asked := crowd.asked + {u}), places)
  {
    assert u !in users;
    assert forall v :: v in users + [u] <==> v in users || v == u;
  }

  lemma {:induction false} AdmittingKeepsRoster(users: seq<User>, seated: set<User>, crowd: Crowd, places: int, u: User)
    requires RosterInv(users, seated, crowd, places) && u !in crowd.asked
    requires |users| - |seated| < places
    ensures RosterInv(users + [u], seated, Crowd(crowd.asked + {u}, crowd.onlookers + {u}, crowd.departed), places)
  {
    RosterCount(users, seated, crowd, places);
    assert u !in users;
    assert forall v :: v in users + [u] <==> v in users || v == u;
  }

  lemma {:induction false} DepartingKeepsRoster(users: seq<User>, seated: set<User>, crowd: Crowd, places: int, u: User)
    requires RosterInv(users, seated, crowd, places) && u in seated
    ensures RosterInv(users, seated - {u}, crowd.(departed := crowd.departed + {u}), places)
  {
  }

  lemma {:induction false} DroppingKeepsRoster(users: seq<User>, seated: set<User>, crowd: Crowd, places: int, u: User)
    requires RosterInv(users, seated, crowd, places) && u !in seated
    ensures RosterInv(Without(users, u), seated,
                      Crowd(crowd.asked, crowd.onlookers - {u}, crowd.departed - {u}), places)
  {
    WithoutRemoves(users, u);
    var kept := Without(users, u);
    assert forall v :: v in kept <==> v in seated || v in crowd.onlookers - {u} || v in crowd.departed - {u};
    assert |crowd.onlookers - {u}| <= |crowd.onlookers|;
  }

  ghost function CrowdAfter(l: Lobby, crowd: Crowd, e: Event): Crowd
    requires Possible(l, e)
  {
    match e
    case JoinRoom(u, role) =>
      Crowd(crowd.asked + {u},
            if role == ROLE_ONLOOKER && Admit(l, u, role).Some? then crowd.onlookers + {u} else crowd.onlookers,
            crowd.departed)
    case LeaveRoom(u) =>
      if IsPlayer(l.table, u) then crowd.(departed := crowd.departed + {u})
      else crowd.(onlookers := crowd.onlookers - {u}, departed := crowd.departed - {u})
    case PlayerReady(_) => crowd
    case PlayerStone(_, _) => crowd
    case PlayerRegret(_) => crowd
    case Say(_, _, _) => crowd
    case AskInfo(_, _) => crowd
  }

  ghost predicate LobbyRoster(l: Lobby, crowd: Crowd) {
    RosterInv(l.users, Seated(l.table), crowd, l.maxUsers - 2)
  }

  ghost predicate Fresh(crowd: Crowd, e: Event) {
    e.JoinRoom? ==> e.user !in crowd.asked
  }

  lemma {:induction false} SeatedAreThePlayers(t: Table, u: User)
    ensures u in Seated(t) <==> IsPlayer(t, u)
  {
  }

  lemma {:induction false} FreshIsPossible(l: Lobby, crowd: Crowd, e: Event)
    requires Admissible(l) && LobbyRoster(l, crowd) && Fresh(crowd, e)
    ensures Possible(l, e)
  {
    SeatedAreThePlayers(l.table, e.user);
  }

  lemma {:induction false} SeatedAfterJoin(t: Table, u: User)
    requires Sound(t) && !IsPlayer(t, u) && Tables.Join(t, u).Some?
    ensures Seated(Tables.Join(t, u).value) == Seated(t) + {u}
  {
  }

  lemma {:induction false} SeatedAfterLeave(t: Table, u: User)
    requires Sound(t)
    ensures Seated(Tables.Leave(t, u)) == Seated(t) - {u}
  {
  }

  lemma {:induction false} PlayerJoinKeepsRoster(l: Lobby, crowd: Crowd, u: User)
    requires Possible(l, JoinRoom(u, ROLE_PLAYER)) && LobbyRoster(l, crowd) && u !in crowd.asked
    requires Tables.Join(l.table, u).Some?
    ensures LobbyRoster(l.(table := Tables.Join(l.table, u).value, users := l.users + [u]),
                        crowd.(asked := crowd.asked + {u}))
  {
    SeatedAfterJoin(l.table, u);
    SeatingKeepsRoster(l.users, Seated(l.table), crowd, l.maxUsers - 2, u);
  }

  lemma {:induction false} OnlookerJoinKeepsRoster(l: Lobby, crowd: Crowd, u: User)
    requires LobbyRoster(l, crowd) && u !in crowd.asked && HasPlace(l)
    ensures LobbyRoster(l.(users := l.users + [u]), Crowd(crowd.asked + {u}, crowd.onlookers + {u}, crowd.departed))
  {
    AdmittingKeepsRoster(l.users, Seated(l.table), crowd, l.maxUsers - 2, u);
  }

  lemma {:induction false} RefusalKeepsRoster(l: Lobby, crowd: Crowd, u: User)
    requires LobbyRoster(l, crowd)
    ensures LobbyRoster(l, crowd.(asked := crowd.asked + {u}))
  {
  }

  lemma {:induction false} JoinKeepsRoster(l: Lobby, crowd: Crowd, u: User, role: byte)
    requires Possible(l, JoinRoom(u, role)) && LobbyRoster(l, crowd) && u !in crowd.asked
    ensures LobbyRoster(After(l, JoinRoom(u, role)), CrowdAfter(l, crowd, JoinRoom(u, role)))
  {
    if Admit(l, u, role).None? {
      RefusalKeepsRoster(l, crowd, u);
    } else if role == ROLE_ONLOOKER {
      OnlookerJoinKeepsRoster(l, crowd, u);
    } else {
      PlayerJoinKeepsRoster(l, crowd, u);
    }
  }

  lemma {:induction false} LeaveKeepsRoster(l: Lobby, crowd: Crowd, u: User)
    requires Admissible(l) && LobbyRoster(l, crowd)
    ensures LobbyRoster(After(l, LeaveRoom(u)), CrowdAfter(l, crowd, LeaveRoom(u)))
  {
    var users, seated, places := l.users, Seated(l.table), l.maxUsers - 2;
    SeatedAfterLeave(l.table, u);
    SeatedAreThePlayers(l.table, u);
    if IsPlayer(l.table, u) {
      DepartingKeepsRoster(users, seated, crowd, places, u);
    } else {
      assert seated - {u} == seated;
      DroppingKeepsRoster(users, seated, crowd, places, u);
    }
  }

  /** Every other event leaves the users and the seats alone. */
  lemma {:induction false} PlayKeepsRoster(l: Lobby, crowd: Crowd, e: Event)
    requires Possible(l, e) && LobbyRoster(l, crowd) && !e.JoinRoom? && !e.LeaveRoom?
    ensures LobbyRoster(After(l, e), CrowdAfter(l, crowd, e))
  {
    PlayKeepsSeats(l, e);
    SameSeatsSameRoster(l, After(l, e), crowd);
  }

  lemma {:induction false} SameSeatsSameRoster(l: Lobby, l': Lobby, crowd: Crowd)
    requires LobbyRoster(l, crowd) && l'.users == l.users && l'.maxUsers == l.maxUsers
    requires Seated(l'.table) == Seated(l.table)
    ensures LobbyRoster(l', crowd)
  {
  }

  lemma {:induction false} PlayKeepsSeats(l: Lobby, e: Event)
    requires Possible(l, e) && !e.JoinRoom? && !e.LeaveRoom?
    ensures After(l, e).users == l.users && After(l, e).maxUsers == l.maxUsers
    ensures Seated(After(l, e).table) == Seated(l.table)
  {
    match e
    case PlayerReady(u) => ReadyKeepsSeats(l.table, u);
    case PlayerStone(u, data) => StoneKeepsSeats(l.table, u, data);
    case PlayerRegret(u) =>
    case Say(_, _, _) =>
    case AskInfo(_, _) =>
  }

  lemma {:induction false} ReadyKeepsSeats(t: Table, u: User)
    requires Sound(t)
    ensures Seated(AfterReady(t, u)) == Seated(t)
  {
  }

  lemma {:induction false} StoneKeepsSeats(t: Table, u: User, data: seq<byte>)
    requires Sound(t)
    ensures Seated(AfterStone(t, u, data)) == Seated(t)
  {
  }

  lemma {:induction false} StepKeepsRoster(l: Lobby, crowd: Crowd, e: Event)
    requires Possible(l, e) && LobbyRoster(l, crowd) && Fresh(crowd, e)
    ensures LobbyRoster(After(l, e), CrowdAfter(l, crowd, e))
  {
    match e
    case JoinRoom(u, role) => JoinKeepsRoster(l, crowd, u, role);
    case LeaveRoom(u) => LeaveKeepsRoster(l, crowd, u);
    case _ => PlayKeepsRoster(l, crowd, e);
  }

  // ---------- the game ----------

  /** Who moves under a move number: the white seat first, because of the inverted guard. */
  function Mover(game: Game, number: int): Option<User> {
    if number % 2 == 0 then game.white else game.black
  }

  ghost predicate MoveMatches(game: Game, log: seq<byte>, k: int)
    requires 0 <= k < |log| == |game.moves|
  {
    game.moves[k].number == k && game.moves[k].coor == log[k] && Some(game.moves[k].user) == Mover(game, k)
  }

  ghost predicate GameInv(t: Table, game: Game)
    requires Sound(t)
  {
    && |game.moves| == |Log(t.chess)|
    && t.chess.board == Replay(Log(t.chess))
    && (forall k :: 0 <= k < |game.moves| ==> MoveMatches(game, Log(t.chess), k))
    && (game.black.Some? ==> game.black != game.white)
    && (t.isPlaying ==> game.black == t.black && game.white == t.white)
    && (game.black.None? ==> game.moves == [])
  }

  ghost predicate Starts(t: Table, e: Event) {
    e.PlayerReady? && Completes(t, e.user)
  }

  ghost function GameAfter(t: Table, game: Game, e: Event): Game
    requires Sound(t)
  {
    if Starts(t, e) then Game(t.black, t.white, [])
    else if e.PlayerStone? && Plays(t, e.user, e.data) then
      game.(moves := game.moves + [Move(e.user, e.data[0], e.data[1])])
    else game
  }

  lemma {:induction false} StoneKeepsGame(t: Table, game: Game, u: User, data: seq<byte>)
    requires Sound(t) && GameInv(t, game) && Plays(t, u, data)
    ensures GameInv(AfterStone(t, u, data), GameAfter(t, game, PlayerStone(u, data)))
  {
    var t', game' := AfterStone(t, u, data), GameAfter(t, game, PlayerStone(u, data));
    StoneKeepsReplay(t, u, data);
    MoverOfStone(t, game, u, data);
    MovesKeepMatching(game, game', Log(t.chess), Log(t'.chess));
  }

  lemma {:induction false} StoneKeepsReplay(t: Table, u: User, data: seq<byte>)
    requires Sound(t) && t.chess.board == Replay(Log(t.chess)) && Plays(t, u, data)
    ensures Log(AfterStone(t, u, data).chess) == Log(t.chess) + [data[1]]
    ensures AfterStone(t, u, data).chess.board == Replay(Log(t.chess) + [data[1]])
  {
    StepKeepsReplay(t.chess, Chess.Op.Stone(data[0], data[1]));
  }

  /** The guard lets through the player whose parity it is. */
  lemma {:induction false} MoverOfStone(t: Table, game: Game, u: User, data: seq<byte>)
    requires Sound(t) && GameInv(t, game) && Plays(t, u, data)
    ensures data[0] == |Log(t.chess)| && Some(u) == Mover(game, data[0])
  {
  }

  /** Earlier moves still match after one more that matches. */
  lemma {:induction false} MovesKeepMatching(game: Game, game': Game, log: seq<byte>, log': seq<byte>)
    requires |game.moves| == |log| && forall k :: 0 <= k < |log| ==> MoveMatches(game, log, k)
    requires |game'.moves| == |log'| == |log| + 1 && game'.moves[..|log|] == game.moves && log'[..|log|] == log
    requires game'.black == game.black && game'.white == game.white && MoveMatches(game', log', |log|)
    ensures forall k :: 0 <= k < |log'| ==> MoveMatches(game', log', k)
  {
    forall k | 0 <= k < |log'|
      ensures MoveMatches(game', log', k)
    {
      if k < |log| {
        assert MoveMatches(game, log, k);
        assert game'.moves[k] == game'.moves[..|log|][k] && log'[k] == log'[..|log|][k];
      }
    }
  }

  lemma {:induction false} StartKeepsGame(t: Table, game: Game, u: User)
    requires Sound(t) && GameInv(t, game)
    ensures GameInv(AfterReady(t, u), GameAfter(t, game, PlayerReady(u)))
  {
    if Completes(t, u) {
      assert Log(AfterReady(t, u).chess) == [];
    }
  }

  lemma {:induction false} StepKeepsGame(l: Lobby, game: Game, e: Event)
    requires Possible(l, e) && GameInv(l.table, game)
    ensures GameInv(After(l, e).table, GameAfter(l.table, game, e))
  {
    match e
    case JoinRoom(u, role) =>
    case LeaveRoom(u) =>
    case PlayerReady(u) => StartKeepsGame(l.table, game, u);
    case PlayerStone(u, data) =>
      if Plays(l.table, u, data) {
        StoneKeepsGame(l.table, game, u, data);
      }
    case PlayerRegret(u) =>
    case Say(_, _, _) =>
    case AskInfo(_, _) =>
  }

  // ---------- runs ----------

  ghost predicate Inv(h: History) {
    Admissible(h.lobby) && LobbyRoster(h.lobby, h.crowd) && GameInv(h.lobby.table, h.game)
  }

  ghost function Opened(name: seq<byte>, maxUsers: int): (h: History)
    ensures Inv(h)
  {
    History(NewLobby(name, maxUsers), Crowd({}, {}, {}), Game(None, None, []))
  }

  lemma {:induction false} StepKeepsInv(h: History, e: Event)
    requires Inv(h) && Fresh(h.crowd, e)
    ensures Possible(h.lobby, e) && LobbyRoster(After(h.lobby, e), CrowdAfter(h.lobby, h.crowd, e))
    ensures GameInv(After(h.lobby, e).table, GameAfter(h.lobby.table, h.game, e))
  {
    FreshIsPossible(h.lobby, h.crowd, e);
    StepKeepsRoster(h.lobby, h.crowd, e);
    StepKeepsGame(h.lobby, h.game, e);
  }

  ghost function Next(h: History, e: Event): (h': History)
    requires Inv(h) && Fresh(h.crowd, e)
    ensures Inv(h')
    ensures Possible(h.lobby, e) && h'.lobby == After(h.lobby, e)
    ensures h'.crowd.asked == h.crowd.asked + if e.JoinRoom? then {e.user} else {}
  {
    StepKeepsInv(h, e);
    History(After(h.lobby, e), CrowdAfter(h.lobby, h.crowd, e), GameAfter(h.lobby.table, h.game, e))
  }

  ghost function Askers(es: seq<Event>): set<User> {
    if es == [] then {}
    else
      var last := |es| - 1;
      Askers(es[..last]) + if es[last].JoinRoom? then {es[last].user} else {}
  }

  /** Every join request brings a user object that no earlier one brought. */
  ghost predicate FreshFrom(asked: set<User>, es: seq<Event>) {
    es == [] ||
    var last := |es| - 1;
    FreshFrom(asked, es[..last]) && (es[last].JoinRoom? ==> es[last].user !in asked + Askers(es[..last]))
  }

  ghost function RunFrom(h: History, es: seq<Event>): (h': History)
    requires Inv(h) && FreshFrom(h.crowd.asked, es)
    ensures Inv(h') && h'.crowd.asked == h.crowd.asked + Askers(es)
  {
    if es == [] then h else Next(RunFrom(h, es[..|es| - 1]), es[|es| - 1])
  }

  lemma {:induction false} OneMoreEvent(es: seq<Event>, e: Event)
    ensures (es + [e])[..|es|] == es && (es + [e])[|es|] == e
    ensures Askers(es + [e]) == Askers(es) + if e.JoinRoom? then {e.user} else {}
  {
  }

  /** A run followed by one more event. */
  lemma {:induction false} RunOneMore(h: History, es: seq<Event>, e: Event)
    requires Inv(h) && FreshFrom(h.crowd.asked, es) && Fresh(RunFrom(h, es).crowd, e)
    ensures FreshFrom(h.crowd.asked, es + [e])
    ensures RunFrom(h, es + [e]) == Next(RunFrom(h, es), e)
  {
    OneMoreEvent(es, e);
  }

  ghost function RunOpened(name: seq<byte>, maxUsers: int, es: seq<Event>): (h: History)
    requires FreshFrom({}, es)
    ensures Inv(h)
  {
    RunFrom(Opened(name, maxUsers), es)
  }

  /** In every run: playing means two different seated players, and a pending ready, regret or
      tie colour names a filled seat. */
  lemma {:induction false} SeatsAreSafe(name: seq<byte>, maxUsers: int, es: seq<Event>)
    requires FreshFrom({}, es)
    ensures var t := RunOpened(name, maxUsers, es).lobby.table;
      && (t.isPlaying ==> t.black.Some? && t.white.Some? && t.black != t.white)
      && (forall color :: color in {t.readyColor, t.regretColor, t.tieColor} && color != SPACE ==>
            (color == BLACK || color == WHITE) && Seat(t, color).Some?)
  {
    assert Sound(RunOpened(name, maxUsers, es).lobby.table);
  }

  /** While a game goes on nobody changes seats: after any step either the game is over or both
      seats are as they were. */
  lemma {:induction false} SeatsHoldWhilePlaying(l: Lobby, e: Event)
    requires Possible(l, e) && l.table.isPlaying && After(l, e).table.isPlaying
    ensures After(l, e).table.black == l.table.black && After(l, e).table.white == l.table.white
  {
  }

  /** In every run the user list splits into seated players, admitted onlookers and departed
      players; both seated players are listed; and admitted onlookers stay within capacity. */
  lemma {:induction false} RosterSplits(name: seq<byte>, maxUsers: int, es: seq<Event>)
    requires FreshFrom({}, es)
    ensures var h := RunOpened(name, maxUsers, es);
      && (forall u :: u in h.lobby.users <==>
            IsPlayer(h.lobby.table, u) || u in h.crowd.onlookers || u in h.crowd.departed)
      && (forall u :: IsPlayer(h.lobby.table, u) ==> u !in h.crowd.onlookers && u !in h.crowd.departed)
      && h.crowd.onlookers !! h.crowd.departed
      && |h.lobby.users| == |Seated(h.lobby.table)| + |h.crowd.onlookers| + |h.crowd.departed|
      && |h.crowd.onlookers| <= h.lobby.maxUsers - 2
      && 2 <= h.lobby.maxUsers <= MAX_USERS
  {
    var h := RunOpened(name, maxUsers, es);
    RosterCount(h.lobby.users, Seated(h.lobby.table), h.crowd, h.lobby.maxUsers - 2);
    forall u
      ensures u in Seated(h.lobby.table) <==> IsPlayer(h.lobby.table, u)
    {
      SeatedAreThePlayers(h.lobby.table, u);
    }
  }

  lemma {:induction false} MovesAlternate(t: Table, game: Game)
    requires Sound(t) && GameInv(t, game)
    ensures forall k :: 0 <= k < |game.moves| ==> game.moves[k].number == k && game.moves[k].coor == Log(t.chess)[k]
    ensures forall k :: 0 <= k < |game.moves| ==>
      Some(game.moves[k].user) == if k % 2 == 0 then game.white else game.black
    ensures game.moves != [] ==> game.black.Some? && game.black != game.white
  {
    forall k | 0 <= k < |game.moves|
      ensures game.moves[k].number == k && game.moves[k].coor == Log(t.chess)[k]
      ensures Some(game.moves[k].user) == if k % 2 == 0 then game.white else game.black
    {
      assert MoveMatches(game, Log(t.chess), k);
    }
  }

  /** In every run the stones accepted since the last start carry the move numbers 0, 1, 2, ...
      and come from the two starters in strict alternation; the board is their replay. */
  lemma {:induction false} StonesAlternate(name: seq<byte>, maxUsers: int, es: seq<Event>)
    requires FreshFrom({}, es)
    ensures var h := RunOpened(name, maxUsers, es);
      && |h.game.moves| == |Log(h.lobby.table.chess)|
      && (forall k :: 0 <= k < |h.game.moves| ==>
            h.game.moves[k].number == k && h.game.moves[k].coor == Log(h.lobby.table.chess)[k])
      && (forall k :: 0 <= k < |h.game.moves| ==>
            Some(h.game.moves[k].user) == if k % 2 == 0 then h.game.white else h.game.black)
      && (h.game.moves != [] ==> h.game.black.Some? && h.game.black != h.game.white)
      && h.lobby.table.chess.board == Replay(Log(h.lobby.table.chess))
  {
    var h := RunOpened(name, maxUsers, es);
    MovesAlternate(h.lobby.table, h.game);
  }

  ghost predicate NoStart(h: History, es: seq<Event>)
    requires Inv(h) && FreshFrom(h.crowd.asked, es)
  {
    es == [] ||
    var last := |es| - 1;
    NoStart(h, es[..last]) && !Starts(RunFrom(h, es[..last]).lobby.table, es[last])
  }

  lemma {:induction false} StepMovesOn(l: Lobby, e: Event)
    requires Possible(l, e) && !Starts(l.table, e)
    ensures After(l, e).table.chess.cursor >= l.table.chess.cursor
  {
  }

  lemma {:induction false} MoveNumberGrows(h: History, es: seq<Event>)
    requires Inv(h) && FreshFrom(h.crowd.asked, es) && NoStart(h, es)
    ensures RunFrom(h, es).lobby.table.chess.cursor >= h.lobby.table.chess.cursor
    decreases |es|
  {
    if es != [] {
      var last := |es| - 1;
      MoveNumberGrows(h, es[..last]);
      StepMovesOn(RunFrom(h, es[..last]).lobby, es[last]);
    }
  }

  /** A move number is accepted at most once in a game: sending an accepted stone again, by
      anyone, at any later time before the next start, changes nothing and sends nothing. */
  lemma {:induction false} RepeatedStoneIsIgnored(
    h: History, u: User, data: seq<byte>, es: seq<Event>, v: User, again: seq<byte>)
    requires Inv(h) && Plays(h.lobby.table, u, data)
    requires FreshFrom(h.crowd.asked, es) && NoStart(Next(h, PlayerStone(u, data)), es)
    requires |again| > 0 && again[0] == data[0]
    ensures var l := RunFrom(Next(h, PlayerStone(u, data)), es).lobby;
      After(l, PlayerStone(v, again)) == l && Sends(l, PlayerStone(v, again)) == []
  {
    var h1 := Next(h, PlayerStone(u, data));
    MoveNumberGrows(h1, es);
    var l := RunFrom(h1, es).lobby;
    assert !Plays(l.table, v, again);
    NothingToNobody(l.users);
  }
}
