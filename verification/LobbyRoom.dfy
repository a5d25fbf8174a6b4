/** The room with its user list as the object the message handlers update, and the packets they
    send, each handler tied to its meaning in `Lobby`. */
module LobbyRoom {
  import opened Bytes
  import opened Messages
  import opened Chess
  import opened Tables
  import opened Lobby
  import opened UserInfos
  import opened RoomEffects
  import Framing
  import GameRoom
  import Marshal

  class Room {
    const game: GameRoom.Room
    const name: seq<byte>
    const maxUsers: int
    var users: seq<User>
    /** Everything sent so far, in order. */
    var outbox: seq<Send>

    ghost predicate Valid()
      reads this, game, game.chess, game.chess.board, game.chess.record
    {
      game.Valid() && Admissible(View())
    }

    ghost function View(): Lobby
      requires game.chess.Valid()
      reads this, game, game.chess, game.chess.board, game.chess.record
    {
      Lobby(game.View(), name, maxUsers, users)
    }

    constructor (name: seq<byte>, maxUser: int)
      ensures Valid() && fresh(game) && fresh(game.chess) && fresh(game.chess.board) && fresh(game.chess.record)
      ensures View().maxUsers == ClampMaxUsers(maxUser) && View().users == [] && outbox == []
      ensures View().table == NewTable().(chess := View().table.chess)
      ensures View().table.chess.board == Blank() && View().table.chess.cursor == 0
    {
      var m := maxUser;
      if m > MAX_USERS {
        m := MAX_USERS;
      }
      if m < 2 {
        m := 2;
      }
      this.name := name;
      this.maxUsers := m;
      users, outbox := [], [];
      game := new GameRoom.Room();
    }

    // ---------- the user list ----------

    method JoinAsPlayer(u: User) returns (ok: bool)
      requires Valid() && !IsPlayer(View().table, u)
      modifies this`users, game
      ensures Valid()
      ensures match Admit(old(View()), u, ROLE_PLAYER)
        case None => !ok && View() == old(View())
        case Some(l) => ok && View() == l
    {
      ok := game.Join(u);
      if ok {
        users := users + [u];
      }
    }

    method JoinAsOnlooker(u: User) returns (ok: bool)
      requires Valid() && !IsPlayer(View().table, u)
      modifies this`users
      ensures Valid()
      ensures match Admit(old(View()), u, ROLE_ONLOOKER)
        case None => !ok && View() == old(View())
        case Some(l) => ok && View() == l
    {
      var players := game.PlayerCount();
      if maxUsers - 2 <= |users| - players {
        return false;
      }
      users := users + [u];
      return true;
    }

    method JoinAs(u: User, role: byte) returns (ok: bool)
      requires Valid() && !IsPlayer(View().table, u)
      modifies this`users, game
      ensures Valid()
      ensures match Admit(old(View()), u, role)
        case None => !ok && View() == old(View())
        case Some(l) => ok && View() == l
    {
      if role == ROLE_PLAYER {
        ok := JoinAsPlayer(u);
      } else if role == ROLE_ONLOOKER {
        ok := JoinAsOnlooker(u);
      } else {
        ok := false;
      }
    }

    method Leave(u: User)
      requires Valid()
      modifies this`users, game
      ensures Valid() && View() == After(old(View()), LeaveRoom(u))
    {
      var wasPlayer := game.Leave(u);
      if !wasPlayer {
        RemoveUser(u);
      }
    }

    method RemoveUser(u: User)
      modifies this`users
      ensures users == Without(old(users), u)
    {
      var i := 0;
      while i < |users|
        invariant 0 <= i <= |users| && users == old(users)
        invariant Without(users, u) == users[..i] + Without(users[i..], u)
      {
        assert users[i..][1..] == users[i + 1..];
        if users[i] == u {
          users := users[..i] + users[i + 1..];
          return;
        }
        i := i + 1;
      }
    }

    // ---------- sending ----------

    method SendTo(u: User, p: Packet)
      modifies this`outbox
      ensures outbox == old(outbox) + [Send(u, p)]
    {
      outbox := outbox + [Send(u, p)];
    }

    method Broadcast(packets: seq<Packet>)
      modifies this`outbox
      ensures outbox == old(outbox) + ToAll(users, packets)
    {
      for i := 0 to |users|
        invariant outbox + ToAll(users[i..], packets) == old(outbox) + ToAll(users, packets)
      {
        ghost var before := outbox;
        var user := users[i];
        var copies := seq(|packets|, j requires 0 <= j < |packets| => Send(user, packets[j]));
        outbox := outbox + copies;
        assert users[i..][1..] == users[i + 1..];
        assert before + (copies + ToAll(users[i + 1..], packets)) == outbox + ToAll(users[i + 1..], packets);
      }
      assert outbox + [] == outbox;
    }

    method SendOtherJoinRoom(u: User, role: byte)
      modifies this`outbox
      ensures outbox == old(outbox) + TellOthers(users, u, role)
    {
      for i := 0 to |users|
        invariant outbox + TellOthers(users[i..], u, role) == old(outbox) + TellOthers(users, u, role)
      {
        ghost var before := outbox;
        ghost var rest := TellOthers(users[i + 1..], u, role);
        assert users[i..][1..] == users[i + 1..];
        if users[i] != u {
          NameEncodes(users[i].name, role);
          var data := Marshal.Marshal(USERNAME_AND_ROLE, [Codec.Blob(users[i].name), Codec.Num(role)]);
          ghost var sent := Send(users[i], Packet(C_OTHER_JOIN_ROOM, data.value));
          SendTo(users[i], Packet(C_OTHER_JOIN_ROOM, data.value));
          assert before + ([sent] + rest) == outbox + rest;
        }
      }
      assert outbox + [] == outbox;
    }

    method OnlookerList() returns (names: seq<seq<byte>>)
      requires Valid()
      ensures names == OnlookerNames(View().table, users)
    {
      names := [];
      for i := 0 to |users|
        invariant names + OnlookerNames(View().table, users[i..]) == OnlookerNames(View().table, users)
      {
        ghost var rest := OnlookerNames(View().table, users[i + 1..]);
        assert users[i..][1..] == users[i + 1..];
        if game.black != Some(users[i]) && game.white != Some(users[i]) {
          var username: seq<byte> := users[i].name;
          OneMoreName(names, username, rest);
          names := names + [username];
        } else {
          assert [] + rest == rest;
        }
      }
      assert names + [] == names;
    }

    method SendYouJoinRoom(u: User) returns (ok: bool)
      requires Valid()
      modifies this`outbox
      ensures outbox == old(outbox) + SnapshotSends(View(), u)
      ensures ok <==> SendableSnapshot(View()).Some?
    {
      var onlookers := OnlookerList();
      var records := game.chess.GetRecords();
      var s := Snapshot(name, maxUsers, SeatName(game.black), SeatName(game.white), onlookers,
                        game.readyColor, game.isPlaying, game.regretColor, game.tieColor, records);
      assert s == SnapshotOf(View());
      var data := Marshal.Marshal(SNAPSHOT, SnapshotValues(s));
      if data.None? {
        assert outbox + [] == outbox;
        return false;
      }
      var frame := Framing.Write(C_YOU_JOIN_ROOM, data.value);
      if frame.None? {
        assert outbox + [] == outbox;
        return false;
      }
      SendTo(u, Packet(C_YOU_JOIN_ROOM, data.value));
      return true;
    }

    // ---------- the handlers ----------

    method ReceiveJoinRoom(u: User, role: byte) returns (ok: bool)
      requires Valid() && !IsPlayer(View().table, u)
      modifies this, game
      ensures Valid() && View() == After(old(View()), JoinRoom(u, role))
      ensures outbox == old(outbox) + Sends(old(View()), JoinRoom(u, role))
      ensures ok <==> Succeeds(old(View()), JoinRoom(u, role))
    {
      ok := JoinAs(u, role);
      if !ok {
        assert outbox + [] == outbox;
        return;
      }
      SendOtherJoinRoom(u, role);
      ok := SendYouJoinRoom(u);
      assert old(outbox) + TellOthers(users, u, role) + SnapshotSends(View(), u)
          == old(outbox) + (TellOthers(users, u, role) + SnapshotSends(View(), u));
    }

    method ReceiveReady(u: User) returns (ok: bool)
      requires Valid()
      modifies this`outbox, game, game.chess, game.chess.board
      ensures Valid() && View() == After(old(View()), PlayerReady(u))
      ensures outbox == old(outbox) + Sends(old(View()), PlayerReady(u))
      ensures ok <==> Succeeds(old(View()), PlayerReady(u))
    {
      var color, start, isPlayer := game.Ready(u);
      if !isPlayer {
        NothingToNobody(users);
        assert outbox + [] == outbox;
        return false;
      }
      if start {
        NameEncodes(game.black.value.name, 0);
        var data := Marshal.Marshal(USERNAME, [Codec.Blob(game.black.value.name)]);
        Broadcast([Packet(C_GAME_START, data.value)]);
        game.Start();
      } else {
        Broadcast([Packet(C_PLAYER_READY, [color])]);
      }
      return true;
    }

    /** The guard on whose turn it is, with the colour about to be placed. */
    method MayStone(u: User) returns (ok: bool, who: byte)
      requires Valid()
      ensures ok <==> MayPlay(View().table, u)
      ensures var t := View().table;
        ok <==> t.isPlaying && Some(u) == if t.chess.cursor % 2 == 0 then t.white else t.black
      ensures who == Turn(View().table.chess)
    {
      who := game.chess.WhoseTurn();
      if !game.isPlaying {
        return false, who;
      }
      if Some(u) == game.black && who == BLACK {
        return false, who;
      }
      if Some(u) == game.white && who == WHITE {
        return false, who;
      }
      return Some(u) == game.black || Some(u) == game.white, who;
    }

    /** A stone that the board refuses is dropped without an error. */
    method ReceivePlayerStone(u: User, data: seq<byte>) returns (ok: bool)
      requires Valid()
      modifies this`outbox, game.chess, game.chess.board, game.chess.record
      ensures Valid() && View() == After(old(View()), PlayerStone(u, data))
      ensures outbox == old(outbox) + Sends(old(View()), PlayerStone(u, data))
      ensures ok <==> Succeeds(old(View()), PlayerStone(u, data))
      ensures var t := old(View()).table;
        && (ok <==> |data| >= 2 && t.isPlaying && Some(u) == if t.chess.cursor % 2 == 0 then t.white else t.black)
        && (View().table.chess.cursor == t.chess.cursor + 1 <==> |data| >= 2 && MayPlace(t, u, data[0], data[1]))
    {
      StoneEffect(View(), u, data);
      NothingToNobody(users);
      assert outbox + [] == outbox;
      if |data| < 2 {
        return false;
      }
      var who: byte;
      ok, who := MayStone(u);
      if !ok {
        return;
      }
      PlayStone(u, data, who);
    }

    method PlayStone(u: User, data: seq<byte>, who: byte)
      requires Valid() && |data| >= 2 && MayPlay(View().table, u) && who == Turn(View().table.chess)
      modifies this`outbox, game.chess, game.chess.board, game.chess.record
      ensures Valid() && View() == old(View()).(table := AfterStone(old(View()).table, u, data))
      ensures outbox == old(outbox) + ToAll(users, StonePackets(old(View()).table, u, data))
    {
      NothingToNobody(users);
      assert outbox + [] == outbox;
      var placed := game.chess.Stone(data[0], data[1]);
      if placed {
        BroadcastStone(data[1], who);
      }
    }

    method BroadcastStone(coor: byte, who: byte)
      requires Valid()
      modifies this`outbox
      ensures outbox == old(outbox) + ToAll(users,
        [Packet(C_STONE, [coor])] + if Wins(View().table.chess) then [Packet(C_GAME_OVER, [who])] else [])
    {
      var win := game.chess.DidYouWin();
      if win {
        Broadcast([Packet(C_STONE, [coor])] + [Packet(C_GAME_OVER, [who])]);
      } else {
        Broadcast([Packet(C_STONE, [coor])] + []);
      }
    }

    method ReceivePlayerRegret(u: User) returns (ok: bool)
      requires Valid()
      modifies game`regretColor
      ensures Valid() && View() == After(old(View()), PlayerRegret(u))
      ensures Sends(old(View()), PlayerRegret(u)) == [] && !ok
    {
      ok := game.Regret(u);
    }

    method SendMessage(to: User, username: Name, text: seq<byte>, now: LongWord)
      modifies this`outbox
      ensures outbox == old(outbox) + ToAll([to], MessagePackets(username, text, now))
    {
      CapacityOfWords();
      OnlyOne(to, MessagePackets(username, text, now));
      assert outbox + [] == outbox;
      var data := Marshal.Marshal(CHAT, ChatValues(Chat(now, username, text)));
      if data.None? {
        return;
      }
      var frame := Framing.Write(C_MESSAGE, data.value);
      if frame.Some? {
        SendTo(to, Packet(C_MESSAGE, data.value));
      }
    }

    /** A chat line; one that cannot be written is dropped for everyone. */
    method ReceiveMessage(u: User, data: seq<byte>, now: LongWord) returns (ok: bool)
      requires Valid()
      modifies this`outbox
      ensures Valid() && View() == After(old(View()), Say(u, data, now))
      ensures outbox == old(outbox) + Sends(old(View()), Say(u, data, now))
      ensures ok <==> Succeeds(old(View()), Say(u, data, now))
    {
      LineIsDecoded(data);
      NothingToNobody(users);
      assert outbox + [] == outbox;
      var m := Marshal.Unmarshal(data, CHAT_REQUEST, [Codec.Blob([])]);
      if m.None? {
        return false;
      }
      TellAll(u.name, m.value[0].bytes, now);
      return true;
    }

    method TellAll(username: Name, text: seq<byte>, now: LongWord)
      modifies this`outbox
      ensures outbox == old(outbox) + ToAll(users, MessagePackets(username, text, now))
    {
      ghost var packets := MessagePackets(username, text, now);
      for i := 0 to |users|
        invariant outbox + ToAll(users[i..], packets) == old(outbox) + ToAll(users, packets)
      {
        ghost var before := outbox;
        SendMessage(users[i], username, text, now);
        OneMoreSent(before, users[i], users[i + 1..], packets);
        assert users[i..] == [users[i]] + users[i + 1..];
      }
      assert outbox + [] == outbox;
    }

    method FindUser(name: seq<byte>) returns (other: Option<User>)
      ensures other == FirstNamed(users, name)
    {
      for i := 0 to |users|
        invariant FirstNamed(users[i..], name) == FirstNamed(users, name)
      {
        if users[i].name == name {
          return Some(users[i]);
        }
        assert users[i..][1..] == users[i + 1..];
      }
      return None;
    }

    /** The name is read by its length byte; an empty request reads as the empty name. */
    method ReceiveUserInfo(u: User, data: seq<byte>) returns (ok: bool)
      requires Valid()
      modifies this`outbox
      ensures Valid() && View() == After(old(View()), AskInfo(u, data))
      ensures outbox == old(outbox) + Sends(old(View()), AskInfo(u, data))
      ensures ok <==> Succeeds(old(View()), AskInfo(u, data))
    {
      NameIsRead(data);
      assert outbox + [] == outbox;
      var name: seq<byte> := [];
      if data != [] {
        if 1 + data[0] > |data| {
          return false;
        }
        name := data[1..1 + data[0]];
      }
      var other := FindUser(name);
      if other.Some? {
        SendTo(u, Packet(C_USER_INFO, PutUserInfo(InfoOf(other.value))));
      }
      return true;
    }

    method ProcessUserLeave(u: User)
      requires Valid()
      modifies this, game
      ensures Valid() && View() == After(old(View()), LeaveRoom(u))
      ensures outbox == old(outbox) + Sends(old(View()), LeaveRoom(u))
    {
      for i := 0 to |users|
        invariant View() == old(View()) && game.Valid()
        invariant outbox == old(outbox) + TellLeaver(users, u)[..i]
      {
        NameEncodes(users[i].name, 0);
        var data := Marshal.Marshal(USERNAME, [Codec.Blob(users[i].name)]);
        SendTo(u, Packet(C_USER_LEAVE_ROOM, data.value));
        assert TellLeaver(users, u)[..i + 1] == TellLeaver(users, u)[..i] + [TellLeaver(users, u)[i]];
      }
      assert TellLeaver(users, u)[..|users|] == TellLeaver(users, u);
      Leave(u);
    }
  }
}
