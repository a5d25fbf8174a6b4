/** What each event does to a room, field by field, and what it sends to whom, byte by byte, with
    the numbers written out: the meaning of the steps in `Lobby` and `Tables`. */
module RoomEffects {
  import opened Bytes
  import opened Codec
  import opened Messages
  import opened Chess
  import opened Rules
  import opened Tables
  import opened UserInfos
  import opened Lobby
  import opened Layouts
  import Framing

  // ---------- broadcasts ----------

  predicate EachGets(sends: seq<Send>, users: seq<User>, p: Packet) {
    |sends| == |users| && forall i :: 0 <= i < |users| ==> sends[i] == Send(users[i], p)
  }

  predicate EachGetsBoth(sends: seq<Send>, users: seq<User>, p: Packet, q: Packet) {
    && |sends| == 2 * |users|
    && forall i :: 0 <= i < |users| ==> sends[2 * i] == Send(users[i], p) && sends[2 * i + 1] == Send(users[i], q)
  }

  lemma {:induction false} OneToAll(users: seq<User>, p: Packet)
    ensures EachGets(ToAll(users, [p]), users, p)
    decreases |users|
  {
    if users != [] {
      OneToAll(users[1..], p);
      var rest := ToAll(users[1..], [p]);
      assert ToAll(users, [p]) == [Send(users[0], p)] + rest;
    }
  }

  lemma {:induction false} BothToAll(users: seq<User>, p: Packet, q: Packet)
    ensures EachGetsBoth(ToAll(users, [p, q]), users, p, q)
    decreases |users|
  {
    if users != [] {
      BothToAll(users[1..], p, q);
      var all, rest := ToAll(users, [p, q]), ToAll(users[1..], [p, q]);
      assert all == [Send(users[0], p), Send(users[0], q)] + rest;
      forall i | 0 <= i < |users|
        ensures all[2 * i] == Send(users[i], p) && all[2 * i + 1] == Send(users[i], q)
      {
        if i > 0 {
          assert rest[2 * (i - 1)] == Send(users[1..][i - 1], p) && rest[2 * (i - 1) + 1] == Send(users[1..][i - 1], q);
          assert all[2 * i] == rest[2 * i - 2] && all[2 * i + 1] == rest[2 * i - 1];
        }
      }
    }
  }

  // ---------- a new room ----------

  /** Empty, nothing pending, no game, and a capacity between 2 and 200. */
  lemma {:induction false} NewRoomIs(name: seq<byte>, maxUsers: int)
    ensures var l := NewLobby(name, maxUsers);
      && l.name == name && l.users == []
      && l.maxUsers == (if maxUsers < 2 then 2 else if maxUsers > 200 then 200 else maxUsers)
      && l.table == Table(None, None, 255, 255, 255, false, l.table.chess) && l.table.chess.cursor == 0
      && forall r, c :: 0 <= r < 15 && 0 <= c < 15 ==> l.table.chess.board[r][c] == 255
  {
    BlankIsEmpty();
  }

  lemma {:induction false} BlankIsEmpty()
    ensures forall r, c :: 0 <= r < 15 && 0 <= c < 15 ==> Blank()[r][c] == 255
  {
    forall r, c | 0 <= r < 15 && 0 <= c < 15
      ensures Blank()[r][c] == 255
    {
      assert At(Blank(), Cell(r, c)) == SPACE;
    }
  }

  // ---------- ready ----------

  /** A game that goes on, on an empty board. */
  predicate JustStarted(t: Table) {
    && t.isPlaying && t.readyColor == 255 && t.chess.cursor == 0
    && forall r, c :: 0 <= r < 15 && 0 <= c < 15 ==> t.chess.board[r][c] == 255
  }

  /** Seats and the requests for a regret or a tie are as before. */
  predicate SameSeats(t: Table, t': Table) {
    t'.black == t.black && t'.white == t.white && t'.regretColor == t.regretColor && t'.tieColor == t.tieColor
  }

  /** A player's ready waits as its colour, unless the other colour waits: then the game starts on
      an empty board and everyone is told the black player's name. Nobody else's does anything. */
  lemma {:induction false} ReadyEffect(l: Lobby, u: User)
    requires Admissible(l)
    ensures var e, t := PlayerReady(u), l.table;
      var l', sends := After(l, e), Sends(l, e);
      var mine, others := if t.black == Some(u) then 0 else 1, if t.black == Some(u) then 1 else 0;
      && l' == l.(table := l'.table) && SameSeats(t, l'.table)
      && (Succeeds(l, e) <==> t.black == Some(u) || t.white == Some(u))
      && (!Succeeds(l, e) ==> l'.table == t && sends == [])
      && (Succeeds(l, e) && t.readyColor != others ==>
            l'.table == t.(readyColor := mine) && EachGets(sends, l.users, Packet(6, [mine])))
      && (Succeeds(l, e) && t.readyColor == others ==>
            && JustStarted(l'.table) && t.black.Some?
            && EachGets(sends, l.users, Packet(7, [|t.black.value.name|] + t.black.value.name)))
  {
    var t := l.table;
    NothingToNobody(l.users);
    if IsPlayer(t, u) {
      StartedBoard(t, u);
      OneToAll(l.users, ReadyPackets(t, u)[0]);
    }
  }

  lemma {:induction false} StartedBoard(t: Table, u: User)
    requires Sound(t) && IsPlayer(t, u)
    ensures Completes(t, u) ==> JustStarted(AfterReady(t, u)) && SameSeats(t, AfterReady(t, u))
  {
    BlankIsEmpty();
  }

  // ---------- stones ----------

  /** The number is the next one, the sender the player whose turn it is (the white seat begins),
      and the cell empty. */
  predicate MayPlace(t: Table, u: User, number: int, coor: byte) {
    && t.isPlaying && number == t.chess.cursor
    && Some(u) == (if t.chess.cursor % 2 == 0 then t.white else t.black)
    && Has(t.chess.board, coor % 16, coor / 16, 255)
  }

  lemma {:induction false} PlaysIff(t: Table, u: User, data: seq<byte>)
    requires Sound(t)
    ensures Plays(t, u, data) <==> |data| >= 2 && MayPlace(t, u, data[0], data[1])
  {
  }

  /** The two players are never out of turn for good: while a game goes on and a cell is empty,
      one of them, and only that one, may place a stone there. */
  lemma {:induction false} SomebodyMayPlace(t: Table, coor: byte)
    requires Sound(t) && t.isPlaying && Has(t.chess.board, coor % 16, coor / 16, 255)
    ensures t.chess.cursor < 225
    ensures exists u ::
      Plays(t, u, [t.chess.cursor, coor]) && forall v :: Plays(t, v, [t.chess.cursor, coor]) ==> v == u
  {
    EmptyCellMeansRoomInLog(t.chess, coor);
    var mover := if t.chess.cursor % 2 == 0 then t.white else t.black;
    assert Plays(t, mover.value, [t.chess.cursor, coor]);
  }

  /** A stone by the player whose turn it is, under the next number, on an empty cell, fills that
      cell with the colour of its number; everyone is told the cell, and, exactly when a line of
      five runs through it, the winner's colour. Any other stone does nothing at all; it is an error unless
      only its number or cell is wrong. */
  lemma {:induction false} StoneEffect(l: Lobby, u: User, data: seq<byte>)
    requires Admissible(l)
    ensures var e, t := PlayerStone(u, data), l.table;
      var l', sends := After(l, e), Sends(l, e);
      (Succeeds(l, e) <==>
         |data| >= 2 && t.isPlaying && Some(u) == if t.chess.cursor % 2 == 0 then t.white else t.black) &&
      if |data| >= 2 && MayPlace(t, u, data[0], data[1]) then
        var s, s', r, c := t.chess, l'.table.chess, data[1] % 16, data[1] / 16;
        && l' == l.(table := t.(chess := s')) && s.cursor < 225
        && s'.cursor == s.cursor + 1 && s'.record == s.record[s.cursor := data[1]] && s'.board[r][c] == s.cursor % 2
        && (forall y, x :: 0 <= y < 15 && 0 <= x < 15 && (y != r || x != c) ==> s'.board[y][x] == s.board[y][x])
        && (if LineThrough(s'.board, r, c) then
              EachGetsBoth(sends, l.users, Packet(8, [data[1]]), Packet(13, [s.cursor % 2]))
            else EachGets(sends, l.users, Packet(8, [data[1]])))
      else l' == l && sends == []
  {
    PlaysIff(l.table, u, data);
    NothingToNobody(l.users);
    if Plays(l.table, u, data) {
      var s := l.table.chess;
      StoneLands(s, data[0], data[1]);
      WinsIsLine(PlaceStone(s, data[0], data[1]));
      StoneSends(l, u, data);
    }
  }

  lemma {:induction false} StoneSends(l: Lobby, u: User, data: seq<byte>)
    requires Admissible(l) && Plays(l.table, u, data)
    ensures var sends := Sends(l, PlayerStone(u, data));
      if Wins(PlaceStone(l.table.chess, data[0], data[1])) then
        EachGetsBoth(sends, l.users, Packet(8, [data[1]]), Packet(13, [l.table.chess.cursor % 2]))
      else EachGets(sends, l.users, Packet(8, [data[1]]))
  {
    var stone, over := Packet(8, [data[1]]), Packet(13, [l.table.chess.cursor % 2]);
    assert [stone] + [over] == [stone, over] && [stone] + [] == [stone];
    OneToAll(l.users, stone);
    BothToAll(l.users, stone, over);
  }

  // ---------- requests and leaving ----------

  /** The first player to ask is noted by its colour; nothing is sent. */
  lemma {:induction false} RegretEffect(l: Lobby, u: User)
    requires Admissible(l)
    ensures var l', t := After(l, PlayerRegret(u)), l.table;
      && Sends(l, PlayerRegret(u)) == [] && !Succeeds(l, PlayerRegret(u)) && l' == l.(table := l'.table)
      && l'.table == t.(regretColor :=
           if t.regretColor != 255 then t.regretColor
           else if t.black == Some(u) then 0
           else if t.white == Some(u) then 1
           else 255)
  {
  }

  lemma {:induction false} TieEffect(t: Table, u: User)
    requires Sound(t)
    ensures AskTie(t, u) == t.(tieColor :=
      if t.tieColor != 255 then t.tieColor else if t.black == Some(u) then 0 else if t.white == Some(u) then 1 else 255)
  {
  }

  /** Only the opponent of the one who asked can answer; the request is dropped and the moves are
      taken back. */
  lemma {:induction false} ReplyEffect(t: Table, u: User)
    requires Sound(t)
    ensures var t' := ReplyRegret(t, u);
      if t.regretColor == 0 && t.white == Some(u) then t' == t.(regretColor := 255, chess := TakeBack(t.chess, 0))
      else if t.regretColor == 1 && t.black == Some(u) then t' == t.(regretColor := 255, chess := TakeBack(t.chess, 1))
      else t' == t
  {
  }

  /** A leaving player's seat is freed, exactly its own requests are dropped, and the game is
      over. The other seat, the other's requests and the board stay. */
  lemma {:induction false} SeatIsLeft(t: Table, u: User)
    requires Sound(t)
    ensures var t' := Tables.Leave(t, u);
      if t.black == Some(u) then
        && t' == t.(black := None, isPlaying := false, regretColor := t'.regretColor, tieColor := t'.tieColor,
                    readyColor := t'.readyColor)
        && t'.regretColor == (if t.regretColor == 0 then 255 else t.regretColor)
        && t'.tieColor == (if t.tieColor == 0 then 255 else t.tieColor)
        && t'.readyColor == (if t.readyColor == 0 then 255 else t.readyColor)
      else if t.white == Some(u) then
        && t' == t.(white := None, isPlaying := false, regretColor := t'.regretColor, tieColor := t'.tieColor,
                    readyColor := t'.readyColor)
        && t'.regretColor == (if t.regretColor == 1 then 255 else t.regretColor)
        && t'.tieColor == (if t.tieColor == 1 then 255 else t.tieColor)
        && t'.readyColor == (if t.readyColor == 1 then 255 else t.readyColor)
      else t' == t
  {
  }

  /** A player stays listed and anyone else is taken off the list, once, the others in their
      order; the leaver is sent the name of everyone who was listed. */
  lemma {:induction false} LeaveEffect(l: Lobby, u: User)
    requires Admissible(l)
    ensures var l', sends := After(l, LeaveRoom(u)), Sends(l, LeaveRoom(u));
      && l' == l.(table := Tables.Leave(l.table, u), users := l'.users)
      && (l.table.black == Some(u) || l.table.white == Some(u) || u !in l.users ==> l'.users == l.users)
      && (l.table.black != Some(u) && l.table.white != Some(u) && u in l.users ==>
            exists i :: 0 <= i < |l.users| && l.users[i] == u && u !in l.users[..i]
                        && l'.users == l.users[..i] + l.users[i + 1..])
      && |sends| == |l.users|
      && forall i :: 0 <= i < |l.users| ==>
           sends[i] == Send(u, Packet(5, [|l.users[i].name|] + l.users[i].name))
  {
    if u in l.users {
      var i := FirstIsDropped(l.users, u);
    } else {
      NobodyIsDropped(l.users, u);
    }
  }

  lemma {:induction false} FirstIsDropped(users: seq<User>, u: User) returns (i: nat)
    requires u in users
    ensures i < |users| && users[i] == u && u !in users[..i]
    ensures Without(users, u) == users[..i] + users[i + 1..]
    decreases |users|
  {
    if users[0] == u {
      i := 0;
      assert [] + users[1..] == users[1..];
    } else {
      var j := FirstIsDropped(users[1..], u);
      i := j + 1;
      OneInFront(users, j);
    }
  }

  lemma {:induction false} OneInFront(users: seq<User>, j: nat)
    requires j < |users| - 1
    ensures users[..j + 1] == [users[0]] + users[1..][..j]
    ensures [users[0]] + (users[1..][..j] + users[1..][j + 1..]) == users[..j + 1] + users[j + 2..]
  {
  }

  lemma {:induction false} NobodyIsDropped(users: seq<User>, u: User)
    requires u !in users
    ensures Without(users, u) == users
    decreases |users|
  {
    if users != [] {
      NobodyIsDropped(users[1..], u);
    }
  }

  // ---------- joining ----------

  function FilledSeats(t: Table): int {
    (if t.black.Some? then 1 else 0) + (if t.white.Some? then 1 else 0)
  }

  /** A player ('P') needs a seat, an onlooker ('O') one of the places besides the two seats. */
  predicate Admitted(l: Lobby, role: byte) {
    || (role == 0x50 && (l.table.black.None? || l.table.white.None?))
    || (role == 0x4F && |l.users| - FilledSeats(l.table) < l.maxUsers - 2)
  }

  /** The snapshot is the room: the seats by name, the pending colours, the moves in order. */
  lemma {:induction false} SnapshotShowsRoom(l: Lobby)
    requires Admissible(l)
    ensures var s, t := SnapshotOf(l), l.table;
      && s.name == l.name && s.maxUsers == l.maxUsers
      && s.black == (if t.black.Some? then t.black.value.name else [])
      && s.white == (if t.white.Some? then t.white.value.name else [])
      && s.ready == t.readyColor && s.playing == t.isPlaying && s.regret == t.regretColor && s.tie == t.tieColor
      && s.records == t.chess.record[..t.chess.cursor]
  {
  }

  /** Its onlookers are the names of the listed users without a seat, in their order. */
  lemma {:induction false} SnapshotNamesUnseated(t: Table, users: seq<User>, u: User)
    ensures OnlookerNames(t, []) == []
    ensures OnlookerNames(t, users + [u]) ==
      OnlookerNames(t, users) + if t.black == Some(u) || t.white == Some(u) then [] else [u.name]
    decreases |users|
  {
    if users == [] {
      assert [] + [u] == [u] && [u][1..] == [];
    } else {
      assert (users + [u])[1..] == users[1..] + [u];
      SnapshotNamesUnseated(t, users[1..], u);
      NamesRegroup(if IsPlayer(t, users[0]) then [] else [users[0].name], OnlookerNames(t, users[1..]),
                   if IsPlayer(t, u) then [] else [u.name]);
    }
  }

  lemma {:induction false} NamesRegroup(a: seq<seq<byte>>, b: seq<seq<byte>>, c: seq<seq<byte>>)
    ensures a + (b + c) == a + b + c
  {
  }

  /** An admitted user takes the first free seat, black before white, or none, and comes last in
      the list; any other changes nothing. */
  lemma {:induction false} JoinSeats(l: Lobby, u: User, role: byte)
    requires Possible(l, JoinRoom(u, role))
    ensures Admit(l, u, role).Some? <==> Admitted(l, role)
    ensures var l', t := After(l, JoinRoom(u, role)), l.table;
      if !Admitted(l, role) then l' == l
      else l' == l.(users := l.users + [u], table :=
        if role == 0x4F then t else if t.black.None? then t.(black := Some(u)) else t.(white := Some(u)))
  {
    SeatedCount(l.table);
  }

  /** Everyone listed before is told of an admitted join, each under its own name, and the joiner
      is sent the snapshot of the room as it is now if that fits; nothing else is sent. */
  lemma {:induction false} JoinSends(l: Lobby, u: User, role: byte)
    requires Possible(l, JoinRoom(u, role)) && u !in l.users
    ensures var e, n := JoinRoom(u, role), |l.users|;
      var sends, s := Sends(l, e), SnapshotOf(After(l, e));
      && (Succeeds(l, e) <==> Admitted(l, role) && AllShort(s) && |Framing.Flatten(SnapshotParts(s))| <= 65531)
      && (!Admitted(l, role) ==> sends == [])
      && (Admitted(l, role) ==>
            && |sends| == (if Succeeds(l, e) then n + 1 else n)
            && (forall i :: 0 <= i < n ==>
                  sends[i] == Send(l.users[i], Packet(4, [|l.users[i].name|] + l.users[i].name + [role]))))
      && (Succeeds(l, e) ==> sends[n] == Send(u, Packet(2, Framing.Flatten(SnapshotParts(s)))))
  {
    JoinSeats(l, u, role);
    var l' := After(l, JoinRoom(u, role));
    SnapshotLayout(SnapshotOf(l'));
    if Admitted(l, role) {
      OthersAreTold(l.users, u, role);
    }
  }

  lemma {:induction false} OthersAreTold(users: seq<User>, u: User, role: byte)
    requires u !in users
    ensures var sends := TellOthers(users + [u], u, role);
      && |sends| == |users|
      && forall i :: 0 <= i < |users| ==>
           sends[i] == Send(users[i], Packet(4, [|users[i].name|] + users[i].name + [role]))
    decreases |users|
  {
    if users == [] {
      assert [] + [u] == [u] && [u][1..] == [];
    } else {
      assert (users + [u])[1..] == users[1..] + [u];
      OthersAreTold(users[1..], u, role);
    }
  }

  // ---------- talking ----------

  /** A chat line goes to everyone listed, stamped and under the sender's name, if name and text
      have at most 65520 bytes, and to nobody otherwise; the room stays as it is. */
  lemma {:induction false} SayEffect(l: Lobby, u: User, text: seq<byte>, rest: seq<byte>, now: LongWord)
    requires Admissible(l) && |text| <= 65535
    ensures var e := Say(u, Two(|text|) + text + rest, now);
      && After(l, e) == l && Succeeds(l, e)
      && (if |u.name| + |text| <= 65520 then
            EachGets(Sends(l, e), l.users, Packet(14, Framing.Flatten(ChatParts(Chat(now, u.name, text)))))
          else Sends(l, e) == [])
  {
    var data := Two(|text|) + text + rest;
    LineLayout(data);
    assert data[2..2 + |text|] == text;
    assert LineOf(data) == Some(text);
    ChatBytes(u, text, now);
    NothingToNobody(l.users);
    if |u.name| + |text| <= 65520 {
      OneToAll(l.users, Packet(14, Framing.Flatten(ChatParts(Chat(now, u.name, text)))));
    }
  }

  lemma {:induction false} ChatBytes(u: User, text: seq<byte>, now: LongWord)
    requires |text| <= 65535
    ensures MessagePackets(u.name, text, now) ==
      if |u.name| + |text| <= 65520 then [Packet(14, Framing.Flatten(ChatParts(Chat(now, u.name, text))))] else []
  {
    CapacityOfWords();
    var c := Chat(now, u.name, text);
    EncodesIffFits(CHAT, ChatValues(c));
    assert forall i :: 0 <= i < |CHAT| ==> FieldFits(CHAT[i], ChatValues(c)[i]);
    ChatLayout(c);
    ChatPartsSize(c);
  }

  lemma {:induction false} ChatPartsSize(c: Chat)
    requires |c.username| <= 255
    ensures |Framing.Flatten(ChatParts(c))| == 11 + |c.username| + |c.text|
  {
    var parts := ChatParts(c);
    var last := [parts[2]];
    assert parts[1..][1..] == last && last[1..] == [] && Framing.Flatten(last[1..]) == [];
    assert Framing.Flatten(last) == parts[2] + [];
    assert Framing.Flatten(parts[1..]) == parts[1] + Framing.Flatten(last);
  }

  /** A message that is no chat line is not passed on. */
  lemma {:induction false} NoLineEffect(l: Lobby, u: User, data: seq<byte>, now: LongWord)
    requires Admissible(l) && (|data| < 2 || |data| < 2 + data[0] as int + 256 * (data[1] as int))
    ensures After(l, Say(u, data, now)) == l && Sends(l, Say(u, data, now)) == [] && !Succeeds(l, Say(u, data, now))
  {
    LineLayout(data);
    NothingToNobody(l.users);
  }

  /** A question is answered to the asker alone, with the statistics of the first listed user of
      the name that follows the length byte; without such a user, not at all. */
  lemma {:induction false} AskEffect(l: Lobby, u: User, data: seq<byte>)
    requires Admissible(l)
    ensures var e := AskInfo(u, data);
      && After(l, e) == l
      && (Succeeds(l, e) <==> data == [] || |data| >= 1 + data[0] as int)
      && (!Succeeds(l, e) ==> Sends(l, e) == [])
      && (Succeeds(l, e) ==>
            var name := if data == [] then [] else data[1..1 + data[0]];
            && ((forall v :: v in l.users ==> v.name != name) ==> Sends(l, e) == [])
            && forall i :: 0 <= i < |l.users| && IsFirstNamed(l.users, name, i) ==>
                 Sends(l, e) == [Send(u, Packet(3, InfoBytes(l.users[i])))])
  {
    NameIsRead(data);
    if Succeeds(l, AskInfo(u, data)) {
      var name := if data == [] then [] else data[1..1 + data[0]];
      FirstNamedIs(l.users, name);
    }
  }

  predicate IsFirstNamed(users: seq<User>, name: seq<byte>, i: nat)
    requires i < |users|
  {
    users[i].name == name && forall j :: 0 <= j < i ==> users[j].name != name
  }

  function InfoBytes(u: User): seq<byte> {
    Text8(u.name) + Four(u.stats.wins) + Four(u.stats.ties) + Four(u.stats.losses) + Four(u.stats.matches)
    + Eight(u.stats.duration)
  }

  lemma {:induction false} FirstNamedIs(users: seq<User>, name: seq<byte>)
    ensures FirstNamed(users, name).None? <==> forall v :: v in users ==> v.name != name
    ensures forall i :: 0 <= i < |users| && IsFirstNamed(users, name, i) ==> FirstNamed(users, name) == Some(users[i])
    ensures forall v :: PutUserInfo(InfoOf(v)) == InfoBytes(v)
    decreases |users|
  {
    forall v
      ensures PutUserInfo(InfoOf(v)) == InfoBytes(v)
    {
      UserInfoLayout(InfoOf(v));
    }
    if users != [] && users[0].name != name {
      FirstNamedIs(users[1..], name);
      forall i | 0 <= i < |users| && IsFirstNamed(users, name, i)
        ensures FirstNamed(users, name) == Some(users[i])
      {
        assert IsFirstNamed(users[1..], name, i - 1);
      }
      assert forall v :: v in users <==> v == users[0] || v in users[1..];
    }
  }
}
