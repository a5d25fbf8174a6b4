/** The client's room as the object its packet handlers update, tied to `ClientViews`. */
module ClientRoom {
  import opened Bytes
  import opened Messages
  import opened Chess
  import opened Lobby
  import opened ClientViews
  import opened ClientSerializer

  class Room {
    var name: seq<byte>
    var maxUsers: byte
    var black: seq<byte>
    var white: seq<byte>
    var onlookers: seq<seq<byte>>
    var isPlaying: bool
    var ready: byte
    var regret: byte
    var tie: byte
    const board: array2<byte>
    var records: seq<byte>

    ghost predicate Valid() {
      board.Length0 == board.Length1 == SIZE
    }

    ghost function BoardView(): Grid
      requires Valid()
      reads board
    {
      seq(SIZE, r requires 0 <= r < SIZE reads board =>
        seq(SIZE, c requires 0 <= c < SIZE reads board => board[r, c]))
    }

    ghost function Info(): Snapshot
      reads this
    {
      Snapshot(name, maxUsers, black, white, onlookers, ready, isPlaying, regret, tie, records)
    }

    ghost function CurrentView(): View
      requires Valid()
      reads this, board
    {
      View(Info(), BoardView())
    }

    constructor ()
      ensures Valid() && fresh(board) && records == []
    {
      name, maxUsers, black, white, onlookers := [], 0, [], [], [];
      isPlaying, ready, regret, tie, records := false, 0, 0, 0, [];
      board := new byte[SIZE, SIZE]((r, c) => if r == 0 && c == 0 then SPACE else 0);
    }

    method Role(username: seq<byte>) returns (color: byte)
      requires Valid()
      ensures color == RoleOf(Info(), username)
    {
      if username == black {
        return BLACK;
      }
      if username == white {
        return WHITE;
      }
      return SPACE;
    }

    method UserJoin(username: seq<byte>, role: byte)
      requires Valid()
      modifies this`black, this`white, this`onlookers
      ensures Info() == ClientViews.UserJoin(old(Info()), username, role)
    {
      if role == BLACK {
        black := username;
      } else if role == WHITE {
        white := username;
      } else {
        onlookers := onlookers + [username];
      }
    }

    method UserLeave(username: seq<byte>)
      requires Valid()
      modifies this`black, this`white, this`onlookers
      ensures Info() == ClientViews.UserLeave(old(Info()), username)
    {
      if black == username {
        black := [];
      } else if white == username {
        white := [];
      } else {
        DropOnlooker(username);
      }
    }

    method DropOnlooker(username: seq<byte>)
      modifies this`onlookers
      ensures onlookers == DropName(old(onlookers), username)
    {
      var i := 0;
      while i < |onlookers|
        invariant 0 <= i <= |onlookers| && onlookers == old(onlookers)
        invariant DropName(onlookers, username) == onlookers[..i] + DropName(onlookers[i..], username)
      {
        assert onlookers[i..][1..] == onlookers[i + 1..];
        if onlookers[i] == username {
          onlookers := onlookers[..i] + onlookers[i + 1..];
          return;
        }
        i := i + 1;
      }
    }

    method Stone(coor: byte)
      requires Valid() && OnBoard(ParseCoor(coor))
      modifies this`records, board
      ensures CurrentView() == AddStone(old(CurrentView()), coor)
    {
      var r, c := coor / 16, coor % 16;
      board[r, c] := |records| % 2;
      SameCellsSameGrid(BoardView(), Put(old(BoardView()), Cell(r, c), |records| % 2));
      records := records + [coor];
    }

    method ClearBoard()
      requires Valid()
      modifies board
      ensures BoardView() == Blank()
    {
      for i := 0 to SIZE
        modifies board
        invariant forall r, c :: 0 <= r < i && 0 <= c < SIZE ==> board[r, c] == SPACE
      {
        for j := 0 to SIZE
          modifies board
          invariant forall r, c :: 0 <= r < i && 0 <= c < SIZE ==> board[r, c] == SPACE
          invariant forall c :: 0 <= c < j ==> board[i, c] == SPACE
        {
          board[i, j] := SPACE;
        }
      }
      SameCellsSameGrid(BoardView(), Blank());
    }

    method SetBoardByRecords()
      requires Valid() && OnBoardAll(records)
      modifies board
      ensures BoardView() == BoardByRecords(records)
    {
      ClearBoard();
      for i := 0 to |records|
        modifies board
        invariant BoardView() == Painted(records[..i], |records| % 2)
      {
        ghost var before := BoardView();
        var r, c := records[i] / 16, records[i] % 16;
        assert OnBoard(ParseCoor(records[i]));
        board[r, c] := |records| % 2;
        SameCellsSameGrid(BoardView(), Put(before, Cell(r, c), |records| % 2));
        assert records[..i + 1][..i] == records[..i];
      }
      assert records[..|records|] == records;
    }

    method ReceiveYouJoinRoom(data: seq<byte>) returns (ok: bool)
      requires Valid() && Safe(Packet(C_YOU_JOIN_ROOM, data))
      modifies this, board
      ensures match OnYouJoin(old(CurrentView()), data)
        case None => !ok
        case Some(v) => ok && CurrentView() == v
    {
      var reply := ClientSerializer.ReceiveYouJoinRoom(data);
      if reply.None? {
        return false;
      }
      if reply.value.Refused? {
        return true;
      }
      Fill(reply.value.room);
      SetBoardByRecords();
      return true;
    }

    method Fill(room: Snapshot)
      requires Valid()
      modifies this
      ensures Info() == room
    {
      name, maxUsers, black, white, onlookers := room.name, room.maxUsers, room.black, room.white, room.onlookers;
      ready, isPlaying, regret, tie, records := room.ready, room.playing, room.regret, room.tie, room.records;
    }

    method ReceiveOtherJoinRoom(data: seq<byte>) returns (ok: bool)
      requires Valid()
      modifies this
      ensures match OnOtherJoin(old(CurrentView()), data)
        case None => !ok
        case Some(v) => ok && CurrentView() == v
    {
      var s := new Serializer(data);
      assert s.Rest() == data;
      var username := s.ReadBytes();
      if username.None? {
        return false;
      }
      var role := s.ReadByte();
      if role.None? {
        return false;
      }
      UserJoin(username.value, role.value);
      return true;
    }

    method ReceiveLeaveRoom(data: seq<byte>) returns (ok: bool)
      requires Valid()
      modifies this
      ensures match OnUserLeave(old(CurrentView()), data)
        case None => !ok
        case Some(v) => ok && CurrentView() == v
    {
      var s := new Serializer(data);
      assert s.Rest() == data;
      var username := s.ReadBytes();
      if username.None? {
        return false;
      }
      UserLeave(username.value);
      return true;
    }

    method ReceivePlayerReady(data: seq<byte>) returns (ok: bool)
      requires Valid()
      modifies this
      ensures match OnPlayerReady(old(CurrentView()), data)
        case None => !ok
        case Some(v) => ok && CurrentView() == v
    {
      var s := new Serializer(data);
      assert s.Rest() == data;
      var color := s.ReadByte();
      if color.None? {
        return false;
      }
      ready := color.value;
      return true;
    }

    method ReceiveGameStart(data: seq<byte>) returns (ok: bool)
      requires Valid()
      modifies this
      ensures match OnGameStart(old(CurrentView()), data)
        case None => !ok
        case Some(v) => ok && CurrentView() == v
    {
      var s := new Serializer(data);
      assert s.Rest() == data;
      var blackPlayer := s.ReadBytes();
      if blackPlayer.None? {
        return false;
      }
      if black != blackPlayer.value {
        black, white := white, black;
      }
      isPlaying := true;
      return true;
    }

    method ReceivePlayerStone(data: seq<byte>) returns (ok: bool)
      requires Valid() && Safe(Packet(C_STONE, data))
      modifies this`records, board
      ensures match OnStone(old(CurrentView()), data)
        case None => !ok
        case Some(v) => ok && CurrentView() == v
    {
      var s := new Serializer(data);
      assert s.Rest() == data;
      var coor := s.ReadByte();
      if coor.None? {
        return false;
      }
      Stone(coor.value);
      return true;
    }

    method ReceiveGameOver(data: seq<byte>) returns (ok: bool)
      requires Valid()
      modifies this
      ensures match OnGameOver(old(CurrentView()), data)
        case None => !ok
        case Some(v) => ok && CurrentView() == v
    {
      var s := new Serializer(data);
      assert s.Rest() == data;
      var winner := s.ReadByte();
      if winner.None? {
        return false;
      }
      var surrender := s.ReadBool();
      if surrender.None? {
        return false;
      }
      return true;
    }

    method ReceiveFatalError(data: seq<byte>) returns (ok: bool)
      requires Valid()
      modifies this
      ensures match OnFatalError(old(CurrentView()), data)
        case None => !ok
        case Some(v) => ok && CurrentView() == v
    {
      var s := new Serializer(data);
      assert s.Rest() == data;
      var id := s.ReadU32();
      if id.None? {
        return false;
      }
      var detail := s.ReadBytes();
      if detail.None? {
        return false;
      }
      return true;
    }

    method ReceivePublicKey(data: seq<byte>) returns (ok: bool)
      requires Valid()
      modifies this
      ensures match OnPublicKey(old(CurrentView()), data)
        case None => !ok
        case Some(v) => ok && CurrentView() == v
    {
      var s := new Serializer(data);
      assert s.Rest() == data;
      var key := s.ReadBytes();
      if key.None? {
        return false;
      }
      var id := s.ReadBytes();
      if id.None? {
        return false;
      }
      return true;
    }

    method ReceiveUserInfo(data: seq<byte>) returns (ok: bool)
      requires Valid()
      modifies this
      ensures match OnUserInfo(old(CurrentView()), data)
        case None => !ok
        case Some(v) => ok && CurrentView() == v
    {
      var s := new Serializer(data);
      assert s.Rest() == data;
      var username := s.ReadBytes();
      if username.None? {
        return false;
      }
      var wins := s.ReadU32();
      if wins.None? {
        return false;
      }
      var ties := s.ReadU32();
      if ties.None? {
        return false;
      }
      var losses := s.ReadU32();
      if losses.None? {
        return false;
      }
      var matches := s.ReadU32();
      if matches.None? {
        return false;
      }
      var duration := s.ReadU32();
      if duration.None? {
        return false;
      }
      return true;
    }

    method ReceivePlayerRegret(data: seq<byte>) returns (ok: bool)
      requires Valid()
      modifies this
      ensures match OnRegret(old(CurrentView()), data)
        case None => !ok
        case Some(v) => ok && CurrentView() == v
    {
      var s := new Serializer(data);
      assert s.Rest() == data;
      var color := s.ReadByte();
      if color.None? {
        return false;
      }
      regret := color.value;
      return true;
    }

    method ReceivePlayerTie(data: seq<byte>) returns (ok: bool)
      requires Valid()
      modifies this
      ensures match OnTie(old(CurrentView()), data)
        case None => !ok
        case Some(v) => ok && CurrentView() == v
    {
      var s := new Serializer(data);
      assert s.Rest() == data;
      var color := s.ReadByte();
      if color.None? {
        return false;
      }
      tie := color.value;
      return true;
    }

    /** Both answers, to a regret and to a tie, are read alike. */
    method ReceiveAgree(data: seq<byte>) returns (ok: bool)
      requires Valid()
      modifies this
      ensures match OnAgree(old(CurrentView()), data)
        case None => !ok
        case Some(v) => ok && CurrentView() == v
    {
      var s := new Serializer(data);
      assert s.Rest() == data;
      var agree := s.ReadBool();
      if agree.None? {
        return false;
      }
      return true;
    }

    /** Dispatch of one received packet; not ok when the handler throws. */
    method Receive(p: Packet) returns (ok: bool)
      requires Valid() && Safe(p)
      modifies this, board
      ensures match Apply(old(CurrentView()), p)
        case None => !ok
        case Some(v) => ok && CurrentView() == v
    {
      if p.instruction == C_YOU_JOIN_ROOM {
        ok := ReceiveYouJoinRoom(p.data);
      } else if p.instruction == C_OTHER_JOIN_ROOM {
        ok := ReceiveOtherJoinRoom(p.data);
      } else if p.instruction == C_USER_LEAVE_ROOM {
        ok := ReceiveLeaveRoom(p.data);
      } else if p.instruction == C_PLAYER_READY {
        ok := ReceivePlayerReady(p.data);
      } else if p.instruction == C_GAME_START {
        ok := ReceiveGameStart(p.data);
      } else if p.instruction == C_STONE {
        ok := ReceivePlayerStone(p.data);
      } else if p.instruction == C_GAME_OVER {
        ok := ReceiveGameOver(p.data);
      } else {
        ok := ReceiveOther(p);
      }
    }

    /** The messages that are no part of a room's life on the server as it is. */
    method ReceiveOther(p: Packet) returns (ok: bool)
      requires Valid() && Safe(p)
      requires p.instruction !in {C_YOU_JOIN_ROOM, C_OTHER_JOIN_ROOM, C_USER_LEAVE_ROOM, C_PLAYER_READY, C_GAME_START,
                                  C_STONE, C_GAME_OVER}
      modifies this, board
      ensures match Apply(old(CurrentView()), p)
        case None => !ok
        case Some(v) => ok && CurrentView() == v
    {
      if p.instruction == C_FATAL_ERROR {
        ok := ReceiveFatalError(p.data);
      } else if p.instruction == C_PUBLIC_KEY {
        ok := ReceivePublicKey(p.data);
      } else if p.instruction == C_USER_INFO {
        ok := ReceiveUserInfo(p.data);
      } else if p.instruction == C_REGRET {
        ok := ReceivePlayerRegret(p.data);
      } else if p.instruction == C_TIE {
        ok := ReceivePlayerTie(p.data);
      } else if p.instruction == C_AGREE_REGRET || p.instruction == C_AGREE_TIE {
        ok := ReceiveAgree(p.data);
      } else if p.instruction == C_MESSAGE {
        var chat := ClientSerializer.ReceiveMessage(p.data);
        ok := chat.Some?;
      } else {
        ok := true;
      }
    }
  }
}
