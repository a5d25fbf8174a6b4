/** The client's copy of a room, as values: what each packet from the server does to it. */
module ClientViews {
  import opened Bytes
  import opened Codec
  import opened Messages
  import opened Chess
  import opened Tables
  import opened Lobby
  import opened UserInfos

  const C_FATAL_ERROR := 0
  const C_PUBLIC_KEY := 1
  const C_REGRET := 9
  const C_AGREE_REGRET := 10
  const C_TIE := 11
  const C_AGREE_TIE := 12

  /** The fields that came with the join snapshot and are updated since, and the board. */
  datatype View = View(info: Snapshot, board: Grid)

  /** On the client the row is the high nibble. */
  function ClientCell(coor: byte): Cell {
    Swap(ParseCoor(coor))
  }

  predicate OnBoardAll(records: seq<byte>) {
    forall i :: 0 <= i < |records| ==> OnBoard(ParseCoor(records[i]))
  }

  function AddStone(v: View, coor: byte): View
    requires OnBoard(ParseCoor(coor))
  {
    View(v.info.(records := v.info.records + [coor]), Put(v.board, ClientCell(coor), |v.info.records| % 2))
  }

  /** Every recorded cell in one and the same colour. */
  function Painted(records: seq<byte>, color: byte): (g: Grid)
    requires OnBoardAll(records)
  {
    if records == [] then Blank()
    else
      var last := |records| - 1;
      Put(Painted(records[..last], color), ClientCell(records[last]), color)
  }

  /** The board rebuilt from a snapshot's records: the colour is the parity of their number. */
  function BoardByRecords(records: seq<byte>): Grid
    requires OnBoardAll(records)
  {
    Painted(records, |records| % 2)
  }

  function UserJoin(s: Snapshot, name: seq<byte>, role: byte): Snapshot {
    if role == BLACK then s.(black := name)
    else if role == WHITE then s.(white := name)
    else s.(onlookers := s.onlookers + [name])
  }

  function DropName(names: seq<seq<byte>>, name: seq<byte>): seq<seq<byte>> {
    if names == [] then []
    else if names[0] == name then names[1..]
    else [names[0]] + DropName(names[1..], name)
  }

  function UserLeave(s: Snapshot, name: seq<byte>): Snapshot {
    if s.black == name then s.(black := [])
    else if s.white == name then s.(white := [])
    else s.(onlookers := DropName(s.onlookers, name))
  }

  function StartGame(s: Snapshot, blackName: seq<byte>): Snapshot {
    var s' := if s.black != blackName then s.(black := s.white, white := s.black) else s;
    s'.(playing := true)
  }

  // ---------- packets ----------

  /** Coordinates index the board array unchecked, so a packet must not carry a bad one. */
  predicate Safe(p: Packet) {
    && (p.instruction == C_STONE && p.data != [] ==> OnBoard(ParseCoor(p.data[0])))
    && (p.instruction == C_YOU_JOIN_ROOM ==>
          match TakeJoinReply(p.data)
          case Some(Joined(s)) => OnBoardAll(s.records)
          case _ => true)
  }

  function OnYouJoin(v: View, data: seq<byte>): Option<View>
    requires Safe(Packet(C_YOU_JOIN_ROOM, data))
  {
    var reply :- TakeJoinReply(data);
    match reply
    case Refused => Some(v)
    case Joined(s) => Some(View(s, BoardByRecords(s.records)))
  }

  function OnOtherJoin(v: View, data: seq<byte>): Option<View> {
    var name :- DecodeBlob("1", data);
    var role :- TakeByte(name.rest);
    Some(v.(info := UserJoin(v.info, name.part, role.part)))
  }

  function OnUserLeave(v: View, data: seq<byte>): Option<View> {
    var name :- DecodeBlob("1", data);
    Some(v.(info := UserLeave(v.info, name.part)))
  }

  function OnPlayerReady(v: View, data: seq<byte>): Option<View> {
    var color :- TakeByte(data);
    Some(v.(info := v.info.(ready := color.part)))
  }

  function OnGameStart(v: View, data: seq<byte>): Option<View> {
    var name :- DecodeBlob("1", data);
    Some(v.(info := StartGame(v.info, name.part)))
  }

  function OnStone(v: View, data: seq<byte>): Option<View>
    requires Safe(Packet(C_STONE, data))
  {
    var coor :- TakeByte(data);
    Some(AddStone(v, coor.part))
  }

  /** The handler reads a winner and a flag; the server sends only the winner. */
  function OnGameOver(v: View, data: seq<byte>): Option<View> {
    var winner :- TakeByte(data);
    var surrender :- TakeBool(winner.rest);
    Some(v)
  }

  function OnFatalError(v: View, data: seq<byte>): Option<View> {
    var id :- DecodeNum(4, data);
    var detail :- DecodeBlob("1", id.rest);
    Some(v)
  }

  /** The key and the server's id are read; encrypting and answering leave the room alone. */
  function OnPublicKey(v: View, data: seq<byte>): Option<View> {
    var key :- DecodeBlob("1", data);
    var id :- DecodeBlob("1", key.rest);
    Some(v)
  }

  /** A username and five numbers, which go to the list of users. */
  function OnUserInfo(v: View, data: seq<byte>): Option<View> {
    var user :- TakeUserInfo(data);
    Some(v)
  }

  function OnRegret(v: View, data: seq<byte>): Option<View> {
    var color :- TakeByte(data);
    Some(v.(info := v.info.(regret := color.part)))
  }

  function OnTie(v: View, data: seq<byte>): Option<View> {
    var color :- TakeByte(data);
    Some(v.(info := v.info.(tie := color.part)))
  }

  /** The answer to a request is signalled, not kept. */
  function OnAgree(v: View, data: seq<byte>): Option<View> {
    var agree :- TakeBool(data);
    Some(v)
  }

  /** A chat message goes to the list of messages. */
  function OnMessage(v: View, data: seq<byte>): Option<View> {
    var chat :- TakeChat(data);
    Some(v)
  }

  /** The view after a packet's handler, or nothing if it threw. */
  function Apply(v: View, p: Packet): (r: Option<View>)
    requires Safe(p)
  {
    if p.instruction == C_YOU_JOIN_ROOM then OnYouJoin(v, p.data)
    else if p.instruction == C_OTHER_JOIN_ROOM then OnOtherJoin(v, p.data)
    else if p.instruction == C_USER_LEAVE_ROOM then OnUserLeave(v, p.data)
    else if p.instruction == C_PLAYER_READY then OnPlayerReady(v, p.data)
    else if p.instruction == C_GAME_START then OnGameStart(v, p.data)
    else if p.instruction == C_STONE then OnStone(v, p.data)
    else if p.instruction == C_GAME_OVER then OnGameOver(v, p.data)
    else if p.instruction == C_FATAL_ERROR then OnFatalError(v, p.data)
    else if p.instruction == C_PUBLIC_KEY then OnPublicKey(v, p.data)
    else if p.instruction == C_USER_INFO then OnUserInfo(v, p.data)
    else if p.instruction == C_REGRET then OnRegret(v, p.data)
    else if p.instruction == C_TIE then OnTie(v, p.data)
    else if p.instruction == C_AGREE_REGRET || p.instruction == C_AGREE_TIE then OnAgree(v, p.data)
    else if p.instruction == C_MESSAGE then OnMessage(v, p.data)
    else Some(v)
  }

  /** A handler that throws ends the connection; packets after that are not received. */
  function Deliver(c: Option<View>, ps: seq<Packet>): Option<View>
    requires forall i :: 0 <= i < |ps| ==> Safe(ps[i])
    decreases |ps|
  {
    if c.None? || ps == [] then c else Deliver(Apply(c.value, ps[0]), ps[1..])
  }

  // ---------- the boards ----------

  /** The colour the client gives record `i` when it joined at a log of `joined` records: one
      colour for all of the snapshot, the parity of the move for every stone since. */
  function ColourOfRecord(i: nat, joined: nat): byte {
    if i < joined then joined % 2 else i % 2
  }

  function Coloured(records: seq<byte>, joined: nat): (g: Grid)
    requires OnBoardAll(records)
  {
    if records == [] then Blank()
    else
      var last := |records| - 1;
      Put(Coloured(records[..last], joined), ClientCell(records[last]), ColourOfRecord(last, joined))
  }

  /** The board rebuilt from a snapshot is coloured for a join at that moment. */
  lemma {:induction false} RebuiltIsColoured(records: seq<byte>)
    requires OnBoardAll(records)
    ensures BoardByRecords(records) == Coloured(records, |records|)
  {
    PaintedIsColoured(records, |records|);
  }

  lemma {:induction false} PaintedIsColoured(records: seq<byte>, joined: nat)
    requires OnBoardAll(records) && |records| <= joined
    ensures Painted(records, joined % 2) == Coloured(records, joined)
    decreases |records|
  {
    if records != [] {
      PaintedIsColoured(records[..|records| - 1], joined);
    }
  }

  /** A stone added to a coloured board keeps it coloured. */
  lemma {:induction false} StoneKeepsColours(v: View, joined: nat, coor: byte)
    requires OnBoardAll(v.info.records) && v.board == Coloured(v.info.records, joined) && OnBoard(ParseCoor(coor))
    requires joined <= |v.info.records|
    ensures AddStone(v, coor).board == Coloured(v.info.records + [coor], joined)
  {
    var records' := v.info.records + [coor];
    assert records'[..|records'| - 1] == v.info.records;
  }

  /** Record `i` is the last one for cell `p`. */
  predicate LastFor(records: seq<byte>, p: Cell, i: int) {
    0 <= i < |records| && ClientCell(records[i]) == p && forall j :: i < j < |records| ==> ClientCell(records[j]) != p
  }

  /** The last record of a cell colours it; a cell without a record is empty. */
  lemma {:induction false} ColouredCells(records: seq<byte>, joined: nat, p: Cell)
    requires OnBoardAll(records) && OnBoard(p)
    ensures At(Coloured(records, joined), p) == SPACE <==>
      forall i :: 0 <= i < |records| ==> ClientCell(records[i]) != p
    ensures forall i :: LastFor(records, p, i) ==> At(Coloured(records, joined), p) == ColourOfRecord(i, joined)
    decreases |records|
  {
    if records != [] {
      var last := |records| - 1;
      ColouredCells(records[..last], joined, p);
      assert forall i :: 0 <= i < last ==> records[..last][i] == records[i];
      forall i | LastFor(records, p, i)
        ensures At(Coloured(records, joined), p) == ColourOfRecord(i, joined)
      {
        if i < last { assert LastFor(records[..last], p, i); }
      }
    }
  }

  lemma {:induction false} LogColours(log: seq<byte>, joined: nat, i: nat)
    requires ValidLog(log) && i < |log|
    ensures At(Coloured(log, joined), ClientCell(log[i])) == ColourOfRecord(i, joined)
  {
    forall j | i < j < |log|
      ensures ClientCell(log[j]) != ClientCell(log[i])
    {
      if ClientCell(log[j]) == ClientCell(log[i]) { ParseCoorInjective(log[i], log[j]); }
    }
    ColouredCells(log, joined, ClientCell(log[i]));
    assert LastFor(log, ClientCell(log[i]), i);
  }

  lemma {:induction false} OneWrongCell(g: Grid, h: Grid, p: Cell)
    requires OnBoard(p) && At(g, Swap(p)) != At(h, p)
    ensures g != Transpose(h)
  {
    assert At(Transpose(h), Swap(p)) == At(h, p);
  }

  lemma {:induction false} UnpaintedIsTransposed(records: seq<byte>)
    requires OnBoardAll(records)
    ensures Coloured(records, 0) == Transpose(Replay(records))
    decreases |records|
  {
    if records == [] {
      SameCellsSameGrid(Blank(), Transpose(Blank()));
    } else {
      var last := |records| - 1;
      UnpaintedIsTransposed(records[..last]);
      var p := ParseCoor(records[last]);
      PutTransposed(Replay(records[..last]), p, last % 2);
    }
  }

  lemma {:induction false} PutTransposed(g: Grid, p: Cell, color: byte)
    requires OnBoard(p)
    ensures Put(Transpose(g), Swap(p), color) == Transpose(Put(g, p, color))
  {
    SameCellsSameGrid(Put(Transpose(g), Swap(p), color), Transpose(Put(g, p, color)));
  }

  /** A client whose records are the server's log has the server's board (rows and columns
      swapped) exactly when it joined at an empty log: else the last stone of its snapshot has
      the opponent's colour, whatever the game added since. */
  lemma {:induction false} ColouredIsRightIff(log: seq<byte>, joined: nat)
    requires ValidLog(log) && joined <= |log|
    ensures Coloured(log, joined) == Transpose(Replay(log)) <==> joined == 0
  {
    if joined == 0 {
      UnpaintedIsTransposed(log);
    } else {
      LogColours(log, joined, joined - 1);
      ReplayColoursTheLog(log, joined - 1);
      OneWrongCell(Coloured(log, joined), Replay(log), ParseCoor(log[joined - 1]));
    }
  }

  /** At the moment of the snapshot: right exactly when there are no records. */
  lemma {:induction false} RebuiltBoardIsRightIffEmpty(records: seq<byte>)
    requires ValidLog(records)
    ensures BoardByRecords(records) == Transpose(Replay(records)) <==> records == []
  {
    RebuiltIsColoured(records);
    ColouredIsRightIff(records, |records|);
  }

  // ---------- records of several games ----------

  predicate AllIn(records: seq<byte>, log: seq<byte>) {
    forall i :: 0 <= i < |records| ==> records[i] in log
  }

  lemma {:induction false} FrontOnBoard(front: seq<byte>, rest: seq<byte>)
    requires OnBoardAll(front + rest)
    ensures OnBoardAll(front)
  {
    forall i | 0 <= i < |front|
      ensures OnBoard(ParseCoor(front[i]))
    {
      assert (front + rest)[i] == front[i];
    }
  }

  /** When a client that joined at `joined` records has the right board, after it added the
      stones of a new game to those restarted over. */
  predicate Right(restarted: seq<byte>, log: seq<byte>, joined: nat) {
    if restarted == [] then joined == 0 else |restarted| % 2 == 0 && AllIn(restarted, log)
  }

  lemma {:induction false} ReplayOccupies(log: seq<byte>, p: Cell)
    requires ValidLog(log) && OnBoard(p)
    ensures At(Replay(log), p) == SPACE <==> forall i :: 0 <= i < |log| ==> ClientCell(log[i]) != Swap(p)
  {
    if i :| 0 <= i < |log| && ClientCell(log[i]) == Swap(p) {
      ReplayColoursTheLog(log, i);
    } else {
      forall i | 0 <= i < |log|
        ensures ParseCoor(log[i]) != p
      {
        assert ClientCell(log[i]) != Swap(p);
      }
      ReplayIsEmptyOffTheLog(log, p);
    }
  }

  /** The stones of the game going on cover those of earlier games. */
  lemma {:induction false} CurrentStoneShows(restarted: seq<byte>, log: seq<byte>, joined: nat, j: nat)
    requires OnBoardAll(restarted) && ValidLog(log) && OnBoardAll(restarted + log) && j < |log|
    ensures At(Coloured(restarted + log, joined), ClientCell(log[j])) == ColourOfRecord(|restarted| + j, joined)
  {
    var records, i := restarted + log, |restarted| + j;
    forall k | i < k < |records|
      ensures ClientCell(records[k]) != ClientCell(log[j])
    {
      assert records[k] == log[k - |restarted|];
      if ClientCell(records[k]) == ClientCell(log[j]) { ParseCoorInjective(log[j], log[k - |restarted|]); }
    }
    assert records[i] == log[j];
    assert LastFor(records, ClientCell(log[j]), i);
    ColouredCells(records, joined, ClientCell(log[j]));
  }

  /** A stone restarted over that does not lie on the server's board lies on the client's. */
  lemma {:induction false} LeftoverShows(restarted: seq<byte>, log: seq<byte>, joined: nat, i: nat)
    requires OnBoardAll(restarted) && ValidLog(log) && OnBoardAll(restarted + log)
    requires i < |restarted| && restarted[i] !in log
    ensures At(Coloured(restarted + log, joined), Swap(ParseCoor(restarted[i]))) != SPACE
    ensures At(Replay(log), ParseCoor(restarted[i])) == SPACE
  {
    var p := ParseCoor(restarted[i]);
    assert (restarted + log)[i] == restarted[i] && ClientCell(restarted[i]) == Swap(p);
    ColouredCells(restarted + log, joined, Swap(p));
    forall j | 0 <= j < |log|
      ensures ParseCoor(log[j]) != p
    {
      if ParseCoor(log[j]) == p { ParseCoorInjective(log[j], restarted[i]); }
    }
    ReplayIsEmptyOffTheLog(log, p);
  }

  /** Where nothing is left over, the same cells are occupied. */
  lemma {:induction false} SameCellOccupied(restarted: seq<byte>, log: seq<byte>, joined: nat, p: Cell)
    requires OnBoardAll(restarted) && ValidLog(log) && OnBoardAll(restarted + log) && AllIn(restarted, log)
    requires OnBoard(p)
    ensures At(Coloured(restarted + log, joined), Swap(p)) != SPACE <==> At(Replay(log), p) != SPACE
  {
    var records := restarted + log;
    ColouredCells(records, joined, Swap(p));
    ReplayOccupies(log, p);
    if i :| 0 <= i < |records| && ClientCell(records[i]) == Swap(p) {
      assert records[i] in log;
      var j :| 0 <= j < |log| && log[j] == records[i];
      assert ClientCell(log[j]) == Swap(p);
    }
    if j :| 0 <= j < |log| && ClientCell(log[j]) == Swap(p) {
      assert records[|restarted| + j] == log[j];
    }
  }

  /** The same cells are occupied exactly when every stone restarted over lies there again. */
  lemma {:induction false} SameCellsIff(restarted: seq<byte>, log: seq<byte>, joined: nat)
    requires OnBoardAll(restarted) && ValidLog(log) && OnBoardAll(restarted + log)
    ensures
      (forall p {:trigger OnBoard(p)} :: OnBoard(p) ==>
         (At(Coloured(restarted + log, joined), Swap(p)) != SPACE <==> At(Replay(log), p) != SPACE))
      <==> AllIn(restarted, log)
  {
    if AllIn(restarted, log) {
      forall p {:trigger OnBoard(p)} | OnBoard(p)
        ensures At(Coloured(restarted + log, joined), Swap(p)) != SPACE <==> At(Replay(log), p) != SPACE
      {
        SameCellOccupied(restarted, log, joined, p);
      }
    } else {
      var i :| 0 <= i < |restarted| && restarted[i] !in log;
      LeftoverShows(restarted, log, joined, i);
      assert OnBoard(ParseCoor(restarted[i]));
    }
  }

  lemma {:induction false} EvenShift(n: nat, j: nat, joined: nat)
    requires joined <= n && n % 2 == 0
    ensures ColourOfRecord(n + j, joined) == j % 2
  {
  }

  lemma {:induction false} EvenRestartCell(restarted: seq<byte>, log: seq<byte>, joined: nat, p: Cell)
    requires OnBoardAll(restarted) && ValidLog(log) && OnBoardAll(restarted + log) && AllIn(restarted, log)
    requires joined <= |restarted| && |restarted| % 2 == 0
    requires OnBoard(p)
    ensures At(Coloured(restarted + log, joined), Swap(p)) == At(Replay(log), p)
  {
    if j :| 0 <= j < |log| && ClientCell(log[j]) == Swap(p) {
      CurrentStoneShows(restarted, log, joined, j);
      ReplayColoursTheLog(log, j);
      EvenShift(|restarted|, j, joined);
      assert ParseCoor(log[j]) == p;
    } else {
      ReplayOccupies(log, p);
      SameCellOccupied(restarted, log, joined, p);
    }
  }

  lemma {:induction false} EvenRestartIsRight(restarted: seq<byte>, log: seq<byte>, joined: nat)
    requires OnBoardAll(restarted) && ValidLog(log) && OnBoardAll(restarted + log) && AllIn(restarted, log)
    requires joined <= |restarted| && |restarted| % 2 == 0
    ensures Coloured(restarted + log, joined) == Transpose(Replay(log))
  {
    var g, h := Coloured(restarted + log, joined), Transpose(Replay(log));
    forall q | OnBoard(q)
      ensures At(g, q) == At(h, q)
    {
      EvenRestartCell(restarted, log, joined, Swap(q));
      assert At(h, q) == At(Replay(log), Swap(q)) && Swap(Swap(q)) == q;
    }
    SameCellsSameGrid(g, h);
  }

  /** After a restart over stones the board is right exactly when they are even in number and
      all of them lie there again: else one is left over, or the first one has the opponent's
      colour. What the client joined at no longer matters. */
  lemma {:induction false} RestartedIsRightIff(restarted: seq<byte>, log: seq<byte>, joined: nat)
    requires OnBoardAll(restarted) && ValidLog(log) && OnBoardAll(restarted + log)
    requires restarted == [] ==> joined <= |log|
    requires restarted != [] ==> joined <= |restarted|
    ensures Coloured(restarted + log, joined) == Transpose(Replay(log)) <==> Right(restarted, log, joined)
  {
    if restarted == [] {
      assert restarted + log == log;
      ColouredIsRightIff(log, joined);
    } else if i :| 0 <= i < |restarted| && restarted[i] !in log {
      LeftoverShows(restarted, log, joined, i);
      OneWrongCell(Coloured(restarted + log, joined), Replay(log), ParseCoor(restarted[i]));
    } else if |restarted| % 2 == 0 {
      EvenRestartIsRight(restarted, log, joined);
    } else {
      assert restarted[0] in log;
      CurrentStoneShows(restarted, log, joined, 0);
      ReplayColoursTheLog(log, 0);
      OneWrongCell(Coloured(restarted + log, joined), Replay(log), ParseCoor(log[0]));
    }
  }

  // ---------- the client's own role ----------

  /** The role the client takes itself to have: that of the seat with its name, black first. */
  function RoleOf(s: Snapshot, username: seq<byte>): byte {
    if username == s.black then BLACK else if username == s.white then WHITE else SPACE
  }

  /** The seat's holder has this name; an empty seat counts as the empty name. */
  predicate NamedLike(seat: Option<User>, u: User) {
    SeatName(seat) == u.name
  }

  /** For a user of the room, a snapshot shows the colour of its seat exactly when no seat that
      is looked at before it, and for a user without a seat no seat at all, has the same name. */
  lemma {:induction false} RoleIsSeatIff(l: Lobby, u: User)
    requires Admissible(l)
    ensures RoleOf(SnapshotOf(l), u.name) == ColorOf(l.table, u) <==>
      || l.table.black == Some(u)
      || (l.table.white == Some(u) && !NamedLike(l.table.black, u))
      || (!NamedLike(l.table.black, u) && !NamedLike(l.table.white, u))
  {
  }
}
