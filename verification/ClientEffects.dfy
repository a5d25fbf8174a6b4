/** What each packet does to what the client shows, by its number and bytes: the meaning of the
    handlers in `ClientViews`. */
module ClientEffects {
  import opened Bytes
  import opened Codec
  import opened Messages
  import opened Chess
  import opened UserInfos
  import opened Lobby
  import opened Layouts
  import opened ClientViews
  import Framing

  lemma {:induction false} NameInFront(name: seq<byte>, rest: seq<byte>)
    requires |name| <= 255
    ensures DecodeBlob("1", Text8(name) + rest) == Some(Parsed(name, rest))
  {
    TextBytes(name);
    BlobRoundTrips("1", name, rest);
  }

  /** Whether the bytes begin with a length byte and as many bytes as it says. */
  predicate HasName(data: seq<byte>) {
    data != [] && |data| >= 1 + data[0] as int
  }

  lemma {:induction false} NameIsReadIff(data: seq<byte>)
    ensures DecodeBlob("1", data).Some? <==> HasName(data)
  {
    ByteField(data);
  }

  // ---------- who is in the room ----------

  /** 4: another user, at the seat of its colour, or else one more onlooker. */
  lemma {:induction false} OtherJoins(v: View, name: seq<byte>, role: byte, rest: seq<byte>)
    requires |name| <= 255
    ensures Apply(v, Packet(4, Text8(name) + [role] + rest)) == Some(v.(info :=
      if role == 0 then v.info.(black := name)
      else if role == 1 then v.info.(white := name)
      else v.info.(onlookers := v.info.onlookers + [name])))
  {
    assert Text8(name) + [role] + rest == Text8(name) + ([role] + rest);
    NameInFront(name, [role] + rest);
  }

  /** 5: the black seat of that name is emptied, or else the white one; a name that is not shown
      changes nothing. */
  lemma {:induction false} OtherLeaves(v: View, name: seq<byte>, rest: seq<byte>)
    requires |name| <= 255
    ensures var p := Packet(5, Text8(name) + rest);
      && (v.info.black == name ==> Apply(v, p) == Some(v.(info := v.info.(black := []))))
      && (v.info.black != name && v.info.white == name ==> Apply(v, p) == Some(v.(info := v.info.(white := []))))
      && (v.info.black != name && v.info.white != name && name !in v.info.onlookers ==> Apply(v, p) == Some(v))
  {
    NameInFront(name, rest);
    if name !in v.info.onlookers {
      NoNameIsDropped(v.info.onlookers, name);
    }
  }

  /** Or else the first onlooker of that name is dropped, the others staying in their order. */
  lemma {:induction false} OnlookerLeaves(v: View, name: seq<byte>, rest: seq<byte>, i: nat)
    requires |name| <= 255 && v.info.black != name && v.info.white != name
    requires i < |v.info.onlookers| && v.info.onlookers[i] == name && name !in v.info.onlookers[..i]
    ensures Apply(v, Packet(5, Text8(name) + rest)) ==
      Some(v.(info := v.info.(onlookers := v.info.onlookers[..i] + v.info.onlookers[i + 1..])))
  {
    NameInFront(name, rest);
    FirstNameIsDropped(v.info.onlookers, name, i);
  }

  lemma {:induction false} NoNameIsDropped(names: seq<seq<byte>>, name: seq<byte>)
    requires name !in names
    ensures DropName(names, name) == names
    decreases |names|
  {
    if names != [] {
      NoNameIsDropped(names[1..], name);
    }
  }

  lemma {:induction false} FirstNameIsDropped(names: seq<seq<byte>>, name: seq<byte>, i: nat)
    requires i < |names| && names[i] == name && name !in names[..i]
    ensures DropName(names, name) == names[..i] + names[i + 1..]
    decreases |names|
  {
    if i == 0 {
      assert names[..0] + names[1..] == names[1..];
    } else {
      assert names[0] in names[..i];
      FrontOfNames(names, i);
      FirstNameIsDropped(names[1..], name, i - 1);
    }
  }

  lemma {:induction false} FrontOfNames(names: seq<seq<byte>>, i: nat)
    requires 0 < i < |names|
    ensures names[..i] == [names[0]] + names[1..][..i - 1]
    ensures [names[0]] + (names[1..][..i - 1] + names[1..][i..]) == names[..i] + names[i + 1..]
  {
  }

  // ---------- the game ----------

  /** 6: the colour that is ready. 9 and 11: the colour that asks for a regret or a tie. */
  lemma {:induction false} ColourIsShown(v: View, color: byte, rest: seq<byte>)
    ensures Apply(v, Packet(6, [color] + rest)) == Some(v.(info := v.info.(ready := color)))
    ensures Apply(v, Packet(9, [color] + rest)) == Some(v.(info := v.info.(regret := color)))
    ensures Apply(v, Packet(11, [color] + rest)) == Some(v.(info := v.info.(tie := color)))
  {
  }

  /** 7: the game goes on, and the seats change places unless the name is the one shown as black;
      records, board and the ready colour stay as they are. */
  lemma {:induction false} GameStarts(v: View, name: seq<byte>, rest: seq<byte>)
    requires |name| <= 255
    ensures Apply(v, Packet(7, Text8(name) + rest)) == Some(v.(info :=
      if v.info.black == name then v.info.(playing := true)
      else v.info.(playing := true, black := v.info.white, white := v.info.black)))
  {
    NameInFront(name, rest);
  }

  /** 8: one more record, and its cell (row in the high nibble, column in the low one) in the
      parity of the number of records before; the other cells stay. */
  lemma {:induction false} StoneIsShown(v: View, coor: byte, rest: seq<byte>)
    requires coor / 16 < 15 && coor % 16 < 15
    ensures var p, r, c := Packet(8, [coor] + rest), coor / 16, coor % 16;
      && Safe(p) && Apply(v, p).Some?
      && var v' := Apply(v, p).value;
      && v'.info == v.info.(records := v.info.records + [coor]) && v'.board[r][c] == |v.info.records| % 2
      && forall y, x :: 0 <= y < 15 && 0 <= x < 15 && (y != r || x != c) ==> v'.board[y][x] == v.board[y][x]
  {
    var cell := ClientCell(coor);
    var v' := AddStone(v, coor);
    assert At(v'.board, cell) == |v.info.records| % 2;
    forall y, x | 0 <= y < 15 && 0 <= x < 15 && (y != coor / 16 || x != coor % 16)
      ensures v'.board[y][x] == v.board[y][x]
    {
      assert At(v'.board, Cell(y, x)) == At(v.board, Cell(y, x));
    }
  }

  /** 13: one byte makes the handler throw, and two or more do nothing. */
  lemma {:induction false} GameOverNeedsTwoBytes(v: View, data: seq<byte>)
    ensures Apply(v, Packet(13, data)) == if |data| < 2 then None else Some(v)
  {
  }

  // ---------- joining ----------

  /** 2: a refusal changes nothing; a snapshot replaces everything shown. */
  lemma {:induction false} JoinReplyIsShown(v: View, s: Snapshot)
    requires AllShort(s) && OnBoardAll(s.records)
    ensures Apply(v, Packet(2, [0])) == Some(v)
    ensures var p := Packet(2, Framing.Flatten(SnapshotParts(s)));
      Safe(p) && Apply(v, p) == Some(View(s, BoardByRecords(s.records)))
  {
    SnapshotLayout(s);
    SnapshotArrives(s);
  }

  /** Any byte but 0 says yes. */
  lemma {:induction false} AnyByteSaysYes(yes: byte, rest: seq<byte>)
    requires yes != 0
    ensures TakeJoinReply([yes] + rest) == TakeJoinReply([255] + rest)
    ensures TakeJoinReply([0] + rest) == Some(Refused)
  {
    assert ([yes] + rest)[1..] == rest && ([255] + rest)[1..] == rest;
  }

  /** The board of a snapshot: the recorded cells in the parity of their number, all else empty. */
  lemma {:induction false} SnapshotBoard(records: seq<byte>, y: int, x: int)
    requires OnBoardAll(records) && 0 <= y < 15 && 0 <= x < 15
    ensures BoardByRecords(records)[y][x] ==
      if exists i :: 0 <= i < |records| && records[i] == 16 * y + x then |records| % 2 else 255
  {
    RebuiltIsColoured(records);
    PaintedCell(records, |records| % 2, y, x);
  }

  lemma {:induction false} PaintedCell(records: seq<byte>, color: byte, y: int, x: int)
    requires OnBoardAll(records) && 0 <= y < 15 && 0 <= x < 15
    ensures Painted(records, color)[y][x] == if 16 * y + x in records then color else 255
    decreases |records|
  {
    if records == [] {
      assert At(Blank(), Cell(y, x)) == SPACE;
    } else {
      var last := |records| - 1;
      PaintedCell(records[..last], color, y, x);
      assert records == records[..last] + [records[last]];
      assert At(Painted(records, color), Cell(y, x)) ==
        if ClientCell(records[last]) == Cell(y, x) then color else At(Painted(records[..last], color), Cell(y, x));
      assert ClientCell(records[last]) == Cell(y, x) <==> records[last] == 16 * y + x;
    }
  }

  // ---------- everything else, and what throws ----------

  /** 0, 1, 3, 10, 12 and 14 are read and change nothing shown; numbers from 15 on are ignored. */
  lemma {:induction false} OthersChangeNothing(v: View, p: Packet)
    requires p.instruction in {0, 1, 3, 10, 12, 14} || p.instruction >= 15
    ensures Safe(p) && (Apply(v, p).Some? ==> Apply(v, p) == Some(v))
    ensures p.instruction >= 15 ==> Apply(v, p).Some?
    ensures p.instruction == 10 || p.instruction == 12 ==> (Apply(v, p).Some? <==> p.data != [])
    ensures p.instruction == 14 ==> (Apply(v, p).Some? <==> TakeChat(p.data).Some?)
    ensures p.instruction == 3 ==> (Apply(v, p).Some? <==> TakeUserInfo(p.data).Some?)
    ensures p.instruction == 1 && Apply(v, p).Some? ==> HasName(p.data)
    ensures p.instruction == 0 ==> (Apply(v, p).Some? <==> |p.data| >= 4 && HasName(p.data[4..]))
  {
    NameIsReadIff(p.data);
    if |p.data| >= 4 {
      NameIsReadIff(p.data[4..]);
    }
  }

  /** A handler throws exactly when bytes it reads are missing. */
  lemma {:induction false} ThrowsIffTooShort(v: View, data: seq<byte>)
    ensures Apply(v, Packet(5, data)).None? <==> !HasName(data)
    ensures Apply(v, Packet(7, data)).None? <==> !HasName(data)
    ensures Apply(v, Packet(4, data)).None? <==> !HasName(data) || |data| == 1 + data[0] as int
    ensures Apply(v, Packet(6, data)).None? <==> data == []
    ensures Apply(v, Packet(9, data)).None? <==> data == []
    ensures Apply(v, Packet(11, data)).None? <==> data == []
  {
    NameIsReadIff(data);
    ByteField(data);
  }
}
