/** The messages the two sides exchange: the server's schemas, the client's readers and
    writers of the same bytes, and the proof that each side understands the other. */
module Messages {
  import opened Bytes
  import opened Codec

  // ---------- the server's schemas ----------

  const BYTE := Field(Uint(1), "", "")
  const U64 := Field(Uint(8), "", "")
  const BOOL := Field(Bool, "", "")
  const TEXT8 := Field(Text, "1", "")
  const TEXT16 := Field(Text, "2", "")
  const BYTES8 := Field(ByteSlice, "1", "")
  const BYTES16 := Field(ByteSlice, "2", "")
  const TEXTS8 := Field(TextSlice, "1", "1")

  /** Room id, username, password, role. */
  const JOIN_REQUEST := [BYTE, TEXT8, BYTES16, BYTE]

  /** Success, room name, capacity, black, white, onlookers, ready, playing, regret, tie, records. */
  const SNAPSHOT := [BOOL, TEXT8, BYTE, TEXT8, TEXT8, TEXTS8, BYTE, BOOL, BYTE, BYTE, BYTES8]

  /** Timestamp, username, text. */
  const CHAT := [U64, TEXT8, TEXT16]

  const CHAT_REQUEST := [TEXT16]

  const USERNAME := [TEXT8]

  const USERNAME_AND_ROLE := [TEXT8, BYTE]

  // ---------- what they carry ----------

  datatype Snapshot = Snapshot(
    name: seq<byte>, maxUsers: byte, black: seq<byte>, white: seq<byte>, onlookers: seq<seq<byte>>,
    ready: byte, playing: bool, regret: byte, tie: byte, records: seq<byte>)

  function SnapshotValues(s: Snapshot): (vs: seq<Value>)
    ensures InhabitAll(vs, SNAPSHOT)
  {
    CapacityOfWords();
    [Flag(true), Blob(s.name), Num(s.maxUsers), Blob(s.black), Blob(s.white), Blobs(s.onlookers),
     Num(s.ready), Flag(s.playing), Num(s.regret), Num(s.tie), Blob(s.records)]
  }

  predicate Short(bs: seq<byte>) {
    |bs| <= 255
  }

  /** The bytes of a list of texts, each with its length byte. */
  function TotalSize(items: seq<seq<byte>>): nat {
    if items == [] then 0 else 1 + |items[0]| + TotalSize(items[1..])
  }

  lemma {:induction false} ItemsSize(items: seq<seq<byte>>)
    requires EncodeItems("1", items).Some?
    ensures |EncodeItems("1", items).value| == TotalSize(items)
    decreases |items|
  {
    if items != [] {
      ItemsSize(items[1..]);
    }
  }

  /** The bytes of a field without its texts, in a message that writes lengths in one byte. */
  function FieldSize(f: Field, v: Value): nat {
    match v
    case Num(_) => if f.kind.Uint? then f.kind.width else 0
    case Flag(_) => 1
    case Blob(bytes) => 1 + |bytes|
    case Blobs(items) => 1 + TotalSize(items)
    case Opaque => 0
  }

  function TotalFieldSize(fs: seq<Field>, vs: seq<Value>): nat
    requires |fs| == |vs|
  {
    if fs == [] then 0 else FieldSize(fs[0], vs[0]) + TotalFieldSize(fs[1..], vs[1..])
  }

  predicate OneByteLengths(fs: seq<Field>) {
    forall i :: 0 <= i < |fs| ==>
      fs[i].kind.Uint? || fs[i].kind.Bool? || (fs[i].lenTag == "1" && (fs[i].kind.TextSlice? ==> fs[i].arrayTag == "1")
                                               && !fs[i].kind.BytesSlice?)
  }

  lemma {:induction false} FieldSizeIsLength(f: Field, v: Value)
    requires OneByteLengths([f]) && Inhabits(v, f) && EncodeField(f, v).Some?
    ensures |EncodeField(f, v).value| == FieldSize(f, v)
  {
    assert OneByteLengths([f]) ==> [f][0] == f;
    if f.kind.TextSlice? {
      ItemsSize(v.items);
    }
  }

  lemma {:induction false} EncodingSize(fs: seq<Field>, vs: seq<Value>)
    requires InhabitAll(vs, fs) && Encode(fs, vs).Some? && OneByteLengths(fs)
    ensures |Encode(fs, vs).value| == TotalFieldSize(fs, vs)
    decreases |fs|
  {
    if fs != [] {
      assert [fs[0]][0] == fs[0];
      FieldSizeIsLength(fs[0], vs[0]);
      EncodingSize(fs[1..], vs[1..]);
    }
  }

  /** A snapshot can be encoded exactly when each of its texts and lists has a one-byte length,
      and then takes this many bytes. */
  lemma {:induction false} SnapshotEncodesIff(s: Snapshot)
    ensures Encode(SNAPSHOT, SnapshotValues(s)).Some? <==>
      && Short(s.name) && Short(s.black) && Short(s.white) && Short(s.records)
      && |s.onlookers| <= 255 && forall i :: 0 <= i < |s.onlookers| ==> Short(s.onlookers[i])
    ensures Encode(SNAPSHOT, SnapshotValues(s)).Some? ==>
      |Encode(SNAPSHOT, SnapshotValues(s)).value|
        == 11 + |s.name| + |s.black| + |s.white| + |s.records| + TotalSize(s.onlookers)
  {
    EncodesIffFits(SNAPSHOT, SnapshotValues(s));
    SnapshotFieldsFit(s);
    if Encode(SNAPSHOT, SnapshotValues(s)).Some? {
      EncodingSize(SNAPSHOT, SnapshotValues(s));
      SnapshotFieldSizes(s);
    }
  }

  lemma {:induction false} SnapshotFieldsFit(s: Snapshot)
    ensures (forall i :: 0 <= i < |SNAPSHOT| ==> FieldFits(SNAPSHOT[i], SnapshotValues(s)[i])) <==>
      && Short(s.name) && Short(s.black) && Short(s.white) && Short(s.records)
      && |s.onlookers| <= 255 && forall i :: 0 <= i < |s.onlookers| ==> Short(s.onlookers[i])
  {
    var vs := SnapshotValues(s);
    assert FieldFits(SNAPSHOT[1], vs[1]) <==> Short(s.name);
    assert FieldFits(SNAPSHOT[3], vs[3]) <==> Short(s.black);
    assert FieldFits(SNAPSHOT[4], vs[4]) <==> Short(s.white);
    assert FieldFits(SNAPSHOT[5], vs[5]) <==>
      |s.onlookers| <= 255 && forall i :: 0 <= i < |s.onlookers| ==> Short(s.onlookers[i]);
    assert FieldFits(SNAPSHOT[10], vs[10]) <==> Short(s.records);
  }

  lemma {:induction false} NextFieldSize(fs: seq<Field>, vs: seq<Value>, k: nat)
    requires |fs| == |vs| && k < |fs|
    ensures TotalFieldSize(fs[k..], vs[k..]) == FieldSize(fs[k], vs[k]) + TotalFieldSize(fs[k + 1..], vs[k + 1..])
  {
    assert fs[k..][1..] == fs[k + 1..] && vs[k..][1..] == vs[k + 1..];
  }

  lemma {:induction false} SizeOfFirstThree(fs: seq<Field>, vs: seq<Value>, k: nat)
    requires |fs| == |vs| && k + 3 <= |fs|
    ensures TotalFieldSize(fs[k..], vs[k..]) ==
      FieldSize(fs[k], vs[k]) + FieldSize(fs[k + 1], vs[k + 1]) + FieldSize(fs[k + 2], vs[k + 2])
      + TotalFieldSize(fs[k + 3..], vs[k + 3..])
  {
    NextFieldSize(fs, vs, k);
    NextFieldSize(fs, vs, k + 1);
    NextFieldSize(fs, vs, k + 2);
  }

  lemma {:induction false} ElevenFields(fs: seq<Field>, vs: seq<Value>)
    requires |fs| == |vs| == 11
    ensures TotalFieldSize(fs, vs) ==
      FieldSize(fs[0], vs[0]) + FieldSize(fs[1], vs[1]) + FieldSize(fs[2], vs[2]) + FieldSize(fs[3], vs[3])
      + FieldSize(fs[4], vs[4]) + FieldSize(fs[5], vs[5]) + FieldSize(fs[6], vs[6]) + FieldSize(fs[7], vs[7])
      + FieldSize(fs[8], vs[8]) + FieldSize(fs[9], vs[9]) + FieldSize(fs[10], vs[10])
  {
    assert fs[0..] == fs && vs[0..] == vs;
    assert TotalFieldSize(fs[9..], vs[9..]) == FieldSize(fs[9], vs[9]) + FieldSize(fs[10], vs[10]) by {
      NextFieldSize(fs, vs, 9);
      NextFieldSize(fs, vs, 10);
      assert fs[11..] == [];
    }
    SizeOfFirstThree(fs, vs, 6);
    SizeOfFirstThree(fs, vs, 3);
    SizeOfFirstThree(fs, vs, 0);
  }

  lemma {:induction false} SnapshotFieldSizes(s: Snapshot)
    ensures TotalFieldSize(SNAPSHOT, SnapshotValues(s))
         == 11 + |s.name| + |s.black| + |s.white| + |s.records| + TotalSize(s.onlookers)
  {
    ElevenFields(SNAPSHOT, SnapshotValues(s));
  }

  datatype JoinRequest = JoinRequest(roomId: byte, username: seq<byte>, password: seq<byte>, role: byte)

  function JoinValues(j: JoinRequest): (vs: seq<Value>)
    ensures InhabitAll(vs, JOIN_REQUEST)
  {
    CapacityOfWords();
    [Num(j.roomId), Blob(j.username), Blob(j.password), Num(j.role)]
  }

  datatype Chat = Chat(time: nat, username: seq<byte>, text: seq<byte>)

  function ChatValues(c: Chat): (vs: seq<Value>)
    requires c.time < Capacity(8)
    ensures InhabitAll(vs, CHAT)
  {
    [Num(c.time), Blob(c.username), Blob(c.text)]
  }

  // ---------- walking along a schema ----------

  /** Field `i` is read where `cuts[i]` starts and leaves `cuts[i + 1]`. */
  ghost predicate Piece(fs: seq<Field>, vs: seq<Value>, cuts: seq<seq<byte>>, i: int)
    requires |cuts| == |fs| + 1 && |vs| == |fs| && 0 <= i < |fs|
  {
    DecodeField(fs[i], cuts[i]) == Some(Parsed(vs[i], cuts[i + 1]))
  }

  ghost predicate ReadsPiecewise(fs: seq<Field>, vs: seq<Value>, cuts: seq<seq<byte>>) {
    && |vs| == |fs| && |cuts| == |fs| + 1
    && forall i :: 0 <= i < |fs| ==> Piece(fs, vs, cuts, i)
  }

  lemma {:induction false} Cut(fs: seq<Field>, b: seq<byte>) returns (cuts: seq<seq<byte>>)
    requires Decode(fs, b).Some?
    ensures ReadsPiecewise(fs, Decode(fs, b).value.part, cuts) && cuts[0] == b
    decreases |fs|
  {
    if fs == [] {
      cuts := [b];
    } else {
      var more := Cut(fs[1..], DecodeField(fs[0], b).value.rest);
      cuts := [b] + more;
      var vs := Decode(fs, b).value.part;
      forall i | 0 <= i < |fs|
        ensures Piece(fs, vs, cuts, i)
      {
        if i > 0 {
          assert Piece(fs[1..], vs[1..], more, i - 1);
          assert fs[1..][i - 1] == fs[i] && vs[1..][i - 1] == vs[i] && cuts[i] == more[i - 1] && cuts[i + 1] == more[i];
        }
      }
    }
  }

  lemma {:induction false} EncodeFrom(fs: seq<Field>, vs: seq<Value>, k: nat)
    requires InhabitAll(vs, fs) && k < |fs|
    ensures Encode(fs[k..], vs[k..]) ==
      match EncodeField(fs[k], vs[k])
      case None => None
      case Some(first) => Prefixed(first, Encode(fs[k + 1..], vs[k + 1..]))
  {
    assert fs[k..][1..] == fs[k + 1..] && vs[k..][1..] == vs[k + 1..];
  }

  // ---------- what the client's reading operators make of the bytes ----------

  function TakeByte(b: seq<byte>): Option<Parsed<byte>> {
    if b == [] then None else Some(Parsed(b[0], b[1..]))
  }

  /** Any non-zero byte reads as true. */
  function TakeBool(b: seq<byte>): Option<Parsed<bool>> {
    if b == [] then None else Some(Parsed(b[0] != 0, b[1..]))
  }

  datatype JoinReply = Refused | Joined(room: Snapshot)

  function TakeSnapshot(b: seq<byte>): Option<Snapshot> {
    var name :- DecodeBlob("1", b);
    var maxUsers :- TakeByte(name.rest);
    var black :- DecodeBlob("1", maxUsers.rest);
    var white :- DecodeBlob("1", black.rest);
    var count :- TakeByte(white.rest);
    var onlookers :- DecodeItems("1", count.part, count.rest);
    var ready :- TakeByte(onlookers.rest);
    var playing :- TakeBool(ready.rest);
    var regret :- TakeByte(playing.rest);
    var tie :- TakeByte(regret.rest);
    var records :- DecodeBlob("1", tie.rest);
    Some(Snapshot(name.part, maxUsers.part, black.part, white.part, onlookers.part,
                  ready.part, playing.part, regret.part, tie.part, records.part))
  }

  /** Nothing when the client's reader throws. */
  function TakeJoinReply(b: seq<byte>): Option<JoinReply> {
    var ok :- TakeBool(b);
    if !ok.part then Some(Refused)
    else
      var room :- TakeSnapshot(ok.rest);
      Some(Joined(room))
  }

  function TakeChat(b: seq<byte>): Option<Chat> {
    var time :- DecodeNum(8, b);
    var username :- DecodeBlob("1", time.rest);
    var text :- DecodeBlob("2", username.rest);
    Some(Chat(time.part, username.part, text.part))
  }

  // ---------- what the client writes ----------

  function PutJoinRequest(j: JoinRequest): Option<seq<byte>> {
    var username :- EncodeBlob("1", j.username);
    var password :- EncodeBlob("2", j.password);
    Some([j.roomId] + username + password + [j.role])
  }

  // ---------- the two sides agree ----------

  lemma {:induction false} ByteField(b: seq<byte>)
    ensures DecodeField(BYTE, b) ==
      match TakeByte(b)
      case None => None
      case Some(p) => Some(Parsed(Num(p.part), p.rest))
    ensures DecodeLen("1", b) ==
      match TakeByte(b)
      case None => None
      case Some(p) => Some(Parsed(p.part as nat, p.rest))
  {
    if b != [] {
      assert FromLittleEndian(b[..1]) == b[0];
    }
  }

  /** Bytes the server's decoder takes for a successful snapshot mean the same to the client. */
  lemma {:induction false} ClientReadsWhatServerReads(s: Snapshot, b: seq<byte>)
    requires Decode(SNAPSHOT, b) == Some(Parsed(SnapshotValues(s), []))
    ensures TakeJoinReply(b) == Some(Joined(s))
  {
    var cuts := Cut(SNAPSHOT, b);
    RoomPieces(s, cuts);
    SeatPieces(s, cuts);
    OnlookerPieces(s, cuts);
    GamePieces(s, cuts);
    PiecesMakeSnapshot(s, cuts);
  }

  /** The pieces of a snapshot as the client's operators read them: first the room. */
  ghost predicate ClientRoom(s: Snapshot, cuts: seq<seq<byte>>)
    requires |cuts| == 12
  {
    && TakeBool(cuts[0]) == Some(Parsed(true, cuts[1]))
    && DecodeBlob("1", cuts[1]) == Some(Parsed(s.name, cuts[2]))
    && TakeByte(cuts[2]) == Some(Parsed(s.maxUsers, cuts[3]))
  }

  /** Then who is in it. */
  ghost predicate ClientSeats(s: Snapshot, cuts: seq<seq<byte>>)
    requires |cuts| == 12
  {
    && DecodeBlob("1", cuts[3]) == Some(Parsed(s.black, cuts[4]))
    && DecodeBlob("1", cuts[4]) == Some(Parsed(s.white, cuts[5]))
  }

  ghost predicate ClientOnlookers(s: Snapshot, cuts: seq<seq<byte>>)
    requires |cuts| == 12
  {
    && TakeByte(cuts[5]).Some?
    && var count := TakeByte(cuts[5]).value;
       DecodeItems("1", count.part, count.rest) == Some(Parsed(s.onlookers, cuts[6]))
  }

  /** Then the state of the game. */
  ghost predicate ClientGame(s: Snapshot, cuts: seq<seq<byte>>)
    requires |cuts| == 12
  {
    && TakeByte(cuts[6]) == Some(Parsed(s.ready, cuts[7]))
    && TakeBool(cuts[7]) == Some(Parsed(s.playing, cuts[8]))
    && TakeByte(cuts[8]) == Some(Parsed(s.regret, cuts[9]))
    && TakeByte(cuts[9]) == Some(Parsed(s.tie, cuts[10]))
    && DecodeBlob("1", cuts[10]) == Some(Parsed(s.records, cuts[11]))
  }

  lemma {:induction false} PiecesMakeSnapshot(s: Snapshot, cuts: seq<seq<byte>>)
    requires |cuts| == 12 && ClientRoom(s, cuts) && ClientSeats(s, cuts) && ClientOnlookers(s, cuts)
    requires ClientGame(s, cuts)
    ensures TakeJoinReply(cuts[0]) == Some(Joined(s))
  {
  }

  lemma {:induction false} FirstPieces(fs: seq<Field>, vs: seq<Value>, cuts: seq<seq<byte>>)
    requires ReadsPiecewise(fs, vs, cuts) && |fs| >= 3 && fs[0] == BOOL && fs[1] == TEXT8 && fs[2] == BYTE
    ensures vs[0].Flag? && TakeBool(cuts[0]) == Some(Parsed(vs[0].b, cuts[1]))
    ensures vs[1].Blob? && DecodeBlob("1", cuts[1]) == Some(Parsed(vs[1].bytes, cuts[2]))
    ensures TakeByte(cuts[2]).Some? && vs[2] == Num(TakeByte(cuts[2]).value.part)
    ensures TakeByte(cuts[2]).value.rest == cuts[3]
  {
    FlagPiece(fs, vs, cuts, 0);
    TextPiece(fs, vs, cuts, 1);
    BytePiece(fs, vs, cuts, 2);
  }

  lemma {:induction false} RoomPieces(s: Snapshot, cuts: seq<seq<byte>>)
    requires ReadsPiecewise(SNAPSHOT, SnapshotValues(s), cuts)
    ensures ClientRoom(s, cuts)
  {
    FirstPieces(SNAPSHOT, SnapshotValues(s), cuts);
  }

  lemma {:induction false} SeatPieces(s: Snapshot, cuts: seq<seq<byte>>)
    requires ReadsPiecewise(SNAPSHOT, SnapshotValues(s), cuts)
    ensures ClientSeats(s, cuts)
  {
    var vs := SnapshotValues(s);
    assert DecodeBlob("1", cuts[3]) == Some(Parsed(s.black, cuts[4])) by { TextPiece(SNAPSHOT, vs, cuts, 3); }
    assert DecodeBlob("1", cuts[4]) == Some(Parsed(s.white, cuts[5])) by { TextPiece(SNAPSHOT, vs, cuts, 4); }
  }

  lemma {:induction false} OnlookerPieces(s: Snapshot, cuts: seq<seq<byte>>)
    requires ReadsPiecewise(SNAPSHOT, SnapshotValues(s), cuts)
    ensures ClientOnlookers(s, cuts)
  {
    TextsPiece(SNAPSHOT, SnapshotValues(s), cuts, 5);
  }

  lemma {:induction false} GamePieces(s: Snapshot, cuts: seq<seq<byte>>)
    requires ReadsPiecewise(SNAPSHOT, SnapshotValues(s), cuts)
    ensures ClientGame(s, cuts)
  {
    var vs := SnapshotValues(s);
    assert TakeByte(cuts[6]) == Some(Parsed(s.ready, cuts[7])) by { BytePiece(SNAPSHOT, vs, cuts, 6); }
    assert TakeBool(cuts[7]) == Some(Parsed(s.playing, cuts[8])) by { FlagPiece(SNAPSHOT, vs, cuts, 7); }
    assert TakeByte(cuts[8]) == Some(Parsed(s.regret, cuts[9])) by { BytePiece(SNAPSHOT, vs, cuts, 8); }
    assert TakeByte(cuts[9]) == Some(Parsed(s.tie, cuts[10])) by { BytePiece(SNAPSHOT, vs, cuts, 9); }
    assert DecodeBlob("1", cuts[10]) == Some(Parsed(s.records, cuts[11])) by { TextPiece(SNAPSHOT, vs, cuts, 10); }
  }

  lemma {:induction false} FlagPiece(fs: seq<Field>, vs: seq<Value>, cuts: seq<seq<byte>>, i: nat)
    requires ReadsPiecewise(fs, vs, cuts) && i < |fs| && fs[i].kind.Bool?
    ensures vs[i].Flag? && TakeBool(cuts[i]) == Some(Parsed(vs[i].b, cuts[i + 1]))
  {
    assert Piece(fs, vs, cuts, i);
  }

  lemma {:induction false} BytePiece(fs: seq<Field>, vs: seq<Value>, cuts: seq<seq<byte>>, i: nat)
    requires ReadsPiecewise(fs, vs, cuts) && i < |fs| && fs[i] == BYTE
    ensures TakeByte(cuts[i]).Some? && TakeByte(cuts[i]).value.rest == cuts[i + 1]
    ensures vs[i] == Num(TakeByte(cuts[i]).value.part)
  {
    assert Piece(fs, vs, cuts, i);
    ByteField(cuts[i]);
  }

  lemma {:induction false} TextPiece(fs: seq<Field>, vs: seq<Value>, cuts: seq<seq<byte>>, i: nat)
    requires ReadsPiecewise(fs, vs, cuts) && i < |fs| && (fs[i].kind.Text? || fs[i].kind.ByteSlice?)
    ensures vs[i].Blob? && DecodeBlob(fs[i].lenTag, cuts[i]) == Some(Parsed(vs[i].bytes, cuts[i + 1]))
  {
    assert Piece(fs, vs, cuts, i);
  }

  lemma {:induction false} TextsPiece(fs: seq<Field>, vs: seq<Value>, cuts: seq<seq<byte>>, i: nat)
    requires ReadsPiecewise(fs, vs, cuts) && i < |fs| && fs[i] == TEXTS8
    ensures vs[i].Blobs? && TakeByte(cuts[i]).Some?
    ensures DecodeItems("1", TakeByte(cuts[i]).value.part, TakeByte(cuts[i]).value.rest)
         == Some(Parsed(vs[i].items, cuts[i + 1]))
  {
    assert Piece(fs, vs, cuts, i);
    ByteField(cuts[i]);
  }

  /** A snapshot the server can marshal arrives at the client field for field. */
  lemma {:induction false} SnapshotArrives(s: Snapshot)
    requires Encode(SNAPSHOT, SnapshotValues(s)).Some?
    ensures TakeJoinReply(Encode(SNAPSHOT, SnapshotValues(s)).value) == Some(Joined(s))
  {
    var bs := Encode(SNAPSHOT, SnapshotValues(s)).value;
    RoundTrip(SNAPSHOT, SnapshotValues(s), []);
    assert bs + [] == bs;
    ClientReadsWhatServerReads(s, bs);
  }

  lemma {:induction false} ChatArrives(c: Chat)
    requires c.time < Capacity(8) && Encode(CHAT, ChatValues(c)).Some?
    ensures TakeChat(Encode(CHAT, ChatValues(c)).value) == Some(c)
  {
    var vs := ChatValues(c);
    var bs := Encode(CHAT, vs).value;
    RoundTrip(CHAT, vs, []);
    assert bs + [] == bs;
    var cuts := Cut(CHAT, bs);
    assert Piece(CHAT, vs, cuts, 0);
    TextPiece(CHAT, vs, cuts, 1);
    TextPiece(CHAT, vs, cuts, 2);
  }

  /** The client's join request is the server's own encoding of it, so the server recovers all
      four fields; it can be written exactly when the username has at most 255 bytes and the
      password at most 65535. */
  lemma {:induction false} JoinRequestArrives(j: JoinRequest)
    ensures PutJoinRequest(j).Some? <==> |j.username| <= 255 && |j.password| <= 65535
    ensures PutJoinRequest(j).Some? ==> Decode(JOIN_REQUEST, PutJoinRequest(j).value) == Some(Parsed(JoinValues(j), []))
  {
    var vs := JoinValues(j);
    if PutJoinRequest(j).Some? {
      var username, password := EncodeBlob("1", j.username).value, EncodeBlob("2", j.password).value;
      assert LittleEndian(j.roomId, 1) == [j.roomId] && LittleEndian(j.role, 1) == [j.role];
      EncodeFrom(JOIN_REQUEST, vs, 3);
      EncodeFrom(JOIN_REQUEST, vs, 2);
      EncodeFrom(JOIN_REQUEST, vs, 1);
      EncodeFrom(JOIN_REQUEST, vs, 0);
      assert JOIN_REQUEST[0..] == JOIN_REQUEST && vs[0..] == vs;
      var bs := PutJoinRequest(j).value;
      assert bs == [j.roomId] + (username + (password + ([j.role] + [])));
      assert Encode(JOIN_REQUEST, vs) == Some(bs);
      RoundTrip(JOIN_REQUEST, vs, []);
      assert bs + [] == bs;
    }
  }

  /** The client's chat line, written with a two-byte length, is the server's encoding of it. */
  lemma {:induction false} ChatRequestArrives(text: seq<byte>)
    requires EncodeBlob("2", text).Some?
    ensures Decode(CHAT_REQUEST, EncodeBlob("2", text).value) == Some(Parsed([Blob(text)], []))
  {
    var vs := [Blob(text)];
    assert Inhabits(vs[0], CHAT_REQUEST[0]);
    EncodeFrom(CHAT_REQUEST, vs, 0);
    assert CHAT_REQUEST[0..] == CHAT_REQUEST && vs[0..] == vs;
    var bs := EncodeBlob("2", text).value;
    assert bs + [] == bs;
    RoundTrip(CHAT_REQUEST, vs, []);
  }

  /** The client writes a boolean as two bytes. The server's decoder reads the value from the
      first and leaves the second in front of whatever follows. */
  lemma {:induction false} ClientBoolLeavesAByte(v: bool, tail: seq<byte>)
    ensures DecodeField(BOOL, LittleEndian(if v then 0xFF else 0x00, 2) + tail) == Some(Parsed(Flag(v), [0] + tail))
  {
    var bs := LittleEndian(if v then 0xFF else 0x00, 2);
    assert bs == [if v then 0xFF else 0x00, 0];
    assert (bs + tail)[1..] == [0] + tail;
  }
}
