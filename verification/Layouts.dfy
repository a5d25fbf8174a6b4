/** The messages and frames byte by byte: what `Codec`, `Framing` and the client's writers put on
    the wire. */
module Layouts {
  import opened Bytes
  import opened Codec
  import opened Messages
  import opened UserInfos
  import Framing

  // ---------- numbers and texts ----------

  /** Least significant byte first. */
  function Two(n: nat): seq<byte> {
    [n % 256, n / 256 % 256]
  }

  function Four(n: nat): seq<byte> {
    [n % 256, n / 256 % 256, n / 65536 % 256, n / 16777216 % 256]
  }

  function Eight(n: nat): seq<byte> {
    Four(n) + Four(n / 4294967296)
  }

  function Text8(bs: seq<byte>): seq<byte>
    requires |bs| <= 255
  {
    [|bs|] + bs
  }

  lemma {:induction false} TwoBytes(n: nat)
    ensures LittleEndian(n, 2) == Two(n)
  {
    assert LittleEndian(n / 256, 1) == [n / 256 % 256];
  }

  lemma {:induction false} FourBytes(n: nat)
    ensures LittleEndian(n, 4) == Four(n)
  {
    TwoBytes(n / 65536);
    assert n / 256 / 256 == n / 65536 && n / 65536 / 256 == n / 16777216;
    assert LittleEndian(n, 4) == [n % 256] + ([n / 256 % 256] + LittleEndian(n / 256 / 256, 2));
  }

  lemma {:induction false} FourMore(n: nat, width: nat)
    ensures LittleEndian(n, width + 4) == Four(n) + LittleEndian(n / 4294967296, width)
  {
    var a, b, c, d := n / 256, n / 65536, n / 16777216, n / 4294967296;
    assert n / 256 == a && a / 256 == b && b / 256 == c && c / 256 == d;
    assert LittleEndian(c, width + 1) == [c % 256] + LittleEndian(d, width);
    assert LittleEndian(b, width + 2) == [b % 256] + LittleEndian(c, width + 1);
    assert LittleEndian(a, width + 3) == [a % 256] + LittleEndian(b, width + 2);
    assert LittleEndian(n, width + 4) == [n % 256] + LittleEndian(a, width + 3);
  }

  lemma {:induction false} EightBytes(n: nat)
    ensures LittleEndian(n, 8) == Eight(n)
  {
    FourMore(n, 4);
    FourBytes(n / 4294967296);
  }

  lemma {:induction false} TextBytes(bs: seq<byte>)
    ensures EncodeBlob("1", bs) == if |bs| <= 255 then Some(Text8(bs)) else None
    ensures EncodeBlob("2", bs) == if |bs| <= 65535 then Some(Two(|bs|) + bs) else None
  {
    TwoBytes(|bs|);
  }

  // ---------- messages ----------

  /** An encoding is its fields' encodings, one after another. */
  lemma {:induction false} FieldsInOrder(fs: seq<Field>, vs: seq<Value>, parts: seq<seq<byte>>)
    requires InhabitAll(vs, fs) && |parts| == |fs|
    requires forall i :: 0 <= i < |fs| ==> EncodeField(fs[i], vs[i]) == Some(parts[i])
    ensures Encode(fs, vs) == Some(Framing.Flatten(parts))
    decreases |fs|
  {
    if fs != [] {
      FieldsInOrder(fs[1..], vs[1..], parts[1..]);
    }
  }

  function Texts8(items: seq<seq<byte>>): seq<byte>
    requires forall i :: 0 <= i < |items| ==> |items[i]| <= 255
  {
    if items == [] then [] else Text8(items[0]) + Texts8(items[1..])
  }

  lemma {:induction false} ItemBytes(items: seq<seq<byte>>)
    requires forall i :: 0 <= i < |items| ==> |items[i]| <= 255
    ensures EncodeItems("1", items) == Some(Texts8(items))
    decreases |items|
  {
    if items != [] {
      ItemBytes(items[1..]);
      TextBytes(items[0]);
    }
  }

  predicate AllShort(s: Snapshot) {
    && |s.name| <= 255 && |s.black| <= 255 && |s.white| <= 255 && |s.records| <= 255 && |s.onlookers| <= 255
    && forall i :: 0 <= i < |s.onlookers| ==> |s.onlookers[i]| <= 255
  }

  /** Success, name, capacity, black, white, onlookers, ready, playing, regret, tie, records; a
      boolean is 255 or 0. */
  function SnapshotParts(s: Snapshot): seq<seq<byte>>
    requires AllShort(s)
  {
    [[255], Text8(s.name), [s.maxUsers], Text8(s.black), Text8(s.white), [|s.onlookers|] + Texts8(s.onlookers),
     [s.ready], [if s.playing then 255 else 0], [s.regret], [s.tie], Text8(s.records)]
  }

  lemma {:induction false} ByteIsOne(f: Field, b: byte)
    requires f == BYTE
    ensures Inhabits(Num(b), f) && EncodeField(f, Num(b)) == Some([b])
  {
    CapacityOfWords();
    assert LittleEndian(b / 256, 0) == [] && LittleEndian(b, 1) == [b];
  }

  lemma {:induction false} TextField(f: Field, bs: seq<byte>)
    requires (f == TEXT8 || f == BYTES8) && |bs| <= 255
    ensures Inhabits(Blob(bs), f) && EncodeField(f, Blob(bs)) == Some(Text8(bs))
  {
    TextBytes(bs);
  }

  lemma {:induction false} TextsField(items: seq<seq<byte>>)
    requires |items| <= 255 && forall i :: 0 <= i < |items| ==> |items[i]| <= 255
    ensures Inhabits(Blobs(items), TEXTS8) && EncodeField(TEXTS8, Blobs(items)) == Some([|items|] + Texts8(items))
  {
    ItemBytes(items);
  }

  /** The bytes of a join snapshot. */
  lemma {:induction false} SnapshotLayout(s: Snapshot)
    ensures Encode(SNAPSHOT, SnapshotValues(s)).Some? <==> AllShort(s)
    ensures AllShort(s) ==> Encode(SNAPSHOT, SnapshotValues(s)) == Some(Framing.Flatten(SnapshotParts(s)))
  {
    SnapshotEncodesIff(s);
    assert forall i :: 0 <= i < |s.onlookers| ==> (Short(s.onlookers[i]) <==> |s.onlookers[i]| <= 255);
    if AllShort(s) {
      SnapshotFieldBytes(s);
      FieldsInOrder(SNAPSHOT, SnapshotValues(s), SnapshotParts(s));
    }
  }

  lemma {:induction false} SnapshotFieldBytes(s: Snapshot)
    requires AllShort(s)
    ensures forall i :: 0 <= i < 11 ==> EncodeField(SNAPSHOT[i], SnapshotValues(s)[i]) == Some(SnapshotParts(s)[i])
  {
    TextField(TEXT8, s.name);
    TextField(TEXT8, s.black);
    TextField(TEXT8, s.white);
    TextField(BYTES8, s.records);
    TextsField(s.onlookers);
    ByteIsOne(BYTE, s.maxUsers);
    ByteIsOne(BYTE, s.ready);
    ByteIsOne(BYTE, s.regret);
    ByteIsOne(BYTE, s.tie);
  }

  /** A chat message: the time in eight bytes, the name, the text with a two-byte length. */
  lemma {:induction false} ChatLayout(c: Chat)
    requires c.time < Capacity(8) && Encode(CHAT, ChatValues(c)).Some?
    ensures |c.username| <= 255
    ensures Encode(CHAT, ChatValues(c)).value == Framing.Flatten(ChatParts(c))
  {
    EncodesIffFits(CHAT, ChatValues(c));
    assert FieldFits(CHAT[1], ChatValues(c)[1]) && FieldFits(CHAT[2], ChatValues(c)[2]);
    EightBytes(c.time);
    TextBytes(c.username);
    TextBytes(c.text);
    FieldsInOrder(CHAT, ChatValues(c), ChatParts(c));
  }

  function ChatParts(c: Chat): seq<seq<byte>>
    requires |c.username| <= 255
  {
    [Eight(c.time), Text8(c.username), Two(|c.text|) + c.text]
  }

  /** A chat line as the client writes it, with anything after it, is read as that line; where
      fewer bytes follow than the length says, nothing is. */
  lemma {:induction false} LineLayout(data: seq<byte>)
    ensures Decode(CHAT_REQUEST, data) ==
      if |data| < 2 then None
      else
        var n := data[0] as int + 256 * (data[1] as int);
        if |data| < 2 + n then None else Some(Parsed([Blob(data[2..2 + n])], data[2 + n..]))
  {
    var read := DecodeField(TEXT16, data);
    if |data| >= 2 {
      var n := data[0] as int + 256 * (data[1] as int);
      assert data[..2] == [data[0], data[1]];
      NumberOfTwo(data[0], data[1]);
      if |data| >= 2 + n {
        assert data[2..][..n] == data[2..2 + n] && data[2..][n..] == data[2 + n..];
        assert read == Some(Parsed(Blob(data[2..2 + n]), data[2 + n..]));
      }
    }
    assert CHAT_REQUEST[0] == TEXT16 && CHAT_REQUEST[1..] == [];
    if read.Some? {
      assert Decode([], read.value.rest) == Some(Parsed([], read.value.rest));
      assert [read.value.part] + [] == [read.value.part];
    }
  }

  lemma {:induction false} NumberOfTwo(low: byte, high: byte)
    ensures FromLittleEndian([low, high]) == low as int + 256 * (high as int)
  {
    assert [low, high][1..] == [high] && [high][1..] == [];
    assert FromLittleEndian([high]) == high;
  }

  /** A join request: the room, the name, the password with a two-byte length, the role. */
  lemma {:induction false} JoinRequestLayout(j: JoinRequest)
    requires PutJoinRequest(j).Some?
    ensures |j.username| <= 255
    ensures PutJoinRequest(j).value == [j.roomId] + Text8(j.username) + (Two(|j.password|) + j.password) + [j.role]
  {
    TextBytes(j.username);
    TextBytes(j.password);
  }

  /** A user's information: the name, four numbers in four bytes each, the time in eight. */
  lemma {:induction false} UserInfoLayout(i: UserInfo)
    requires |i.username| <= 255
    ensures PutUserInfo(i) ==
      Text8(i.username) + Four(i.wins) + Four(i.ties) + Four(i.losses) + Four(i.matches) + Eight(i.duration)
  {
    FourBytes(i.wins);
    FourBytes(i.ties);
    FourBytes(i.losses);
    FourBytes(i.matches);
    EightBytes(i.duration);
  }

  /** A frame: its whole length, the instruction, the data. */
  lemma {:induction false} FrameLayout(m: Framing.Message)
    requires Framing.Sendable(m)
    ensures Framing.Frame(m) == Two(|m.data| + 4) + Two(m.instruction) + m.data
    ensures |m.data| <= 65531 && m.instruction <= 65535
  {
    TwoBytes(|m.data| + 4);
    TwoBytes(m.instruction);
  }

  /** What a receiver makes of the bytes: the first two are the length of the frame with them, the
      next two the instruction. It waits for bytes that are missing, and a length below four is
      bad, below two even before they have come. */
  lemma {:induction false} FrameIsCut(b: seq<byte>)
    ensures Framing.Parse(b) ==
      if |b| < 2 then Framing.Closed
      else
        var length := b[0] as int + 256 * (b[1] as int);
        if length < 2 then Framing.BadLength
        else if |b| < length then Framing.Closed
        else if length < 4 then Framing.BadLength
        else Framing.Received(Framing.Message(b[2] as int + 256 * (b[3] as int), b[4..length]))
  {
    if |b| >= 2 {
      assert b[..2] == [b[0], b[1]];
      NumberOfTwo(b[0], b[1]);
      if |b| >= 4 {
        assert b[2..4] == [b[2], b[3]];
        NumberOfTwo(b[2], b[3]);
      }
    }
  }
}
