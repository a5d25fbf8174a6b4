/** The client's own serializer: a byte vector, a read cursor and a switchable length width.
    A read past the end throws; that is the `None` (or `false`) result here. Every operator is
    tied to the server's wire format, so the two implementations agree. */
module ClientSerializer {
  import opened Bytes
  import opened Codec
  import opened Messages

  class Serializer {
    var raw: seq<byte>
    var cursor: nat
    var head: nat

    ghost predicate Valid()
      reads this
    {
      cursor <= |raw| && (head == 8 || head == 16)
    }

    ghost function Rest(): seq<byte>
      requires Valid()
      reads this
    {
      raw[cursor..]
    }

    /** The length width in force, as the struct tag the server would use. */
    ghost function Tag(): string
      reads this
    {
      if head == 8 then "1" else "2"
    }

    constructor (buffer: seq<byte>)
      ensures Valid() && raw == buffer && cursor == 0 && head == 8
    {
      raw, cursor, head := buffer, 0, 8;
    }

    method Head8()
      requires Valid()
      modifies this`head
      ensures Valid() && head == 8
    {
      head := 8;
    }

    method Head16()
      requires Valid()
      modifies this`head
      ensures Valid() && head == 16
    {
      head := 16;
    }

    // ---------- reading ----------

    method ReadByte() returns (b: Option<byte>)
      requires Valid()
      modifies this`cursor
      ensures Valid()
      ensures match TakeByte(old(Rest()))
        case None => b.None? && unchanged(this)
        case Some(p) => b == Some(p.part) && Rest() == p.rest
    {
      if cursor + 1 > |raw| {
        return None;
      }
      b := Some(raw[cursor]);
      cursor := cursor + 1;
    }

    method ReadBool() returns (v: Option<bool>)
      requires Valid()
      modifies this`cursor
      ensures Valid()
      ensures match TakeBool(old(Rest()))
        case None => v.None?
        case Some(p) => v == Some(p.part) && Rest() == p.rest
    {
      var b := ReadByte();
      return if b.None? then None else Some(b.value != 0);
    }

    method ReadU16() returns (n: Option<nat>)
      requires Valid()
      modifies this`cursor
      ensures Valid()
      ensures match DecodeNum(2, old(Rest()))
        case None => n.None?
        case Some(p) => n == Some(p.part) && Rest() == p.rest
    {
      if cursor + 2 > |raw| {
        return None;
      }
      n := Some(raw[cursor + 1] as int * 0x100 + raw[cursor]);
      FromTwo(raw[cursor..cursor + 2]);
      assert raw[cursor..][..2] == raw[cursor..cursor + 2];
      cursor := cursor + 2;
    }

    method ReadU32() returns (n: Option<nat>)
      requires Valid()
      modifies this`cursor
      ensures Valid()
      ensures match DecodeNum(4, old(Rest()))
        case None => n.None?
        case Some(p) => n == Some(p.part) && Rest() == p.rest
    {
      if cursor + 4 > |raw| {
        return None;
      }
      n := Some(raw[cursor + 3] as int * 0x100_0000 + raw[cursor + 2] as int * 0x1_0000
                + raw[cursor + 1] as int * 0x100 + raw[cursor]);
      FromFour(raw[cursor..cursor + 4]);
      assert raw[cursor..][..4] == raw[cursor..cursor + 4];
      cursor := cursor + 4;
    }

    method ReadU64() returns (n: Option<nat>)
      requires Valid()
      modifies this`cursor
      ensures Valid()
      ensures match DecodeNum(8, old(Rest()))
        case None => n.None?
        case Some(p) => n == Some(p.part) && Rest() == p.rest
    {
      if cursor + 8 > |raw| {
        return None;
      }
      n := Some(
        raw[cursor + 7] as int * 0x100_0000_0000_0000 + raw[cursor + 6] as int * 0x1_0000_0000_0000
        + raw[cursor + 5] as int * 0x100_0000_0000 + raw[cursor + 4] as int * 0x1_0000_0000
        + raw[cursor + 3] as int * 0x100_0000 + raw[cursor + 2] as int * 0x1_0000
        + raw[cursor + 1] as int * 0x100 + raw[cursor]);
      FromEight(raw[cursor..cursor + 8]);
      assert raw[cursor..][..8] == raw[cursor..cursor + 8];
      cursor := cursor + 8;
    }

    /** The length of a string or vector, checked against what is left. */
    method ReadHead() returns (n: Option<nat>)
      requires Valid()
      modifies this`cursor
      ensures Valid()
      ensures match DecodeLen(Tag(), old(Rest()))
        case None => n.None?
        case Some(p) => n == (if p.part <= |p.rest| then Some(p.part) else None) && Rest() == p.rest
    {
      if head == 8 {
        ByteField(Rest());
        var b := ReadByte();
        if b.None? {
          return None;
        }
        n := Some(b.value);
      } else {
        n := ReadU16();
        if n.None? {
          return None;
        }
      }
      if cursor + n.value > |raw| {
        return None;
      }
    }

    method ReadBytes() returns (bs: Option<seq<byte>>)
      requires Valid()
      modifies this`cursor
      ensures Valid()
      ensures match DecodeBlob(Tag(), old(Rest()))
        case None => bs.None?
        case Some(p) => bs == Some(p.part) && Rest() == p.rest
    {
      var n := ReadHead();
      if n.None? {
        return None;
      }
      bs := Some(raw[cursor..cursor + n.value]);
      assert Rest()[..n.value] == bs.value;
      cursor := cursor + n.value;
    }

    // ---------- writing ----------

    method WriteByte(b: byte)
      requires Valid()
      modifies this`raw
      ensures Valid() && raw == old(raw) + [b]
    {
      raw := raw + [b];
    }

    method WriteU16(n: nat)
      requires Valid() && n < 0x1_0000
      modifies this`raw
      ensures Valid() && raw == old(raw) + LittleEndian(n, 2)
    {
      WriteByte(n % 256);
      WriteByte((n / 256) % 256);
      assert LittleEndian(n, 2) == [n % 256, (n / 256) % 256];
    }

    /** Two bytes, although reading a boolean takes one. */
    method WriteBool(v: bool)
      requires Valid()
      modifies this`raw
      ensures Valid() && raw == old(raw) + LittleEndian(if v then 0xFF else 0x00, 2)
    {
      WriteU16(if v then 0xFF else 0x00);
    }

    method WriteBytes(bs: seq<byte>) returns (ok: bool)
      requires Valid()
      modifies this`raw
      ensures Valid()
      ensures ok <==> EncodeBlob(Tag(), bs).Some?
      ensures ok ==> raw == old(raw) + EncodeBlob(Tag(), bs).value
    {
      if head == 8 {
        if |bs| > 0xFF {
          return false;
        }
        WriteByte(|bs|);
      } else {
        if |bs| > 0xFFFF {
          return false;
        }
        WriteU16(|bs|);
      }
      raw := raw + bs;
      return true;
    }
  }

  /** One byte more of a little-endian number. */
  lemma {:induction false} FromNext(bs: seq<byte>, i: nat)
    requires i < |bs|
    ensures FromLittleEndian(bs[i..]) == bs[i] as int + 0x100 * FromLittleEndian(bs[i + 1..])
  {
    assert bs[i..][1..] == bs[i + 1..];
  }

  lemma {:induction false} FromTwo(bs: seq<byte>)
    requires |bs| == 2
    ensures FromLittleEndian(bs) == bs[1] as int * 0x100 + bs[0]
  {
    assert bs[0..] == bs;
    FromNext(bs, 0);
    FromNext(bs, 1);
  }

  lemma {:induction false} FromFour(bs: seq<byte>)
    requires |bs| == 4
    ensures FromLittleEndian(bs) ==
      bs[3] as int * 0x100_0000 + bs[2] as int * 0x1_0000 + bs[1] as int * 0x100 + bs[0]
  {
    assert bs[0..] == bs;
    FromNext(bs, 0);
    FromNext(bs, 1);
    FromNext(bs, 2);
    FromNext(bs, 3);
  }

  lemma {:induction false} FromEight(bs: seq<byte>)
    requires |bs| == 8
    ensures FromLittleEndian(bs) ==
      bs[7] as int * 0x100_0000_0000_0000 + bs[6] as int * 0x1_0000_0000_0000
      + bs[5] as int * 0x100_0000_0000 + bs[4] as int * 0x1_0000_0000
      + bs[3] as int * 0x100_0000 + bs[2] as int * 0x1_0000 + bs[1] as int * 0x100 + bs[0]
  {
    assert bs[0..] == bs;
    FromNext(bs, 0);
    FromNext(bs, 1);
    FromNext(bs, 2);
    FromNext(bs, 3);
    FromNext(bs, 4);
    FromNext(bs, 5);
    FromNext(bs, 6);
    FromNext(bs, 7);
  }

  // ---------- the handlers that use it ----------

  /** The join request sent when the connection is up, or nothing if writing it throws. */
  method WriteJoinRequest(j: JoinRequest) returns (bytes: Option<seq<byte>>)
    ensures bytes == PutJoinRequest(j)
  {
    var s := new Serializer([]);
    s.Head8();
    s.WriteByte(j.roomId);
    var ok := s.WriteBytes(j.username);
    if !ok {
      return None;
    }
    s.Head16();
    ok := s.WriteBytes(j.password);
    if !ok {
      return None;
    }
    s.WriteByte(j.role);
    assert s.raw == [j.roomId] + EncodeBlob("1", j.username).value + EncodeBlob("2", j.password).value + [j.role];
    return Some(s.raw);
  }

  method ReadNames(s: Serializer, count: nat) returns (names: Option<seq<seq<byte>>>)
    requires s.Valid() && s.head == 8
    modifies s`cursor
    ensures s.Valid()
    ensures match DecodeItems("1", count, old(s.Rest()))
      case None => names.None?
      case Some(p) => names == Some(p.part) && s.Rest() == p.rest
  {
    ghost var start := s.Rest();
    var got: seq<seq<byte>> := [];
    PrecededOnce([], [], DecodeItems("1", count, start));
    for i := 0 to count
      invariant s.Valid()
      invariant DecodeItems("1", count, start) == PrecededBy(got, DecodeItems("1", count - i, s.Rest()))
    {
      var name := s.ReadBytes();
      if name.None? {
        return None;
      }
      PrecededOnce(got, name.value, DecodeItems("1", count - i - 1, s.Rest()));
      got := got + [name.value];
    }
    assert got + [] == got;
    return Some(got);
  }

  method ReceiveYouJoinRoom(data: seq<byte>) returns (reply: Option<JoinReply>)
    ensures reply == TakeJoinReply(data)
  {
    var s := new Serializer(data);
    assert s.Rest() == data;
    var ok := s.ReadBool();
    if ok.None? { return None; }
    if !ok.value { return Some(Refused); }
    var name := s.ReadBytes();
    if name.None? { return None; }
    var maxUsers := s.ReadByte();
    if maxUsers.None? { return None; }
    var black := s.ReadBytes();
    if black.None? { return None; }
    var white := s.ReadBytes();
    if white.None? { return None; }
    var count := s.ReadByte();
    if count.None? { return None; }
    var onlookers := ReadNames(s, count.value);
    if onlookers.None? { return None; }
    var ready := s.ReadByte();
    if ready.None? { return None; }
    var playing := s.ReadBool();
    if playing.None? { return None; }
    var regret := s.ReadByte();
    if regret.None? { return None; }
    var tie := s.ReadByte();
    if tie.None? { return None; }
    var records := s.ReadBytes();
    if records.None? { return None; }
    return Some(Joined(Snapshot(
      name.value, maxUsers.value, black.value, white.value, onlookers.value,
      ready.value, playing.value, regret.value, tie.value, records.value)));
  }

  method ReceiveMessage(data: seq<byte>) returns (chat: Option<Chat>)
    ensures chat == TakeChat(data)
  {
    var s := new Serializer(data);
    assert s.Rest() == data;
    s.Head8();
    var time := s.ReadU64();
    if time.None? { return None; }
    var username := s.ReadBytes();
    if username.None? { return None; }
    s.Head16();
    var text := s.ReadBytes();
    if text.None? { return None; }
    return Some(Chat(time.value, username.value, text.value));
  }
}
