/** IDTCP frames over a byte stream that arrives in arbitrary pieces: the server's `Write`,
    `ReadN` and `Read`, and the client's packing and reassembly. */
module Framing {
  import opened Bytes

  const MAX_PAYLOAD := 65531
  const WORD := 0x1_0000

  datatype Message = Message(instruction: nat, data: seq<byte>)

  /** A frame is its own length, an instruction and the data; lengths are two bytes. */
  function Frame(m: Message): (bs: seq<byte>)
    ensures |bs| == |m.data| + 4
  {
    LittleEndian(|m.data| + 4, 2) + LittleEndian(m.instruction, 2) + m.data
  }

  predicate Sendable(m: Message) {
    m.instruction < WORD && |m.data| <= MAX_PAYLOAD
  }

  function Frames(ms: seq<Message>): seq<byte> {
    if ms == [] then [] else Frame(ms[0]) + Frames(ms[1..])
  }

  // ---------- what a receiver finds at the front of the bytes ----------

  /** `Closed`: the stream ends inside a frame, and reading returns an error. `BadLength`: the
      length is below four; the server's slicing panics on it, the client's handler throws. */
  datatype Outcome = Received(m: Message) | Closed | BadLength

  function Parse(b: seq<byte>): Outcome {
    if |b| < 2 then Closed
    else
      var length := FromLittleEndian(b[..2]);
      if length < 2 then BadLength
      else if |b| < length then Closed
      else if length < 4 then BadLength
      else Received(Message(FromLittleEndian(b[2..4]), b[4..length]))
  }

  /** The bytes after the frame at the front. */
  function Remaining(b: seq<byte>): seq<byte>
    requires Parse(b).Received?
  {
    b[|Parse(b).m.data| + 4..]
  }

  function ParseAll(b: seq<byte>): seq<Message>
    decreases |b|
  {
    match Parse(b)
    case Received(m) => [m] + ParseAll(Remaining(b))
    case Closed => []
    case BadLength => []
  }

  lemma {:induction false} FrameParses(m: Message, tail: seq<byte>)
    requires Sendable(m)
    ensures Parse(Frame(m) + tail) == Received(m) && Remaining(Frame(m) + tail) == tail
  {
    CapacityOfWords();
    var b, length := Frame(m) + tail, |m.data| + 4;
    assert b[..2] == LittleEndian(length, 2) && b[2..4] == LittleEndian(m.instruction, 2);
    assert b[4..length] == m.data && b[length..] == tail;
    ReadsBack(length, 2);
    ReadsBack(m.instruction, 2);
  }

  lemma {:induction false} FirstFrameParses(m: Message, rest: seq<byte>)
    requires Sendable(m)
    ensures ParseAll(Frame(m) + rest) == [m] + ParseAll(rest)
  {
    FrameParses(m, rest);
  }

  lemma {:induction false} OneMoreFrame(ms: seq<Message>, tail: seq<byte>, found: seq<Message>)
    requires ms != [] && Sendable(ms[0])
    requires ParseAll(Frames(ms[1..]) + tail) == found
    ensures ParseAll(Frames(ms) + tail) == [ms[0]] + found
  {
    var rest := Frames(ms[1..]) + tail;
    assert Frames(ms) + tail == Frame(ms[0]) + rest;
    FirstFrameParses(ms[0], rest);
  }

  /** Any list of messages within the size limit, sent back to back and followed by anything,
      is received as exactly that list. */
  lemma {:induction false} FramesParse(ms: seq<Message>, tail: seq<byte>)
    requires forall i :: 0 <= i < |ms| ==> Sendable(ms[i])
    ensures ParseAll(Frames(ms) + tail) == ms + ParseAll(tail)
    decreases |ms|
  {
    if ms == [] {
      assert Frames(ms) + tail == tail;
      assert ms + ParseAll(tail) == ParseAll(tail);
    } else {
      FramesParse(ms[1..], tail);
      OneMoreFrame(ms, tail, ms[1..] + ParseAll(tail));
      OneMoreInFront(ms, ParseAll(tail));
    }
  }

  lemma {:induction false} OneMoreInFront(ms: seq<Message>, found: seq<Message>)
    requires ms != []
    ensures [ms[0]] + (ms[1..] + found) == ms + found
  {
  }

  lemma {:induction false} FramePrefixIsClosed(m: Message, k: nat)
    requires Sendable(m) && k < |Frame(m)|
    ensures Parse(Frame(m)[..k]) == Closed
  {
    if k >= 2 {
      CapacityOfWords();
      assert Frame(m)[..k][..2] == LittleEndian(|m.data| + 4, 2);
      ReadsBack(|m.data| + 4, 2);
    }
  }

  /** A stream that breaks off inside a frame still delivers everything before it. */
  lemma {:induction false} BrokenFrameIsDropped(ms: seq<Message>, last: Message, k: nat)
    requires forall i :: 0 <= i < |ms| ==> Sendable(ms[i])
    requires Sendable(last) && k < |Frame(last)|
    ensures ParseAll(Frames(ms) + Frame(last)[..k]) == ms
  {
    var part := Frame(last)[..k];
    FramePrefixIsClosed(last, k);
    assert ParseAll(part) == [];
    FramesParse(ms, part);
  }

  // ---------- the stream ----------

  function Flatten(chunks: seq<seq<byte>>): seq<byte> {
    if chunks == [] then [] else chunks[0] + Flatten(chunks[1..])
  }

  /** The receiving end of a connection: the bytes still to come, cut into the pieces in which
      they will arrive. One read never returns more than one piece. */
  class Stream {
    var chunks: seq<seq<byte>>

    constructor (chunks: seq<seq<byte>>)
      requires [] !in chunks
      ensures Valid() && this.chunks == chunks
    {
      this.chunks := chunks;
    }

    ghost predicate Valid()
      reads this
    {
      [] !in chunks
    }

    ghost function Pending(): seq<byte>
      reads this
    {
      Flatten(chunks)
    }

    method Read(want: nat) returns (bs: Option<seq<byte>>)
      requires Valid() && want > 0
      modifies this
      ensures Valid()
      ensures match bs
        case None => old(Pending()) == [] == Pending()
        case Some(got) => 0 < |got| <= want && old(Pending()) == got + Pending()
    {
      if chunks == [] {
        return None;
      }
      var first := chunks[0];
      assert first in chunks;
      if |first| <= want {
        chunks := chunks[1..];
        return Some(first);
      }
      chunks := [first[want..]] + chunks[1..];
      assert chunks[1..] == old(chunks)[1..];
      return Some(first[..want]);
    }
  }

  // ---------- the server ----------

  method Write(instruction: nat, data: seq<byte>) returns (sent: Option<seq<byte>>)
    requires instruction < WORD
    ensures sent.Some? <==> |data| <= MAX_PAYLOAD
    ensures sent.Some? ==> sent.value == Frame(Message(instruction, data))
  {
    var length := |data| + 4;
    if length >= 65536 {
      return None;
    }
    return Some(LittleEndian(length, 2) + LittleEndian(instruction, 2) + data);
  }

  /** Fills the whole buffer, however the bytes are cut, or fails when too few are left. */
  method ReadN(s: Stream, buffer: array<byte>) returns (ok: bool)
    requires s.Valid()
    modifies s, buffer
    ensures s.Valid()
    ensures ok <==> |old(s.Pending())| >= buffer.Length
    ensures ok ==> old(s.Pending()) == buffer[..] + s.Pending()
  {
    var want, have := buffer.Length, 0;
    while have != want
      invariant s.Valid() && 0 <= have <= want == buffer.Length
      invariant old(s.Pending()) == buffer[..have] + s.Pending()
      decreases want - have
    {
      var got := s.Read(want - have);
      if got.None? {
        return false;
      }
      CopyInto(got.value, buffer, have);
      have := have + |got.value|;
    }
    assert buffer[..have] == buffer[..];
    return true;
  }

  method CopyInto(bs: seq<byte>, buffer: array<byte>, at: nat)
    requires at + |bs| <= buffer.Length
    modifies buffer
    ensures buffer[..at + |bs|] == old(buffer[..at]) + bs
    ensures buffer[at + |bs|..] == old(buffer[at + |bs|..])
  {
    for i := 0 to |bs|
      invariant buffer[..at] == old(buffer[..at])
      invariant buffer[at..at + i] == bs[..i]
      invariant buffer[at + |bs|..] == old(buffer[at + |bs|..])
    {
      buffer[at + i] := bs[i];
      assert bs[..i + 1] == bs[..i] + [bs[i]];
      assert buffer[at..at + i + 1] == buffer[at..at + i] + [bs[i]];
    }
    assert buffer[..at + |bs|] == buffer[..at] + buffer[at..at + |bs|];
  }

  method Read(s: Stream) returns (got: Outcome)
    requires s.Valid()
    modifies s
    ensures s.Valid()
    ensures got == Parse(old(s.Pending()))
    ensures got.Received? ==> s.Pending() == Remaining(old(s.Pending()))
  {
    var head := new byte[2];
    var ok := ReadN(s, head);
    if !ok {
      return Closed;
    }
    var length := FromLittleEndian(head[..]);
    assert head[..] == old(s.Pending())[..2];
    if length < 2 {
      return BadLength;
    }
    var buffer := new byte[length - 2];
    ok := ReadN(s, buffer);
    if !ok {
      return Closed;
    }
    assert old(s.Pending()) == head[..] + (buffer[..] + s.Pending());
    if length < 4 {
      return BadLength;
    }
    assert buffer[..2] == old(s.Pending())[2..4] && buffer[2..] == old(s.Pending())[4..length];
    return Received(Message(FromLittleEndian(buffer[..2]), buffer[2..]));
  }

  /** The request loop's reads: the messages received do not depend on how the bytes were cut. */
  method ReadAll(s: Stream) returns (ms: seq<Message>)
    requires s.Valid()
    modifies s
    ensures ms == ParseAll(old(s.Pending()))
  {
    ms := [];
    while true
      invariant s.Valid()
      invariant ParseAll(old(s.Pending())) == ms + ParseAll(s.Pending())
      decreases |s.Pending()|
    {
      var got := Read(s);
      if !got.Received? {
        return;
      }
      ms := ms + [got.m];
    }
  }

  // ---------- the client ----------

  /** What packing leaves to be sent; the two-byte length wraps around. */
  function Packed(m: Message): Option<seq<byte>> {
    if |m.data| > 65532 then None
    else
      var length := (|m.data| + 4) % WORD;
      Some((LittleEndian(length, 2) + LittleEndian(m.instruction, 2) + m.data)[..length])
  }

  method Pack(m: Message, raw: array<byte>) returns (length: Option<nat>)
    requires raw.Length == 65536 && m.instruction < WORD
    modifies raw
    ensures match length
      case None => Packed(m).None?
      case Some(n) => n <= raw.Length && Packed(m) == Some(raw[..n])
  {
    if |m.data| > 65532 {
      return None;
    }
    var n := (|m.data| + 4) % WORD;
    CopyInto(LittleEndian(n, 2), raw, 0);
    CopyInto(LittleEndian(m.instruction, 2), raw, 2);
    CopyInto(m.data, raw, 4);
    assert raw[..4 + |m.data|] == LittleEndian(n, 2) + LittleEndian(m.instruction, 2) + m.data;
    assert raw[..n] == raw[..4 + |m.data|][..n];
    return Some(n);
  }

  lemma {:induction false} PackedIsFrame(m: Message)
    requires |m.data| <= MAX_PAYLOAD
    ensures Packed(m) == Some(Frame(m))
  {
    assert (|m.data| + 4) % WORD == |Frame(m)|;
    assert Frame(m)[..|Frame(m)|] == Frame(m);
  }

  /** The client may pack one byte too many: what it sends is received as the message exactly
      when the data has at most 65531 bytes. One byte more and nothing is sent at all. */
  lemma {:induction false} PackedArrivesIffItFits(m: Message, tail: seq<byte>)
    requires m.instruction < WORD && Packed(m).Some?
    ensures Parse(Packed(m).value + tail) == Received(m) <==> |m.data| <= MAX_PAYLOAD
    ensures |m.data| > MAX_PAYLOAD ==> Packed(m).value == []
  {
    if |m.data| <= MAX_PAYLOAD {
      PackedIsFrame(m);
      FrameParses(m, tail);
    } else {
      ParsedIsSmall(Packed(m).value + tail);
    }
  }

  /** Whatever is received, its length came in two bytes. */
  lemma {:induction false} ParsedIsSmall(b: seq<byte>)
    ensures Parse(b).Received? ==> |Parse(b).m.data| <= MAX_PAYLOAD
  {
    if Parse(b).Received? {
      CapacityOfWords();
      WritesBack(b[..2]);
    }
  }

  /** Reads until the buffer holds `upTo` bytes; `have` of them are there already. */
  method FillTo(s: Stream, buffer: array<byte>, start: nat, upTo: nat) returns (ok: bool)
    requires s.Valid() && start <= upTo <= buffer.Length
    modifies s, buffer
    ensures s.Valid()
    ensures ok <==> |old(s.Pending())| >= upTo - start
    ensures ok ==> old(buffer[..start] + s.Pending()) == buffer[..upTo] + s.Pending()
  {
    var have := start;
    while have < upTo
      invariant s.Valid() && start <= have <= upTo
      invariant old(buffer[..start] + s.Pending()) == buffer[..have] + s.Pending()
      decreases upTo - have
    {
      var part := s.Read(upTo - have);
      if part.None? {
        return false;
      }
      CopyInto(part.value, buffer, have);
      have := have + |part.value|;
    }
    return true;
  }

  /** The client's reassembly, into one fixed buffer, finds what `Parse` finds. */
  method ReceiveInstructionData(s: Stream, buffer: array<byte>) returns (got: Outcome)
    requires s.Valid() && buffer.Length == 65536
    modifies s, buffer
    ensures s.Valid()
    ensures got == Parse(old(s.Pending()))
    ensures got.Received? ==> s.Pending() == Remaining(old(s.Pending()))
  {
    ghost var all := s.Pending();
    assert buffer[..0] + all == all;
    var ok := FillTo(s, buffer, 0, 2);
    if !ok {
      return Closed;
    }
    assert all[..2] == buffer[..2];
    var length := FromLittleEndian(buffer[..2]);
    WritesBack(buffer[..2]);
    CapacityOfWords();
    if length >= 2 {
      ok := FillTo(s, buffer, 2, length);
      if !ok {
        return Closed;
      }
      assert all == buffer[..length] + s.Pending();
    }
    if length < 4 {
      return BadLength;
    }
    assert buffer[2..4] == all[2..4] && buffer[4..length] == all[4..length] && buffer[..2] == all[..2];
    return Received(Message(FromLittleEndian(buffer[2..4]), buffer[4..length]));
  }
}
