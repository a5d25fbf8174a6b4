/** `Marshal` and `Unmarshal` as they run: loops over the fields of a struct that append to and
    consume a byte buffer, each proved to compute the wire format of `Codec`. */
module Marshal {
  import opened Bytes
  import opened Codec

  /** The growing and shrinking byte buffer both directions work on. */
  class Buffer {
    var contents: seq<byte>

    constructor (initial: seq<byte>)
      ensures contents == initial
    {
      contents := initial;
    }

    method Write(bs: seq<byte>)
      modifies this
      ensures contents == old(contents) + bs
    {
      contents := contents + bs;
    }

    /** A fixed-width number, or nothing when fewer bytes are left; the bytes are gone then. */
    method ReadNum(width: nat) returns (n: Option<nat>)
      modifies this
      ensures match DecodeNum(width, old(contents))
        case None => n.None?
        case Some(p) => n == Some(p.part) && contents == p.rest
    {
      if |contents| < width {
        contents := [];
        return None;
      }
      n := Some(FromLittleEndian(contents[..width]));
      contents := contents[width..];
    }

    /** Up to `want` bytes; an error only when some were wanted and none are left. */
    method Read(want: nat) returns (bs: seq<byte>, ok: bool)
      modifies this
      ensures ok <==> want == 0 || old(contents) != []
      ensures |bs| <= want && old(contents) == bs + contents
      ensures |bs| < want ==> contents == []
    {
      if contents == [] {
        return [], want == 0;
      }
      var n := if want < |contents| then want else |contents|;
      bs, ok := contents[..n], true;
      contents := contents[n..];
    }
  }

  lemma {:induction false} AfterAfter(a: seq<byte>, b: seq<byte>, rest: Option<seq<byte>>)
    ensures Prefixed([], rest) == rest
    ensures Prefixed(a, Prefixed(b, rest)) == Prefixed(a + b, rest)
  {
    if rest.Some? {
      assert a + (b + rest.value) == a + b + rest.value && [] + rest.value == rest.value;
    }
  }

  method WriteLen(tag: string, n: nat, buf: Buffer) returns (ok: bool)
    modifies buf
    ensures ok <==> EncodeLen(tag, n).Some?
    ensures ok ==> buf.contents == old(buf.contents) + EncodeLen(tag, n).value
  {
    if tag != "1" && tag != "2" {
      return false;
    }
    if tag == "1" {
      if n > 255 {
        return false;
      }
      buf.Write([n]);
    } else {
      if n > 65535 {
        return false;
      }
      buf.Write(LittleEndian(n, 2));
    }
    return true;
  }

  method WriteBlob(tag: string, bs: seq<byte>, buf: Buffer) returns (ok: bool)
    modifies buf
    ensures ok <==> EncodeBlob(tag, bs).Some?
    ensures ok ==> buf.contents == old(buf.contents) + EncodeBlob(tag, bs).value
  {
    ok := WriteLen(tag, |bs|, buf);
    if ok {
      buf.Write(bs);
    }
  }

  method WriteItems(tag: string, items: seq<seq<byte>>, buf: Buffer) returns (ok: bool)
    modifies buf
    ensures ok <==> EncodeItems(tag, items).Some?
    ensures ok ==> buf.contents == old(buf.contents) + EncodeItems(tag, items).value
  {
    ghost var start := buf.contents;
    ghost var done: seq<byte> := [];
    AfterAfter([], [], EncodeItems(tag, items));
    assert items[0..] == items;
    for i := 0 to |items|
      invariant buf.contents == start + done
      invariant EncodeItems(tag, items) == Prefixed(done, EncodeItems(tag, items[i..]))
    {
      ok := WriteBlob(tag, items[i], buf);
      assert items[i..][1..] == items[i + 1..];
      if !ok {
        return;
      }
      ghost var item := EncodeBlob(tag, items[i]).value;
      AfterAfter(done, item, EncodeItems(tag, items[i + 1..]));
      done := done + item;
    }
    assert done + [] == done;
    return true;
  }

  method WriteList(f: Field, items: seq<seq<byte>>, buf: Buffer) returns (ok: bool)
    modifies buf
    ensures ok <==> EncodeList(f, items).Some?
    ensures ok ==> buf.contents == old(buf.contents) + EncodeList(f, items).value
  {
    ok := WriteLen(f.arrayTag, |items|, buf);
    if ok {
      ok := WriteItems(f.lenTag, items, buf);
    }
  }

  method WriteField(f: Field, v: Value, buf: Buffer) returns (ok: bool)
    requires Inhabits(v, f)
    modifies buf
    ensures ok <==> EncodeField(f, v).Some?
    ensures ok ==> buf.contents == old(buf.contents) + EncodeField(f, v).value
  {
    match f.kind {
      case Uint(width) =>
        buf.Write(LittleEndian(v.n, width));
        ok := true;
      case Bool =>
        buf.Write([if v.b then 0xFF else 0x00]);
        ok := true;
      case Text => ok := WriteBlob(f.lenTag, v.bytes, buf);
      case ByteSlice => ok := WriteBlob(f.lenTag, v.bytes, buf);
      case TextSlice => ok := WriteList(f, v.items, buf);
      case BytesSlice => ok := WriteList(f, v.items, buf);
      case Unhandled => ok := false;
    }
  }

  /** The loop over the fields writes exactly the wire format, and fails exactly when it has none. */
  method Marshal(fs: seq<Field>, vs: seq<Value>) returns (bytes: Option<seq<byte>>)
    requires InhabitAll(vs, fs)
    ensures bytes == Encode(fs, vs)
  {
    var buf := new Buffer([]);
    AfterAfter([], [], Encode(fs, vs));
    assert fs[0..] == fs && vs[0..] == vs;
    for i := 0 to |fs|
      invariant Encode(fs, vs) == Prefixed(buf.contents, Encode(fs[i..], vs[i..]))
    {
      ghost var done := buf.contents;
      var ok := WriteField(fs[i], vs[i], buf);
      assert fs[i..][1..] == fs[i + 1..] && vs[i..][1..] == vs[i + 1..];
      if !ok {
        return None;
      }
      AfterAfter(done, EncodeField(fs[i], vs[i]).value, Encode(fs[i + 1..], vs[i + 1..]));
    }
    assert buf.contents + [] == buf.contents;
    return Some(buf.contents);
  }

  // ---------- reading ----------

  method ReadLen(tag: string, buf: Buffer) returns (n: Option<nat>)
    modifies buf
    ensures match DecodeLen(tag, old(buf.contents))
      case None => n.None?
      case Some(p) => n == Some(p.part) && buf.contents == p.rest
  {
    if tag != "1" && tag != "2" {
      return None;
    }
    n := buf.ReadNum(if tag == "1" then 1 else 2);
  }

  method ReadData(tag: string, buf: Buffer) returns (data: Option<seq<byte>>)
    modifies buf
    ensures match DecodeBlob(tag, old(buf.contents))
      case None => data.None?
      case Some(p) => data == Some(p.part) && buf.contents == p.rest
  {
    var n := ReadLen(tag, buf);
    if n.None? {
      return None;
    }
    var bs, ok := buf.Read(n.value);
    if !ok || |bs| != n.value {
      return None;
    }
    return Some(bs);
  }

  method ReadItems(tag: string, n: nat, buf: Buffer) returns (items: Option<seq<seq<byte>>>)
    modifies buf
    ensures match DecodeItems(tag, n, old(buf.contents))
      case None => items.None?
      case Some(p) => items == Some(p.part) && buf.contents == p.rest
  {
    ghost var start := buf.contents;
    var got := [];
    PrecededOnce([], [], DecodeItems(tag, n, start));
    for i := 0 to n
      invariant DecodeItems(tag, n, start) == PrecededBy(got, DecodeItems(tag, n - i, buf.contents))
    {
      ghost var from := buf.contents;
      var data := ReadData(tag, buf);
      if data.None? {
        return None;
      }
      PrecededOnce(got, data.value, DecodeItems(tag, n - i - 1, buf.contents));
      got := got + [data.value];
    }
    assert got + [] == got;
    return Some(got);
  }

  /** The list a field already holds, extended by the items read. */
  method ReadList(f: Field, before: seq<seq<byte>>, buf: Buffer) returns (items: Option<seq<seq<byte>>>)
    modifies buf
    ensures match DecodeList(f, old(buf.contents))
      case None => items.None?
      case Some(p) => items == Some(before + p.part) && buf.contents == p.rest
  {
    var n := ReadLen(f.arrayTag, buf);
    if n.None? {
      return None;
    }
    items := ReadItems(f.lenTag, n.value, buf);
    if items.Some? {
      items := Some(before + items.value);
    }
  }

  /** What a field holds after reading: lists are appended to, everything else is replaced. */
  function Fill(before: Value, read: Value): Value {
    if before.Blobs? && read.Blobs? then Blobs(before.items + read.items) else read
  }

  function FillAll(before: seq<Value>, read: seq<Value>): seq<Value>
    requires |before| == |read|
  {
    seq(|read|, i requires 0 <= i < |read| => Fill(before[i], read[i]))
  }

  lemma {:induction false} DecodeCountsFields(fs: seq<Field>, b: seq<byte>)
    ensures Decode(fs, b).Some? ==> |Decode(fs, b).value.part| == |fs|
    decreases |fs|
  {
    if fs != [] && DecodeField(fs[0], b).Some? {
      DecodeCountsFields(fs[1..], DecodeField(fs[0], b).value.rest);
    }
  }

  method ReadField(f: Field, before: Value, buf: Buffer) returns (v: Option<Value>)
    requires Inhabits(before, f)
    modifies buf
    ensures match DecodeField(f, old(buf.contents))
      case None => v.None?
      case Some(p) => v == Some(Fill(before, p.part)) && buf.contents == p.rest
  {
    ghost var from := buf.contents;
    match f.kind {
      case Uint(width) =>
        var n := buf.ReadNum(width);
        return if n.None? then None else Some(Num(n.value));
      case Bool =>
        var n := buf.ReadNum(1);
        assert n.Some? ==> n.value == FromLittleEndian(from[..1]) == from[0];
        return if n == Some(0xFF) then Some(Flag(true)) else if n == Some(0x00) then Some(Flag(false)) else None;
      case Text =>
        var data := ReadData(f.lenTag, buf);
        return if data.None? then None else Some(Blob(data.value));
      case ByteSlice =>
        var data := ReadData(f.lenTag, buf);
        return if data.None? then None else Some(Blob(data.value));
      case TextSlice =>
        var items := ReadList(f, before.items, buf);
        return if items.None? then None else Some(Blobs(items.value));
      case BytesSlice =>
        var items := ReadList(f, before.items, buf);
        return if items.None? then None else Some(Blobs(items.value));
      case Unhandled =>
        return None;
    }
  }

  /** The loop over the fields accepts exactly the decodable byte strings and leaves in the
      object what it read, on top of the lists that were already there. */
  method Unmarshal(bytes: seq<byte>, fs: seq<Field>, before: seq<Value>) returns (after: Option<seq<Value>>)
    requires InhabitAll(before, fs)
    ensures after.Some? <==> Decode(fs, bytes).Some?
    ensures after.Some? ==> |Decode(fs, bytes).value.part| == |fs|
    ensures after.Some? ==> after.value == FillAll(before, Decode(fs, bytes).value.part)
    ensures after.Some? ==> forall i :: 0 <= i < |fs| ==>
      after.value[i] == (var read := Decode(fs, bytes).value.part[i];
        if read.Blobs? && before[i].Blobs? then Blobs(before[i].items + read.items) else read)
  {
    var buf := new Buffer(bytes);
    var filled := [];
    ghost var read: seq<Value> := [];
    DecodeCountsFields(fs, bytes);
    PrecededOnce([], Opaque, Decode(fs, bytes));
    assert fs[0..] == fs;
    for i := 0 to |fs|
      invariant |read| == i && filled == FillAll(before[..i], read)
      invariant Decode(fs, bytes) == PrecededBy(read, Decode(fs[i..], buf.contents))
    {
      ghost var from := buf.contents;
      var v := ReadField(fs[i], before[i], buf);
      assert fs[i..][1..] == fs[i + 1..];
      if v.None? {
        return None;
      }
      ghost var got := DecodeField(fs[i], from).value;
      PrecededOnce(read, got.part, Decode(fs[i + 1..], got.rest));
      filled := filled + [v.value];
      read := read + [got.part];
    }
    assert read + [] == read && before[..|fs|] == before;
    return Some(filled);
  }

  /** Unmarshalling a marshalled struct, with any bytes after it, gives the struct back exactly
      when the lists of the target were empty wherever the struct has a list. */
  lemma {:induction false} RestoredIffListsWereEmpty(
    fs: seq<Field>, vs: seq<Value>, before: seq<Value>, tail: seq<byte>)
    requires InhabitAll(vs, fs) && InhabitAll(before, fs) && Encode(fs, vs).Some?
    ensures Decode(fs, Encode(fs, vs).value + tail) == Some(Parsed(vs, tail))
    ensures FillAll(before, vs) == vs <==> forall i :: 0 <= i < |fs| && before[i].Blobs? ==> before[i].items == []
  {
    RoundTrip(fs, vs, tail);
    if FillAll(before, vs) == vs {
      forall i | 0 <= i < |fs| && before[i].Blobs?
        ensures before[i].items == []
      {
        assert Inhabits(before[i], fs[i]) && Inhabits(vs[i], fs[i]);
        assert FillAll(before, vs)[i] == vs[i];
        assert |before[i].items + vs[i].items| == |vs[i].items|;
      }
    }
    if forall i :: 0 <= i < |fs| && before[i].Blobs? ==> before[i].items == [] {
      assert forall i :: 0 <= i < |fs| && before[i].Blobs? && vs[i].Blobs? ==>
        before[i].items + vs[i].items == vs[i].items;
      assert FillAll(before, vs) == vs;
    }
  }
}
