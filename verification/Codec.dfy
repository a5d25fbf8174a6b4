/** The schema-driven wire format: what `Marshal` writes and `Unmarshal` reads, as functions of
    a list of fields. A struct is a list of fields, each with the kind of its type and the two
    struct tags that say how lengths are written. */
module Codec {
  import opened Bytes

  /** The kinds the codec switches on; `Unhandled` is every other kind. */
  datatype Kind = Uint(width: nat) | Bool | Text | ByteSlice | TextSlice | BytesSlice | Unhandled

  datatype Field = Field(kind: Kind, lenTag: string, arrayTag: string)

  /** Strings and byte slices are byte strings; a slice of either is a list of byte strings. */
  datatype Value = Num(n: nat) | Flag(b: bool) | Blob(bytes: seq<byte>) | Blobs(items: seq<seq<byte>>) | Opaque

  const WORD_WIDTHS := {1, 2, 4, 8}

  /** The value inhabits the field's Go type. */
  predicate Inhabits(v: Value, f: Field) {
    match f.kind
    case Uint(width) => width in WORD_WIDTHS && v.Num? && v.n < Capacity(width)
    case Bool => v.Flag?
    case Text => v.Blob?
    case ByteSlice => v.Blob?
    case TextSlice => v.Blobs?
    case BytesSlice => v.Blobs?
    case Unhandled => v.Opaque?
  }

  predicate InhabitAll(vs: seq<Value>, fs: seq<Field>) {
    |vs| == |fs| && forall i :: 0 <= i < |fs| ==> Inhabits(vs[i], fs[i])
  }

  predicate WellKinded(fs: seq<Field>) {
    forall i :: 0 <= i < |fs| ==> fs[i].kind.Uint? ==> fs[i].kind.width in WORD_WIDTHS
  }

  // ---------- encoding ----------

  function EncodeLen(tag: string, n: nat): Option<seq<byte>> {
    if tag == "1" && n <= 255 then Some([n])
    else if tag == "2" && n <= 65535 then Some(LittleEndian(n, 2))
    else None
  }

  function EncodeBlob(tag: string, bs: seq<byte>): Option<seq<byte>> {
    match EncodeLen(tag, |bs|)
    case None => None
    case Some(head) => Some(head + bs)
  }

  /** `front` followed by what comes after it, if that exists. */
  function Prefixed(front: seq<byte>, rest: Option<seq<byte>>): Option<seq<byte>> {
    if rest.None? then None else Some(front + rest.value)
  }

  function EncodeItems(tag: string, items: seq<seq<byte>>): Option<seq<byte>> {
    if items == [] then Some([])
    else
      match EncodeBlob(tag, items[0])
      case None => None
      case Some(first) => Prefixed(first, EncodeItems(tag, items[1..]))
  }

  function EncodeField(f: Field, v: Value): Option<seq<byte>>
    requires Inhabits(v, f)
  {
    match f.kind
    case Uint(width) => Some(LittleEndian(v.n, width))
    case Bool => Some([if v.b then 0xFF else 0x00])
    case Text => EncodeBlob(f.lenTag, v.bytes)
    case ByteSlice => EncodeBlob(f.lenTag, v.bytes)
    case TextSlice => EncodeList(f, v.items)
    case BytesSlice => EncodeList(f, v.items)
    case Unhandled => None
  }

  function EncodeList(f: Field, items: seq<seq<byte>>): Option<seq<byte>> {
    match EncodeLen(f.arrayTag, |items|)
    case None => None
    case Some(head) => Prefixed(head, EncodeItems(f.lenTag, items))
  }

  function Encode(fs: seq<Field>, vs: seq<Value>): Option<seq<byte>>
    requires InhabitAll(vs, fs)
  {
    if fs == [] then Some([])
    else
      match EncodeField(fs[0], vs[0])
      case None => None
      case Some(first) => Prefixed(first, Encode(fs[1..], vs[1..]))
  }

  // ---------- decoding ----------

  /** A decoded part and the bytes left over. */
  datatype Parsed<+T> = Parsed(part: T, rest: seq<byte>)

  function DecodeNum(width: nat, b: seq<byte>): Option<Parsed<nat>> {
    if |b| < width then None else Some(Parsed(FromLittleEndian(b[..width]), b[width..]))
  }

  function DecodeLen(tag: string, b: seq<byte>): Option<Parsed<nat>> {
    if tag == "1" then DecodeNum(1, b) else if tag == "2" then DecodeNum(2, b) else None
  }

  function DecodeBlob(tag: string, b: seq<byte>): Option<Parsed<seq<byte>>> {
    match DecodeLen(tag, b)
    case None => None
    case Some(len) =>
      if |len.rest| < len.part then None else Some(Parsed(len.rest[..len.part], len.rest[len.part..]))
  }

  function DecodeItems(tag: string, n: nat, b: seq<byte>): Option<Parsed<seq<seq<byte>>>> {
    if n == 0 then Some(Parsed([], b))
    else
      match DecodeBlob(tag, b)
      case None => None
      case Some(first) => Preceded(first.part, DecodeItems(tag, n - 1, first.rest))
  }

  function Preceded<T>(first: T, tail: Option<Parsed<seq<T>>>): Option<Parsed<seq<T>>> {
    if tail.None? then None else Some(Parsed([first] + tail.value.part, tail.value.rest))
  }

  function PrecededBy<T>(front: seq<T>, tail: Option<Parsed<seq<T>>>): Option<Parsed<seq<T>>> {
    if tail.None? then None else Some(Parsed(front + tail.value.part, tail.value.rest))
  }

  lemma {:induction false} PrecededOnce<T>(front: seq<T>, x: T, tail: Option<Parsed<seq<T>>>)
    ensures PrecededBy([], tail) == tail
    ensures PrecededBy(front, Preceded(x, tail)) == PrecededBy(front + [x], tail)
  {
    if tail.Some? {
      var part := tail.value.part;
      assert front + ([x] + part) == front + [x] + part && [] + part == part;
    }
  }

  function DecodeList(f: Field, b: seq<byte>): Option<Parsed<seq<seq<byte>>>> {
    match DecodeLen(f.arrayTag, b)
    case None => None
    case Some(len) => DecodeItems(f.lenTag, len.part, len.rest)
  }

  function DecodeField(f: Field, b: seq<byte>): Option<Parsed<Value>> {
    match f.kind
    case Uint(width) => (
      match DecodeNum(width, b)
      case None => None
      case Some(p) => Some(Parsed(Num(p.part), p.rest)))
    case Bool =>
      if b == [] || b[0] !in {0x00, 0xFF} then None else Some(Parsed(Flag(b[0] == 0xFF), b[1..]))
    case Text => AsBlob(DecodeBlob(f.lenTag, b))
    case ByteSlice => AsBlob(DecodeBlob(f.lenTag, b))
    case TextSlice => AsBlobs(DecodeList(f, b))
    case BytesSlice => AsBlobs(DecodeList(f, b))
    case Unhandled => None
  }

  function AsBlob(p: Option<Parsed<seq<byte>>>): Option<Parsed<Value>> {
    if p.None? then None else Some(Parsed(Blob(p.value.part), p.value.rest))
  }

  function AsBlobs(p: Option<Parsed<seq<seq<byte>>>>): Option<Parsed<Value>> {
    if p.None? then None else Some(Parsed(Blobs(p.value.part), p.value.rest))
  }

  function Decode(fs: seq<Field>, b: seq<byte>): Option<Parsed<seq<Value>>> {
    if fs == [] then Some(Parsed([], b))
    else
      match DecodeField(fs[0], b)
      case None => None
      case Some(first) => Preceded(first.part, Decode(fs[1..], first.rest))
  }

  // ---------- decoding what was encoded ----------

  lemma {:induction false} NumRoundTrips(n: nat, width: nat, tail: seq<byte>)
    requires n < Capacity(width)
    ensures DecodeNum(width, LittleEndian(n, width) + tail) == Some(Parsed(n, tail))
  {
    var bs := LittleEndian(n, width);
    assert (bs + tail)[..width] == bs && (bs + tail)[width..] == tail;
    ReadsBack(n, width);
  }

  lemma {:induction false} LenRoundTrips(tag: string, n: nat, tail: seq<byte>)
    requires EncodeLen(tag, n).Some?
    ensures DecodeLen(tag, EncodeLen(tag, n).value + tail) == Some(Parsed(n, tail))
  {
    CapacityOfWords();
    if tag == "1" {
      assert LittleEndian(n, 1) == [n];
      NumRoundTrips(n, 1, tail);
    } else {
      NumRoundTrips(n, 2, tail);
    }
  }

  lemma {:induction false} BlobRoundTrips(tag: string, bs: seq<byte>, tail: seq<byte>)
    requires EncodeBlob(tag, bs).Some?
    ensures DecodeBlob(tag, EncodeBlob(tag, bs).value + tail) == Some(Parsed(bs, tail))
  {
    var head := EncodeLen(tag, |bs|).value;
    LenRoundTrips(tag, |bs|, bs + tail);
    assert head + bs + tail == head + (bs + tail);
    assert (bs + tail)[..|bs|] == bs && (bs + tail)[|bs|..] == tail;
  }

  lemma {:induction false} ItemsRoundTrip(tag: string, items: seq<seq<byte>>, tail: seq<byte>)
    requires EncodeItems(tag, items).Some?
    ensures DecodeItems(tag, |items|, EncodeItems(tag, items).value + tail) == Some(Parsed(items, tail))
    decreases |items|
  {
    if items == [] {
      assert [] + tail == tail;
    } else {
      var first, more := EncodeBlob(tag, items[0]).value, EncodeItems(tag, items[1..]).value;
      assert first + more + tail == first + (more + tail);
      BlobRoundTrips(tag, items[0], more + tail);
      ItemsRoundTrip(tag, items[1..], tail);
      assert [items[0]] + items[1..] == items;
    }
  }

  lemma {:induction false} ListRoundTrips(f: Field, items: seq<seq<byte>>, tail: seq<byte>)
    requires EncodeList(f, items).Some?
    ensures DecodeList(f, EncodeList(f, items).value + tail) == Some(Parsed(items, tail))
  {
    var head, more := EncodeLen(f.arrayTag, |items|).value, EncodeItems(f.lenTag, items).value;
    assert head + more + tail == head + (more + tail);
    LenRoundTrips(f.arrayTag, |items|, more + tail);
    ItemsRoundTrip(f.lenTag, items, tail);
  }

  lemma {:induction false} FieldRoundTrips(f: Field, v: Value, tail: seq<byte>)
    requires Inhabits(v, f) && EncodeField(f, v).Some?
    ensures DecodeField(f, EncodeField(f, v).value + tail) == Some(Parsed(v, tail))
  {
    match f.kind
    case Uint(width) => NumRoundTrips(v.n, width, tail);
    case Bool => assert ([if v.b then 0xFF else 0x00] + tail)[1..] == tail;
    case Text => BlobRoundTrips(f.lenTag, v.bytes, tail);
    case ByteSlice => BlobRoundTrips(f.lenTag, v.bytes, tail);
    case TextSlice => ListRoundTrips(f, v.items, tail);
    case BytesSlice => ListRoundTrips(f, v.items, tail);
  }

  /** Decoding an encoding followed by anything recovers the values and leaves the rest. */
  lemma {:induction false} RoundTrip(fs: seq<Field>, vs: seq<Value>, tail: seq<byte>)
    requires InhabitAll(vs, fs) && Encode(fs, vs).Some?
    ensures Decode(fs, Encode(fs, vs).value + tail) == Some(Parsed(vs, tail))
    decreases |fs|
  {
    if fs == [] {
      assert [] + tail == tail;
    } else {
      var first, more := EncodeField(fs[0], vs[0]).value, Encode(fs[1..], vs[1..]).value;
      assert first + more + tail == first + (more + tail);
      FieldRoundTrips(fs[0], vs[0], more + tail);
      RoundTrip(fs[1..], vs[1..], tail);
      assert [vs[0]] + vs[1..] == vs;
    }
  }

  // ---------- encoding what was decoded ----------

  lemma {:induction false} NumCanonical(width: nat, b: seq<byte>)
    requires DecodeNum(width, b).Some?
    ensures var p := DecodeNum(width, b).value;
      p.part < Capacity(width) && b == LittleEndian(p.part, width) + p.rest
  {
    WritesBack(b[..width]);
  }

  lemma {:induction false} LenCanonical(tag: string, b: seq<byte>)
    requires DecodeLen(tag, b).Some?
    ensures var p := DecodeLen(tag, b).value;
      EncodeLen(tag, p.part).Some? && b == EncodeLen(tag, p.part).value + p.rest
  {
    CapacityOfWords();
    NumCanonical(if tag == "1" then 1 else 2, b);
    var n := DecodeLen(tag, b).value.part;
    assert tag == "1" ==> LittleEndian(n, 1) == [n];
  }

  lemma {:induction false} BlobCanonical(tag: string, b: seq<byte>)
    requires DecodeBlob(tag, b).Some?
    ensures var p := DecodeBlob(tag, b).value;
      EncodeBlob(tag, p.part).Some? && b == EncodeBlob(tag, p.part).value + p.rest
  {
    LenCanonical(tag, b);
  }

  lemma {:induction false} OneMoreItem(tag: string, item: seq<byte>, items: seq<seq<byte>>, rest: seq<byte>)
    requires EncodeBlob(tag, item).Some? && EncodeItems(tag, items).Some?
    ensures EncodeItems(tag, [item] + items).Some?
    ensures EncodeBlob(tag, item).value + (EncodeItems(tag, items).value + rest)
         == EncodeItems(tag, [item] + items).value + rest
  {
    assert ([item] + items)[1..] == items;
  }

  lemma {:induction false} ItemsCanonical(tag: string, n: nat, b: seq<byte>)
    requires DecodeItems(tag, n, b).Some?
    ensures var p := DecodeItems(tag, n, b).value;
      |p.part| == n && EncodeItems(tag, p.part).Some? && b == EncodeItems(tag, p.part).value + p.rest
    decreases n
  {
    if n > 0 {
      BlobCanonical(tag, b);
      var first := DecodeBlob(tag, b).value;
      ItemsCanonical(tag, n - 1, first.rest);
      var more := DecodeItems(tag, n - 1, first.rest).value;
      OneMoreItem(tag, first.part, more.part, more.rest);
    }
  }

  lemma {:induction false} ListCanonical(f: Field, b: seq<byte>)
    requires DecodeList(f, b).Some?
    ensures var p := DecodeList(f, b).value;
      EncodeList(f, p.part).Some? && b == EncodeList(f, p.part).value + p.rest
  {
    LenCanonical(f.arrayTag, b);
    var len := DecodeLen(f.arrayTag, b).value;
    ItemsCanonical(f.lenTag, len.part, len.rest);
  }

  lemma {:induction false} FieldCanonical(f: Field, b: seq<byte>)
    requires f.kind.Uint? ==> f.kind.width in WORD_WIDTHS
    requires DecodeField(f, b).Some?
    ensures var p := DecodeField(f, b).value;
      Inhabits(p.part, f) && EncodeField(f, p.part).Some? && b == EncodeField(f, p.part).value + p.rest
  {
    match f.kind
    case Uint(width) => NumCanonical(width, b);
    case Bool =>
    case Text => BlobCanonical(f.lenTag, b);
    case ByteSlice => BlobCanonical(f.lenTag, b);
    case TextSlice => ListCanonical(f, b);
    case BytesSlice => ListCanonical(f, b);
  }

  /** Whatever bytes are accepted are the one encoding of what was read, plus a rest. */
  lemma {:induction false} Canonical(fs: seq<Field>, b: seq<byte>)
    requires WellKinded(fs) && Decode(fs, b).Some?
    ensures var p := Decode(fs, b).value;
      InhabitAll(p.part, fs) && Encode(fs, p.part).Some? && b == Encode(fs, p.part).value + p.rest
    decreases |fs|
  {
    if fs != [] {
      FieldCanonical(fs[0], b);
      var first := DecodeField(fs[0], b).value;
      Canonical(fs[1..], first.rest);
      var vs := Decode(fs, b).value.part;
      assert vs[1..] == Decode(fs[1..], first.rest).value.part;
    }
  }

  /** Two encodings that start the same bytes are of the same values. */
  lemma {:induction false} Unambiguous(fs: seq<Field>, vs: seq<Value>, tail: seq<byte>, us: seq<Value>, rest: seq<byte>)
    requires InhabitAll(vs, fs) && InhabitAll(us, fs)
    requires Encode(fs, vs).Some? && Encode(fs, us).Some?
    requires Encode(fs, vs).value + tail == Encode(fs, us).value + rest
    ensures vs == us && tail == rest
  {
    RoundTrip(fs, vs, tail);
    RoundTrip(fs, us, rest);
  }

  lemma {:induction false} Rejoined(bs: seq<byte>, k: nat, start: seq<byte>, rest: seq<byte>)
    requires k <= |bs| && bs[..k] == start + rest
    ensures bs + [] == start + (rest + bs[k..])
  {
    assert bs == bs[..k] + bs[k..];
    assert start + rest + bs[k..] == start + (rest + bs[k..]);
  }

  /** If the first `k` bytes of an encoding start with an encoding, `k` is the whole length. */
  lemma {:induction false} PrefixIsWhole(fs: seq<Field>, vs: seq<Value>, k: nat, us: seq<Value>, rest: seq<byte>)
    requires InhabitAll(vs, fs) && InhabitAll(us, fs) && Encode(fs, vs).Some? && Encode(fs, us).Some?
    requires k <= |Encode(fs, vs).value| && Encode(fs, vs).value[..k] == Encode(fs, us).value + rest
    ensures k == |Encode(fs, vs).value|
  {
    var bs, start := Encode(fs, vs).value, Encode(fs, us).value;
    var tail := rest + bs[k..];
    Rejoined(bs, k, start, rest);
    Unambiguous(fs, vs, [], us, tail);
    assert tail == [];
  }

  lemma {:induction false} InhabitedIsWellKinded(fs: seq<Field>, vs: seq<Value>)
    requires InhabitAll(vs, fs)
    ensures WellKinded(fs)
  {
    assert forall i :: 0 <= i < |fs| ==> Inhabits(vs[i], fs[i]);
  }

  /** No strict prefix of an encoding is accepted. */
  lemma {:induction false} PrefixFree(fs: seq<Field>, vs: seq<Value>, k: nat)
    requires InhabitAll(vs, fs) && Encode(fs, vs).Some? && k < |Encode(fs, vs).value|
    ensures Decode(fs, Encode(fs, vs).value[..k]).None?
  {
    var b := Encode(fs, vs).value[..k];
    InhabitedIsWellKinded(fs, vs);
    if Decode(fs, b).Some? {
      Canonical(fs, b);
      PrefixIsWhole(fs, vs, k, Decode(fs, b).value.part, Decode(fs, b).value.rest);
    }
  }

  // ---------- when encoding succeeds ----------

  predicate LenFits(tag: string, n: nat) {
    (tag == "1" && n <= 255) || (tag == "2" && n <= 65535)
  }

  /** The tags the field needs are valid and every length fits. The tag of the items of an
      empty list is not looked at. */
  predicate FieldFits(f: Field, v: Value)
    requires Inhabits(v, f)
  {
    match f.kind
    case Uint(_) => true
    case Bool => true
    case Text => LenFits(f.lenTag, |v.bytes|)
    case ByteSlice => LenFits(f.lenTag, |v.bytes|)
    case TextSlice => ListFits(f, v.items)
    case BytesSlice => ListFits(f, v.items)
    case Unhandled => false
  }

  predicate ListFits(f: Field, items: seq<seq<byte>>) {
    LenFits(f.arrayTag, |items|) && forall i :: 0 <= i < |items| ==> LenFits(f.lenTag, |items[i]|)
  }

  lemma {:induction false} ItemsEncodeIffFit(tag: string, items: seq<seq<byte>>)
    ensures EncodeItems(tag, items).Some? <==> forall i :: 0 <= i < |items| ==> LenFits(tag, |items[i]|)
    decreases |items|
  {
    if items != [] {
      var rest := items[1..];
      ItemsEncodeIffFit(tag, rest);
      assert forall i :: 0 < i < |items| ==> items[i] == rest[i - 1];
    }
  }

  /** Encoding succeeds exactly when every field has the tags it needs and its lengths fit. */
  lemma {:induction false} EncodesIffFits(fs: seq<Field>, vs: seq<Value>)
    requires InhabitAll(vs, fs)
    ensures Encode(fs, vs).Some? <==> forall i :: 0 <= i < |fs| ==> FieldFits(fs[i], vs[i])
    decreases |fs|
  {
    if fs != [] {
      var f, v := fs[0], vs[0];
      assert EncodeField(f, v).Some? <==> FieldFits(f, v) by {
        if v.Blobs? { ItemsEncodeIffFit(f.lenTag, v.items); }
      }
      var fs', vs' := fs[1..], vs[1..];
      EncodesIffFits(fs', vs');
      assert forall i :: 0 < i < |fs| ==> fs[i] == fs'[i - 1] && vs[i] == vs'[i - 1];
    }
  }
}
