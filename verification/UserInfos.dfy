/** What the server tells of a user and what the client makes of it: a number shrinks on the way. */
module UserInfos {
  import opened Bytes
  import opened Codec

  datatype UserInfo = UserInfo(username: seq<byte>, wins: nat, ties: nat, losses: nat, matches: nat, duration: nat)

  /** The client reads the duration in four bytes. */
  function TakeUserInfo(b: seq<byte>): Option<UserInfo> {
    var username :- DecodeBlob("1", b);
    var wins :- DecodeNum(4, username.rest);
    var ties :- DecodeNum(4, wins.rest);
    var losses :- DecodeNum(4, ties.rest);
    var matches :- DecodeNum(4, losses.rest);
    var duration :- DecodeNum(4, matches.rest);
    Some(UserInfo(username.part, wins.part, ties.part, losses.part, matches.part, duration.part))
  }

  function Number(n: nat): seq<byte> {
    LittleEndian(n, 4)
  }

  function LongNumber(n: nat): seq<byte> {
    LittleEndian(n, 8)
  }

  function PutUserInfo(i: UserInfo): seq<byte>
    requires |i.username| <= 255
  {
    [|i.username|] + i.username + Number(i.wins) + Number(i.ties) + Number(i.losses) + Number(i.matches)
    + LongNumber(i.duration)
  }

  lemma {:induction false} ModIsUnique(x: nat, m: nat, q: int, r: nat)
    requires x == m * q + r && r < m
    ensures x % m == r
  {
    assert m * (q - x / m) == x % m - r;
    AtLeastOnce(m, q - x / m);
  }

  lemma {:induction false} AtLeastOnce(m: nat, d: int)
    ensures d >= 1 ==> m * d >= m
    ensures d <= -1 ==> m * d + m <= 0
  {
  }

  lemma {:induction false} ReadsLowBytes(n: nat, width: nat)
    ensures FromLittleEndian(LittleEndian(n, width)) == n % Capacity(width)
    decreases width
  {
    if width > 0 {
      ReadsLowBytes(n / 256, width - 1);
      assert LittleEndian(n, width)[1..] == LittleEndian(n / 256, width - 1);
      OneDigitMore(n, Capacity(width - 1));
    }
  }

  lemma {:induction false} OneDigitMore(n: nat, m: nat)
    requires m > 0
    ensures n % (256 * m) == n % 256 + 256 * (n / 256 % m)
  {
    var q, r := n / 256 / m, n / 256 % m;
    Regroup(256, m, q);
    ModIsUnique(n, 256 * m, q, 256 * r + n % 256);
  }

  lemma {:induction false} Regroup(a: nat, m: nat, q: nat)
    ensures a * (m * q) == a * m * q
  {
  }

  lemma {:induction false} LowBytesFirst(n: nat, k: nat, width: nat)
    requires k <= width
    ensures LittleEndian(n, width)[..k] == LittleEndian(n, k)
    decreases k
  {
    if k > 0 {
      LowBytesFirst(n / 256, k - 1, width - 1);
    }
  }

  /** These bytes read as a four-byte number, whatever follows. */
  ghost predicate ReadsAs(word: seq<byte>, n: nat) {
    forall tail :: DecodeNum(4, word + tail) == Some(Parsed(n, tail))
  }

  lemma {:induction false} NumberReads(n: nat)
    requires n < 0x1_0000_0000
    ensures ReadsAs(Number(n), n)
  {
    CapacityOfWords();
    forall tail: seq<byte>
      ensures DecodeNum(4, Number(n) + tail) == Some(Parsed(n, tail))
    {
      NumRoundTrips(n, 4, tail);
    }
  }

  lemma {:induction false} DurationReads(n: nat)
    ensures DecodeNum(4, LongNumber(n)).Some?
    ensures DecodeNum(4, LongNumber(n)).value.part == n % 0x1_0000_0000
  {
    CapacityOfWords();
    LowBytesFirst(n, 4, 8);
    ReadsLowBytes(n, 4);
  }

  function Shortened(i: UserInfo): UserInfo {
    i.(duration := i.duration % 0x1_0000_0000)
  }

  lemma {:induction false} ShortenedIff(i: UserInfo)
    ensures Shortened(i) == i <==> i.duration < 0x1_0000_0000
  {
  }

  /** The server writes a user's game time in eight bytes and the client reads four of them, so
      the client is told the right time exactly when it is below 2 to the 32; all else is right. */
  lemma {:induction false} UserInfoArrivesIff(i: UserInfo)
    requires |i.username| <= 255 && i.duration < Capacity(8)
    requires i.wins < 0x1_0000_0000 && i.ties < 0x1_0000_0000 && i.losses < 0x1_0000_0000 && i.matches < 0x1_0000_0000
    ensures TakeUserInfo(PutUserInfo(i)) == Some(i.(duration := i.duration % 0x1_0000_0000))
    ensures TakeUserInfo(PutUserInfo(i)) == Some(i) <==> i.duration < 0x1_0000_0000
  {
    UserInfoArrives(i);
    ShortenedIff(i);
  }

  lemma {:induction false} UserInfoArrives(i: UserInfo)
    requires |i.username| <= 255 && i.duration < Capacity(8)
    requires i.wins < 0x1_0000_0000 && i.ties < 0x1_0000_0000 && i.losses < 0x1_0000_0000 && i.matches < 0x1_0000_0000
    ensures TakeUserInfo(PutUserInfo(i)) == Some(Shortened(i))
  {
    NumberReads(i.wins);
    NumberReads(i.ties);
    NumberReads(i.losses);
    NumberReads(i.matches);
    DurationReads(i.duration);
    UserInfoPieces(i, Number(i.wins), Number(i.ties), Number(i.losses), Number(i.matches), LongNumber(i.duration));
  }

  lemma {:induction false} UserInfoPieces(
    i: UserInfo, wins: seq<byte>, ties: seq<byte>, losses: seq<byte>, matches: seq<byte>, duration: seq<byte>)
    requires |i.username| <= 255
    requires ReadsAs(wins, i.wins) && ReadsAs(ties, i.ties) && ReadsAs(losses, i.losses) && ReadsAs(matches, i.matches)
    requires DecodeNum(4, duration).Some?
    ensures TakeUserInfo([|i.username|] + i.username + wins + ties + losses + matches + duration)
         == Some(i.(duration := DecodeNum(4, duration).value.part))
  {
    var name := EncodeBlob("1", i.username).value;
    FrontFirst(name, wins, ties, losses, matches, duration);
    BlobRoundTrips("1", i.username, wins + (ties + (losses + (matches + duration))));
  }

  lemma {:induction false} FrontFirst(
    a: seq<byte>, b: seq<byte>, c: seq<byte>, d: seq<byte>, e: seq<byte>, f: seq<byte>)
    ensures a + b + c + d + e + f == a + (b + (c + (d + (e + f))))
  {
    assert a + b + c + d + e + f == a + b + c + d + (e + f);
    assert a + b + c + d + (e + f) == a + b + c + (d + (e + f));
    assert a + b + c + (d + (e + f)) == a + b + (c + (d + (e + f)));
    assert a + b + (c + (d + (e + f))) == a + (b + (c + (d + (e + f))));
  }
}
